/**
 * Password generation and strength scoring (src/utils/passwordUtils.ts).
 */
module PasswordUtils {

  const Lowercase := "abcdefghijklmnopqrstuvwxyz"
  const Uppercase := "ABCDEFGHIJKLMNOPQRSTUVWXYZ"
  const Digits := "0123456789"
  const Specials := "!@#$%^&*()_+~`|}{[]:;?><,./-="
  /** The fallback pool when no character class is selected. */
  const Alphanumeric := "abcdefghijklmnopqrstuvwxyzABCDEFGHIJKLMNOPQRSTUVWXYZ0123456789"

  // ---------------------------------------------------------------------------
  // Generation

  /**
   * The pool generatePassword draws from: the selected classes, concatenated lower, upper,
   * digits, specials; the 62 alphanumerics when none is selected. It is never empty.
   */
  function CharacterPool(upper: bool, lower: bool, numbers: bool, special: bool): (pool: string)
    ensures |pool| > 0
    ensures !upper && !lower && !numbers && !special ==> pool == Alphanumeric && |pool| == 62
  {
    var withLower := if lower then Lowercase else "";
    var withUpper := if upper then withLower + Uppercase else withLower;
    var withDigits := if numbers then withUpper + Digits else withUpper;
    var withSpecials := if special then withDigits + Specials else withDigits;
    if |withSpecials| == 0 then Alphanumeric else withSpecials
  }

  /** With some class selected, the pool holds exactly the characters of the selected classes. */
  lemma PoolHoldsSelectedClasses(upper: bool, lower: bool, numbers: bool, special: bool, ch: char)
    requires upper || lower || numbers || special
    ensures ch in CharacterPool(upper, lower, numbers, special) <==>
              (lower && ch in Lowercase) || (upper && ch in Uppercase) || (numbers && ch in Digits) || (special && ch in Specials)
  {
  }

  /** The pool construction of generatePassword: the `chars +=` steps and the empty fallback. */
  method BuildPool(upper: bool, lower: bool, numbers: bool, special: bool) returns (chars: string)
    ensures chars == CharacterPool(upper, lower, numbers, special)
  {
    chars := "";
    if lower { chars := chars + Lowercase; }
    assert chars == if lower then Lowercase else "";
    if upper { chars := chars + Uppercase; }
    if numbers { chars := chars + Digits; }
    if special { chars := chars + Specials; }
    if |chars| == 0 {
      chars := Alphanumeric;
    }
  }

  /**
   * generatePassword: `length` draws from the pool (none when `length <= 0`). `random(i, n)`
   * stands for Math.floor(Math.random() * n) at iteration i and lies in [0, n).
   */
  method GeneratePassword(length: int, upper: bool, lower: bool, numbers: bool, special: bool,
                          random: (nat, nat) -> nat) returns (password: string)
    requires forall i, n :: 0 < n ==> random(i, n) < n
    ensures |password| == if length > 0 then length else 0
    ensures forall i :: 0 <= i < |password| ==>
              password[i] == CharacterPool(upper, lower, numbers, special)[random(i, |CharacterPool(upper, lower, numbers, special)|)]
    ensures forall i :: 0 <= i < |password| ==> password[i] in CharacterPool(upper, lower, numbers, special)
  {
    var chars := BuildPool(upper, lower, numbers, special);
    password := "";
    var i := 0;
    while i < length
      invariant 0 <= i
      invariant i <= length || i == 0
      invariant |password| == i
      invariant forall k :: 0 <= k < i ==> password[k] == chars[random(k, |chars|)]
    {
      var randomIndex := random(i, |chars|);
      password := password + [chars[randomIndex]];
      i := i + 1;
    }
  }

  // ---------------------------------------------------------------------------
  // Strength

  predicate IsUpper(ch: char) { 'A' <= ch <= 'Z' }
  predicate IsLower(ch: char) { 'a' <= ch <= 'z' }
  predicate IsDigit(ch: char) { '0' <= ch <= '9' }

  /** /[A-Z]/.test */
  predicate HasUpper(s: string) { exists i :: 0 <= i < |s| && IsUpper(s[i]) }
  /** /[a-z]/.test */
  predicate HasLower(s: string) { exists i :: 0 <= i < |s| && IsLower(s[i]) }
  /** /[0-9]/.test */
  predicate HasDigit(s: string) { exists i :: 0 <= i < |s| && IsDigit(s[i]) }
  /** /[^A-Za-z0-9]/.test */
  predicate HasSpecial(s: string) { exists i :: 0 <= i < |s| && !IsUpper(s[i]) && !IsLower(s[i]) && !IsDigit(s[i]) }

  const TooShort := "Password is too short."
  const AddUppercase := "Add uppercase letters."
  const AddLowercase := "Add lowercase letters."
  const AddNumbers := "Add numbers."
  const AddSpecial := "Add special characters."

  /** The points the length check gives. */
  function LengthPoints(n: nat): nat
  {
    if n < 8 then 0 else if n >= 12 then 2 else 1
  }

  function Point(b: bool): nat { if b then 1 else 0 }

  /** The number of the four character classes the password contains. */
  function ClassPoints(s: string): nat
  {
    Point(HasUpper(s)) + Point(HasLower(s)) + Point(HasDigit(s)) + Point(HasSpecial(s))
  }

  /** The score before the cap. */
  function RawScore(s: string): nat
  {
    LengthPoints(|s|) + ClassPoints(s)
  }

  /** The feedback items, one per failed check, in the order of the checks. */
  function Failures(s: string): (failures: seq<string>)
    ensures |failures| <= 5
    ensures forall m :: m in failures ==> m in [TooShort, AddUppercase, AddLowercase, AddNumbers, AddSpecial]
    ensures failures == [] <==> |s| >= 8 && HasUpper(s) && HasLower(s) && HasDigit(s) && HasSpecial(s)
  {
    (if |s| < 8 then [TooShort] else [])
    + (if HasUpper(s) then [] else [AddUppercase])
    + (if HasLower(s) then [] else [AddLowercase])
    + (if HasDigit(s) then [] else [AddNumbers])
    + (if HasSpecial(s) then [] else [AddSpecial])
  }

  /** The label of a final score. */
  function Label(score: int): (text: string)
    ensures text in ["Very weak", "Weak", "Fair", "Strong", "Very strong"]
    ensures text == "Very weak" <==> score <= 1
    ensures text == "Very strong" <==> score >= 5
    ensures text == "Weak" <==> score == 2
    ensures text == "Fair" <==> score == 3
    ensures text == "Strong" <==> score == 4
  {
    if score <= 1 then "Very weak"
    else if score == 2 then "Weak"
    else if score == 3 then "Fair"
    else if score == 4 then "Strong"
    else "Very strong"
  }

  /** The total length of the items. */
  function TotalLength(items: seq<string>): nat
  {
    if |items| == 0 then 0 else |items[0]| + TotalLength(items[1..])
  }

  /**
   * Array.prototype.join: the items in order with the separator between neighbours, so the
   * result starts with the first item and holds every item's characters plus one separator
   * per gap.
   */
  function Join(items: seq<string>, separator: string): (joined: string)
    ensures |items| == 0 ==> joined == ""
    ensures |items| > 0 ==> |items[0]| <= |joined| && joined[..|items[0]|] == items[0]
    ensures |items| > 0 ==> |joined| + |separator| == TotalLength(items) + |items| * |separator|
  {
    if |items| == 0 then ""
    else if |items| == 1 then items[0]
    else items[0] + separator + Join(items[1..], separator)
  }

  /** Appending an item appends the separator and that item: the items follow in order, one separator per gap. */
  lemma {:induction false} JoinAppend(items: seq<string>, x: string, separator: string)
    requires |items| > 0
    ensures Join(items + [x], separator) == Join(items, separator) + separator + x
  {
    if |items| > 1 {
      assert (items + [x])[1..] == items[1..] + [x];
      JoinAppend(items[1..], x, separator);
    }
  }

  /** The label, followed by ": " and the space-joined feedback when some check failed. */
  function Message(score: int, failures: seq<string>): (message: string)
    ensures |Label(score)| <= |message| && message[..|Label(score)|] == Label(score)
    ensures failures == [] ==> message == Label(score)
    ensures failures != [] ==>
              |message| == |Label(score)| + 2 + |Join(failures, " ")|
              && message[|Label(score)|..|Label(score)| + 2] == ": "
              && message[|Label(score)| + 2..] == Join(failures, " ")
  {
    Label(score) + (if |failures| > 0 then ": " + Join(failures, " ") else "")
  }

  /**
   * evaluatePasswordStrength (without a translator): the capped score and its message.
   */
  method EvaluatePasswordStrength(password: string) returns (score: int, feedback: string)
    ensures 0 <= score <= 5
    ensures score == if RawScore(password) < 5 then RawScore(password) else 5
    ensures feedback == Message(score, Failures(password))
  {
    var points := 0;
    var items: seq<string> := [];

    if |password| < 8 {
      items := items + [TooShort];
    } else if |password| >= 12 {
      points := points + 2;
    } else {
      points := points + 1;
    }

    assert items == (if |password| < 8 then [TooShort] else []);

    if HasUpper(password) { points := points + 1; } else { items := items + [AddUppercase]; }
    assert items == (if |password| < 8 then [TooShort] else []) + (if HasUpper(password) then [] else [AddUppercase]);
    if HasLower(password) { points := points + 1; } else { items := items + [AddLowercase]; }
    assert items == (if |password| < 8 then [TooShort] else []) + (if HasUpper(password) then [] else [AddUppercase])
                    + (if HasLower(password) then [] else [AddLowercase]);
    if HasDigit(password) { points := points + 1; } else { items := items + [AddNumbers]; }
    assert items == (if |password| < 8 then [TooShort] else []) + (if HasUpper(password) then [] else [AddUppercase])
                    + (if HasLower(password) then [] else [AddLowercase]) + (if HasDigit(password) then [] else [AddNumbers]);
    if HasSpecial(password) { points := points + 1; } else { items := items + [AddSpecial]; }
    assert items == Failures(password);
    assert points == RawScore(password);

    score := if points < 5 then points else 5;

    var finalFeedback: string;
    if score <= 1 {
      finalFeedback := "Very weak";
    } else if score == 2 {
      finalFeedback := "Weak";
    } else if score == 3 {
      finalFeedback := "Fair";
    } else if score == 4 {
      finalFeedback := "Strong";
    } else {
      finalFeedback := "Very strong";
    }
    assert finalFeedback == Label(score);

    if |items| > 0 {
      finalFeedback := finalFeedback + (": " + Join(items, " "));
    }
    feedback := finalFeedback;
  }

  // ---------------------------------------------------------------------------
  // Properties of the scoring rule

  /** The raw score is at most 6, and 6 is reached, which is why the cap at 5 exists. */
  lemma RawScoreReachesSix(s: string)
    ensures RawScore(s) <= 6
    ensures RawScore("Aa1!Aa1!Aa1!") == 6
  {
    var w := "Aa1!Aa1!Aa1!";
    assert IsUpper(w[0]) && IsLower(w[1]) && IsDigit(w[2]);
    assert !IsUpper(w[3]) && !IsLower(w[3]) && !IsDigit(w[3]);
  }

  /**
   * Each of the length check and the four class checks either scores or adds exactly one
   * feedback item, never both.
   */
  lemma EachCheckScoresOrComplains(s: string)
    ensures (|s| < 8) <==> TooShort in Failures(s)
    ensures (|s| < 8) <==> LengthPoints(|s|) == 0
    ensures HasUpper(s) <==> AddUppercase !in Failures(s)
    ensures HasLower(s) <==> AddLowercase !in Failures(s)
    ensures HasDigit(s) <==> AddNumbers !in Failures(s)
    ensures HasSpecial(s) <==> AddSpecial !in Failures(s)
    ensures |Failures(s)| + ClassPoints(s) == 4 + Point(|s| < 8)
  {
    var f := Failures(s);
    var lengthPart := if |s| < 8 then [TooShort] else [];
    var upperPart := if HasUpper(s) then [] else [AddUppercase];
    var lowerPart := if HasLower(s) then [] else [AddLowercase];
    var digitPart := if HasDigit(s) then [] else [AddNumbers];
    var specialPart := if HasSpecial(s) then [] else [AddSpecial];
    assert f == lengthPart + upperPart + lowerPart + digitPart + specialPart;
    forall m | m in f
      ensures m in lengthPart || m in upperPart || m in lowerPart || m in digitPart || m in specialPart
    {
    }
  }

  /** The message carries a feedback suffix exactly when some check failed. */
  lemma SuffixIffSomeCheckFailed(score: int, failures: seq<string>)
    ensures Message(score, failures) == Label(score) <==> failures == []
  {
    if failures != [] {
      assert |Message(score, failures)| > |Label(score)|;
    }
  }

  /** A password of length at least 8 with all four classes scores 5, "Very strong", no suffix. */
  lemma AllClassesVeryStrong(s: string)
    requires |s| >= 8 && HasUpper(s) && HasLower(s) && HasDigit(s) && HasSpecial(s)
    ensures (if RawScore(s) < 5 then RawScore(s) else 5) == 5
    ensures Failures(s) == []
    ensures Message(5, Failures(s)) == "Very strong"
  {
  }
}
