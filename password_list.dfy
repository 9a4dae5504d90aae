/**
 * The search box and category filter of the entry list (src/src/components/PasswordList.tsx).
 * `uncategorized` is the translated "uncategorized" label, passed in.
 */
module PasswordList {

  import opened Wrappers
  import opened Entries

  // ---------------------------------------------------------------------------
  // Text helpers

  /** ASCII lower-casing of one character. */
  function LowerChar(ch: char): (r: char)
    ensures 'A' <= ch <= 'Z' ==> r as int == ch as int + 32 && 'a' <= r <= 'z'
    ensures !('A' <= ch <= 'Z') ==> r == ch
  {
    if 'A' <= ch <= 'Z' then (ch as int - 'A' as int + 'a' as int) as char else ch
  }

  /** toLowerCase, restricted to ASCII letters. */
  function Lower(s: string): (r: string)
    ensures |r| == |s|
    ensures forall i :: 0 <= i < |s| ==> r[i] == LowerChar(s[i])
  {
    if |s| == 0 then "" else [LowerChar(s[0])] + Lower(s[1..])
  }

  /** Lower-casing twice is lower-casing once. */
  lemma LowerIdempotent(s: string)
    ensures Lower(Lower(s)) == Lower(s)
  {
  }

  /** `needle` occurs in `haystack` starting at position `i`. */
  predicate OccursAt(haystack: string, needle: string, i: int)
  {
    0 <= i <= |haystack| - |needle| && haystack[i..i + |needle|] == needle
  }

  /** The substring relation String.prototype.includes decides. */
  ghost predicate Occurs(haystack: string, needle: string)
  {
    exists i :: OccursAt(haystack, needle, i)
  }

  /** When the needle is not a prefix, it occurs exactly when it occurs in the tail. */
  lemma {:induction false} OccursInTail(haystack: string, needle: string)
    requires |needle| <= |haystack| && haystack[..|needle|] != needle
    ensures Occurs(haystack, needle) <==> Occurs(haystack[1..], needle)
  {
    var tail := haystack[1..];
    forall i | OccursAt(tail, needle, i) ensures OccursAt(haystack, needle, i + 1) {
      assert haystack[i + 1..i + 1 + |needle|] == tail[i..i + |needle|];
    }
    forall i | OccursAt(haystack, needle, i) ensures OccursAt(tail, needle, i - 1) {
      assert haystack[0..|needle|] == haystack[..|needle|];
      assert tail[i - 1..i - 1 + |needle|] == haystack[i..i + |needle|];
    }
  }

  /** String.prototype.includes, trying each start position in turn. */
  function Includes(haystack: string, needle: string): (found: bool)
    ensures found <==> Occurs(haystack, needle)
    decreases |haystack|
  {
    if |needle| > |haystack| then false
    else if haystack[..|needle|] == needle then
      assert OccursAt(haystack, needle, 0);
      true
    else
      OccursInTail(haystack, needle);
      Includes(haystack[1..], needle)
  }

  // ---------------------------------------------------------------------------
  // Categories

  /** `entry.category || uncategorized`: a missing or empty category reads as the label. */
  function CategoryOf(e: Entry, uncategorized: string): (category: string)
    ensures Truthy(e.category) ==> category == e.category.value && category != ""
    ensures !Truthy(e.category) ==> category == uncategorized
  {
    if Truthy(e.category) then e.category.value else uncategorized
  }

  /** entries.map(CategoryOf). */
  function CategoryList(entries: seq<Entry>, uncategorized: string): (r: seq<string>)
    ensures |r| == |entries|
    ensures forall i :: 0 <= i < |entries| ==> r[i] == CategoryOf(entries[i], uncategorized)
  {
    if |entries| == 0 then [] else [CategoryOf(entries[0], uncategorized)] + CategoryList(entries[1..], uncategorized)
  }

  /** The position of the first occurrence of `x` in `s`. */
  function FirstIndex<T(==)>(s: seq<T>, x: T): (k: nat)
    requires x in s
    ensures k < |s| && s[k] == x && x !in s[..k]
  {
    if s[0] == x then 0 else 1 + FirstIndex(s[1..], x)
  }

  /** The first occurrence is the only position holding x with no x before it. */
  lemma FirstIndexUnique<T>(s: seq<T>, x: T, k: nat)
    requires k < |s| && s[k] == x && x !in s[..k]
    ensures FirstIndex(s, x) == k
  {
  }

  /** No value occurs twice. */
  predicate NoDuplicates<T(==)>(s: seq<T>)
  {
    forall i, j :: 0 <= i < j < |s| ==> s[i] != s[j]
  }

  /**
   * Array.from(new Set(s)): each distinct value once, in the order of first occurrence.
   */
  function Distinct(s: seq<string>): (r: seq<string>)
    ensures NoDuplicates(r)
    ensures forall x :: x in r <==> x in s
    ensures forall i, j :: 0 <= i < j < |r| ==> FirstIndex(s, r[i]) < FirstIndex(s, r[j])
  {
    if |s| == 0 then []
    else
      var init := s[..|s| - 1];
      var last := s[|s| - 1];
      var rest := Distinct(init);
      assert s == init + [last];
      forall x | x in init ensures FirstIndex(s, x) == FirstIndex(init, x) {
        var k := FirstIndex(init, x);
        assert s[..k] == init[..k];
        FirstIndexUnique(s, x, k);
      }
      if last in rest then rest
      else
        assert last !in s[..|s| - 1];
        FirstIndexUnique(s, last, |s| - 1);
        rest + [last]
  }

  /** The options of the category filter. */
  function Categories(entries: seq<Entry>, uncategorized: string): (r: seq<string>)
    ensures NoDuplicates(r)
    ensures forall x :: x in r <==> exists e :: e in entries && CategoryOf(e, uncategorized) == x
    ensures forall x :: x in r ==> x == uncategorized || exists e :: e in entries && Truthy(e.category) && e.category.value == x
  {
    var all := CategoryList(entries, uncategorized);
    var r := Distinct(all);
    assert forall x :: x in all <==> exists e :: e in entries && CategoryOf(e, uncategorized) == x by {
      forall x | x in all ensures exists e :: e in entries && CategoryOf(e, uncategorized) == x {
        var i :| 0 <= i < |all| && all[i] == x;
        assert entries[i] in entries;
      }
      forall x | exists e :: e in entries && CategoryOf(e, uncategorized) == x ensures x in all {
        var e :| e in entries && CategoryOf(e, uncategorized) == x;
        var i :| 0 <= i < |entries| && entries[i] == e;
        assert all[i] == x;
      }
    }
    r
  }

  /** The category options keep the order in which categories first appear among the entries. */
  lemma CategoriesInFirstOccurrenceOrder(entries: seq<Entry>, uncategorized: string, i: nat, j: nat)
    requires i < j < |Categories(entries, uncategorized)|
    ensures var all := CategoryList(entries, uncategorized);
            var r := Categories(entries, uncategorized);
            r[i] in all && r[j] in all && FirstIndex(all, r[i]) < FirstIndex(all, r[j])
  {
  }

  // ---------------------------------------------------------------------------
  // Filtering

  /**
   * The search predicate: an empty term matches everything; otherwise the lower-cased term must
   * occur in the lower-cased title, username, url or notes (the last two only when truthy).
   */
  function MatchesSearch(e: Entry, searchTerm: string): (matches: bool)
    ensures searchTerm == "" ==> matches
    ensures matches <==>
              || searchTerm == ""
              || Occurs(Lower(e.title), Lower(searchTerm))
              || Occurs(Lower(e.username), Lower(searchTerm))
              || (Truthy(e.url) && Occurs(Lower(e.url.value), Lower(searchTerm)))
              || (Truthy(e.notes) && Occurs(Lower(e.notes.value), Lower(searchTerm)))
  {
    var term := Lower(searchTerm);
    || searchTerm == ""
    || Includes(Lower(e.title), term)
    || Includes(Lower(e.username), term)
    || (Truthy(e.url) && Includes(Lower(e.url.value), term))
    || (Truthy(e.notes) && Includes(Lower(e.notes.value), term))
  }

  /** The category predicate: an empty filter matches everything. */
  function MatchesCategory(e: Entry, filterCategory: string, uncategorized: string): (matches: bool)
    ensures filterCategory == "" ==> matches
    ensures filterCategory != "" ==>
              (matches <==> if Truthy(e.category) then e.category.value == filterCategory else uncategorized == filterCategory)
  {
    filterCategory == "" || CategoryOf(e, uncategorized) == filterCategory
  }

  /** Whether an entry is shown. */
  predicate Shown(e: Entry, searchTerm: string, filterCategory: string, uncategorized: string)
  {
    MatchesSearch(e, searchTerm) && MatchesCategory(e, filterCategory, uncategorized)
  }

  /** `a` is `b` with some elements left out, the rest in their order. */
  predicate IsSubsequence<T(==)>(a: seq<T>, b: seq<T>)
    decreases |b|
  {
    if |a| == 0 then true
    else if |b| == 0 then false
    else (a[0] == b[0] && IsSubsequence(a[1..], b[1..])) || IsSubsequence(a, b[1..])
  }

  /**
   * filteredEntries: the shown entries, in their order, each as often as in `entries`.
   */
  function FilteredEntries(entries: seq<Entry>, searchTerm: string, filterCategory: string, uncategorized: string)
    : (r: seq<Entry>)
    ensures IsSubsequence(r, entries)
    ensures forall e :: e in r <==> e in entries && Shown(e, searchTerm, filterCategory, uncategorized)
    ensures forall e :: multiset(r)[e] == if Shown(e, searchTerm, filterCategory, uncategorized) then multiset(entries)[e] else 0
  {
    if |entries| == 0 then []
    else
      var head := entries[0];
      var rest := FilteredEntries(entries[1..], searchTerm, filterCategory, uncategorized);
      assert entries == [head] + entries[1..];
      if Shown(head, searchTerm, filterCategory, uncategorized) then
        assert ([head] + rest)[1..] == rest;
        [head] + rest
      else rest
  }

  /** With no search term and no category filter every entry is shown, in order. */
  lemma {:induction false} NoFilterShowsAll(entries: seq<Entry>, uncategorized: string)
    ensures FilteredEntries(entries, "", "", uncategorized) == entries
  {
    if |entries| > 0 {
      NoFilterShowsAll(entries[1..], uncategorized);
      assert entries == [entries[0]] + entries[1..];
    }
  }

  /** The password and the category are never searched. */
  lemma SearchIgnoresPasswordAndCategory(e: Entry, searchTerm: string, password: string, category: Option<string>)
    ensures MatchesSearch(e.(password := password, category := category), searchTerm) == MatchesSearch(e, searchTerm)
  {
  }

  /** The search is case-insensitive for ASCII letters: it sees the lower-cased term only. */
  lemma SearchIgnoresCase(e: Entry, searchTerm: string)
    ensures MatchesSearch(e, Lower(searchTerm)) == MatchesSearch(e, searchTerm)
  {
    LowerIdempotent(searchTerm);
  }

  /** An entry without a category passes a non-empty filter exactly when it is the label. */
  lemma UncategorizedMatchesLabel(e: Entry, filterCategory: string, uncategorized: string)
    requires !Truthy(e.category)
    requires filterCategory != ""
    ensures MatchesCategory(e, filterCategory, uncategorized) <==> filterCategory == uncategorized
  {
  }
}
