/**
 * The master-key form (src/components/MasterKeyAuth.tsx): SETUP mode when no digest is stored,
 * VERIFY mode otherwise, and the decision handleSubmit takes in each.
 */
module MasterKeyAuth {

  import opened Wrappers
  import opened EncryptionService
  import opened PasswordService

  /** The shortest master key SETUP accepts. */
  const MinKeyLength := 8

  /** The error the form shows; NoError is the empty string. */
  datatype AuthError = NoError | MinLength | NotMatching | Incorrect

  /** The form's state: the two inputs, the error shown, and the mode of the last render. */
  class AuthForm {
    var masterKey: string
    var confirmMasterKey: string
    var error: AuthError
    var isSetupMode: bool

    constructor (store: LocalStorage)
      ensures masterKey == "" && confirmMasterKey == "" && error == NoError
      ensures isSetupMode <==> MasterKeyHash !in store.items
    {
      masterKey := "";
      confirmMasterKey := "";
      error := NoError;
      var present := MasterKeyExists(store);
      isSetupMode := !present;
    }

    /** A re-render recomputes `isSetupMode = !masterKeyExists()`. */
    method Render(store: LocalStorage)
      modifies this`isSetupMode
      ensures isSetupMode <==> MasterKeyHash !in store.items
    {
      var present := MasterKeyExists(store);
      isSetupMode := !present;
    }

    /**
     * handleSubmit. The error is cleared first, so afterwards it depends on this submission only.
     * In SETUP the length check comes before the confirmation check, and only a key that passes
     * both is stored and authenticated. In VERIFY the key is authenticated exactly when it
     * verifies, nothing is written and nothing limits further attempts. `session` is the key
     * handed to onAuthenticated, None when it is not called.
     */
    method HandleSubmit(store: LocalStorage, c: Crypto) returns (session: Option<string>)
      modifies this`error, store
      ensures isSetupMode && |masterKey| < MinKeyLength ==>
                error == MinLength && session == None
                && store.items == old(store.items) && store.writes == old(store.writes)
      ensures isSetupMode && |masterKey| >= MinKeyLength && masterKey != confirmMasterKey ==>
                error == NotMatching && session == None
                && store.items == old(store.items) && store.writes == old(store.writes)
      ensures isSetupMode && |masterKey| >= MinKeyLength && masterKey == confirmMasterKey ==>
                error == NoError && session == Some(masterKey)
                && store.items == old(store.items)[MasterKeyHash := c.hash(masterKey)]
                && store.writes == old(store.writes) + 1
      ensures isSetupMode && session.Some? && Valid(c) ==> HashMatches(c, store.items, masterKey)
      ensures !isSetupMode ==>
                && store.items == old(store.items) && store.writes == old(store.writes)
                && session == (if HashMatches(c, old(store.items), masterKey) then Some(masterKey) else None)
                && error == (if session.Some? then NoError else Incorrect)
    {
      error := NoError;
      session := None;

      if isSetupMode {
        if |masterKey| < MinKeyLength {
          error := MinLength;
          return;
        }
        if masterKey != confirmMasterKey {
          error := NotMatching;
          return;
        }
        SetupMasterKey(store, c, masterKey);
        session := Some(masterKey);
      } else {
        var ok := VerifyMasterKey(store, c, masterKey);
        if ok {
          session := Some(masterKey);
        } else {
          error := Incorrect;
        }
      }
    }
  }

  /**
   * A first run: a store without a digest renders in SETUP; a valid key with a matching
   * confirmation authenticates, and the next render is in VERIFY, where the same key
   * authenticates again.
   */
  method SetupThenLogin(store: LocalStorage, c: Crypto, key: string) returns (first: Option<string>, second: Option<string>)
    requires Valid(c)
    requires MasterKeyHash !in store.items
    requires |key| >= MinKeyLength
    modifies store
    ensures first == Some(key) && second == Some(key)
    ensures HashMatches(c, store.items, key)
  {
    var form := new AuthForm(store);
    form.masterKey := key;
    form.confirmMasterKey := key;
    first := form.HandleSubmit(store, c);
    form.Render(store);
    second := form.HandleSubmit(store, c);
  }
}
