/**
 * The vault store and the master-key record (src/src/services/passwordService.ts).
 * The browser's localStorage is an explicit LocalStorage object; every operation reads it,
 * and the mutators write the whole encrypted list back with one setItem.
 */
module PasswordService {

  import opened Wrappers
  import opened Entries
  import opened EncryptionService

  /** The record holding the encrypted list of entries. */
  const StorageKey := "bitvault_passwords"
  /** The record holding the digest of the master key. */
  const MasterKeyHash := "bitvault_master_key_hash"

  /** The browser's key-value store; `writes` counts the calls to setItem. */
  class LocalStorage {
    var items: map<string, string>
    ghost var writes: nat

    constructor (items: map<string, string>)
      ensures this.items == items && writes == 0
    {
      this.items := items;
      writes := 0;
    }

    /** getItem: the stored text, or None (`null`) when the record is absent. */
    method GetItem(key: string) returns (value: Option<string>)
      ensures key in items ==> value == Some(items[key])
      ensures key !in items ==> value == None
    {
      if key in items {
        value := Some(items[key]);
      } else {
        value := None;
      }
    }

    /** setItem: one write, replacing that record only. */
    method SetItem(key: string, value: string)
      modifies this
      ensures items == old(items)[key := value]
      ensures writes == old(writes) + 1
    {
      items := items[key := value];
      writes := writes + 1;
    }
  }

  // ---------------------------------------------------------------------------
  // The stored state, read as values

  /**
   * The list getPasswords yields: [] when the blob is absent or empty (`!encryptedData`) or does
   * not decrypt to a list (`passwords || []`), the decrypted list otherwise.
   */
  function StoredPasswords(c: Crypto, items: map<string, string>, masterKey: string): seq<Entry>
  {
    if StorageKey !in items || items[StorageKey] == "" then []
    else match DecryptObject(c, items[StorageKey], masterKey)
      case None => []
      case Some(list) => list
  }

  /** The store after savePasswords(list, masterKey). */
  function Saved(c: Crypto, items: map<string, string>, list: seq<Entry>, masterKey: string): map<string, string>
  {
    items[StorageKey := EncryptObject(c, list, masterKey)]
  }

  /** What verifyMasterKey decides: a stored, non-empty digest equal to the candidate's. */
  predicate HashMatches(c: Crypto, items: map<string, string>, masterKey: string)
  {
    MasterKeyHash in items && items[MasterKeyHash] != "" && items[MasterKeyHash] == c.hash(masterKey)
  }

  /**
   * findIndex(p => p.id === id): the first position holding that id, or -1 when none does.
   */
  function FindIndex(list: seq<Entry>, id: string): (index: int)
    ensures -1 <= index < |list|
    ensures index == -1 <==> forall j :: 0 <= j < |list| ==> list[j].id != id
    ensures 0 <= index ==> list[index].id == id && forall j :: 0 <= j < index ==> list[j].id != id
  {
    if |list| == 0 then -1
    else if list[0].id == id then 0
    else
      var rest := FindIndex(list[1..], id);
      if rest == -1 then -1 else rest + 1
  }

  /** splice(index, 1): the list without position `index`, the rest in their order. */
  function RemoveAt<T>(list: seq<T>, index: nat): (rest: seq<T>)
    requires index < |list|
    ensures |rest| == |list| - 1
    ensures forall j :: 0 <= j < index ==> rest[j] == list[j]
    ensures forall j :: index <= j < |rest| ==> rest[j] == list[j + 1]
  {
    list[..index] + list[index + 1..]
  }

  // ---------------------------------------------------------------------------
  // The operations

  /** masterKeyExists: whether the digest record is present (an empty one counts). */
  method MasterKeyExists(store: LocalStorage) returns (present: bool)
    ensures present <==> MasterKeyHash in store.items
  {
    var stored := store.GetItem(MasterKeyHash);
    present := stored.Some?;
  }

  /** setupMasterKey: stores the digest of the key, overwriting any earlier one. */
  method SetupMasterKey(store: LocalStorage, c: Crypto, masterKey: string)
    modifies store
    ensures store.items == old(store.items)[MasterKeyHash := c.hash(masterKey)]
    ensures store.writes == old(store.writes) + 1
    ensures Valid(c) ==> HashMatches(c, store.items, masterKey)
  {
    var keyHash := c.hash(masterKey);
    store.SetItem(MasterKeyHash, keyHash);
  }

  /** verifyMasterKey: false without a (non-empty) stored digest, else digest equality. */
  method VerifyMasterKey(store: LocalStorage, c: Crypto, masterKey: string) returns (ok: bool)
    ensures MasterKeyHash !in store.items ==> !ok
    ensures ok <==> HashMatches(c, store.items, masterKey)
  {
    var storedHash := store.GetItem(MasterKeyHash);
    if storedHash.None? || storedHash.value == "" {
      return false;
    }
    ok := storedHash.value == c.hash(masterKey);
  }

  /** savePasswords: encrypts the whole list and writes it in one setItem. */
  method SavePasswords(store: LocalStorage, c: Crypto, passwords: seq<Entry>, masterKey: string)
    modifies store
    ensures store.items == Saved(c, old(store.items), passwords, masterKey)
    ensures store.writes == old(store.writes) + 1
    ensures Valid(c) ==> StoredPasswords(c, store.items, masterKey) == passwords
  {
    var encryptedData := EncryptObject(c, passwords, masterKey);
    store.SetItem(StorageKey, encryptedData);
  }

  /**
   * getPasswords: a missing blob, an empty one and one that does not decrypt under this key all
   * read as the empty list; the store is not written.
   */
  method GetPasswords(store: LocalStorage, c: Crypto, masterKey: string) returns (passwords: seq<Entry>)
    ensures StorageKey !in store.items ==> passwords == []
    ensures StorageKey in store.items && DecryptObject(c, store.items[StorageKey], masterKey).None? ==> passwords == []
    ensures StorageKey in store.items && store.items[StorageKey] != ""
            && DecryptObject(c, store.items[StorageKey], masterKey).Some?
            ==> passwords == DecryptObject(c, store.items[StorageKey], masterKey).value
    ensures passwords == StoredPasswords(c, store.items, masterKey)
  {
    var encryptedData := store.GetItem(StorageKey);
    if encryptedData.None? || encryptedData.value == "" {
      return [];
    }
    var decrypted := DecryptObject(c, encryptedData.value, masterKey);
    if decrypted.None? {
      return [];
    }
    passwords := decrypted.value;
  }

  /**
   * addPassword: reads the list under `masterKey`, appends the new entry and saves.
   * `id` stands for generateId() and `createdAt`/`updatedAt` for the two `new Date()` reads.
   * When the key does not decrypt the blob, the list read is [] and the vault becomes [entry].
   */
  method AddPassword(store: LocalStorage, c: Crypto, fields: Fields, masterKey: string,
                     id: string, createdAt: string, updatedAt: string) returns (entry: Entry)
    modifies store
    ensures entry == WithMetadata(fields, id, createdAt, updatedAt)
    ensures store.items == Saved(c, old(store.items), StoredPasswords(c, old(store.items), masterKey) + [entry], masterKey)
    ensures store.writes == old(store.writes) + 1
    ensures Valid(c) ==> StoredPasswords(c, store.items, masterKey) == StoredPasswords(c, old(store.items), masterKey) + [entry]
  {
    var passwords := GetPasswords(store, c, masterKey);
    entry := WithMetadata(fields, id, createdAt, updatedAt);
    passwords := passwords + [entry];
    SavePasswords(store, c, passwords, masterKey);
  }

  /**
   * updatePassword: replaces the first entry with the argument's id by the argument with
   * `updatedAt` set to `now`; `createdAt` comes from the argument as well. An unknown id
   * returns false and writes nothing.
   */
  method UpdatePassword(store: LocalStorage, c: Crypto, password: Entry, masterKey: string, now: string)
    returns (updated: bool)
    modifies store
    ensures var before := StoredPasswords(c, old(store.items), masterKey);
            var index := FindIndex(before, password.id);
            && (updated <==> exists j :: 0 <= j < |before| && before[j].id == password.id)
            && (!updated ==> store.items == old(store.items) && store.writes == old(store.writes))
            && (updated ==> store.items == Saved(c, old(store.items), before[index := password.(updatedAt := now)], masterKey)
                            && store.writes == old(store.writes) + 1)
    ensures var before := StoredPasswords(c, old(store.items), masterKey);
            var after := StoredPasswords(c, store.items, masterKey);
            var index := FindIndex(before, password.id);
            Valid(c) && updated ==>
              && |after| == |before|
              && after[index] == password.(updatedAt := now)
              && forall j :: 0 <= j < |after| && j != index ==> after[j] == before[j]
  {
    var passwords := GetPasswords(store, c, masterKey);
    var index := FindIndex(passwords, password.id);
    if index == -1 {
      return false;
    }
    passwords := passwords[index := password.(updatedAt := now)];
    SavePasswords(store, c, passwords, masterKey);
    return true;
  }

  /**
   * deletePassword: removes the first entry with that id and saves; an unknown id returns false
   * and writes nothing.
   */
  method DeletePassword(store: LocalStorage, c: Crypto, id: string, masterKey: string) returns (deleted: bool)
    modifies store
    ensures var before := StoredPasswords(c, old(store.items), masterKey);
            var index := FindIndex(before, id);
            && (deleted <==> exists j :: 0 <= j < |before| && before[j].id == id)
            && (!deleted ==> store.items == old(store.items) && store.writes == old(store.writes))
            && (deleted ==> store.items == Saved(c, old(store.items), RemoveAt(before, index), masterKey)
                            && store.writes == old(store.writes) + 1)
    ensures var before := StoredPasswords(c, old(store.items), masterKey);
            var after := StoredPasswords(c, store.items, masterKey);
            var index := FindIndex(before, id);
            Valid(c) && deleted ==>
              && |after| == |before| - 1
              && (forall j :: 0 <= j < index ==> after[j] == before[j])
              && (forall j :: index <= j < |after| ==> after[j] == before[j + 1])
  {
    var passwords := GetPasswords(store, c, masterKey);
    var index := FindIndex(passwords, id);
    if index == -1 {
      return false;
    }
    passwords := RemoveAt(passwords, index);
    SavePasswords(store, c, passwords, masterKey);
    return true;
  }

  /** exportPasswords: the list under this key as JSON indented by 2; the store is not written. */
  method ExportPasswords(store: LocalStorage, c: Crypto, masterKey: string) returns (json: string)
    ensures json == c.stringify(StoredPasswords(c, store.items, masterKey), 2)
    ensures Valid(c) ==> c.parse(json) == Some(StoredPasswords(c, store.items, masterKey))
  {
    var passwords := GetPasswords(store, c, masterKey);
    json := c.stringify(passwords, 2);
  }

  /**
   * importPasswords: a document that does not parse returns false and writes nothing; one that
   * does replaces the whole vault with the parsed list (no merge, no id check).
   */
  method ImportPasswords(store: LocalStorage, c: Crypto, jsonData: string, masterKey: string) returns (imported: bool)
    modifies store
    ensures imported <==> c.parse(jsonData).Some?
    ensures !imported ==> store.items == old(store.items) && store.writes == old(store.writes)
    ensures imported ==> store.items == Saved(c, old(store.items), c.parse(jsonData).value, masterKey)
                         && store.writes == old(store.writes) + 1
    ensures Valid(c) && imported ==> StoredPasswords(c, store.items, masterKey) == c.parse(jsonData).value
  {
    var passwords := c.parse(jsonData);
    if passwords.None? {
      return false;
    }
    SavePasswords(store, c, passwords.value, masterKey);
    return true;
  }

  // ---------------------------------------------------------------------------
  // Properties of the stored state

  /** Saving and then reading under the same key gives back the list; the digest is untouched. */
  lemma SaveThenGet(c: Crypto, items: map<string, string>, list: seq<Entry>, masterKey: string)
    requires Valid(c)
    ensures StoredPasswords(c, Saved(c, items, list, masterKey), masterKey) == list
    ensures forall candidate :: HashMatches(c, Saved(c, items, list, masterKey), candidate) <==> HashMatches(c, items, candidate)
  {
  }

  /**
   * After setupMasterKey(k), exactly the keys with k's digest verify; k itself does.
   */
  lemma SetupThenVerify(c: Crypto, items: map<string, string>, masterKey: string, candidate: string)
    requires Valid(c)
    ensures HashMatches(c, items[MasterKeyHash := c.hash(masterKey)], masterKey)
    ensures HashMatches(c, items[MasterKeyHash := c.hash(masterKey)], candidate) <==> c.hash(candidate) == c.hash(masterKey)
  {
  }

  /**
   * The silent data loss: under a key that does not decrypt the blob, getPasswords reads [] and
   * addPassword then overwrites the blob with the one-entry list, whatever the blob held before.
   */
  lemma WrongKeyAddDestroysVault(c: Crypto, items: map<string, string>, rightKey: string, wrongKey: string, entry: Entry)
    requires Valid(c)
    requires StorageKey in items
    requires StoredPasswords(c, items, rightKey) != []
    requires DecryptObject(c, items[StorageKey], wrongKey).None?
    ensures StoredPasswords(c, items, wrongKey) == []
    ensures var after := Saved(c, items, StoredPasswords(c, items, wrongKey) + [entry], wrongKey);
            && after[StorageKey] == EncryptObject(c, [entry], wrongKey)
            && after[StorageKey] != items[StorageKey]
            && StoredPasswords(c, after, wrongKey) == [entry]
  {
    assert StoredPasswords(c, items, wrongKey) + [entry] == [entry];
    var after := Saved(c, items, [entry], wrongKey);
    assert DecryptObject(c, after[StorageKey], wrongKey) == Some([entry]);
  }

  /** Importing what was exported, under the same key, leaves the list the vault reads unchanged. */
  lemma ExportImportRoundTrip(c: Crypto, items: map<string, string>, masterKey: string)
    requires Valid(c)
    ensures var doc := c.stringify(StoredPasswords(c, items, masterKey), 2);
            && c.parse(doc) == Some(StoredPasswords(c, items, masterKey))
            && StoredPasswords(c, Saved(c, items, c.parse(doc).value, masterKey), masterKey) == StoredPasswords(c, items, masterKey)
  {
  }

  /**
   * A fresh vault reads as []; after adding two entries with different ids and deleting the
   * first, the vault reads as exactly the second.
   */
  method AddTwoDeleteFirst(store: LocalStorage, c: Crypto, masterKey: string, a: Fields, b: Fields,
                           idA: string, idB: string, now: string) returns (first: Entry, second: Entry)
    requires Valid(c)
    requires StorageKey !in store.items
    requires idA != idB
    modifies store
    ensures StoredPasswords(c, store.items, masterKey) == [second]
    ensures FieldsOf(second) == b && second.id == idB
  {
    var empty := GetPasswords(store, c, masterKey);
    assert empty == [];
    first := AddPassword(store, c, a, masterKey, idA, now, now);
    second := AddPassword(store, c, b, masterKey, idB, now, now);
    assert StoredPasswords(c, store.items, masterKey) == [first, second];
    var deleted := DeletePassword(store, c, idA, masterKey);
    assert FindIndex([first, second], idA) == 0;
  }
}
