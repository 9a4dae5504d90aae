/**
 * The cryptographic and JSON primitives the vault is built on
 * (src/services/encryptionService.ts). CryptoJS and the JSON codec are foreign code, so they are
 * given as function values, and what the vault relies on about them is stated once, in Valid.
 */
module EncryptionService {

  import opened Wrappers
  import opened Entries

  /** The primitives, one field per foreign operation. */
  datatype Crypto = Crypto(
    // CryptoJS.AES.encrypt(text, key).toString()
    encrypt: (string, string) -> string,
    // the UTF-8 text of CryptoJS.AES.decrypt(cipherText, key); '' when that throws
    decrypt: (string, string) -> string,
    // CryptoJS.SHA256(data).toString()
    hash: string -> string,
    // JSON.stringify(list, null, indent); indent 0 is the compact form
    stringify: (seq<Entry>, nat) -> string,
    // JSON.parse(text) read as a list of entries; None when it throws
    parse: string -> Option<seq<Entry>>)

  /**
   * The assumptions about the primitives: decryption under the same key inverts encryption,
   * a ciphertext is never the empty string (CryptoJS emits a salted Base64 block), a SHA-256
   * digest is never empty (64 hex digits), parsing inverts stringifying at any indent, and
   * parsing the empty string, which a failed decryption yields, fails as JSON.parse('') throws.
   * Nothing is assumed about decryption under a different key.
   */
  ghost predicate Valid(c: Crypto)
  {
    && (forall text, key :: c.decrypt(c.encrypt(text, key), key) == text)
    && (forall text, key :: c.encrypt(text, key) != "")
    && (forall data :: c.hash(data) != "")
    && (forall list, indent :: c.parse(c.stringify(list, indent)) == Some(list))
    && c.parse("") == None
  }

  /** encryptObject: JSON.stringify, then encrypt. */
  function EncryptObject(c: Crypto, obj: seq<Entry>, key: string): (cipherText: string)
    ensures Valid(c) ==> cipherText != "" && DecryptObject(c, cipherText, key) == Some(obj)
  {
    c.encrypt(c.stringify(obj, 0), key)
  }

  /** decryptObject: decrypt, then JSON.parse; a failure of either yields None, a failed decryption included. */
  function DecryptObject(c: Crypto, cipherText: string, key: string): (obj: Option<seq<Entry>>)
    ensures Valid(c) && c.decrypt(cipherText, key) == "" ==> obj == None
  {
    c.parse(c.decrypt(cipherText, key))
  }
}
