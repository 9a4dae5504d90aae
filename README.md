# BitVault vault core in Dafny

BitVault is a browser-only password vault. It keeps two records in `localStorage`:

- `bitvault_master_key_hash` holds the SHA-256 digest of the master key.
- `bitvault_passwords` holds the whole list of credential entries as one blob, AES-encrypted under the master key itself.

Adding, updating and deleting an entry each read the whole list, change it in memory and write it back with one `setItem`. Setting up the master key and importing a document write without reading the list first.

This project models that storage engine, its master-key check and the small decision logic around it:

- the master-key form's SETUP/VERIFY submit logic;
- password generation and strength scoring;
- the list's search and category filter;
- the per-item display rules.

It proves the properties these pieces promise.

Modules, one per source file:

- `Wrappers` holds `Option`.
- `Entries` holds the entry record of `src/models/passwordEntry.ts`. It uses string timestamps, which is what JSON makes of the `Date` fields.
- `EncryptionService` stands in for CryptoJS and JSON. Each primitive is a function value in the `Crypto` datatype. `Valid(c)` states what the vault relies on:
  - decrypting under the same key inverts encrypting;
  - a ciphertext is never empty;
  - a digest is never empty;
  - parsing inverts stringifying;
  - parsing the empty string, which a failed decryption yields, fails.
- `PasswordService` holds `localStorage` as a `LocalStorage` object. Its `items` field is a `map<string, string>`, and a ghost `writes` field counts the `setItem` calls. It also holds the service operations as methods over that object. Each method's postcondition gives the whole new store in terms of the pure reading functions `StoredPasswords`, `Saved` and `HashMatches`.
- `PasswordUtils`: `generatePassword` and `evaluatePasswordStrength`.
- `MasterKeyAuth`: the form state and `handleSubmit`.
- `PasswordList`: `categories` and `filteredEntries`.
- `PasswordItem`: the toggle, the mask, the link target and the two-click delete.

The main property: under a key that cannot decrypt the blob, `getPasswords` returns `[]`. `addPassword` then overwrites the blob with a one-entry list, so a session key that passes the digest check but cannot decrypt the blob silently destroys the vault on the next add. A mistyped key does not get there, because VERIFY authenticates only a key whose digest matches. The state arises when the digest record is lost while the blob remains: SETUP then accepts any new key. It also arises from a blob written under another key, or from a digest collision. `WrongKeyAddDestroysVault` states this, and so do the postconditions of `GetPasswords` and `AddPassword`.

Points where the code may surprise:

- `updatePassword` replaces the whole entry with its argument. Its `createdAt` therefore comes from the caller and is not preserved from the stored entry.
- `addPassword` reads the clock twice, so `createdAt` and `updatedAt` are two separate inputs.
- Nothing in the code makes ids unique.
- Verification succeeds for every key with the same digest. A different key is rejected only when its digest differs.
- `verifyMasterKey` and `getPasswords` test truthiness. An empty stored string counts as absent for them. `masterKeyExists` tests `!== null`, so for it an empty string counts as present.

## Model

| member | source | states |
|---|---|---|
| Entries.WithMetadata | src/src/services/passwordService.ts:44-49 | the new entry carries every input field unchanged, plus the given id and timestamps |
| EncryptionService.EncryptObject | src/services/encryptionService.ts:27-41 | under valid primitives the ciphertext is non-empty and decryptObject with the same key gives the object back |
| EncryptionService.DecryptObject | src/services/encryptionService.ts:16-41 | a decryption that fails yields '', whose parse fails, so the result is null (None) |
| PasswordService.FindIndex | src/src/services/passwordService.ts:60 | -1 exactly when no entry has the id; otherwise the first position holding it |
| PasswordService.RemoveAt | src/src/services/passwordService.ts:80 | splice(i, 1): one shorter, the entries before i kept in place, those after shifted down by one |
| PasswordService.MasterKeyExists | src/src/services/passwordService.ts:8-10 | true exactly when the digest record is present |
| PasswordService.SetupMasterKey | src/src/services/passwordService.ts:13-16 | one write, setting only the digest record; under valid primitives the key then verifies |
| PasswordService.VerifyMasterKey | src/src/services/passwordService.ts:19-23 | false without a stored digest; true exactly when a non-empty stored digest equals the candidate's; no write |
| PasswordService.SavePasswords | src/src/services/passwordService.ts:26-29 | one write, replacing only the blob; reading under the same key then gives the saved list |
| PasswordService.GetPasswords | src/src/services/passwordService.ts:32-38 | [] for a missing, empty or undecryptable blob, otherwise the decrypted list; no write |
| PasswordService.AddPassword | src/src/services/passwordService.ts:41-55 | returns the input fields with the fresh id and timestamps; the stored list becomes the old list with that entry appended; exactly one write |
| PasswordService.UpdatePassword | src/src/services/passwordService.ts:58-71 | unknown id: false, store and write count unchanged; known id: true, one write, only the first match replaced by the argument with updatedAt set to now, length and every other position kept |
| PasswordService.DeletePassword | src/src/services/passwordService.ts:74-83 | unknown id: false, no write; known id: true, one write, only the first match removed, one shorter, the others in their order |
| PasswordService.ExportPasswords | src/src/services/passwordService.ts:91-94 | the list the key reads, stringified with indent 2, which parses back to that list; no write |
| PasswordService.ImportPasswords | src/src/services/passwordService.ts:97-106 | unparsable document: false, no write; otherwise true and the whole blob replaced by the parsed list, no merge |
| PasswordService.SaveThenGet | src/src/services/passwordService.ts:26-38 | saving then reading under the same key returns the list; the master-key record is not affected |
| PasswordService.SetupThenVerify | src/src/services/passwordService.ts:13-23 | after setup with k, k verifies, and a candidate verifies exactly when its digest equals k's |
| PasswordService.WrongKeyAddDestroysVault | src/src/services/passwordService.ts:32-55 | a non-empty vault under a key that cannot decrypt it reads as []; add then replaces the blob with the one-entry list, a blob different from the old one |
| PasswordService.ExportImportRoundTrip | src/src/services/passwordService.ts:91-106 | importing the exported document under the same key leaves the list the vault reads unchanged |
| PasswordService.AddTwoDeleteFirst | src/src/services/passwordService.ts:41-83 | on a fresh vault, adding two entries with distinct ids and deleting the first leaves exactly the second |
| PasswordUtils.CharacterPool | src/utils/passwordUtils.ts:13-21 | the pool is never empty, and with no class selected it is the 62 alphanumerics |
| PasswordUtils.PoolHoldsSelectedClasses | src/utils/passwordUtils.ts:13-16 | with some class selected, a character is in the pool exactly when it belongs to a selected class |
| PasswordUtils.BuildPool | src/utils/passwordUtils.ts:9-21 | the step-by-step `chars +=` construction yields the pool |
| PasswordUtils.GeneratePassword | src/utils/passwordUtils.ts:2-30 | exactly `length` characters (none when length <= 0); the i-th is the pool character at the i-th random index, so every character is in the pool |
| PasswordUtils.Failures | src/utils/passwordUtils.ts:40-60 | at most five items, each one of the five English feedback texts; none exactly when the password has length at least 8 and all four classes |
| PasswordUtils.Label | src/utils/passwordUtils.ts:66-71 | one of the five labels: "Very weak" exactly for a score of at most 1, "Weak" for 2, "Fair" for 3, "Strong" for 4, "Very strong" for 5 or more |
| PasswordUtils.Join | src/utils/passwordUtils.ts:74 | empty for no items; otherwise starts with the first item and is as long as all items plus one separator per gap |
| PasswordUtils.JoinAppend | src/utils/passwordUtils.ts:74 | joining one more item appends the separator and then that item, so the items appear in order with one separator between neighbours |
| PasswordUtils.Message | src/utils/passwordUtils.ts:73-75 | starts with the label; with no failures it is the label; otherwise the label, then ": ", then the space-joined failures |
| PasswordUtils.EvaluatePasswordStrength | src/utils/passwordUtils.ts:33-81 | the score is the raw score capped at 5 and lies in 0..5; the message is the score's label, followed by ": " and the space-joined failures exactly when some check failed |
| PasswordUtils.RawScoreReachesSix | src/utils/passwordUtils.ts:37-63 | the raw score is at most 6 and reaches 6, so the cap matters |
| PasswordUtils.EachCheckScoresOrComplains | src/utils/passwordUtils.ts:40-60 | length scores 0 exactly when "too short" is reported; each class either scores or adds its one feedback item, never both |
| PasswordUtils.SuffixIffSomeCheckFailed | src/utils/passwordUtils.ts:73-75 | the message is the bare label exactly when no check failed |
| PasswordUtils.AllClassesVeryStrong | src/utils/passwordUtils.ts:40-75 | length of at least 8 with all four classes gives score 5 and exactly "Very strong" |
| MasterKeyAuth.AuthForm.constructor | src/components/MasterKeyAuth.tsx:11-16 | empty inputs, no error, SETUP mode exactly when no digest is stored |
| MasterKeyAuth.AuthForm.Render | src/components/MasterKeyAuth.tsx:16 | SETUP mode exactly when masterKeyExists is false |
| MasterKeyAuth.AuthForm.HandleSubmit | src/components/MasterKeyAuth.tsx:18-44 | error cleared first; SETUP: too short gives MinLength and no write, then a mismatch gives NotMatching and no write, else the digest is stored and exactly that key authenticated; VERIFY: the session is the key when it verifies and none otherwise, the error is Incorrect exactly when there is no session, never a write and no lockout |
| MasterKeyAuth.SetupThenLogin | src/components/MasterKeyAuth.tsx:16-44 | a first-run setup authenticates, and the same key then authenticates in VERIFY mode |
| PasswordList.LowerChar | src/src/components/PasswordList.tsx:24 | each upper-case ASCII letter maps to its own lower-case letter (code point + 32), every other character is kept |
| PasswordList.Lower | src/src/components/PasswordList.tsx:24-27 | same length, lower-casing each character |
| PasswordList.LowerIdempotent | src/src/components/PasswordList.tsx:24-27 | lower-casing twice equals lower-casing once |
| PasswordList.Includes | src/src/components/PasswordList.tsx:24-27 | true exactly when the needle occurs as a contiguous substring |
| PasswordList.CategoryOf | src/src/components/PasswordList.tsx:19-30 | a truthy category is used as it is; a missing or empty one reads as the uncategorized label |
| PasswordList.CategoryList | src/src/components/PasswordList.tsx:19 | position by position, each entry's category, or the label when missing or empty |
| PasswordList.Distinct | src/src/components/PasswordList.tsx:19 | no duplicates, the same elements, in order of first occurrence |
| PasswordList.Categories | src/src/components/PasswordList.tsx:19 | no duplicates; contains exactly the entries' effective categories, each a real category or the label |
| PasswordList.CategoriesInFirstOccurrenceOrder | src/src/components/PasswordList.tsx:19 | the options appear in the order categories first occur among the entries |
| PasswordList.MatchesSearch | src/src/components/PasswordList.tsx:23-27 | an empty term matches; otherwise the match holds exactly when the lower-cased term occurs as a substring of the lower-cased title, username, truthy url or truthy notes |
| PasswordList.MatchesCategory | src/src/components/PasswordList.tsx:29-30 | an empty filter matches; otherwise the entry's truthy category, or the label when it has none, must equal the filter |
| PasswordList.FilteredEntries | src/src/components/PasswordList.tsx:22-33 | an order-preserving subsequence holding exactly the entries that pass both search and category, each as often as in the input |
| PasswordList.NoFilterShowsAll | src/src/components/PasswordList.tsx:22-33 | an empty term and an empty filter show all entries, in order |
| PasswordList.SearchIgnoresPasswordAndCategory | src/src/components/PasswordList.tsx:23-27 | changing the password or the category never changes the search result |
| PasswordList.SearchIgnoresCase | src/src/components/PasswordList.tsx:23-27 | a term and its lower-cased form match the same entries |
| PasswordList.UncategorizedMatchesLabel | src/src/components/PasswordList.tsx:29-30 | an entry without a category passes a non-empty filter exactly when the filter is the uncategorized label |
| PasswordItem.Href | src/components/PasswordItem.tsx:87 | the url itself when it starts with "http", else "https://" + url; always starts with "http" |
| PasswordItem.HrefIdempotent | src/components/PasswordItem.tsx:87 | normalising a link target again changes nothing |
| PasswordItem.ItemView.constructor | src/components/PasswordItem.tsx:13-14 | a fresh item hides the password and has delete unarmed |
| PasswordItem.ItemView.HandleTogglePassword | src/components/PasswordItem.tsx:17-19 | flips showPassword and touches nothing else |
| PasswordItem.ItemView.HandleDeleteClick | src/components/PasswordItem.tsx:21-28 | unarmed: arms, onDelete not called; armed: onDelete called with the entry's id |
| PasswordItem.ItemView.ResetConfirmDelete | src/components/PasswordItem.tsx:26 | the timer callback disarms confirmation |
| PasswordItem.ItemView.DisplayPassword | src/components/PasswordItem.tsx:39 | revealed: the password; hidden: the 12-bullet mask, whatever the password is |
| PasswordItem.ToggleTwice | src/components/PasswordItem.tsx:17-19 | two toggles restore the reveal state and the displayed text, and may change only the reveal state |
| PasswordItem.ClickDeleteTwice | src/components/PasswordItem.tsx:21-28 | on a fresh item the first click only arms and the second deletes the entry's id |

## Left out

- CryptoJS AES and SHA-256 (src/services/encryptionService.ts:11-46) are foreign code. They are function values constrained only by `Valid` (round trip, non-empty outputs, and a failed parse of the empty string).
- Encryption depends on a random salt in the source, but the model's `encrypt` is a deterministic function. Nothing in the model depends on two encryptions of the same text being different.
- Wrong-key isolation is not claimed. The code neither guarantees nor checks what decryption under another key yields.
- WrongKeyAddDestroysVault: states what the wrong key reads and what the blob becomes. It does not state that the right key can no longer read the old entries, because nothing is assumed about decryption under a different key.
- `JSON.stringify`/`JSON.parse` are abstract functions, and `Valid` assumes that parse inverts stringify. Real JSON turns `Date` fields into strings, so this idealises the source.
- ImportPasswords: the parsed document is taken to be a list of entries. The source's `JSON.parse` also accepts non-array JSON, stores it, and later hands that value out as the "list". That value is not modelled.
- `generateId` and `new Date()` depend on the clock and `Math.random`. They become the `id`, `createdAt`, `updatedAt` and `now` parameters, and their uniqueness is not modelled.
- `Math.floor(Math.random() * chars.length)` is floating point. It becomes the oracle `random(i, n)`, required to lie in `[0, n)`.
- GeneratePassword: `length` is an integer. A fractional JavaScript `length` is not modelled.
- The defaults of `generatePassword`'s parameters (length 12, all classes on) are not modelled.
- EvaluatePasswordStrength: models the call without a translator `t`, with the English messages. Lengths count Unicode scalar values, not UTF-16 code units.
- MasterKeyAuth.AuthForm.HandleSubmit: the minimum-length check counts Unicode scalar values, not the UTF-16 code units of JavaScript's `length`. A key of four characters outside the Basic Multilingual Plane (emoji, say) has `length` 8 and passes the source's check, but the model reports MinLength for it.
- `toLowerCase` lowers ASCII letters only. Unicode case mapping is foreign behaviour.
- Translated error and label texts become the `AuthError` datatype and the `uncategorized` parameter. The i18n configuration, the language switcher and the build configuration are not part of this model.
- The browser's `required` check on the master-key inputs (src/components/MasterKeyAuth.tsx:69, 90) is form validation outside `handleSubmit`, so `HandleSubmit` also accepts an empty key.
- The form's own show/hide toggle (src/components/MasterKeyAuth.tsx:73) is not modelled. It changes only what the input displays.
- ResetConfirmDelete: the 3-second delay of the `setTimeout` reset is timing and is not modelled. The callback may run at any time.
- `handleEditClick`, the clipboard copy and `formatDate` in PasswordItem are pass-throughs to the caller, the clipboard and `Intl`.
- `console.error` logging is not modelled.
- A `setItem` that throws (storage unavailable, or over quota) is not modelled.
- Concurrent writers in other tabs are not modelled.
- src/App.tsx and src/components/ImportExport.tsx are state plumbing and file I/O.
- src/utils/formatUtils.ts depends on `Intl.DateTimeFormat`.
- The unused stubs src/src/services/encryptionService.ts, src/src/components/AddPasswordForm.tsx and src/src/components/PasswordItem.tsx are not part of this model.
- The older entry shape src/src/models/passwordEntry.ts, with a numeric id, is not part of this model. The service's imports resolve to it by path, but the service uses the fields of src/models/passwordEntry.ts and the primitives of src/services/encryptionService.ts.
