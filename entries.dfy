/**
 * The credential record the vault stores (src/models/passwordEntry.ts).
 * The `Date` fields travel through JSON as ISO-8601 text, so they are strings here.
 */
module Entries {

  import opened Wrappers

  /** One saved credential. `url`, `notes` and `category` are the optional fields. */
  datatype Entry = Entry(
    id: string,
    title: string,
    password: string,
    url: Option<string>,
    username: string,
    notes: Option<string>,
    category: Option<string>,
    createdAt: string,
    updatedAt: string)

  /** What `addPassword` is given: an entry without `id`, `createdAt` and `updatedAt`. */
  datatype Fields = Fields(
    title: string,
    password: string,
    url: Option<string>,
    username: string,
    notes: Option<string>,
    category: Option<string>)

  /** The user-supplied part of an entry. */
  function FieldsOf(e: Entry): Fields
  {
    Fields(e.title, e.password, e.url, e.username, e.notes, e.category)
  }

  /** `{ ...fields, id, createdAt, updatedAt }`: the fields are carried over unchanged. */
  function WithMetadata(f: Fields, id: string, createdAt: string, updatedAt: string): (e: Entry)
    ensures FieldsOf(e) == f
    ensures e.id == id && e.createdAt == createdAt && e.updatedAt == updatedAt
  {
    Entry(id, f.title, f.password, f.url, f.username, f.notes, f.category, createdAt, updatedAt)
  }

  /** JavaScript truthiness of an optional string: present and not the empty string. */
  predicate Truthy(o: Option<string>)
  {
    o.Some? && o.value != ""
  }
}
