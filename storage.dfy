/**
 * An abstract view of a file on disk, shared by the three persistent
 * components. A file slot is `Option<Content<T>>`: `None` when the file does
 * not exist. JSON encoding and decoding are abstracted away: a file either
 * decodes to a document of type T, fails to decode, or cannot be read at all.
 */
module Storage {
  import opened Wrappers

  datatype Content<T> =
    | Doc(value: T)     // the file parses to this document
    | Malformed         // the file exists but is not valid JSON (json.JSONDecodeError)
    | Unreadable        // reading it as text raises something else (permissions, encoding)

  /** How the environment lets one write (or copy) of a whole file go. */
  datatype WriteOutcome =
    | Written           // the write completes
    | Refused           // the write raises before the file is touched
    | Torn              // the write raises after truncating the file

  /** The slot after writing `c` into it with outcome `w`. */
  function Write<T>(slot: Option<Content<T>>, c: Content<T>, w: WriteOutcome): (r: Option<Content<T>>)
    ensures w.Written? && c.Doc? ==> Decoded(r) == Some(c.value)
    ensures w.Torn? ==> r.Some? && Decoded(r).None?
    ensures w.Refused? ==> r == slot
    ensures !w.Refused? ==> r.Some?
  {
    match w
    case Written => Some(c)
    case Refused => slot
    case Torn => Some(Malformed)
  }

  /** The document a slot decodes to, if any (`json.loads` succeeding). */
  function Decoded<T>(slot: Option<Content<T>>): (r: Option<T>)
    ensures r.Some? <==> slot.Some? && slot.value.Doc?
  {
    match slot
    case Some(Doc(v)) => Some(v)
    case _ => None
  }
}
