/** The keyed-archiver codec, reduced to what the cache relies on: encoding
    is lossless, and stored data either decodes to a whole item sequence or
    does not decode at all. */
module Archive {

  datatype Option<+T> = None | Some(value: T)

  /** The contents of an archive file: an encoded item sequence, or bytes
      that do not unarchive to a sequence of the cache's item type (corrupt
      data, or an archive of some other type). */
  datatype Blob<T> = Archived(items: seq<T>) | Unreadable

  /** Archives a whole item sequence. */
  function Encode<T>(items: seq<T>): Blob<T>
  {
    Archived(items)
  }

  /** Unarchives stored data and casts it to an item sequence; `None` when
      either step fails. Whatever decodes is exactly what was encoded. */
  function Decode<T>(data: Blob<T>): (r: Option<seq<T>>)
    ensures r.Some? ==> Encode(r.value) == data
    ensures data == Unreadable ==> r == None
  {
    match data
    case Archived(items) => Some(items)
    case Unreadable => None
  }

  /** Encoding is lossless, the empty sequence included. */
  lemma DecodeEncode<T>(items: seq<T>)
    ensures Decode(Encode(items)) == Some(items)
  {
  }
}
