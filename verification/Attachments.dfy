/** What the attachment codecs share. */
module Attachments {

  type byte = bv8

  datatype SCLError = NoErr | BufferTooSmall | CorruptData

  lemma SumsAssociate(a: seq<byte>, b: seq<byte>, c: seq<byte>)
    ensures a + (b + c) == (a + b) + c
  {
  }
}
