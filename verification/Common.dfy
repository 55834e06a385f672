/** Values shared by every part of the model. */
module Common {

  datatype Option<+T> = None | Some(value: T)

  newtype byte = b: int | 0 <= b < 256

  type Bytes = seq<byte>

  /** The header list and status a response is published with. */
  datatype ResponseMeta = ResponseMeta(status: nat, headers: seq<(string, string)>)

  /** A cached response. Times are nanoseconds on the wall clock. */
  datatype CacheEntry = CacheEntry(
    data: Bytes, headers: seq<(string, string)>, status: nat, timestamp: nat, ttlSeconds: nat)

  /** The bytes of a chunk sequence, in order. */
  function Concat(chunks: seq<Bytes>): Bytes {
    if chunks == [] then [] else Concat(chunks[..|chunks| - 1]) + chunks[|chunks| - 1]
  }

  lemma ConcatSnoc(chunks: seq<Bytes>, chunk: Bytes)
    ensures Concat(chunks + [chunk]) == Concat(chunks) + chunk
  {
    assert (chunks + [chunk])[..|chunks|] == chunks;
  }

  const NANOS: nat := 1_000_000_000

  function Last<T>(s: seq<T>): T
    requires s != []
  {
    s[|s| - 1]
  }
}
