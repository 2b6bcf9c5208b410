/** Bytes and the chunks of bytes that reads and drains produce. */
module Chunks {

  newtype byte = x: int | 0 <= x < 256

  /** The bytes one read or one drain produced; empty means nothing was received. */
  type Chunk = seq<byte>

  /** `b"".join(chunks)`. */
  function Flatten(chunks: seq<Chunk>): Chunk
  {
    if |chunks| == 0 then [] else chunks[0] + Flatten(chunks[1..])
  }

  /** The text whose characters have the codes of the bytes, one character per byte. */
  function BytesAsText(src: Chunk): (text: string)
    ensures |text| == |src|
    ensures forall i :: 0 <= i < |src| ==> text[i] as int == src[i] as int
  {
    seq(|src|, i requires 0 <= i < |src| => (src[i] as int) as char)
  }

  /** Joining distributes over concatenation of the chunk lists. */
  lemma {:induction false} FlattenAppend(a: seq<Chunk>, b: seq<Chunk>)
    ensures Flatten(a + b) == Flatten(a) + Flatten(b)
  {
    if |a| > 0 {
      assert (a + b)[1..] == a[1..] + b;
      FlattenAppend(a[1..], b);
    } else {
      assert a + b == b;
    }
  }
}
