/**
 * `receive_from(connection)`: read from a socket until a read returns no
 * data or raises, and return everything read before that.
 *
 * The socket is a script of read outcomes. Running past the end of the
 * script stands for a read that blocks until the 10-second timeout fires,
 * which the source catches like any other exception.
 */
module Drain {
  import opened Chunks

  /**
   * The outcome of one `connection.recv(4096)`: the bytes it returned, an
   * empty result (the peer shut the connection down), or an exception
   * (timeout or any other socket error).
   */
  datatype ReadOutcome = Data(bytes: Chunk) | Empty | Error

  /** A read that hands over data; `if not data: break` treats `Data([])` like `Empty`. */
  predicate Delivers(o: ReadOutcome) {
    o.Data? && |o.bytes| > 0
  }

  /** The bytes the reads delivered, in order. */
  function Payload(script: seq<ReadOutcome>): Chunk
  {
    if |script| == 0 then []
    else Payload(script[..|script| - 1]) + (match script[|script| - 1] case Data(b) => b case _ => [])
  }

  /**
   * The index of the read that ends the drain: the first read that does not
   * deliver data, or |script| when every scripted read delivers.
   */
  function StopAt(script: seq<ReadOutcome>): (k: nat)
    ensures k <= |script|
    ensures forall i :: 0 <= i < k ==> Delivers(script[i])
    ensures k < |script| ==> !Delivers(script[k])
  {
    if |script| == 0 || !Delivers(script[0]) then 0 else 1 + StopAt(script[1..])
  }

  /**
   * The drain loop. `buffer` is the concatenation of the chunks read before
   * the first empty read or exception, and `consumed` is how many scripted
   * reads were performed, the one that ended the loop included. No outcome
   * escapes as an error: the result is always a (possibly empty) chunk.
   */
  method ReceiveFrom(script: seq<ReadOutcome>) returns (buffer: Chunk, consumed: nat)
    ensures buffer == Payload(script[..StopAt(script)])
    ensures consumed == (if StopAt(script) < |script| then StopAt(script) + 1 else |script|)
    ensures |buffer| == 0 <==> (|script| == 0 || !Delivers(script[0]))
  {
    buffer := [];
    consumed := 0;
    while true
      invariant consumed <= |script|
      invariant forall j :: 0 <= j < consumed ==> Delivers(script[j])
      invariant buffer == Payload(script[..consumed])
      invariant |buffer| >= consumed
      decreases |script| - consumed
    {
      if consumed == |script| {
        // The next recv blocks until the timeout exception.
        break;
      }
      var outcome := script[consumed];
      if !Delivers(outcome) {
        consumed := consumed + 1;
        break;
      }
      assert script[..consumed + 1][..consumed] == script[..consumed];
      buffer := buffer + outcome.bytes;
      consumed := consumed + 1;
    }
  }

  /** The reads left after one drain. */
  function Rest(script: seq<ReadOutcome>): seq<ReadOutcome>
  {
    var k := StopAt(script);
    if k < |script| then script[k + 1..] else []
  }

  /**
   * The successive results of calling `receive_from` until the script is
   * used up: one drain per run of deliveries, an empty drain for each read
   * that delivers nothing right away.
   */
  function DrainAll(script: seq<ReadOutcome>): seq<Chunk>
    decreases |script|
  {
    if |script| == 0 then [] else [Payload(script[..StopAt(script)])] + DrainAll(Rest(script))
  }

  lemma {:induction false} PayloadAppend(a: seq<ReadOutcome>, b: seq<ReadOutcome>)
    ensures Payload(a + b) == Payload(a) + Payload(b)
    decreases |b|
  {
    if |b| == 0 {
      assert a + b == a;
    } else {
      assert (a + b)[..|a + b| - 1] == a + b[..|b| - 1];
      PayloadAppend(a, b[..|b| - 1]);
    }
  }

  /** A read that delivers nothing adds nothing to the payload. */
  lemma PayloadSkip(a: seq<ReadOutcome>, o: ReadOutcome, b: seq<ReadOutcome>)
    requires !Delivers(o)
    ensures Payload(a + [o] + b) == Payload(a) + Payload(b)
  {
    PayloadAppend(a + [o], b);
    assert (a + [o])[..|a + [o]| - 1] == a;
  }

  /** One drain, then the drains of the reads after it. */
  lemma DrainAllCons(script: seq<ReadOutcome>)
    requires |script| > 0
    ensures Flatten(DrainAll(script)) == Payload(script[..StopAt(script)]) + Flatten(DrainAll(Rest(script)))
  {
    var first := Payload(script[..StopAt(script)]);
    var rest := DrainAll(Rest(script));
    assert DrainAll(script) == [first] + rest;
    assert ([first] + rest)[1..] == rest;
  }

  /** The bytes of one drain and of the reads after it are the bytes of the whole script. */
  lemma PayloadSplit(script: seq<ReadOutcome>)
    ensures Payload(script[..StopAt(script)]) + Payload(Rest(script)) == Payload(script)
  {
    var k := StopAt(script);
    if k < |script| {
      assert script == script[..k] + [script[k]] + script[k + 1..];
      PayloadSkip(script[..k], script[k], script[k + 1..]);
    } else {
      assert script[..k] == script;
    }
  }

  /** Drain after drain, no delivered byte is lost, duplicated or reordered. */
  lemma {:induction false} DrainAllPayload(script: seq<ReadOutcome>)
    ensures Flatten(DrainAll(script)) == Payload(script)
    decreases |script|
  {
    if |script| > 0 {
      DrainAllCons(script);
      DrainAllPayload(Rest(script));
      PayloadSplit(script);
    }
  }
}
