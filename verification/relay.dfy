/**
 * `proxy_handler`: the relay session between one client and its remote.
 *
 * Both peers are scripts of drain results, the chunks successive calls of
 * `receive_from` return on that socket; a used-up script keeps draining
 * empty. The session is a state machine CONNECTING -> RELAYING -> CLOSED
 * whose observable output is a trace of socket events: the drains, the
 * sends (with the buffer handed to `send`) and the two closes. Every
 * non-empty drain is first logged with `hexdump`; when that raises, the
 * session's thread ends on the spot, and the session is ABORTED with both
 * sockets still open.
 */
module Relay {
  import opened Chunks
  import opened Utf8Codec
  import opened HexDump

  /** The two sockets a session owns. */
  datatype Side = Client | Remote

  /** One observable socket action of the session. */
  datatype Event =
    | Recv(from: Side, data: Chunk)
    | Send(to: Side, data: Chunk)
    | Close(side: Side)

  /**
   * The points where the session hands a buffer to code outside the loop:
   * `request_handler` rewrites what goes to the remote, `response_handler`
   * what goes to the client, and `logs` says whether logging a drain with
   * `hexdump` returns (false: it raises).
   */
  datatype Hooks = Hooks(request: Chunk -> Chunk, response: Chunk -> Chunk, logs: Chunk -> bool)

  /** `request_handler`: performs no modification. */
  function RequestHandler(buffer: Chunk): (r: Chunk)
    ensures r == buffer
  {
    buffer
  }

  /** `response_handler`: performs no modification. */
  function ResponseHandler(buffer: Chunk): (r: Chunk)
    ensures r == buffer
  {
    buffer
  }

  /** `hexdump(buffer)` with its default width returns exactly when the buffer decodes as UTF-8. */
  function Dumps(buffer: Chunk): (ok: bool)
    ensures ok <==> Utf8(buffer)
  {
    HexDumpBytes(buffer, 16).Ok?
  }

  /** The hooks the proxy ships with. */
  function SourceHooks(): Hooks
  {
    Hooks(RequestHandler, ResponseHandler, Dumps)
  }

  /** Logging the bytes themselves, which never raises. */
  function DumpsRaw(buffer: Chunk): (ok: bool)
    ensures ok
  {
    HexDumpRaw(buffer, 16).Ok?
  }

  /** The shipped hooks with a log that dumps the bytes instead of decoded text. */
  function FixedHooks(): Hooks
  {
    Hooks(RequestHandler, ResponseHandler, DumpsRaw)
  }

  /** `hexdump` is only called on a non-empty drain; this says it raises there. */
  predicate Raises(hooks: Hooks, drained: Chunk)
  {
    |drained| > 0 && !hooks.logs(drained)
  }

  datatype Phase = Connecting | Relaying | Closed | Aborted

  /** A session: its phase, the drains still to come on each side, and what it has done so far. */
  datatype Session = Session(phase: Phase, client: seq<Chunk>, remote: seq<Chunk>, trace: seq<Event>)

  /** The session has ended, by closing both sockets or by an exception. */
  predicate Done(s: Session)
  {
    s.phase == Closed || s.phase == Aborted
  }

  /** The next drain of a script; a used-up script drains empty. */
  function Head(s: seq<Chunk>): Chunk
  {
    if |s| == 0 then [] else s[0]
  }

  function Tail(s: seq<Chunk>): seq<Chunk>
  {
    if |s| == 0 then [] else s[1..]
  }

  /** Drain j of a script. */
  function Nth(s: seq<Chunk>, j: nat): Chunk
  {
    if j < |s| then s[j] else []
  }

  /** The first n drains of a script. */
  function Drains(s: seq<Chunk>, n: nat): seq<Chunk>
  {
    seq(n, j requires 0 <= j < n => Nth(s, j))
  }

  /**
   * The buffer once the `if len(buffer):` block has run: the hook's output
   * when something was drained, the empty drain otherwise.
   */
  function Handled(hook: Chunk -> Chunk, drained: Chunk): Chunk
  {
    if |drained| > 0 then hook(drained) else drained
  }

  /** The send of a non-empty drain, after the hook. */
  function Forward(to: Side, hook: Chunk -> Chunk, drained: Chunk): seq<Event>
  {
    if |drained| > 0 then [Send(to, hook(drained))] else []
  }

  /** The first half of a loop pass: drain the client and forward what came. */
  function ClientHalf(local: Chunk, hooks: Hooks): seq<Event>
  {
    [Recv(Client, local)] + Forward(Remote, hooks.request, local)
  }

  /** One pass of the relay loop up to the termination test, in program order. */
  function IterationEvents(local: Chunk, remote: Chunk, hooks: Hooks): seq<Event>
  {
    ClientHalf(local, hooks) + [Recv(Remote, remote)] + Forward(Client, hooks.response, remote)
  }

  /**
   * The termination test: the loop goes on only when both buffers, as they
   * stand after the hooks, are non-empty.
   */
  predicate Continues(local: Chunk, remote: Chunk, hooks: Hooks)
  {
    |Handled(hooks.request, local)| > 0 && |Handled(hooks.response, remote)| > 0
  }

  /** A pass whose logging raises, on either drain. */
  predicate PassAborts(local: Chunk, remote: Chunk, hooks: Hooks)
  {
    Raises(hooks, local) || Raises(hooks, remote)
  }

  /**
   * What one pass does to the trace. When the client drain cannot be logged
   * the pass stops after draining it; when the remote drain cannot, after
   * draining the remote, with the client drain already forwarded. Otherwise
   * the whole pass runs, and the two closes follow when it ends the loop.
   */
  function PassEvents(local: Chunk, remote: Chunk, hooks: Hooks): seq<Event>
  {
    if Raises(hooks, local) then [Recv(Client, local)]
    else if Raises(hooks, remote) then ClientHalf(local, hooks) + [Recv(Remote, remote)]
    else IterationEvents(local, remote, hooks) + (if Continues(local, remote, hooks) then [] else [Close(Client), Close(Remote)])
  }

  /** The phase after one pass. */
  function PassPhase(local: Chunk, remote: Chunk, hooks: Hooks): Phase
  {
    if PassAborts(local, remote, hooks) then Aborted
    else if Continues(local, remote, hooks) then Relaying
    else Closed
  }

  /** What is left to run: the phase first, then the client drains. */
  function Measure(s: Session): nat
  {
    match s.phase
    case Closed => 0
    case Aborted => 0
    case Relaying => |s.client| + 1
    case Connecting => |s.client| + 2
  }

  predicate Extends(t: seq<Event>, s: seq<Event>)
  {
    |s| <= |t| && t[..|s|] == s
  }

  /** A session that has just ended with an exception: its last event is the drain that could not be logged. */
  predicate EndsOnRaise(t: Session, hooks: Hooks)
  {
    |t.trace| > 0 && t.trace[|t.trace| - 1].Recv? && Raises(hooks, t.trace[|t.trace| - 1].data)
  }

  /**
   * One transition. CONNECTING drains the remote once when `receiveFirst`
   * is set, and only logs the result. RELAYING runs one loop pass. An ended
   * session does nothing.
   */
  function Step(s: Session, receiveFirst: bool, hooks: Hooks): (t: Session)
    ensures Done(s) ==> t == s
    ensures !Done(s) ==> t.phase != Connecting && Measure(t) < Measure(s)
    ensures !Done(s) && t.phase == Aborted ==> EndsOnRaise(t, hooks)
    ensures Extends(t.trace, s.trace)
  {
    match s.phase
    case Closed => s
    case Aborted => s
    case Connecting =>
      if receiveFirst then
        var greeting := Head(s.remote);
        Session(if Raises(hooks, greeting) then Aborted else Relaying, s.client, Tail(s.remote), s.trace + [Recv(Remote, greeting)])
      else s.(phase := Relaying)
    case Relaying =>
      var local := Head(s.client);
      var remote := Head(s.remote);
      Session(PassPhase(local, remote, hooks), Tail(s.client),
              if Raises(hooks, local) then s.remote else Tail(s.remote),
              s.trace + PassEvents(local, remote, hooks))
  }

  /** Runs the session until it has ended. */
  function Run(s: Session, receiveFirst: bool, hooks: Hooks): (t: Session)
    ensures Done(t)
    ensures Extends(t.trace, s.trace)
    decreases Measure(s)
  {
    if Done(s) then s else Run(Step(s, receiveFirst, hooks), receiveFirst, hooks)
  }

  /** `proxy_handler(client_socket, remote_host, remote_port, receive_first)` once the remote is connected. */
  function ProxyHandler(client: seq<Chunk>, remote: seq<Chunk>, receiveFirst: bool, hooks: Hooks): Session
  {
    Run(Session(Connecting, client, remote, []), receiveFirst, hooks)
  }

  // ---------------------------------------------------------------------
  // Reference definitions.
  // ---------------------------------------------------------------------

  /** A pass after which the loop goes on: both drains are logged and both buffers are non-empty. */
  predicate Clean(local: Chunk, remote: Chunk, hooks: Hooks)
  {
    !PassAborts(local, remote, hooks) && Continues(local, remote, hooks)
  }

  /**
   * The number of loop passes: one more than the number of leading passes
   * that go on.
   */
  function Iterations(client: seq<Chunk>, remote: seq<Chunk>, hooks: Hooks): (n: nat)
    ensures 1 <= n
    ensures forall j :: 0 <= j < n - 1 ==> Clean(Nth(client, j), Nth(remote, j), hooks)
    ensures !Clean(Nth(client, n - 1), Nth(remote, n - 1), hooks)
    decreases |client|
  {
    if !Clean(Head(client), Head(remote), hooks) then 1
    else
      var rest := Iterations(Tail(client), Tail(remote), hooks);
      CleanShift(client, remote, hooks, rest - 1);
      1 + rest
  }

  lemma NthTail(s: seq<Chunk>, j: nat)
    ensures Nth(Tail(s), j) == Nth(s, j + 1)
  {
  }

  /** Passes that go on after a first pass that goes on go on from the second drain on. */
  lemma CleanShift(client: seq<Chunk>, remote: seq<Chunk>, hooks: Hooks, m: nat)
    requires Clean(Head(client), Head(remote), hooks)
    requires forall j :: 0 <= j < m ==> Clean(Nth(Tail(client), j), Nth(Tail(remote), j), hooks)
    ensures forall j :: 0 <= j < m + 1 ==> Clean(Nth(client, j), Nth(remote, j), hooks)
    ensures !Clean(Nth(Tail(client), m), Nth(Tail(remote), m), hooks) ==> !Clean(Nth(client, m + 1), Nth(remote, m + 1), hooks)
  {
    forall j | 0 <= j < m + 1
      ensures Clean(Nth(client, j), Nth(remote, j), hooks)
    {
      if j > 0 {
        NthTail(client, j - 1);
        NthTail(remote, j - 1);
      }
    }
    NthTail(client, m);
    NthTail(remote, m);
  }

  /** Whether the last pass raised, so that the session ends without closing. */
  predicate Aborts(client: seq<Chunk>, remote: seq<Chunk>, hooks: Hooks)
  {
    var n := Iterations(client, remote, hooks);
    PassAborts(Nth(client, n - 1), Nth(remote, n - 1), hooks)
  }

  /** The passes that reach the remote drain: all of them, unless the last client drain raised. */
  function RemoteDrains(client: seq<Chunk>, remote: seq<Chunk>, hooks: Hooks): nat
  {
    var n := Iterations(client, remote, hooks);
    if Raises(hooks, Nth(client, n - 1)) then n - 1 else n
  }

  /** The passes that reach the send to the client: all of them, unless the last pass raised. */
  function Answered(client: seq<Chunk>, remote: seq<Chunk>, hooks: Hooks): nat
  {
    var n := Iterations(client, remote, hooks);
    if Aborts(client, remote, hooks) then n - 1 else n
  }

  /** The drain the session ended on when it raised. */
  function Failure(client: seq<Chunk>, remote: seq<Chunk>, hooks: Hooks): Event
  {
    var n := Iterations(client, remote, hooks);
    if Raises(hooks, Nth(client, n - 1)) then Recv(Client, Nth(client, n - 1)) else Recv(Remote, Nth(remote, n - 1))
  }

  /** The buffer an event sends to `side`, if it is such a send. */
  function SentBy(side: Side, e: Event): seq<Chunk>
  {
    match e
    case Send(to, data) => if to == side then [data] else []
    case _ => []
  }

  /** The buffers sent to one side, in order. */
  function SentTo(side: Side, trace: seq<Event>): seq<Chunk>
  {
    if |trace| == 0 then [] else SentBy(side, trace[0]) + SentTo(side, trace[1..])
  }

  /** The number of close events for one side. */
  function Closes(side: Side, trace: seq<Event>): nat
  {
    if |trace| == 0 then 0 else (if trace[0] == Close(side) then 1 else 0) + Closes(side, trace[1..])
  }

  /** The hook applied to each non-empty drain, in order. */
  function Hooked(hook: Chunk -> Chunk, drains: seq<Chunk>): seq<Chunk>
  {
    if |drains| == 0 then []
    else (if |drains[0]| > 0 then [hook(drains[0])] else []) + Hooked(hook, drains[1..])
  }

  /** The non-empty drains, in order. */
  function NonEmpty(drains: seq<Chunk>): seq<Chunk>
  {
    if |drains| == 0 then []
    else (if |drains[0]| > 0 then [drains[0]] else []) + NonEmpty(drains[1..])
  }

  /** The drains left after the first n. */
  function Drop(s: seq<Chunk>, n: nat): seq<Chunk>
  {
    if n <= |s| then s[n..] else []
  }

  /** What one pass sends to `side`. */
  function PassSent(side: Side, local: Chunk, remote: Chunk, hooks: Hooks): seq<Chunk>
  {
    if side == Remote then (if Raises(hooks, local) then [] else Hooked(hooks.request, [local]))
    else (if PassAborts(local, remote, hooks) then [] else Hooked(hooks.response, [remote]))
  }

  /** What one pass closes on `side`. */
  function PassCloses(local: Chunk, remote: Chunk, hooks: Hooks): nat
  {
    if PassAborts(local, remote, hooks) || Continues(local, remote, hooks) then 0 else 1
  }

  /** The buffers a RELAYING session should send to `side` over the passes it runs. */
  function Sent(side: Side, hooks: Hooks, client: seq<Chunk>, remote: seq<Chunk>): seq<Chunk>
  {
    if side == Remote then Hooked(hooks.request, Drains(client, RemoteDrains(client, remote, hooks)))
    else Hooked(hooks.response, Drains(remote, Answered(client, remote, hooks)))
  }

  // ---------------------------------------------------------------------
  // Properties.
  // ---------------------------------------------------------------------

  lemma {:induction false} SentToAppend(side: Side, a: seq<Event>, b: seq<Event>)
    ensures SentTo(side, a + b) == SentTo(side, a) + SentTo(side, b)
  {
    if |a| > 0 {
      assert (a + b)[1..] == a[1..] + b;
      SentToAppend(side, a[1..], b);
    } else {
      assert a + b == b;
    }
  }

  lemma {:induction false} ClosesAppend(side: Side, a: seq<Event>, b: seq<Event>)
    ensures Closes(side, a + b) == Closes(side, a) + Closes(side, b)
  {
    if |a| > 0 {
      assert (a + b)[1..] == a[1..] + b;
      ClosesAppend(side, a[1..], b);
    } else {
      assert a + b == b;
    }
  }

  lemma SentToOne(side: Side, e: Event)
    ensures SentTo(side, [e]) == SentBy(side, e)
    ensures Closes(side, [e]) == (if e == Close(side) then 1 else 0)
  {
    assert [e][1..] == [];
  }

  /** Appending one event adds what that event sends and closes. */
  lemma TrafficSnoc(side: Side, a: seq<Event>, e: Event)
    ensures SentTo(side, a + [e]) == SentTo(side, a) + SentBy(side, e)
    ensures Closes(side, a + [e]) == Closes(side, a) + (if e == Close(side) then 1 else 0)
  {
    SentToAppend(side, a, [e]);
    ClosesAppend(side, a, [e]);
    SentToOne(side, e);
  }

  /** A send of a non-empty drain only shows up on the side it goes to. */
  lemma ForwardTraffic(to: Side, hook: Chunk -> Chunk, drained: Chunk, side: Side)
    ensures SentTo(side, Forward(to, hook, drained)) == (if side == to && |drained| > 0 then [hook(drained)] else [])
    ensures Closes(side, Forward(to, hook, drained)) == 0
  {
    if |drained| > 0 {
      SentToOne(side, Send(to, hook(drained)));
    }
  }

  lemma HookedCons(hook: Chunk -> Chunk, x: Chunk, rest: seq<Chunk>)
    ensures Hooked(hook, [x] + rest) == (if |x| > 0 then [hook(x)] else []) + Hooked(hook, rest)
  {
    assert ([x] + rest)[1..] == rest;
  }

  lemma HookedOne(hook: Chunk -> Chunk, x: Chunk)
    ensures Hooked(hook, [x]) == (if |x| > 0 then [hook(x)] else [])
  {
    HookedCons(hook, x, []);
    assert [x] + [] == [x];
  }

  /** The first half of a pass sends the hooked client drain to the remote when it is non-empty, and closes nothing. */
  lemma ClientHalfTraffic(local: Chunk, remote: Chunk, hooks: Hooks, side: Side)
    ensures SentTo(side, ClientHalf(local, hooks) + [Recv(Remote, remote)])
              == (if side == Remote then Hooked(hooks.request, [local]) else [])
    ensures Closes(side, ClientHalf(local, hooks) + [Recv(Remote, remote)]) == 0
  {
    var a := [Recv(Client, local)];
    var b := Forward(Remote, hooks.request, local);
    SentToAppend(side, a, b);
    ClosesAppend(side, a, b);
    SentToOne(side, Recv(Client, local));
    ForwardTraffic(Remote, hooks.request, local, side);
    TrafficSnoc(side, a + b, Recv(Remote, remote));
    HookedOne(hooks.request, local);
  }

  /**
   * One whole pass sends the hooked client drain to the remote when that
   * drain is non-empty, and the hooked remote drain to the client when that
   * one is, whatever the client drain was; it closes nothing.
   */
  lemma IterationTraffic(local: Chunk, remote: Chunk, hooks: Hooks, side: Side)
    ensures SentTo(side, IterationEvents(local, remote, hooks))
              == (if side == Remote then Hooked(hooks.request, [local]) else Hooked(hooks.response, [remote]))
    ensures Closes(side, IterationEvents(local, remote, hooks)) == 0
  {
    var h := ClientHalf(local, hooks) + [Recv(Remote, remote)];
    var d := Forward(Client, hooks.response, remote);
    assert IterationEvents(local, remote, hooks) == h + d;
    ClientHalfTraffic(local, remote, hooks, side);
    SentToAppend(side, h, d);
    ClosesAppend(side, h, d);
    ForwardTraffic(Client, hooks.response, remote, side);
    HookedOne(hooks.response, remote);
  }

  /**
   * What one pass sends and closes on `side`: a pass that raises on the
   * client drain sends nothing, one that raises on the remote drain only
   * forwards the client drain, and neither closes anything; a pass that
   * raises on neither forwards both and closes each side once when it ends
   * the loop.
   */
  lemma PassTraffic(local: Chunk, remote: Chunk, hooks: Hooks, side: Side)
    ensures SentTo(side, PassEvents(local, remote, hooks)) == PassSent(side, local, remote, hooks)
    ensures Closes(side, PassEvents(local, remote, hooks)) == PassCloses(local, remote, hooks)
  {
    if Raises(hooks, local) {
      assert PassEvents(local, remote, hooks) == [Recv(Client, local)];
      SentToOne(side, Recv(Client, local));
    } else if Raises(hooks, remote) {
      assert PassEvents(local, remote, hooks) == ClientHalf(local, hooks) + [Recv(Remote, remote)];
      ClientHalfTraffic(local, remote, hooks, side);
    } else {
      FullPassTraffic(local, remote, hooks, side);
    }
  }

  /** A pass that raises on neither drain: the traffic of the whole pass, then of the closes if it ends the loop. */
  lemma FullPassTraffic(local: Chunk, remote: Chunk, hooks: Hooks, side: Side)
    requires !PassAborts(local, remote, hooks)
    ensures SentTo(side, PassEvents(local, remote, hooks))
              == (if side == Remote then Hooked(hooks.request, [local]) else Hooked(hooks.response, [remote]))
    ensures Closes(side, PassEvents(local, remote, hooks)) == (if Continues(local, remote, hooks) then 0 else 1)
  {
    var it := IterationEvents(local, remote, hooks);
    IterationTraffic(local, remote, hooks, side);
    if Continues(local, remote, hooks) {
      assert PassEvents(local, remote, hooks) == it + [];
      SentToAppend(side, it, []);
      ClosesAppend(side, it, []);
    } else {
      assert PassEvents(local, remote, hooks) == it + [Close(Client)] + [Close(Remote)];
      TrafficSnoc(side, it, Close(Client));
      TrafficSnoc(side, it + [Close(Client)], Close(Remote));
    }
  }

  lemma DrainsCons(s: seq<Chunk>, n: nat)
    requires 1 <= n
    ensures Drains(s, n) == [Head(s)] + Drains(Tail(s), n - 1)
  {
    var rhs := [Head(s)] + Drains(Tail(s), n - 1);
    forall j | 0 <= j < n
      ensures Drains(s, n)[j] == rhs[j]
    {
      if j > 0 {
        assert rhs[j] == Nth(Tail(s), j - 1);
        NthTail(s, j - 1);
      }
    }
  }

  lemma HookedDrainsCons(hook: Chunk -> Chunk, s: seq<Chunk>, k: nat)
    requires 1 <= k
    ensures Hooked(hook, Drains(s, k)) == Hooked(hook, [Head(s)]) + Hooked(hook, Drains(Tail(s), k - 1))
  {
    DrainsCons(s, k);
    HookedCons(hook, Head(s), Drains(Tail(s), k - 1));
    HookedOne(hook, Head(s));
  }

  /** A RELAYING transition runs one pass. */
  lemma StepRelaying(s: Session, receiveFirst: bool, hooks: Hooks)
    requires s.phase == Relaying
    ensures Step(s, receiveFirst, hooks).trace == s.trace + PassEvents(Head(s.client), Head(s.remote), hooks)
    ensures Step(s, receiveFirst, hooks).client == Tail(s.client)
    ensures Step(s, receiveFirst, hooks).remote == (if Raises(hooks, Head(s.client)) then s.remote else Tail(s.remote))
    ensures Step(s, receiveFirst, hooks).phase == PassPhase(Head(s.client), Head(s.remote), hooks)
  {
  }

  /** What one RELAYING transition sends and closes. */
  lemma StepTraffic(s: Session, receiveFirst: bool, hooks: Hooks, side: Side)
    requires s.phase == Relaying
    ensures SentTo(side, Step(s, receiveFirst, hooks).trace)
              == SentTo(side, s.trace) + PassSent(side, Head(s.client), Head(s.remote), hooks)
    ensures Closes(side, Step(s, receiveFirst, hooks).trace)
              == Closes(side, s.trace) + PassCloses(Head(s.client), Head(s.remote), hooks)
  {
    var e := PassEvents(Head(s.client), Head(s.remote), hooks);
    StepRelaying(s, receiveFirst, hooks);
    SentToAppend(side, s.trace, e);
    ClosesAppend(side, s.trace, e);
    PassTraffic(Head(s.client), Head(s.remote), hooks, side);
  }

  /** A pass that goes on leaves the counts of the rest of the loop one pass shorter. */
  lemma CountsStep(client: seq<Chunk>, remote: seq<Chunk>, hooks: Hooks)
    requires Clean(Head(client), Head(remote), hooks)
    ensures Iterations(client, remote, hooks) == 1 + Iterations(Tail(client), Tail(remote), hooks)
    ensures Aborts(client, remote, hooks) == Aborts(Tail(client), Tail(remote), hooks)
    ensures RemoteDrains(client, remote, hooks) == 1 + RemoteDrains(Tail(client), Tail(remote), hooks)
    ensures Answered(client, remote, hooks) == 1 + Answered(Tail(client), Tail(remote), hooks)
    ensures Failure(client, remote, hooks) == Failure(Tail(client), Tail(remote), hooks)
  {
    var m := Iterations(Tail(client), Tail(remote), hooks);
    NthTail(client, m - 1);
    NthTail(remote, m - 1);
  }

  /** The counts when the first pass is the last. */
  lemma CountsLast(client: seq<Chunk>, remote: seq<Chunk>, hooks: Hooks)
    requires !Clean(Head(client), Head(remote), hooks)
    ensures Iterations(client, remote, hooks) == 1
    ensures Aborts(client, remote, hooks) == PassAborts(Head(client), Head(remote), hooks)
    ensures RemoteDrains(client, remote, hooks) == (if Raises(hooks, Head(client)) then 0 else 1)
    ensures Answered(client, remote, hooks) == (if PassAborts(Head(client), Head(remote), hooks) then 0 else 1)
    ensures Failure(client, remote, hooks)
              == (if Raises(hooks, Head(client)) then Recv(Client, Head(client)) else Recv(Remote, Head(remote)))
  {
    assert Nth(client, 0) == Head(client) && Nth(remote, 0) == Head(remote);
  }

  /** The expected sends split into the first pass and the rest, when the first pass goes on. */
  lemma SentCons(side: Side, hooks: Hooks, client: seq<Chunk>, remote: seq<Chunk>)
    requires Clean(Head(client), Head(remote), hooks)
    ensures Sent(side, hooks, client, remote)
              == PassSent(side, Head(client), Head(remote), hooks) + Sent(side, hooks, Tail(client), Tail(remote))
  {
    CountsStep(client, remote, hooks);
    HookedDrainsCons(hooks.request, client, RemoteDrains(client, remote, hooks));
    HookedDrainsCons(hooks.response, remote, Answered(client, remote, hooks));
  }

  /** The expected sends when the first pass is the last. */
  lemma SentLast(side: Side, hooks: Hooks, client: seq<Chunk>, remote: seq<Chunk>)
    requires !Clean(Head(client), Head(remote), hooks)
    ensures Sent(side, hooks, client, remote) == PassSent(side, Head(client), Head(remote), hooks)
  {
    CountsLast(client, remote, hooks);
    assert Drains(client, 1) == [Head(client)];
    assert Drains(remote, 1) == [Head(remote)];
    assert Drains(client, 0) == [] && Drains(remote, 0) == [];
  }

  lemma RunRelaying(s: Session, receiveFirst: bool, hooks: Hooks)
    requires s.phase == Relaying
    ensures Run(s, receiveFirst, hooks) == Run(Step(s, receiveFirst, hooks), receiveFirst, hooks)
  {
  }

  /** A RELAYING pass that does not go on ends the run. */
  lemma RunLast(s: Session, receiveFirst: bool, hooks: Hooks)
    requires s.phase == Relaying && !Clean(Head(s.client), Head(s.remote), hooks)
    ensures Run(s, receiveFirst, hooks) == Step(s, receiveFirst, hooks)
  {
    StepRelaying(s, receiveFirst, hooks);
  }

  /** The sends of a pass that goes on, given the sends of the run after it. */
  lemma SendsContinue(s: Session, receiveFirst: bool, hooks: Hooks, side: Side)
    requires s.phase == Relaying && Clean(Head(s.client), Head(s.remote), hooks)
    requires var u := Step(s, receiveFirst, hooks);
             SentTo(side, Run(u, receiveFirst, hooks).trace) == SentTo(side, u.trace) + Sent(side, hooks, u.client, u.remote)
    ensures SentTo(side, Run(s, receiveFirst, hooks).trace) == SentTo(side, s.trace) + Sent(side, hooks, s.client, s.remote)
  {
    var u := Step(s, receiveFirst, hooks);
    var first := PassSent(side, Head(s.client), Head(s.remote), hooks);
    var before := SentTo(side, s.trace);
    var rest := Sent(side, hooks, Tail(s.client), Tail(s.remote));
    assert u.client == Tail(s.client) && u.remote == Tail(s.remote) by {
      StepRelaying(s, receiveFirst, hooks);
    }
    assert Run(s, receiveFirst, hooks) == Run(u, receiveFirst, hooks) by {
      RunRelaying(s, receiveFirst, hooks);
    }
    assert SentTo(side, u.trace) == before + first by {
      StepTraffic(s, receiveFirst, hooks, side);
    }
    assert Sent(side, hooks, s.client, s.remote) == first + rest by {
      SentCons(side, hooks, s.client, s.remote);
    }
    Regroup(SentTo(side, Run(u, receiveFirst, hooks).trace), SentTo(side, u.trace), before, first, rest);
  }

  lemma Regroup(whole: seq<Chunk>, prefix: seq<Chunk>, before: seq<Chunk>, first: seq<Chunk>, rest: seq<Chunk>)
    requires whole == prefix + rest && prefix == before + first
    ensures whole == before + (first + rest)
  {
  }

  /** The closes of a pass that goes on, given the closes of the run after it. */
  lemma ClosesContinue(s: Session, receiveFirst: bool, hooks: Hooks, side: Side)
    requires s.phase == Relaying && Clean(Head(s.client), Head(s.remote), hooks)
    requires var u := Step(s, receiveFirst, hooks);
             Closes(side, Run(u, receiveFirst, hooks).trace)
               == Closes(side, u.trace) + (if Aborts(u.client, u.remote, hooks) then 0 else 1)
    ensures Closes(side, Run(s, receiveFirst, hooks).trace)
              == Closes(side, s.trace) + (if Aborts(s.client, s.remote, hooks) then 0 else 1)
  {
    RunRelaying(s, receiveFirst, hooks);
    StepRelaying(s, receiveFirst, hooks);
    StepTraffic(s, receiveFirst, hooks, side);
    CountsStep(s.client, s.remote, hooks);
  }

  /** The traffic of the pass that ends the session. */
  lemma TrafficLast(s: Session, receiveFirst: bool, hooks: Hooks, side: Side)
    requires s.phase == Relaying && !Clean(Head(s.client), Head(s.remote), hooks)
    ensures SentTo(side, Run(s, receiveFirst, hooks).trace) == SentTo(side, s.trace) + Sent(side, hooks, s.client, s.remote)
    ensures Closes(side, Run(s, receiveFirst, hooks).trace)
              == Closes(side, s.trace) + (if Aborts(s.client, s.remote, hooks) then 0 else 1)
  {
    RunLast(s, receiveFirst, hooks);
    StepTraffic(s, receiveFirst, hooks, side);
    SentLast(side, hooks, s.client, s.remote);
    CountsLast(s.client, s.remote, hooks);
  }

  /**
   * A RELAYING session sends to each side the hooked drains of the passes
   * that get as far as that send, and closes each side exactly once, unless
   * logging raised, in which case it closes neither.
   */
  lemma {:induction false} RelayTraffic(s: Session, receiveFirst: bool, hooks: Hooks, side: Side)
    requires s.phase == Relaying
    ensures SentTo(side, Run(s, receiveFirst, hooks).trace) == SentTo(side, s.trace) + Sent(side, hooks, s.client, s.remote)
    ensures Closes(side, Run(s, receiveFirst, hooks).trace)
              == Closes(side, s.trace) + (if Aborts(s.client, s.remote, hooks) then 0 else 1)
    decreases Measure(s)
  {
    if Clean(Head(s.client), Head(s.remote), hooks) {
      StepRelaying(s, receiveFirst, hooks);
      RelayTraffic(Step(s, receiveFirst, hooks), receiveFirst, hooks, side);
      SendsContinue(s, receiveFirst, hooks, side);
      ClosesContinue(s, receiveFirst, hooks, side);
    } else {
      TrafficLast(s, receiveFirst, hooks, side);
    }
  }

  /**
   * How a RELAYING session over these scripts, with trace `before`, has
   * ended as `t`: the client script has lost one drain per pass and the
   * remote script one per pass that reached its drain; a session that
   * closes ends its trace with the two closes, one that raises ends it on
   * the drain that could not be logged.
   */
  predicate EndState(client: seq<Chunk>, remote: seq<Chunk>, before: seq<Event>, hooks: Hooks, t: Session)
  {
    var aborts := Aborts(client, remote, hooks);
    && t.phase == (if aborts then Aborted else Closed)
    && t.client == Drop(client, Iterations(client, remote, hooks))
    && t.remote == Drop(remote, RemoteDrains(client, remote, hooks))
    && (!aborts ==> |t.trace| >= |before| + 2 && t.trace[|t.trace| - 2..] == [Close(Client), Close(Remote)])
    && (aborts ==> |t.trace| > |before| && t.trace[|t.trace| - 1] == Failure(client, remote, hooks))
  }

  /** How the pass that ends the session leaves it. */
  lemma EndLast(s: Session, receiveFirst: bool, hooks: Hooks)
    requires s.phase == Relaying && !Clean(Head(s.client), Head(s.remote), hooks)
    ensures EndState(s.client, s.remote, s.trace, hooks, Run(s, receiveFirst, hooks))
  {
    var local := Head(s.client);
    var remote := Head(s.remote);
    RunLast(s, receiveFirst, hooks);
    StepRelaying(s, receiveFirst, hooks);
    CountsLast(s.client, s.remote, hooks);
    var t := Step(s, receiveFirst, hooks).trace;
    if Raises(hooks, local) {
      assert t == s.trace + [Recv(Client, local)];
    } else if Raises(hooks, remote) {
      assert t == (s.trace + ClientHalf(local, hooks)) + [Recv(Remote, remote)];
    } else {
      assert t == (s.trace + IterationEvents(local, remote, hooks)) + [Close(Client), Close(Remote)];
    }
  }

  /** An end state of the scripts after a first pass that goes on is one of the whole scripts. */
  lemma EndShift(client: seq<Chunk>, remote: seq<Chunk>, before: seq<Event>, mid: seq<Event>, hooks: Hooks, t: Session)
    requires Clean(Head(client), Head(remote), hooks)
    requires |before| <= |mid|
    requires EndState(Tail(client), Tail(remote), mid, hooks, t)
    ensures EndState(client, remote, before, hooks, t)
  {
    CountsStep(client, remote, hooks);
    DropTail(client, Iterations(Tail(client), Tail(remote), hooks));
    DropTail(remote, RemoteDrains(Tail(client), Tail(remote), hooks));
  }

  /**
   * After a RELAYING session has run, the client script has lost one drain
   * per pass and the remote script one per pass that reached its drain. A
   * session that closes ends its trace with the two closes; one that raises
   * ends it on the drain that could not be logged.
   */
  lemma {:induction false} RelayEnd(s: Session, receiveFirst: bool, hooks: Hooks)
    requires s.phase == Relaying
    ensures EndState(s.client, s.remote, s.trace, hooks, Run(s, receiveFirst, hooks))
    decreases Measure(s)
  {
    if Clean(Head(s.client), Head(s.remote), hooks) {
      var u := Step(s, receiveFirst, hooks);
      assert u.phase == Relaying && u.client == Tail(s.client) && u.remote == Tail(s.remote) by {
        StepRelaying(s, receiveFirst, hooks);
      }
      assert Run(s, receiveFirst, hooks) == Run(u, receiveFirst, hooks) by {
        RunRelaying(s, receiveFirst, hooks);
      }
      RelayEnd(u, receiveFirst, hooks);
      EndShift(s.client, s.remote, s.trace, u.trace, hooks, Run(u, receiveFirst, hooks));
    } else {
      EndLast(s, receiveFirst, hooks);
    }
  }

  lemma DropTail(s: seq<Chunk>, m: nat)
    ensures Drop(Tail(s), m) == Drop(s, m + 1)
  {
  }

  // ---------------------------------------------------------------------
  // The whole session.
  // ---------------------------------------------------------------------

  /** Once connected, the `receive_first` flag plays no further part. */
  lemma {:induction false} RunIgnoresFlag(s: Session, hooks: Hooks)
    requires s.phase != Connecting
    ensures Run(s, true, hooks) == Run(s, false, hooks)
    decreases Measure(s)
  {
    if s.phase == Relaying {
      assert Step(s, true, hooks) == Step(s, false, hooks);
      RunIgnoresFlag(Step(s, true, hooks), hooks);
    }
  }

  /** A transition only appends to the trace, so an earlier prefix carries through. */
  lemma StepShift(s: Session, receiveFirst: bool, hooks: Hooks, p: seq<Event>)
    ensures var t := Step(s, receiveFirst, hooks);
            Step(s.(trace := p + s.trace), receiveFirst, hooks) == t.(trace := p + t.trace)
  {
    var t := Step(s, receiveFirst, hooks);
    assert t.trace == s.trace + t.trace[|s.trace|..];
    assert (p + s.trace) + t.trace[|s.trace|..] == p + t.trace;
  }

  lemma {:induction false} RunShift(s: Session, receiveFirst: bool, hooks: Hooks, p: seq<Event>)
    ensures var t := Run(s, receiveFirst, hooks);
            Run(s.(trace := p + s.trace), receiveFirst, hooks) == t.(trace := p + t.trace)
    decreases Measure(s)
  {
    if !Done(s) {
      var u := Step(s, receiveFirst, hooks);
      StepShift(s, receiveFirst, hooks, p);
      RunShift(u, receiveFirst, hooks, p);
    }
  }

  /**
   * With `receive_first` the session drains the remote once before the loop
   * and does nothing else with that buffer but log it: if logging raises,
   * the session ends there; otherwise it behaves exactly like a session
   * without the flag whose remote script starts one drain later.
   */
  lemma ReceiveFirstOnlyLogs(client: seq<Chunk>, remote: seq<Chunk>, hooks: Hooks)
    ensures var greeting := Head(remote);
            var t := ProxyHandler(client, Tail(remote), false, hooks);
            ProxyHandler(client, remote, true, hooks)
              == if Raises(hooks, greeting) then Session(Aborted, client, Tail(remote), [Recv(Remote, greeting)])
                 else t.(trace := [Recv(Remote, greeting)] + t.trace)
  {
    var greeting := [Recv(Remote, Head(remote))];
    var s0 := Session(Connecting, client, remote, []);
    if !Raises(hooks, Head(remote)) {
      var s := Session(Relaying, client, Tail(remote), []);
      assert ProxyHandler(client, Tail(remote), false, hooks) == Run(s, false, hooks);
      assert [] + greeting == greeting + [];
      assert Step(s0, true, hooks) == s.(trace := greeting + s.trace);
      assert ProxyHandler(client, remote, true, hooks) == Run(s.(trace := greeting + s.trace), true, hooks);
      RunIgnoresFlag(s, hooks);
      RunShift(s, true, hooks, greeting);
    } else {
      var t := Session(Aborted, client, Tail(remote), greeting);
      assert Step(s0, true, hooks) == t by {
        assert [] + greeting == greeting;
      }
      assert ProxyHandler(client, remote, true, hooks) == Run(t, true, hooks);
    }
  }

  /** The session right after connecting: the CONNECTING transition of a fresh session. */
  function Connected(client: seq<Chunk>, remote: seq<Chunk>, receiveFirst: bool, hooks: Hooks): (s: Session)
    ensures s == Step(Session(Connecting, client, remote, []), receiveFirst, hooks)
  {
    if receiveFirst then
      Session(if Raises(hooks, Head(remote)) then Aborted else Relaying, client, Tail(remote), [Recv(Remote, Head(remote))])
    else Session(Relaying, client, remote, [])
  }

  /** Connecting sends and closes nothing. */
  lemma ConnectedTraffic(client: seq<Chunk>, remote: seq<Chunk>, receiveFirst: bool, hooks: Hooks, side: Side)
    ensures ProxyHandler(client, remote, receiveFirst, hooks) == Run(Connected(client, remote, receiveFirst, hooks), receiveFirst, hooks)
    ensures SentTo(side, Connected(client, remote, receiveFirst, hooks).trace) == []
    ensures Closes(side, Connected(client, remote, receiveFirst, hooks).trace) == 0
  {
    SentToOne(side, Recv(Remote, Head(remote)));
  }

  /**
   * The whole session. A `receive_first` greeting that cannot be logged ends
   * it before the loop. Otherwise the remote receives the request hook's
   * output for each non-empty client drain of the passes that get as far as
   * forwarding it, and the client the response hook's output for each
   * non-empty remote drain of the passes that get as far as answering
   * (never the greeting). Each socket is closed exactly once, at the end,
   * unless a drain could not be logged; then neither is, and the trace ends
   * on that drain.
   */
  lemma ProxyTraffic(client: seq<Chunk>, remote: seq<Chunk>, receiveFirst: bool, hooks: Hooks)
    ensures var relayed := if receiveFirst then Tail(remote) else remote;
            var t := ProxyHandler(client, remote, receiveFirst, hooks);
            receiveFirst && Raises(hooks, Head(remote)) ==>
              t == Session(Aborted, client, relayed, [Recv(Remote, Head(remote))])
    ensures var relayed := if receiveFirst then Tail(remote) else remote;
            var t := ProxyHandler(client, remote, receiveFirst, hooks);
            var aborts := Aborts(client, relayed, hooks);
            !(receiveFirst && Raises(hooks, Head(remote))) ==>
              && SentTo(Remote, t.trace) == Sent(Remote, hooks, client, relayed)
              && SentTo(Client, t.trace) == Sent(Client, hooks, client, relayed)
              && Closes(Client, t.trace) == (if aborts then 0 else 1)
              && Closes(Remote, t.trace) == (if aborts then 0 else 1)
              && t.phase == (if aborts then Aborted else Closed)
              && (!aborts ==> |t.trace| >= 2 && t.trace[|t.trace| - 2..] == [Close(Client), Close(Remote)])
              && (aborts ==> |t.trace| >= 1 && t.trace[|t.trace| - 1] == Failure(client, relayed, hooks))
              && (receiveFirst ==> t.trace[0] == Recv(Remote, Head(remote)))
              && t.client == Drop(client, Iterations(client, relayed, hooks))
              && t.remote == Drop(relayed, RemoteDrains(client, relayed, hooks))
  {
    var s := Connected(client, remote, receiveFirst, hooks);
    ConnectedTraffic(client, remote, receiveFirst, hooks, Client);
    ConnectedTraffic(client, remote, receiveFirst, hooks, Remote);
    if s.phase == Relaying {
      RelayTraffic(s, receiveFirst, hooks, Client);
      RelayTraffic(s, receiveFirst, hooks, Remote);
      RelayEnd(s, receiveFirst, hooks);
      if receiveFirst {
        var t := Run(s, receiveFirst, hooks);
        assert t.trace[..1] == s.trace;
        assert t.trace[0] == t.trace[..1][0];
      }
    }
  }

  /** The shipped hooks change nothing, so only the empty drains are dropped. */
  lemma {:induction false} HookedIdentity(drains: seq<Chunk>)
    ensures Hooked(RequestHandler, drains) == NonEmpty(drains)
    ensures Hooked(ResponseHandler, drains) == NonEmpty(drains)
  {
    if |drains| > 0 {
      HookedIdentity(drains[1..]);
    }
  }

  /** Leaving out empty drains does not change the bytes they join to. */
  lemma {:induction false} FlattenNonEmpty(drains: seq<Chunk>)
    ensures Flatten(NonEmpty(drains)) == Flatten(drains)
  {
    if |drains| > 0 {
      var head := if |drains[0]| > 0 then [drains[0]] else [];
      FlattenNonEmpty(drains[1..]);
      FlattenAppend(head, NonEmpty(drains[1..]));
      if |drains[0]| > 0 {
        assert Flatten(head) == drains[0] + Flatten([]);
      }
    }
  }

  /** With the shipped hooks a drain raises exactly when it is not UTF-8. */
  lemma SourceRaises(drained: Chunk)
    ensures Raises(SourceHooks(), drained) <==> !Utf8(drained)
  {
  }

  /** With the shipped hooks a pass goes on exactly when both drains are non-empty UTF-8. */
  lemma SourceClean(local: Chunk, remote: Chunk)
    ensures Clean(local, remote, SourceHooks()) <==> (|local| > 0 && |remote| > 0 && Utf8(local) && Utf8(remote))
  {
    SourceRaises(local);
    SourceRaises(remote);
  }

  /**
   * The session as shipped. A greeting that is not UTF-8 ends it at once,
   * with nothing sent. Otherwise the loop goes on while both peers drain
   * non-empty UTF-8; it closes both sockets exactly when the drains of its
   * last pass are UTF-8, and then one of them is empty. The remote receives
   * exactly the non-empty client drains of the passes that reach its drain,
   * the client the non-empty remote drains of the passes that answer it,
   * and so the bytes of those drains.
   */
  lemma IdentityRelay(client: seq<Chunk>, remote: seq<Chunk>, receiveFirst: bool)
    ensures var t := ProxyHandler(client, remote, receiveFirst, SourceHooks());
            receiveFirst && !Utf8(Head(remote)) ==>
              t.phase == Aborted && |t.trace| == 1 && SentTo(Remote, t.trace) == [] && SentTo(Client, t.trace) == []
    ensures var relayed := if receiveFirst then Tail(remote) else remote;
            var h := SourceHooks();
            var n := Iterations(client, relayed, h);
            var t := ProxyHandler(client, remote, receiveFirst, h);
            !(receiveFirst && !Utf8(Head(remote))) ==>
              && (forall j :: 0 <= j < n - 1 ==>
                    |Nth(client, j)| > 0 && |Nth(relayed, j)| > 0 && Utf8(Nth(client, j)) && Utf8(Nth(relayed, j)))
              && (t.phase == Closed <==> Utf8(Nth(client, n - 1)) && Utf8(Nth(relayed, n - 1)))
              && (t.phase == Closed ==> |Nth(client, n - 1)| == 0 || |Nth(relayed, n - 1)| == 0)
              && SentTo(Remote, t.trace) == NonEmpty(Drains(client, RemoteDrains(client, relayed, h)))
              && SentTo(Client, t.trace) == NonEmpty(Drains(relayed, Answered(client, relayed, h)))
              && Flatten(SentTo(Remote, t.trace)) == Flatten(Drains(client, RemoteDrains(client, relayed, h)))
              && Flatten(SentTo(Client, t.trace)) == Flatten(Drains(relayed, Answered(client, relayed, h)))
  {
    var relayed := if receiveFirst then Tail(remote) else remote;
    var t := ProxyHandler(client, remote, receiveFirst, SourceHooks());
    if receiveFirst && !Utf8(Head(remote)) {
      SourceGreeting(client, remote);
      SentToOne(Remote, Recv(Remote, Head(remote)));
      SentToOne(Client, Recv(Remote, Head(remote)));
    } else {
      IdentityLoop(client, remote, receiveFirst);
    }
  }

  /** The part of `IdentityRelay` for a session that gets past the greeting. */
  lemma IdentityLoop(client: seq<Chunk>, remote: seq<Chunk>, receiveFirst: bool)
    requires !(receiveFirst && !Utf8(Head(remote)))
    ensures var relayed := if receiveFirst then Tail(remote) else remote;
            var h := SourceHooks();
            var n := Iterations(client, relayed, h);
            var t := ProxyHandler(client, remote, receiveFirst, h);
            && (forall j :: 0 <= j < n - 1 ==>
                  |Nth(client, j)| > 0 && |Nth(relayed, j)| > 0 && Utf8(Nth(client, j)) && Utf8(Nth(relayed, j)))
            && (t.phase == Closed <==> Utf8(Nth(client, n - 1)) && Utf8(Nth(relayed, n - 1)))
            && (t.phase == Closed ==> |Nth(client, n - 1)| == 0 || |Nth(relayed, n - 1)| == 0)
            && SentTo(Remote, t.trace) == NonEmpty(Drains(client, RemoteDrains(client, relayed, h)))
            && SentTo(Client, t.trace) == NonEmpty(Drains(relayed, Answered(client, relayed, h)))
            && Flatten(SentTo(Remote, t.trace)) == Flatten(Drains(client, RemoteDrains(client, relayed, h)))
            && Flatten(SentTo(Client, t.trace)) == Flatten(Drains(relayed, Answered(client, relayed, h)))
  {
    var relayed := if receiveFirst then Tail(remote) else remote;
    SourceSession(client, remote, receiveFirst);
    IdentitySends(client, relayed, ProxyHandler(client, remote, receiveFirst, SourceHooks()));
  }

  /** As shipped, a `receive_first` greeting that is not UTF-8 ends the session before the loop. */
  lemma SourceGreeting(client: seq<Chunk>, remote: seq<Chunk>)
    requires !Utf8(Head(remote))
    ensures ProxyHandler(client, remote, true, SourceHooks()) == Session(Aborted, client, Tail(remote), [Recv(Remote, Head(remote))])
  {
    SourceRaises(Head(remote));
    ProxyTraffic(client, remote, true, SourceHooks());
  }

  /** As shipped, once past the greeting, the session's sends and phase are those of the loop. */
  lemma SourceSession(client: seq<Chunk>, remote: seq<Chunk>, receiveFirst: bool)
    requires !(receiveFirst && !Utf8(Head(remote)))
    ensures var relayed := if receiveFirst then Tail(remote) else remote;
            var h := SourceHooks();
            var t := ProxyHandler(client, remote, receiveFirst, h);
            && SentTo(Remote, t.trace) == Hooked(RequestHandler, Drains(client, RemoteDrains(client, relayed, h)))
            && SentTo(Client, t.trace) == Hooked(ResponseHandler, Drains(relayed, Answered(client, relayed, h)))
            && (t.phase == Closed <==> !Aborts(client, relayed, h))
  {
    SourceRaises(Head(remote));
    ProxyTraffic(client, remote, receiveFirst, SourceHooks());
  }

  /** The loop part of `IdentityRelay`, for any session whose sends and phase are those the loop gives. */
  lemma IdentitySends(client: seq<Chunk>, relayed: seq<Chunk>, t: Session)
    requires SentTo(Remote, t.trace) == Hooked(RequestHandler, Drains(client, RemoteDrains(client, relayed, SourceHooks())))
    requires SentTo(Client, t.trace) == Hooked(ResponseHandler, Drains(relayed, Answered(client, relayed, SourceHooks())))
    requires t.phase == Closed <==> !Aborts(client, relayed, SourceHooks())
    ensures var h := SourceHooks();
            var n := Iterations(client, relayed, h);
            && (forall j :: 0 <= j < n - 1 ==>
                  |Nth(client, j)| > 0 && |Nth(relayed, j)| > 0 && Utf8(Nth(client, j)) && Utf8(Nth(relayed, j)))
            && (t.phase == Closed <==> Utf8(Nth(client, n - 1)) && Utf8(Nth(relayed, n - 1)))
            && (t.phase == Closed ==> |Nth(client, n - 1)| == 0 || |Nth(relayed, n - 1)| == 0)
            && SentTo(Remote, t.trace) == NonEmpty(Drains(client, RemoteDrains(client, relayed, h)))
            && SentTo(Client, t.trace) == NonEmpty(Drains(relayed, Answered(client, relayed, h)))
            && Flatten(SentTo(Remote, t.trace)) == Flatten(Drains(client, RemoteDrains(client, relayed, h)))
            && Flatten(SentTo(Client, t.trace)) == Flatten(Drains(relayed, Answered(client, relayed, h)))
  {
    var h := SourceHooks();
    var k := RemoteDrains(client, relayed, h);
    var a := Answered(client, relayed, h);
    SourcePasses(client, relayed);
    HookedIdentity(Drains(client, k));
    HookedIdentity(Drains(relayed, a));
    FlattenNonEmpty(Drains(client, k));
    FlattenNonEmpty(Drains(relayed, a));
  }

  /**
   * With the shipped hooks the loop goes on while both peers drain
   * non-empty UTF-8, and its last pass raises exactly when one of its
   * drains is not UTF-8; a last pass that does not raise has an empty drain.
   */
  lemma SourcePasses(client: seq<Chunk>, remote: seq<Chunk>)
    ensures var n := Iterations(client, remote, SourceHooks());
            && (forall j :: 0 <= j < n - 1 ==>
                  |Nth(client, j)| > 0 && |Nth(remote, j)| > 0 && Utf8(Nth(client, j)) && Utf8(Nth(remote, j)))
            && (!Aborts(client, remote, SourceHooks()) <==> Utf8(Nth(client, n - 1)) && Utf8(Nth(remote, n - 1)))
            && (!Aborts(client, remote, SourceHooks()) ==> |Nth(client, n - 1)| == 0 || |Nth(remote, n - 1)| == 0)
  {
    var n := Iterations(client, remote, SourceHooks());
    forall j | 0 <= j < n - 1
      ensures |Nth(client, j)| > 0 && |Nth(remote, j)| > 0 && Utf8(Nth(client, j)) && Utf8(Nth(remote, j))
    {
      SourceClean(Nth(client, j), Nth(remote, j));
    }
    var local := Nth(client, n - 1);
    var last := Nth(remote, n - 1);
    assert Aborts(client, remote, SourceHooks()) <==> PassAborts(local, last, SourceHooks());
    assert !Clean(local, last, SourceHooks());
    SourceRaises(local);
    SourceRaises(last);
    SourceClean(local, last);
  }

  /**
   * As shipped, a client whose first drain is not UTF-8 kills the session:
   * the thread ends after that drain, before anything is sent, and neither
   * socket is closed.
   */
  lemma BinaryKillsSession(client: seq<Chunk>, remote: seq<Chunk>)
    requires !Utf8(Head(client))
    ensures var t := ProxyHandler(client, remote, false, SourceHooks());
            && t == Session(Aborted, Tail(client), remote, [Recv(Client, Head(client))])
            && Closes(Client, t.trace) == 0 && Closes(Remote, t.trace) == 0
            && SentTo(Remote, t.trace) == []
  {
    var s := Connected(client, remote, false, SourceHooks());
    SourceRaises(Head(client));
    StepRelaying(s, false, SourceHooks());
    RunLast(s, false, SourceHooks());
    SentToOne(Remote, Recv(Client, Head(client)));
    SentToOne(Client, Recv(Client, Head(client)));
  }

  /** The smallest such session: one byte 0xFF from the client, while the remote has data waiting. */
  lemma BinaryKillsSessionExample()
    ensures ProxyHandler([[0xFF]], [[0x41]], false, SourceHooks()) == Session(Aborted, [], [[0x41]], [Recv(Client, [0xFF])])
  {
    HighByteInvalid(0xFF);
    BinaryKillsSession([[0xFF]], [[0x41]]);
  }

  /** With a log that never raises, no pass aborts. */
  lemma FixedClean(local: Chunk, remote: Chunk)
    ensures !PassAborts(local, remote, FixedHooks())
    ensures Clean(local, remote, FixedHooks()) <==> |local| > 0 && |remote| > 0
  {
  }

  /**
   * With the bytes logged as they are, the proxy is transparent to any
   * traffic: the loop runs until the first pass in which either peer drains
   * nothing, both sockets are then closed once, and each side is sent
   * exactly the non-empty drains of the other, in order, and so its bytes.
   */
  lemma TransparentRelay(client: seq<Chunk>, remote: seq<Chunk>, receiveFirst: bool)
    ensures var relayed := if receiveFirst then Tail(remote) else remote;
            var h := FixedHooks();
            var n := Iterations(client, relayed, h);
            var t := ProxyHandler(client, remote, receiveFirst, h);
            && t.phase == Closed
            && (forall j :: 0 <= j < n - 1 ==> |Nth(client, j)| > 0 && |Nth(relayed, j)| > 0)
            && (|Nth(client, n - 1)| == 0 || |Nth(relayed, n - 1)| == 0)
            && Closes(Client, t.trace) == 1 && Closes(Remote, t.trace) == 1
            && SentTo(Remote, t.trace) == NonEmpty(Drains(client, n))
            && SentTo(Client, t.trace) == NonEmpty(Drains(relayed, n))
            && Flatten(SentTo(Remote, t.trace)) == Flatten(Drains(client, n))
            && Flatten(SentTo(Client, t.trace)) == Flatten(Drains(relayed, n))
  {
    var relayed := if receiveFirst then Tail(remote) else remote;
    var h := FixedHooks();
    var n := Iterations(client, relayed, h);
    ProxyTraffic(client, remote, receiveFirst, h);
    FixedClean(Nth(client, n - 1), Nth(relayed, n - 1));
    forall j | 0 <= j < n - 1
      ensures |Nth(client, j)| > 0 && |Nth(relayed, j)| > 0
    {
      FixedClean(Nth(client, j), Nth(relayed, j));
    }
    HookedIdentity(Drains(client, n));
    HookedIdentity(Drains(relayed, n));
    FlattenNonEmpty(Drains(client, n));
    FlattenNonEmpty(Drains(relayed, n));
  }

  /**
   * A client that has nothing to say does not stop the remote from being
   * drained: the pass still reads the remote, and when that drain can be
   * logged forwards it and then closes both sockets; when it cannot, the
   * session ends on that drain.
   */
  lemma ClientIdle(client: seq<Chunk>, remote: seq<Chunk>, hooks: Hooks)
    requires |Head(client)| == 0
    ensures var t := ProxyHandler(client, remote, false, hooks);
            && t.phase == (if Raises(hooks, Head(remote)) then Aborted else Closed)
            && t.trace == [Recv(Client, []), Recv(Remote, Head(remote))]
                          + (if Raises(hooks, Head(remote)) then []
                             else Forward(Client, hooks.response, Head(remote)) + [Close(Client), Close(Remote)])
  {
    var s := Connected(client, remote, false, hooks);
    ConnectedTraffic(client, remote, false, hooks, Client);
    assert Head(client) == [];
    assert !Continues(Head(client), Head(remote), hooks);
    StepRelaying(s, false, hooks);
    RunLast(s, false, hooks);
  }

  /**
   * Scripts that run dry end the session: once either script is used up,
   * the next pass drains nothing on that side, so the loop runs at most one
   * pass beyond the shorter script.
   */
  lemma ExhaustedScripts(client: seq<Chunk>, remote: seq<Chunk>, hooks: Hooks)
    ensures Iterations(client, remote, hooks) <= |client| + 1
    ensures Iterations(client, remote, hooks) <= |remote| + 1
  {
    assert Nth(client, |client|) == [] && Nth(remote, |remote|) == [];
    assert !Clean(Nth(client, |client|), Nth(remote, |client|), hooks);
    assert !Clean(Nth(client, |remote|), Nth(remote, |remote|), hooks);
  }
}
