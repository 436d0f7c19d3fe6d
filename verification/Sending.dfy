/** The send side of a connection: messages are queued until the channel is ready, then written as
    frames, until the connection is lost. */
module Sending {
  import opened Frames

  /** A client that did not ask for a WebSocket gets its messages in a chunked response, or a single one. */
  datatype Kind = Chunked | WebSocket | Single

  /** Whether the two channel writes of a frame, header and body, succeed. A write is all or error. */
  datatype Outcome = Outcome(header: bool, body: bool)

  /** lost: fired_conn_lost; ready: the channel exists. wire is all that was written, signals counts the
      connection-lost signals. calls and sent record history: the messages handed over, and those
      written in full; no step reads them. */
  datatype Channel = Channel(
    kind: Kind, lost: bool, ready: bool, pending: seq<Bytes>, wire: Bytes, signals: nat,
    calls: seq<Bytes>, sent: seq<Bytes>)

  datatype Event =
    | Send(body: Bytes, outcome: Outcome)
    | WroteHeaders(outcomes: seq<Outcome>)
    | Disconnect

  function Open(kind: Kind): Channel {
    Channel(kind, false, false, [], [], 0, [], [])
  }

  function TextHeader(body: Bytes): Bytes {
    Header(TEXT, None, |body|)
  }

  function FrameOf(body: Bytes): Bytes {
    Encode(TEXT, None, body)
  }

  function ConnectionLost(c: Channel): Channel {
    if c.lost then c else c.(lost := true, ready := false, signals := c.signals + 1)
  }

  function WriteFragment(c: Channel, body: Bytes, o: Outcome): Channel {
    if !o.header then ConnectionLost(c)
    else
      var c1 := c.(wire := c.wire + TextHeader(body));
      if !o.body then ConnectionLost(c1) else c1.(wire := c1.wire + body, sent := c1.sent + [body])
  }

  function SendMessage(c: Channel, body: Bytes, o: Outcome): Channel {
    if c.lost then c
    else match c.kind
      case Chunked => c.(wire := c.wire + body, sent := c.sent + [body])
      case Single => ConnectionLost(c.(wire := body, sent := [body]))
      case WebSocket => if c.ready then WriteFragment(c, body, o) else c.(pending := c.pending + [body])
  }

  /** The pending messages are sent, oldest first, on a channel that is ready or lost. */
  function Flush(c: Channel, outcomes: seq<Outcome>): Channel
    requires |outcomes| == |c.pending|
    requires c.lost || (c.ready && c.kind == WebSocket)
    decreases |outcomes|
  {
    if c.pending == [] then c
    else
      var c1 := SendMessage(c, c.pending[0], outcomes[0]);
      Flush(c1.(pending := c1.pending[1..]), outcomes[1..])
  }

  ghost predicate Enabled(c: Channel, e: Event) {
    e.WroteHeaders? ==> c.kind == WebSocket && |e.outcomes| == |c.pending|
  }

  ghost function Step(c: Channel, e: Event): Channel {
    if !Enabled(c, e) then c
    else match e
      case Send(body, o) => SendMessage(c.(calls := c.calls + [body]), body, o)
      case WroteHeaders(outcomes) => Flush(c.(ready := true), outcomes)
      case Disconnect => ConnectionLost(c)
  }

  ghost function Run(c: Channel, events: seq<Event>): Channel
    decreases |events|
  {
    if events == [] then c else Step(Run(c, events[..|events| - 1]), events[|events| - 1])
  }

  // ---------------------------------------------------------------- order of messages

  function FramesOf(bodies: seq<Bytes>): Bytes {
    if bodies == [] then [] else FramesOf(bodies[..|bodies| - 1]) + FrameOf(bodies[|bodies| - 1])
  }

  /** While the connection lives, what was handed over is what was sent and then what is pending, and
      nothing is pending once the channel is ready. */
  ghost predicate Inv(c: Channel) {
    && c.signals == (if c.lost then 1 else 0)
    && c.sent <= c.calls
    && (c.kind == WebSocket ==>
          && FramesOf(c.sent) <= c.wire
          && (!c.lost ==>
                && c.wire == FramesOf(c.sent)
                && c.calls == c.sent + c.pending
                && (c.ready ==> c.pending == []))
          && (c.wire == FramesOf(c.sent)
              || (|c.sent| < |c.calls| && c.wire == FramesOf(c.sent) + TextHeader(c.calls[|c.sent|]))))
    && (c.kind == Chunked ==> c.wire == Flat(c.sent) && (!c.lost ==> c.sent == c.calls))
    && (c.kind == Single ==>
          if c.lost && c.sent != [] then c.sent == [c.calls[0]] && c.wire == c.calls[0]
          else c.wire == [] && c.sent == [] && (!c.lost ==> c.calls == []))
  }

  function Flat(bodies: seq<Bytes>): Bytes {
    if bodies == [] then [] else Flat(bodies[..|bodies| - 1]) + bodies[|bodies| - 1]
  }

  /** A frame is its header and its body. */
  lemma FrameParts(body: Bytes)
    ensures FrameOf(body) == TextHeader(body) + body
  {
  }

  lemma FramesOfMore(sent: seq<Bytes>, body: Bytes)
    ensures FramesOf(sent + [body]) == FramesOf(sent) + TextHeader(body) + body
    ensures Flat(sent + [body]) == Flat(sent) + body
  {
    hide FrameOf, TextHeader;
    FrameParts(body);
    assert (sent + [body])[..|sent|] == sent;
  }

  /** Sending one message of the queue, or a fresh one, on a channel that is ready. */
  lemma WriteKeeps(c: Channel, body: Bytes, o: Outcome)
    requires c.kind == WebSocket && !c.lost && c.signals == 0
    requires c.wire == FramesOf(c.sent) && c.sent + [body] <= c.calls
    ensures
      var d := WriteFragment(c, body, o);
      && d.signals == (if d.lost then 1 else 0)
      && FramesOf(d.sent) <= d.wire
      && d.sent <= d.calls
      && (!d.lost ==> d.ready == c.ready && d.sent == c.sent + [body] && d.wire == FramesOf(d.sent))
      && (d.lost ==> d.sent == c.sent)
      && (d.lost ==> d.wire == FramesOf(d.sent) || d.wire == FramesOf(d.sent) + TextHeader(d.calls[|d.sent|]))
  {
    hide TextHeader;
    FramesOfMore(c.sent, body);
    assert c.calls[|c.sent|] == (c.sent + [body])[|c.sent|] == body;
    assert c.calls[..|c.sent|] == c.sent;
  }

  lemma {:induction false} FlushKeeps(c: Channel, outcomes: seq<Outcome>)
    requires |outcomes| == |c.pending| && c.kind == WebSocket
    requires Inv(c.(ready := false)) && (!c.lost ==> c.ready)
    ensures Inv(Flush(c, outcomes))
    decreases |outcomes|
  {
    hide TextHeader, FramesOf, WriteFragment;
    if c.pending != [] {
      var body := c.pending[0];
      WriteFrame(c, body, outcomes[0]);
      var d := SendMessage(c, body, outcomes[0]).(pending := c.pending[1..]);
      if !c.lost {
        assert c.sent + [body] + c.pending[1..] == c.calls;
        WriteKeeps(c, body, outcomes[0]);
      }
      FlushKeeps(d, outcomes[1..]);
    }
  }

  lemma WriteFrame(c: Channel, body: Bytes, o: Outcome)
    ensures
      var d := WriteFragment(c, body, o);
      && d.kind == c.kind && d.calls == c.calls && d.pending == c.pending
      && ((c.lost || !d.lost) ==> d.ready == c.ready)
  {
    hide TextHeader;
  }

  lemma StepKeeps(c: Channel, e: Event)
    requires Inv(c)
    ensures Inv(Step(c, e))
  {
    hide TextHeader, FramesOf, WriteFragment, Flat;
    if Enabled(c, e) {
      match e
      case Send(body, o) =>
        var d := c.(calls := c.calls + [body]);
        assert forall n :: 0 <= n < |c.calls| ==> d.calls[n] == c.calls[n];
        FramesOfMore(c.sent, body);
        if c.kind == WebSocket && !c.lost {
          if c.ready {
            assert c.pending == [] && c.sent + [] == c.sent;
            WriteKeeps(d, body, o);
            WriteFrame(d, body, o);
            assert c.sent + [body] + [] == d.calls;
          } else {
            assert c.sent + c.pending + [body] == c.sent + (c.pending + [body]);
          }
        }
      case WroteHeaders(outcomes) => FlushKeeps(c.(ready := true), outcomes);
      case Disconnect =>
    }
  }

  lemma {:induction false} Reachable(kind: Kind, events: seq<Event>)
    ensures Inv(Run(Open(kind), events))
  {
    hide Step;
    if events == [] {
      assert Inv(Open(kind));
    } else {
      Reachable(kind, events[..|events| - 1]);
      StepKeeps(Run(Open(kind), events[..|events| - 1]), events[|events| - 1]);
    }
  }

  /** In every run of a WebSocket connection the wire holds the frames of the first messages handed over,
      in that order, before and after the switch from queueing to writing; only when the connection
      broke between the two writes of a frame does a header follow. As long as it is not lost no
      message is missing: the rest is pending. */
  lemma MessagesInOrder(events: seq<Event>)
    ensures
      var c := Run(Open(WebSocket), events);
      && c.sent <= c.calls
      && (c.wire == FramesOf(c.sent)
          || (c.lost && |c.sent| < |c.calls| && c.wire == FramesOf(c.sent) + TextHeader(c.calls[|c.sent|])))
      && (!c.lost ==> c.calls == c.sent + c.pending && (c.ready ==> c.pending == []))
      && c.signals == (if c.lost then 1 else 0)
  {
    hide Run, FramesOf, TextHeader;
    Reachable(WebSocket, events);
    KindKept(Open(WebSocket), events);
  }

  lemma {:induction false} FlushKind(c: Channel, outcomes: seq<Outcome>)
    requires |outcomes| == |c.pending| && (c.lost || (c.ready && c.kind == WebSocket))
    ensures Flush(c, outcomes).kind == c.kind
    decreases |outcomes|
  {
    hide TextHeader;
    if c.pending != [] {
      FlushKind(SendMessage(c, c.pending[0], outcomes[0]).(pending := c.pending[1..]), outcomes[1..]);
    }
  }

  lemma {:induction false} KindKept(c: Channel, events: seq<Event>)
    ensures Run(c, events).kind == c.kind
  {
    hide TextHeader, Flush;
    if events != [] {
      var d, e := Run(c, events[..|events| - 1]), events[|events| - 1];
      KindKept(c, events[..|events| - 1]);
      if Enabled(d, e) && e.WroteHeaders? {
        FlushKind(d.(ready := true), e.outcomes);
      }
    }
  }

  lemma {:induction false} FlushLost(c: Channel, outcomes: seq<Outcome>)
    requires |outcomes| == |c.pending| && c.lost
    ensures Flush(c, outcomes).lost && Flush(c, outcomes).wire == c.wire && Flush(c, outcomes).signals == c.signals
    decreases |outcomes|
  {
    if c.pending != [] {
      FlushLost(c.(pending := c.pending[1..]), outcomes[1..]);
    }
  }

  /** Once the connection is lost nothing is written and nothing signalled any more, for every kind. */
  lemma {:induction false} NothingAfterLoss(c: Channel, events: seq<Event>)
    requires c.lost
    ensures
      var d := Run(c, events);
      d.lost && d.wire == c.wire && d.signals == c.signals
  {
    hide TextHeader, Flush;
    if events != [] {
      NothingAfterLoss(c, events[..|events| - 1]);
      var d, e := Run(c, events[..|events| - 1]), events[|events| - 1];
      if Enabled(d, e) && e.WroteHeaders? {
        FlushLost(d.(ready := true), e.outcomes);
      }
    }
  }

  /** Until its headers are written a WebSocket client is sent nothing, and what it is told is queued. */
  lemma {:induction false} QueuedUntilReady(events: seq<Event>)
    requires forall i :: 0 <= i < |events| ==> !events[i].WroteHeaders?
    ensures
      var c := Run(Open(WebSocket), events);
      && c.kind == WebSocket && !c.ready && c.wire == [] && c.sent == []
      && (!c.lost ==> c.pending == c.calls)
    decreases |events|
  {
    if events != [] {
      QueuedUntilReady(events[..|events| - 1]);
    }
  }

  /** Both writes of each frame succeed, and nobody disconnects. */
  predicate Succeeds(e: Event) {
    match e
    case Send(_, o) => o.header && o.body
    case WroteHeaders(outcomes) => forall i :: 0 <= i < |outcomes| ==> outcomes[i].header && outcomes[i].body
    case Disconnect => false
  }

  lemma {:induction false} FlushSucceeds(c: Channel, outcomes: seq<Outcome>)
    requires |outcomes| == |c.pending| && !c.lost && c.ready && c.kind == WebSocket
    requires forall i :: 0 <= i < |outcomes| ==> outcomes[i].header && outcomes[i].body
    ensures !Flush(c, outcomes).lost && Flush(c, outcomes).ready
    decreases |outcomes|
  {
    hide TextHeader;
    if c.pending != [] {
      FlushSucceeds(SendMessage(c, c.pending[0], outcomes[0]).(pending := c.pending[1..]), outcomes[1..]);
    }
  }

  /** As long as writes succeed and nobody disconnects, no connection is lost, and a WebSocket client has been
      sent everything as soon as its headers are written. */
  lemma {:induction false} SuccessDelivers(events: seq<Event>)
    requires forall i :: 0 <= i < |events| ==> Succeeds(events[i])
    ensures
      var c := Run(Open(WebSocket), events);
      && !c.lost && c.signals == 0
      && (c.ready ==> c.wire == FramesOf(c.calls) && c.pending == [])
    decreases |events|
  {
    hide TextHeader, FramesOf, Flush, Inv;
    Reachable(WebSocket, events);
    KindKept(Open(WebSocket), events);
    if events != [] {
      var before, e := events[..|events| - 1], events[|events| - 1];
      SuccessDelivers(before);
      Reachable(WebSocket, before);
      KindKept(Open(WebSocket), before);
      var c := Run(Open(WebSocket), before);
      if e.WroteHeaders? && Enabled(c, e) {
        FlushSucceeds(c.(ready := true), e.outcomes);
      }
    }
    LiveInv(Run(Open(WebSocket), events));
  }

  lemma LiveInv(c: Channel)
    requires Inv(c) && c.kind == WebSocket && !c.lost
    ensures c.signals == 0 && c.wire == FramesOf(c.sent) && c.calls == c.sent + c.pending
    ensures c.ready ==> c.pending == [] && c.calls == c.sent
  {
    assert c.sent + [] == c.sent;
  }

  /** Once the headers are written the channel is ready and nothing waits any more, or the connection is
      lost. */
  lemma HeadersFlush(events: seq<Event>, outcomes: seq<Outcome>)
    requires |outcomes| == |Run(Open(WebSocket), events).pending|
    ensures
      var c := Run(Open(WebSocket), events + [WroteHeaders(outcomes)]);
      c.lost || (c.ready && c.pending == [] && c.wire == FramesOf(c.calls))
  {
    hide TextHeader, FramesOf, Inv;
    var c, d := Run(Open(WebSocket), events), Run(Open(WebSocket), events + [WroteHeaders(outcomes)]);
    KindKept(Open(WebSocket), events);
    KindKept(Open(WebSocket), events + [WroteHeaders(outcomes)]);
    Reachable(WebSocket, events + [WroteHeaders(outcomes)]);
    assert (events + [WroteHeaders(outcomes)])[..|events|] == events;
    assert d == Flush(c.(ready := true), outcomes);
    FlushReady(c.(ready := true), outcomes);
    if !d.lost {
      LiveInv(d);
    }
  }

  lemma {:induction false} FlushReady(c: Channel, outcomes: seq<Outcome>)
    requires |outcomes| == |c.pending| && c.ready && c.kind == WebSocket
    ensures Flush(c, outcomes).lost || Flush(c, outcomes).ready
    decreases |outcomes|
  {
    hide TextHeader;
    if c.pending != [] {
      var d := SendMessage(c, c.pending[0], outcomes[0]).(pending := c.pending[1..]);
      if d.lost {
        FlushLost(d, outcomes[1..]);
      } else {
        FlushReady(d, outcomes[1..]);
      }
    }
  }

  /** A write that fails loses the connection. */
  lemma FailureLoses(events: seq<Event>, body: Bytes, o: Outcome)
    requires Run(Open(WebSocket), events).ready && !(o.header && o.body)
    ensures Run(Open(WebSocket), events + [Send(body, o)]).lost
    ensures Run(Open(WebSocket), events + [Send(body, o)]).signals == 1
  {
    hide TextHeader, FramesOf;
    KindKept(Open(WebSocket), events);
    Reachable(WebSocket, events + [Send(body, o)]);
    assert (events + [Send(body, o)])[..|events|] == events;
  }

  /** A disconnect loses the connection and its channel, and has signalled it once, whatever came before. */
  lemma DisconnectLoses(kind: Kind, events: seq<Event>)
    ensures
      var c, d := Run(Open(kind), events), Run(Open(kind), events + [Disconnect]);
      d.lost && d.signals == 1 && d.wire == c.wire && (!c.lost ==> !d.ready)
  {
    hide TextHeader, FramesOf, Flat;
    Reachable(kind, events);
    assert (events + [Disconnect])[..|events|] == events;
  }

  // ---------------------------------------------------------------- what the peer reads

  /** All frames at the front of b, as the standard reads them, and what is left. */
  function DecodeAll(b: Bytes): (r: (seq<Frame>, Bytes))
    decreases |b|
  {
    match Decode(b)
    case Incomplete => ([], b)
    case Complete(f, size) =>
      if 0 < size <= |b| then
        var (fs, rest) := DecodeAll(b[size..]);
        ([f] + fs, rest)
      else ([], b)
  }

  lemma DecodeNext(b: Bytes)
    ensures Decode(b).Incomplete? ==> DecodeAll(b) == ([], b)
    ensures Decode(b).Complete? && 0 < Decode(b).size <= |b| ==>
              var (fs, rest) := DecodeAll(b[Decode(b).size..]);
              DecodeAll(b) == ([Decode(b).frame] + fs, rest)
  {
    hide Decode;
  }

  function TextFrames(bodies: seq<Bytes>): seq<Frame> {
    seq(|bodies|, i requires 0 <= i < |bodies| => Frame(true, 1, false, bodies[i]))
  }

  lemma {:induction false} FramesFromFront(bodies: seq<Bytes>)
    requires bodies != []
    ensures FramesOf(bodies) == FrameOf(bodies[0]) + FramesOf(bodies[1..])
  {
    hide FrameOf;
    if |bodies| == 1 {
      assert bodies[..0] == [] && bodies[1..] == [];
    } else {
      var n := |bodies| - 1;
      var rest, middle := bodies[1..], bodies[..n][1..];
      FramesFromFront(bodies[..n]);
      assert middle == rest[..n - 1] && rest[n - 1] == bodies[n];
      var a, b, c := FrameOf(bodies[0]), FramesOf(middle), FrameOf(bodies[n]);
      assert FramesOf(bodies) == (a + b) + c && FramesOf(rest) == b + c;
      assert (a + b) + c == a + (b + c);
    }
  }

  lemma {:induction false} DecodeFrames(bodies: seq<Bytes>, tail: Bytes)
    requires forall i :: 0 <= i < |bodies| ==> |bodies[i]| < WORD
    requires Decode(tail) == Incomplete
    ensures DecodeAll(FramesOf(bodies) + tail) == (TextFrames(bodies), tail)
    decreases |bodies|
  {
    hide Decode, FrameOf, DecodeAll;
    DecodeNext(tail);
    if bodies == [] {
      assert FramesOf(bodies) + tail == tail;
    } else {
      var more := FramesOf(bodies[1..]) + tail;
      FramesFromFront(bodies);
      assert FramesOf(bodies) + tail == FrameOf(bodies[0]) + more;
      FrameDecodes(bodies[0], more);
      DecodeFrames(bodies[1..], tail);
      DecodeNext(FrameOf(bodies[0]) + more);
      assert (FrameOf(bodies[0]) + more)[|FrameOf(bodies[0])|..] == more;
      assert TextFrames(bodies) == [Frame(true, 1, false, bodies[0])] + TextFrames(bodies[1..]);
    }
  }

  /** A header without its body is no frame, but for an empty body. */
  lemma LoneHeader(body: Bytes)
    requires |body| < WORD
    ensures body != [] ==> Decode(TextHeader(body)) == Incomplete
    ensures body == [] ==> TextHeader(body) == FrameOf(body)
  {
    hide FromBigEndian;
    var l := LengthBytes(|body|, 0);
    LengthReads(|body|, 0, TEXT, []);
    assert TextHeader(body) == [TEXT] + l + [];
    if body == [] {
      FrameParts(body);
    }
  }

  lemma EmptyIncomplete()
    ensures Decode([]) == Incomplete
  {
  }

  lemma FrameDecodes(body: Bytes, more: Bytes)
    requires |body| < WORD
    ensures |FrameOf(body)| > 0
    ensures Decode(FrameOf(body) + more) == Complete(Frame(true, 1, false, body), |FrameOf(body)|)
  {
    hide Decode;
    DecodeEncode(TEXT, None, body, more);
  }

  /** In every run, a peer that follows the standard reads from the wire a prefix of the messages handed
      over, in order, each as one final text frame: those sent, and nothing left over, while the connection
      lives. If it broke between header and body, the header is left over; or, for an empty message, it
      is that message. */
  lemma PeerReads(events: seq<Event>)
    requires forall body :: body in Run(Open(WebSocket), events).calls ==> |body| < WORD
    ensures
      var c := Run(Open(WebSocket), events);
      var (frames, rest) := DecodeAll(c.wire);
      && |c.sent| <= |frames| <= |c.calls| && frames == TextFrames(c.calls[..|frames|])
      && (!c.lost ==> |frames| == |c.sent| && rest == [] && c.calls == c.sent + c.pending)
      && (|frames| > |c.sent| ==> |frames| == |c.sent| + 1 && c.calls[|c.sent|] == [] && rest == [])
      && (rest != [] ==> |frames| < |c.calls| && rest == TextHeader(c.calls[|frames|]))
  {
    hide Run, Decode, DecodeAll, FramesOf, TextHeader;
    MessagesInOrder(events);
    var c := Run(Open(WebSocket), events);
    var n := |c.sent|;
    forall i | 0 <= i < n ensures |c.sent[i]| < WORD {
      assert c.sent[i] == c.calls[i];
    }
    EmptyIncomplete();
    assert FramesOf(c.sent) + [] == FramesOf(c.sent);
    if c.wire == FramesOf(c.sent) {
      DecodeFrames(c.sent, []);
      assert c.calls[..n] == c.sent;
    } else {
      var body := c.calls[n];
      LoneHeader(body);
      if body != [] {
        DecodeFrames(c.sent, TextHeader(body));
        assert c.calls[..n] == c.sent;
      } else {
        var more := c.sent + [body];
        FramesOfMore(c.sent, body);
        assert c.wire + body == c.wire == FramesOf(more) + [];
        DecodeFrames(more, []);
        assert c.calls[..n + 1] == more;
      }
    }
  }

  /** A client of the single-response kind gets at most one message, the first. */
  lemma SingleOnce(events: seq<Event>)
    ensures
      var c := Run(Open(Single), events);
      && |c.sent| <= 1 && c.sent <= c.calls
      && (c.calls != [] ==> c.lost)
      && (c.sent != [] ==> c.wire == c.calls[0])
  {
    hide Run;
    Reachable(Single, events);
    KindKept(Open(Single), events);
  }
}
