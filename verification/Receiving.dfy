/** The receive side of a WebSocket: reads of any size are appended to a buffer, and the parser is
    called until it waits for more. */
module Receiving {
  import opened Frames

  /** What a run of the parser leaves: messages delivered in order, bytes not consumed, whether an
      unmasked frame ended the connection, and whether the parser went beyond the received bytes. */
  datatype Drained = Drained(messages: seq<Bytes>, rest: Bytes, lost: bool, outOfBounds: bool)

  function Drain(b: Bytes): Drained
    decreases |b|
  {
    match Parse(b)
    case NeedMore => Drained([], b, false, false)
    case OutOfBounds => Drained([], b, false, true)
    case Deliver(message, consumed) =>
      var d := Drain(b[consumed..]);
      d.(messages := [message] + d.messages)
    case Unmasked(consumed) => Drain(b[consumed..]).(lost := true)
  }

  function Then(a: Drained, b: Drained): Drained {
    Drained(a.messages + b.messages, b.rest, a.lost || b.lost, b.outOfBounds)
  }

  /** All reads of a connection, one after the other; there are none after the connection is lost. */
  function Receive(chunks: seq<Bytes>): Drained {
    if chunks == [] then Drained([], [], false, false)
    else
      var before := Receive(chunks[..|chunks| - 1]);
      if before.outOfBounds || before.lost then before
      else Then(before, Drain(before.rest + chunks[|chunks| - 1]))
  }

  function Concat(parts: seq<Bytes>): Bytes {
    if parts == [] then [] else Concat(parts[..|parts| - 1]) + parts[|parts| - 1]
  }

  // ---------------------------------------------------------------- splitting does not matter

  /** Draining in two goes is draining at once, as long as the first stays within its bytes. */
  lemma {:induction false} DrainSplits(a: Bytes, b: Bytes)
    requires |a| + |b| < WORD && !Drain(a).outOfBounds
    ensures Drain(a + b) == Then(Drain(a), Drain(Drain(a).rest + b))
    decreases |a|
  {
    hide Parse, Drain, Then;
    if Parse(a).Deliver? || Parse(a).Unmasked? {
      var n := Parse(a).consumed;
      ParseExtends(a, b);
      assert (a + b)[n..] == a[n..] + b;
      DrainOnce(a);
      DrainOnce(a + b);
      DrainSplits(a[n..], b);
      ThenLater(Drain(a[n..]), Drain(Drain(a[n..]).rest + b), Parse(a));
    } else {
      DrainStops(a);
      NothingThen(a, Drain(a + b));
    }
  }

  lemma ThenLater(d: Drained, e: Drained, v: Verdict)
    ensures v.Deliver? ==>
              var both := Then(d, e);
              both.(messages := [v.message] + both.messages) == Then(d.(messages := [v.message] + d.messages), e)
    ensures Then(d, e).(lost := true) == Then(d.(lost := true), e)
  {
    if v.Deliver? {
      assert [v.message] + (d.messages + e.messages) == [v.message] + d.messages + e.messages;
    }
  }

  lemma NothingThen(a: Bytes, d: Drained)
    ensures Then(Drained([], a, false, false), d) == d
  {
    assert [] + d.messages == d.messages;
  }

  lemma DrainWild(b: Bytes)
    requires !Drain(b).outOfBounds
    ensures Parse(b) != OutOfBounds
  {
    hide Parse;
  }

  lemma DrainStops(b: Bytes)
    requires Parse(b).NeedMore? || Parse(b).OutOfBounds?
    ensures Drain(b) == Drained([], b, false, Parse(b).OutOfBounds?)
  {
  }

  lemma DrainOnce(b: Bytes)
    ensures Parse(b).Deliver? ==>
              var d := Drain(b[Parse(b).consumed..]);
              Drain(b) == d.(messages := [Parse(b).message] + d.messages)
    ensures Parse(b).Unmasked? ==> Drain(b) == Drain(b[Parse(b).consumed..]).(lost := true)
  {
  }

  /** The reads of a connection amount to one drain of all their bytes, however they were cut. */
  lemma {:induction false} ReceiveIsDrain(chunks: seq<Bytes>)
    requires |Concat(chunks)| < WORD
    requires !Receive(chunks).outOfBounds && !Receive(chunks).lost
    ensures Receive(chunks) == Drain(Concat(chunks))
  {
    hide Parse;
    if chunks == [] {
      assert Parse([]) == NeedMore by { EmptyWaits(); }
    } else {
      var initial, last := chunks[..|chunks| - 1], chunks[|chunks| - 1];
      ReceiveIsDrain(initial);
      DrainSplits(Concat(initial), last);
    }
  }

  lemma EmptyWaits()
    ensures Parse([]) == NeedMore
  {
  }

  lemma {:induction false} DrainWithin(b: Bytes)
    ensures |Drain(b).rest| <= |b|
    decreases |b|
  {
    hide Parse;
    if Parse(b).Deliver? || Parse(b).Unmasked? {
      DrainOnce(b);
      ParseProgress(b);
      DrainWithin(b[Parse(b).consumed..]);
    }
  }

  lemma ParseProgress(b: Bytes)
    ensures Parse(b).Deliver? || Parse(b).Unmasked? ==> 2 <= Parse(b).consumed <= |b|
  {
  }

  lemma {:induction false} RestWithin(chunks: seq<Bytes>)
    ensures |Receive(chunks).rest| <= |Concat(chunks)|
  {
    hide Drain;
    if chunks != [] {
      var initial, last := chunks[..|chunks| - 1], chunks[|chunks| - 1];
      RestWithin(initial);
      DrainWithin(Receive(initial).rest + last);
    }
  }

  lemma {:induction false} ConcatGrows(chunks: seq<Bytes>, i: nat)
    requires i <= |chunks|
    ensures |Concat(chunks[..i])| <= |Concat(chunks)|
    decreases |chunks|
  {
    if i == |chunks| {
      assert chunks[..i] == chunks;
    } else {
      var initial := chunks[..|chunks| - 1];
      ConcatGrows(initial, i);
      assert initial[..i] == chunks[..i];
    }
  }

  /** What went out of bounds, or was lost, stays so. */
  lemma {:induction false} BoundsKept(chunks: seq<Bytes>, i: nat)
    requires i <= |chunks| && !Receive(chunks).outOfBounds
    ensures !Receive(chunks[..i]).outOfBounds
    decreases |chunks|
  {
    hide Drain;
    if i == |chunks| {
      assert chunks[..i] == chunks;
    } else {
      var initial := chunks[..|chunks| - 1];
      BoundsKept(initial, i);
      assert initial[..i] == chunks[..i];
    }
  }

  lemma {:induction false} LostStays(chunks: seq<Bytes>, i: nat)
    requires i <= |chunks| && Receive(chunks[..i]).lost
    ensures Receive(chunks) == Receive(chunks[..i])
    decreases |chunks|
  {
    hide Drain;
    if i == |chunks| {
      assert chunks[..i] == chunks;
    } else {
      var initial := chunks[..|chunks| - 1];
      assert initial[..i] == chunks[..i];
      LostStays(initial, i);
    }
  }

  /** Section 5.1 of RFC 6455: a complete frame without a mask loses the connection, whatever follows it.
      The frame is skipped, and what has arrived behind it is still delivered. */
  lemma UnmaskedEnds(b: Bytes)
    requires |b| < WORD && Decode(b).Complete? && !Decode(b).frame.masked
    ensures Drain(b).lost
    ensures Decode(b).size <= |b| && Drain(b).messages == Drain(b[Decode(b).size..]).messages
  {
    hide Drain, Xor, FromBigEndian;
    UnmaskedFrames(b);
    DrainOnce(b);
  }

  // ---------------------------------------------------------------- frames of a client

  datatype ClientFrame = ClientFrame(first: byte, mask: Bytes, payload: Bytes)

  ghost predicate Sound(fs: seq<ClientFrame>) {
    forall i :: 0 <= i < |fs| ==> |fs[i].mask| == 4
  }

  function Wire(f: ClientFrame): Bytes
    requires |f.mask| == 4
  {
    Encode(f.first, Some(f.mask), f.payload)
  }

  function WireAll(fs: seq<ClientFrame>): Bytes
    requires Sound(fs)
  {
    if fs == [] then [] else Wire(fs[0]) + WireAll(fs[1..])
  }

  function Payloads(fs: seq<ClientFrame>): seq<Bytes> {
    seq(|fs|, i requires 0 <= i < |fs| => fs[i].payload)
  }

  // ---------------------------------------------------------------- byte counts decide

  /** What the parser makes of a masked frame with a payload of len bytes when n bytes are there from its
      start on. The gaps are where the wrong subtraction shows. */
  datatype Count = Waits | Delivers | Overruns

  function Counted(len: nat, n: nat): Count {
    if len < 126 then if n < 6 + len then Waits else Delivers
    else if len < 65536 then if n < 4 || 8 <= n < 12 + len then Waits else if n < 8 then Overruns else Delivers
    else if n < 12 + len then Waits
    else if n < 14 + len then Overruns
    else Delivers
  }

  function WireSize(len: nat): nat {
    len + if len < 126 then 6 else if len < 65536 then 8 else 14
  }

  /** How many frames n bytes deliver; frames of the given payload lengths, one after the other. */
  function DeliveredBy(lens: seq<nat>, n: nat): nat {
    if lens == [] || Counted(lens[0], n) != Delivers then 0
    else 1 + DeliveredBy(lens[1..], if n < WireSize(lens[0]) then 0 else n - WireSize(lens[0]))
  }

  predicate Overrun(lens: seq<nat>, n: nat) {
    if lens == [] then false
    else match Counted(lens[0], n)
      case Waits => false
      case Overruns => true
      case Delivers => Overrun(lens[1..], if n < WireSize(lens[0]) then 0 else n - WireSize(lens[0]))
  }

  function Lengths(fs: seq<ClientFrame>): seq<nat> {
    seq(|fs|, i requires 0 <= i < |fs| => |fs[i].payload|)
  }

  lemma WireHas(f: ClientFrame)
    requires |f.mask| == 4
    ensures |Wire(f)| == WireSize(|f.payload|)
  {
    hide Xor;
    XorLength(f.payload, f.mask);
  }

  /** The header of a frame, as far as it has arrived. */
  lemma HeaderArrives(f: ClientFrame, p: Bytes, tail: Bytes, more: Bytes)
    requires |f.mask| == 4 && |f.payload| < WORD && p + tail == Wire(f) + more && |p| >= 2
    ensures Masked(p) && (Len7(p) < 126 ==> Len7(p) == |f.payload|)
    ensures Len7(p) == if |f.payload| < 126 then |f.payload| else if |f.payload| < 65536 then 126 else 127
    ensures |p| >= 2 + ExtSize(Len7(p)) ==> PayloadLength(p) == |f.payload|
  {
    hide Xor, FromBigEndian;
    var all := p + tail;
    var l, body := LengthBytes(|f.payload|, 0x80), Xor(f.payload, f.mask);
    assert all == [f.first] + l + (f.mask + body + more);
    LengthReads(|f.payload|, 0x80, f.first, f.mask + body + more);
    assert all[1] == l[0] && p[1] == all[1];
    if |p| >= 2 + ExtSize(Len7(p)) {
      assert p[2..2 + ExtSize(Len7(p))] == all[2..2 + ExtSize(Len7(p))];
    }
  }

  lemma ParseCounts(p: Bytes, len: nat)
    requires 2 <= |p| < WORD && len < WORD - 14 && Masked(p)
    requires Len7(p) == if len < 126 then len else if len < 65536 then 126 else 127
    requires |p| >= 2 + ExtSize(Len7(p)) ==> PayloadLength(p) == len
    ensures
      match Counted(len, |p|)
      case Waits => Parse(p) == NeedMore
      case Overruns => Parse(p) == OutOfBounds
      case Delivers => Parse(p).Deliver? && Parse(p).consumed == WireSize(len) <= |p|
  {
    hide Xor, FromBigEndian;
  }

  /** Bytes that begin a masked frame are waited for, delivered as that frame, or overrun, as their number
      says; never anything else. */
  lemma FirstFrame(f: ClientFrame, p: Bytes, tail: Bytes, more: Bytes)
    requires |f.mask| == 4 && |f.payload| < WORD - 14 && |p| < WORD
    requires p + tail == Wire(f) + more
    ensures
      match Counted(|f.payload|, |p|)
      case Waits => Parse(p) == NeedMore
      case Overruns => Parse(p) == OutOfBounds
      case Delivers => Parse(p) == Deliver(f.payload, |Wire(f)|) && |Wire(f)| <= |p|
  {
    hide Wire, Decode, Parse, Masked, Len7, PayloadLength;
    WireHas(f);
    if |p| < 2 {
      TooShort(p);
    } else {
      HeaderArrives(f, p, tail, more);
      ParseCounts(p, |f.payload|);
      if Parse(p).Deliver? {
        FrameDecodes(f, more);
        DeliverIsStandard(p);
        DecodeExtends(p, tail);
      }
    }
  }

  lemma TooShort(p: Bytes)
    requires |p| < 2
    ensures Parse(p) == NeedMore
  {
  }

  lemma FrameDecodes(f: ClientFrame, more: Bytes)
    requires |f.mask| == 4 && |f.payload| < WORD
    ensures Decode(Wire(f) + more) ==
              Complete(Frame(f.first >= 128, f.first as int % 16, true, f.payload), |Wire(f)|)
  {
    hide Decode, Encode;
    DecodeEncode(f.first, Some(f.mask), f.payload, more);
  }

  /** Delivered are the payloads of the first frames, in order; what is kept begins the next one. */
  ghost predicate Faithful(d: Drained, fs: seq<ClientFrame>, tail: Bytes)
    requires Sound(fs)
  {
    && !d.lost
    && |d.messages| <= |fs|
    && d.messages == Payloads(fs)[..|d.messages|]
    && d.rest + tail == WireAll(fs[|d.messages|..])
  }

  /** The outcome as the byte counts predict it. */
  ghost predicate AsCounted(d: Drained, fs: seq<ClientFrame>, n: nat) {
    && |d.messages| == DeliveredBy(Lengths(fs), n)
    && d.outOfBounds == Overrun(Lengths(fs), n)
    && (|d.messages| < |fs| && !d.outOfBounds ==> Counted(|fs[|d.messages|].payload|, |d.rest|) == Waits)
  }

  lemma {:induction false} DrainFaithful(fs: seq<ClientFrame>, p: Bytes, tail: Bytes)
    requires Sound(fs) && |WireAll(fs)| < WORD && p + tail == WireAll(fs)
    ensures Faithful(Drain(p), fs, tail) && AsCounted(Drain(p), fs, |p|)
    decreases |fs|
  {
    hide Parse, Wire, Drain, Faithful, AsCounted, Counted, WireAll;
    if fs == [] {
      NoFrames(fs, p, tail);
    } else {
      var f, more := fs[0], WireAll(fs[1..]);
      WireAllSplits(fs);
      WireHas(f);
      FirstFrame(f, p, tail, more);
      if Counted(|f.payload|, |p|) == Delivers {
        var n := |Wire(f)|;
        assert p[n..] + tail == (p + tail)[n..] == more;
        DrainFaithful(fs[1..], p[n..], tail);
        DrainOnce(p);
        OneMoreFaithful(fs, Drain(p[n..]), tail);
        OneMoreCounted(fs, Drain(p[n..]), |p|);
      } else {
        Stays(fs, p, tail);
      }
    }
  }

  lemma WireAllSplits(fs: seq<ClientFrame>)
    requires Sound(fs) && fs != []
    ensures WireAll(fs) == Wire(fs[0]) + WireAll(fs[1..])
  {
    hide Wire;
  }

  lemma NoFrames(fs: seq<ClientFrame>, p: Bytes, tail: Bytes)
    requires fs == [] && p + tail == WireAll(fs)
    ensures Faithful(Drain(p), fs, tail) && AsCounted(Drain(p), fs, |p|)
  {
    assert p == [];
    EmptyWaits();
  }

  lemma Stays(fs: seq<ClientFrame>, p: Bytes, tail: Bytes)
    requires Sound(fs) && fs != [] && p + tail == WireAll(fs)
    requires
      match Counted(|fs[0].payload|, |p|)
      case Waits => Parse(p) == NeedMore
      case Overruns => Parse(p) == OutOfBounds
      case Delivers => false
    ensures Faithful(Drain(p), fs, tail) && AsCounted(Drain(p), fs, |p|)
  {
    hide Parse, Counted, WireAll;
    assert fs[0..] == fs && Lengths(fs)[0] == |fs[0].payload|;
    assert Drain(p) == Drained([], p, false, Counted(|fs[0].payload|, |p|) == Overruns);
  }

  lemma OneMoreFaithful(fs: seq<ClientFrame>, d: Drained, tail: Bytes)
    requires Sound(fs) && fs != [] && Faithful(d, fs[1..], tail)
    ensures Faithful(d.(messages := [fs[0].payload] + d.messages), fs, tail)
  {
    hide WireAll;
    var n := |d.messages|;
    assert fs[1 + n..] == fs[1..][n..];
    assert Payloads(fs)[..1 + n] == [fs[0].payload] + Payloads(fs[1..])[..n];
  }

  lemma OneMoreCounted(fs: seq<ClientFrame>, d: Drained, n: nat)
    requires fs != [] && Counted(|fs[0].payload|, n) == Delivers && n >= WireSize(|fs[0].payload|)
    requires AsCounted(d, fs[1..], n - WireSize(|fs[0].payload|))
    ensures AsCounted(d.(messages := [fs[0].payload] + d.messages), fs, n)
  {
    hide Counted, WireSize;
    assert Lengths(fs)[1..] == Lengths(fs[1..]) && Lengths(fs)[0] == |fs[0].payload|;
    if |d.messages| < |fs[1..]| {
      assert fs[1..][|d.messages|] == fs[1 + |d.messages|];
    }
  }

  /** After some of the reads the parser goes beyond its bytes. */
  ghost predicate Strays(lens: seq<nat>, chunks: seq<Bytes>) {
    exists i :: 0 <= i <= |chunks| && Overrun(lens, |Concat(chunks[..i])|)
  }

  /** For frames of every length and every way of cutting their bytes into chunks: the parser goes beyond
      the bytes it has exactly when, after some read, their number falls into a gap of the frame then at
      the front. As long as it does not, what it delivers is a prefix of the payloads, unmasked and in order,
      as many as the bytes account for, and what it keeps is exactly the unconsumed part of what
      arrived. */
  lemma {:induction false} DeliveredInOrder(fs: seq<ClientFrame>, chunks: seq<Bytes>, tail: Bytes)
    requires Sound(fs) && |WireAll(fs)| < WORD && Concat(chunks) + tail == WireAll(fs)
    ensures Receive(chunks).outOfBounds <==> Strays(Lengths(fs), chunks)
    ensures !Receive(chunks).lost
    ensures !Strays(Lengths(fs), chunks) ==>
              Faithful(Receive(chunks), fs, tail) && AsCounted(Receive(chunks), fs, |Concat(chunks)|)
    decreases |chunks|
  {
    hide Drain, Faithful, AsCounted, WireAll, Overrun, Strays;
    var lens := Lengths(fs);
    if chunks == [] {
      EmptyDrain();
      DrainFaithful(fs, [], tail);
      FaithfulLives(Drain([]), fs, tail, 0);
      StraysFirst(lens);
    } else {
      var initial, last := chunks[..|chunks| - 1], chunks[|chunks| - 1];
      assert Concat(initial) + (last + tail) == WireAll(fs);
      DeliveredInOrder(fs, initial, last + tail);
      StraysMore(lens, chunks);
      if !Strays(lens, initial) {
        ReceiveIsDrain(initial);
        DrainSplits(Concat(initial), last);
        DrainFaithful(fs, Concat(chunks), tail);
        FaithfulLives(Drain(Concat(chunks)), fs, tail, |Concat(chunks)|);
      }
    }
  }

  lemma FaithfulLives(d: Drained, fs: seq<ClientFrame>, tail: Bytes, n: nat)
    requires Sound(fs) && Faithful(d, fs, tail) && AsCounted(d, fs, n)
    ensures !d.lost && d.outOfBounds == Overrun(Lengths(fs), n)
  {
  }

  lemma StraysFirst(lens: seq<nat>)
    ensures Strays(lens, []) <==> Overrun(lens, 0)
  {
    var chunks: seq<Bytes> := [];
    assert chunks[..0] == [];
    assert Concat(chunks[..0]) == [];
  }

  lemma StraysMore(lens: seq<nat>, chunks: seq<Bytes>)
    requires chunks != []
    ensures Strays(lens, chunks) <==>
              Strays(lens, chunks[..|chunks| - 1]) || Overrun(lens, |Concat(chunks)|)
  {
    hide Overrun, Concat;
    var initial := chunks[..|chunks| - 1];
    assert chunks[..|chunks|] == chunks;
    forall i | 0 <= i < |chunks| ensures chunks[..i] == initial[..i] {
    }
  }

  ghost predicate Short(fs: seq<ClientFrame>) {
    forall i :: 0 <= i < |fs| ==> |fs[i].payload| < 126
  }

  lemma {:induction false} ShortNeverStray(lens: seq<nat>, n: nat)
    requires forall i :: 0 <= i < |lens| ==> lens[i] < 126
    ensures !Overrun(lens, n)
  {
    if lens != [] && Counted(lens[0], n) == Delivers {
      ShortNeverStray(lens[1..], n - WireSize(lens[0]));
    }
  }

  /** Short frames are handled exactly as the standard wants, whatever the chunks: nothing out of bounds,
      no connection lost, every complete frame delivered at once, and once all bytes are in, all
      payloads delivered and nothing kept. */
  lemma ShortFramesDelivered(fs: seq<ClientFrame>, chunks: seq<Bytes>, tail: Bytes)
    requires Sound(fs) && Short(fs) && |WireAll(fs)| < WORD && Concat(chunks) + tail == WireAll(fs)
    ensures
      var d := Receive(chunks);
      && !d.outOfBounds
      && Faithful(d, fs, tail)
      && (|d.messages| < |fs| ==> |d.rest| < |Wire(fs[|d.messages|])|)
      && (tail == [] ==> d.messages == Payloads(fs) && d.rest == [])
  {
    hide Receive, Wire, WireAll, Concat, Overrun, DeliveredBy;
    forall n: nat ensures !Overrun(Lengths(fs), n) {
      ShortNeverStray(Lengths(fs), n);
    }
    DeliveredInOrder(fs, chunks, tail);
    var d := Receive(chunks);
    if |d.messages| < |fs| {
      WireHas(fs[|d.messages|]);
      NextFits(fs, |d.messages|);
      assert d.rest + [] == d.rest;
    } else {
      assert fs[|fs|..] == [];
      NothingToSend();
    }
    assert Payloads(fs)[..|fs|] == Payloads(fs);
  }

  // ---------------------------------------------------------------- how large the buffer gets

  const INITIAL_SIZE := 1024

  /** The buffer's size when a read begins: a full buffer is doubled. */
  function Grown(size: nat, avail: nat): nat {
    if size <= avail then 2 * size else size
  }

  /** There is always room for a read, and never more than the buffer's double size. */
  lemma RoomToRead(size: nat, avail: nat)
    requires 0 < size && avail <= size
    ensures size <= Grown(size, avail) <= 2 * size && avail < Grown(size, avail)
    ensures Grown(size, avail) > size <==> avail == size
  {
  }

  /** The buffer's size after the given reads. */
  function SizeAfter(chunks: seq<Bytes>): nat {
    if chunks == [] then INITIAL_SIZE
    else
      var initial := chunks[..|chunks| - 1];
      Grown(SizeAfter(initial), |Receive(initial).rest|)
  }

  /** No more than a frame and the bytes the parser waits for behind it is ever kept. */
  lemma KeptSmall(fs: seq<ClientFrame>, chunks: seq<Bytes>, tail: Bytes, most: nat)
    requires Sound(fs) && |WireAll(fs)| < WORD && Concat(chunks) + tail == WireAll(fs)
    requires forall i :: 0 <= i < |fs| ==> |fs[i].payload| <= most
    requires !Strays(Lengths(fs), chunks)
    ensures |Receive(chunks).rest| < most + 12
  {
    hide Receive, WireAll, Concat, Overrun, DeliveredBy, Strays;
    DeliveredInOrder(fs, chunks, tail);
    var d := Receive(chunks);
    if |d.messages| == |fs| {
      assert fs[|fs|..] == [];
      NothingToSend();
    }
  }

  /** While no frame has a payload of more than most bytes and the parser stays within its bytes, the buffer
      doubles no further than that needs, whatever the reads; below 1013 bytes never. */
  lemma {:induction false} BufferBounded(fs: seq<ClientFrame>, chunks: seq<Bytes>, tail: Bytes, most: nat)
    requires Sound(fs) && |WireAll(fs)| < WORD && Concat(chunks) + tail == WireAll(fs)
    requires forall i :: 0 <= i < |fs| ==> |fs[i].payload| <= most
    requires !Strays(Lengths(fs), chunks)
    ensures SizeAfter(chunks) == 1024 || SizeAfter(chunks) <= 2 * (most + 11)
    ensures most < 1013 ==> SizeAfter(chunks) == 1024
    decreases |chunks|
  {
    hide Receive, WireAll, Overrun, Strays;
    if chunks != [] {
      var initial, last := chunks[..|chunks| - 1], chunks[|chunks| - 1];
      assert Concat(initial) + (last + tail) == WireAll(fs);
      StraysMore(Lengths(fs), chunks);
      BufferBounded(fs, initial, last + tail, most);
      KeptSmall(fs, initial, last + tail, most);
    }
  }

  /** With short frames the buffer never grows, whatever the reads. */
  lemma ShortNeverGrow(fs: seq<ClientFrame>, chunks: seq<Bytes>, tail: Bytes)
    requires Sound(fs) && Short(fs) && |WireAll(fs)| < WORD && Concat(chunks) + tail == WireAll(fs)
    ensures SizeAfter(chunks) == 1024
  {
    hide SizeAfter, Overrun, WireAll, Concat;
    forall n: nat ensures !Overrun(Lengths(fs), n) {
      ShortNeverStray(Lengths(fs), n);
    }
    BufferBounded(fs, chunks, tail, 125);
  }

  lemma NothingToSend()
    ensures WireAll([]) == []
  {
  }

  lemma NextFits(fs: seq<ClientFrame>, i: nat)
    requires Sound(fs) && i < |fs|
    ensures |Wire(fs[i])| <= |WireAll(fs[i..])|
  {
    hide Wire;
    assert fs[i..][0] == fs[i];
  }

  lemma EmptyDrain()
    ensures Drain([]) == Drained([], [], false, false)
  {
    EmptyWaits();
  }

  /** A complete frame that arrives alone is delivered exactly when its length is not in the 16-bit form;
      such a frame waits for four more bytes. */
  lemma LoneFrame(f: ClientFrame)
    requires |f.mask| == 4 && |Wire(f)| < WORD
    ensures Decode(Wire(f)) == Complete(Frame(f.first >= 128, f.first as int % 16, true, f.payload), |Wire(f)|)
    ensures Receive([Wire(f)]) ==
              if 126 <= |f.payload| < 65536 then Drained([], Wire(f), false, false)
              else Drained([f.payload], [], false, false)
  {
    hide Wire, Decode, Parse;
    var w := Wire(f);
    assert w + [] == w && [] + w == w && w[|w|..] == [];
    WireHas(f);
    FrameDecodes(f, []);
    FirstFrame(f, w, [], []);
    assert [w][..0] == [];
    assert Receive([]) == Drained([], [], false, false);
    EmptyDrain();
  }
}
