/** What live streaming promises, for every reachable state of module Hls. */
module HlsProperties {
  import opened Text
  import opened Hls

  // ---------------------------------------------------------------- reachable states

  /** Some interleaving of probes, idle callbacks, requests and set-up leads from the start to w. */
  ghost predicate Reached(w: World) {
    exists cfg, table, events :: w == Run(Init(cfg, table), events)
  }

  lemma ReachedInv(w: World)
    requires Reached(w)
    ensures Inv(w) && SoleInv(w)
  {
    hide Inv, SoleInv, Run;
    var cfg, table, events :| w == Run(Init(cfg, table), events);
    Reachable(cfg, table, events);
    SoleReachable(cfg, table, events);
  }

  lemma StreamFacts(w: World, k: nat)
    requires Inv(w) && k < |w.streams|
    ensures |w.streams[k].ring| == RING && StreamInv(w.cfg, w.table, w.queue, w.streams[k], k)
  {
    hide StreamInv;
    assert StreamInv(w.cfg, w.table, w.queue, w.streams[k], k);
    RingLength(w.cfg, w.table, w.queue, w.streams[k], k);
  }

  lemma RingLength(cfg: Config, table: map<string, Resource>, queue: seq<Queued>, s: Stream, k: nat)
    requires StreamInv(cfg, table, queue, s, k)
    ensures |s.ring| == RING
  {
  }

  lemma {:induction false} RunAppend(w: World, a: seq<Event>, b: seq<Event>)
    ensures Run(w, a + b) == Run(Run(w, a), b)
  {
    hide Step;
    if b == [] {
      assert a + b == a;
    } else {
      assert (a + b)[..|a + b| - 1] == a + b[..|b| - 1];
      RunAppend(w, a, b[..|b| - 1]);
    }
  }

  lemma RunReached(w: World, events: seq<Event>)
    requires Reached(w)
    ensures Reached(Run(w, events))
  {
    hide Run;
    var cfg, table, early :| w == Run(Init(cfg, table), early);
    RunAppend(Init(cfg, table), early, events);
  }

  // ---------------------------------------------------------------- no byte is lost, repeated or reordered

  function Flatten(parts: seq<Bytes>): Bytes {
    if parts == [] then [] else Flatten(parts[..|parts| - 1]) + parts[|parts| - 1]
  }

  function SlotData(slot: Option<Segment>): Bytes {
    match slot
    case None => []
    case Some(seg) => seg.data
  }

  /** The segments of the ring in index order, read from the slots. */
  function Live(s: Stream): seq<Bytes>
    requires |s.ring| == RING
  {
    seq(s.nChunks - Oldest(s.nChunks), i requires 0 <= i < s.nChunks - Oldest(s.nChunks) =>
      SlotData(s.ring[(Oldest(s.nChunks) + i) % RING]))
  }

  function Evicted(s: Stream): seq<Segment> {
    if Oldest(s.nChunks) <= |s.stored| then s.stored[..Oldest(s.nChunks)] else s.stored
  }

  lemma {:induction false} FlattenAppend(a: seq<Bytes>, b: seq<Bytes>)
    ensures Flatten(a + b) == Flatten(a) + Flatten(b)
  {
    if b == [] {
      assert a + b == a;
    } else {
      assert (a + b)[..|a + b| - 1] == a + b[..|b| - 1];
      FlattenAppend(a, b[..|b| - 1]);
      var init, last := Flatten(b[..|b| - 1]), b[|b| - 1];
      assert (Flatten(a) + init) + last == Flatten(a) + (init + last);
    }
  }

  lemma {:induction false} CutConserves(buffers: seq<Bytes>)
    ensures Flatten(Cut(buffers).0) + Cut(buffers).1 == Flatten(buffers)
  {
    hide RandomAccess;
    if buffers != [] {
      var initial, b := buffers[..|buffers| - 1], buffers[|buffers| - 1];
      CutConserves(initial);
      var (chunks, rest) := Cut(initial);
      assert (chunks + [rest])[..|chunks|] == chunks;
    }
  }

  /** All that the sinks received, but for what the adapters of replaced sinks still held. */
  function Kept(sinks: seq<seq<Bytes>>): Bytes {
    if sinks == [] then [] else SavedBefore(sinks[..|sinks| - 1]) + Flatten(sinks[|sinks| - 1])
  }

  /** Of each replaced sink's bytes, those before the ones its adapter still held. */
  function SavedBefore(sinks: seq<seq<Bytes>>): Bytes {
    if sinks == [] then []
    else
      var all, left := Flatten(sinks[|sinks| - 1]), Cut(sinks[|sinks| - 1]).1;
      SavedBefore(sinks[..|sinks| - 1]) + if |left| <= |all| then all[..|all| - |left|] else all
  }

  lemma {:induction false} SavedIsCut(sinks: seq<seq<Bytes>>)
    ensures SavedBefore(sinks) == Flatten(CutAll(sinks).0)
  {
    hide Cut;
    if sinks != [] {
      var init, last := sinks[..|sinks| - 1], sinks[|sinks| - 1];
      SavedIsCut(init);
      CutConserves(last);
      FlattenAppend(CutAll(init).0, Cut(last).0);
      var all, left := Flatten(last), Cut(last).1;
      assert all[..|all| - |left|] == Flatten(Cut(last).0);
    }
  }

  lemma CutAllConserves(sinks: seq<seq<Bytes>>)
    requires sinks != []
    ensures Flatten(CutAll(sinks).0) + CutAll(sinks).1 == Kept(sinks)
    ensures CutAll(sinks).1 == Cut(sinks[|sinks| - 1]).1
  {
    hide Cut, SavedBefore, Flatten;
    var init, last := sinks[..|sinks| - 1], sinks[|sinks| - 1];
    var chunks, more, rest := CutAll(init).0, Cut(last).0, Cut(last).1;
    assert CutAll(sinks) == (chunks + more, rest);
    CutConserves(last);
    SavedIsCut(init);
    Regroup(chunks, more, rest);
  }

  lemma Regroup(a: seq<Bytes>, b: seq<Bytes>, rest: Bytes)
    ensures Flatten(a + b) + rest == Flatten(a) + (Flatten(b) + rest)
  {
    hide Flatten;
    FlattenAppend(a, b);
  }

  lemma KeptOfOne(buffers: seq<Bytes>)
    ensures Kept([buffers]) == Flatten(buffers)
  {
    hide Cut, Flatten;
    var sinks := [buffers];
    assert sinks[..0] == [] && [] + Flatten(buffers) == Flatten(buffers);
  }

  /** Evicted segments, the ring in index order, the queued chunks and the adapter, put together, are
      exactly what the probe received. Only where a stream got a new sink are the bytes missing that the
      adapter of the sink before it still held. Which chunks there are depends on the received buffers
      alone, not on how probe and main loop interleave. */
  lemma Conservation(w: World, k: nat)
    requires Reached(w) && k < |w.streams|
    ensures
      var s := w.streams[k];
      && |s.ring| == RING && s.received != []
      && Datas(Evicted(s)) + Live(s) + Pending(w.queue, k) == CutAll(s.received).0
      && Flatten(Datas(Evicted(s))) + Flatten(Live(s)) + Flatten(Pending(w.queue, k)) + s.adapter == Kept(s.received)
      && s.adapter == Cut(s.received[|s.received| - 1]).1
      && (|s.received| == 1 ==> Kept(s.received) == Flatten(s.received[0]))
  {
    hide Reached, CutAll, Cut, Kept, Live, Pending, RingInv, TableInv, Inv;
    ReachedInv(w);
    StreamFacts(w, k);
    var s := w.streams[k];
    if |s.received| == 1 {
      assert s.received == [s.received[0]];
      KeptOfOne(s.received[0]);
    }
    LiveIsStored(w.cfg, s);
    CutAllConserves(s.received);
    FlattenAppend(Datas(Evicted(s)), Live(s));
    FlattenAppend(Datas(Evicted(s)) + Live(s), Pending(w.queue, k));
  }

  /** Replacing a sink loses exactly what the adapter holds at that moment; segments and queue stay. */
  lemma NewSinkLoses(w: World, k: nat)
    requires Reached(w) && k < |w.streams| && w.streams[k].info.isHls
    ensures
      var s, s' := w.streams[k], Step(w, NewSink(k)).streams[k];
      && Kept(s.received) == Kept(s'.received) + s.adapter
      && s'.adapter == [] && s'.stored == s.stored && Step(w, NewSink(k)).queue == w.queue
  {
    hide Reached, CutAll, Cut, Kept, Live, Pending, RingInv, TableInv, Inv, VariantText, IndexLocation;
    Conservation(w, k);
    KeptWithout(w.streams[k].received);
  }

  lemma KeptWithout(sinks: seq<seq<Bytes>>)
    requires sinks != []
    ensures Kept(sinks) == Kept(sinks + [[]]) + Cut(sinks[|sinks| - 1]).1
  {
    hide Cut, CutAll;
    var more := sinks + [[]];
    assert more[..|sinks|] == sinks && more[|sinks|] == [];
    CutAllConserves(sinks);
    SavedIsCut(sinks);
  }

  lemma LiveIsStored(cfg: Config, s: Stream)
    requires RingInv(cfg, s)
    ensures |s.ring| == RING && Datas(Evicted(s)) + Live(s) == Datas(s.stored)
  {
    hide Location;
    var from := Oldest(s.nChunks);
    forall i | 0 <= i < |Live(s)| ensures Live(s)[i] == s.stored[from + i].data {
      var j := from + i;
      assert s.ring[j % RING] == Some(s.stored[j]);
      assert Live(s)[i] == SlotData(s.ring[(from + i) % RING]);
    }
  }

  /** The cut is never missed: wherever a buffer passes the test after enough bytes, a chunk ends just
      before it, no matter what follows. */
  lemma {:induction false} CutTaken(buffers: seq<Bytes>, n: nat)
    requires n < |buffers| && RandomAccess(buffers[n]) && |Cut(buffers[..n]).1| >= 18800
    ensures
      var i := |Cut(buffers[..n]).0| + 1;
      && i <= |Cut(buffers).0|
      && Cut(buffers).0[..i] == Cut(buffers[..n]).0 + [Cut(buffers[..n]).1]
      && Flatten(Cut(buffers).0[..i]) == Flatten(buffers[..n])
    decreases |buffers|
  {
    hide RandomAccess;
    var last := |buffers| - 1;
    var (chunks, rest) := Cut(buffers[..n]);
    CutConserves(buffers[..n]);
    assert (chunks + [rest])[..|chunks|] == chunks;
    if n < last {
      assert buffers[..last][..n] == buffers[..n];
      CutTaken(buffers[..last], n);
      var before := Cut(buffers[..last]).0;
      assert Cut(buffers).0 == before || Cut(buffers).0 == before + [Cut(buffers[..last]).1];
      assert Cut(buffers).0[..|chunks| + 1] == before[..|chunks| + 1];
    } else {
      assert Cut(buffers).0 == chunks + [rest];
    }
  }

  /** The test reads the two fields of the standard: adaptation_field_control says that there is an
      adaptation field (10 or 11), and random_access_indicator is set. */
  lemma RandomAccessFields(data: Bytes)
    requires |data| > 5
    ensures RandomAccess(data) <==>
              (data[3] & 0x30 == 0x20 || data[3] & 0x30 == 0x30) && data[5] & 0x40 == 0x40
  {
    FieldBits(data[3], data[5]);
  }

  lemma FieldBits(a: bv8, b: bv8)
    ensures ((a >> 4) & 2 != 0) <==> (a & 0x30 == 0x20 || a & 0x30 == 0x30)
    ensures ((b >> 6) & 1 != 0) <==> b & 0x40 == 0x40
  {
  }

  lemma RandomAccessOfPrefix(a: Bytes, b: Bytes)
    requires |a| > 5
    ensures RandomAccess(a + b) == RandomAccess(a)
  {
    assert (a + b)[3] == a[3] && (a + b)[5] == a[5];
  }

  /** Every chunk, queued or stored, is long enough, and every one after the first, as well as what is
      left over, begins exactly where a received buffer that passes the random access test begins. */
  lemma {:induction false} CutShape(buffers: seq<Bytes>, i: nat) returns (m: nat)
    requires i <= |Cut(buffers).0|
    ensures
      var (chunks, rest) := Cut(buffers);
      && (i < |chunks| ==> |chunks[i]| >= 18800)
      && (i > 0 ==>
            && m < |buffers|
            && RandomAccess(buffers[m])
            && Flatten(chunks[..i]) == Flatten(buffers[..m])
            && buffers[m] <= (if i < |chunks| then chunks[i] else rest))
  {
    hide RandomAccess;
    m := 0;
    if buffers != [] {
      var last := |buffers| - 1;
      var initial, b := buffers[..last], buffers[last];
      var (chunks, rest) := Cut(initial);
      if RandomAccess(b) && |rest| >= CHUNK_MIN && i == |chunks| + 1 {
        m := last;
        CutConserves(initial);
        assert (chunks + [rest])[..i] == chunks + [rest];
        assert (chunks + [rest])[..|chunks|] == chunks;
      } else {
        m := CutShape(initial, i);
        assert Cut(buffers).0[..i] == chunks[..i];
        assert i > 0 ==> buffers[..m] == initial[..m];
      }
    }
  }

  /** The sink that a chunk comes from, and its number there. */
  lemma {:induction false} SinkOf(sinks: seq<seq<Bytes>>, i: nat) returns (j: nat, m: nat)
    requires i < |CutAll(sinks).0|
    ensures j < |sinks| && |CutAll(sinks[..j]).0| + m == i && m < |Cut(sinks[j]).0|
    ensures CutAll(sinks).0[i] == Cut(sinks[j]).0[m]
  {
    hide Cut;
    var init, last := sinks[..|sinks| - 1], sinks[|sinks| - 1];
    var before := |CutAll(init).0|;
    if i < before {
      j, m := SinkOf(init, i);
      assert init[..j] == sinks[..j];
    } else {
      j, m := |sinks| - 1, i - before;
    }
  }

  /** The first chunk of a sink, or what will become it, begins with the first buffer. */
  lemma {:induction false} FirstChunk(buffers: seq<Bytes>)
    requires buffers != []
    ensures
      var (chunks, rest) := Cut(buffers);
      buffers[0] <= if chunks == [] then rest else chunks[0]
  {
    hide RandomAccess;
    var last := |buffers| - 1;
    if last > 0 {
      FirstChunk(buffers[..last]);
    } else {
      assert buffers[..0] == [];
    }
  }

  /** Every stored segment is long enough and begins with a buffer, number m of sink j, that passes the
      test, unless it is the first segment that sink made: that one begins with the sink's first buffer,
      whatever it is. */
  lemma StoredShape(w: World, k: nat, i: nat) returns (j: nat, m: nat)
    requires Reached(w) && k < |w.streams| && i < |w.streams[k].stored|
    ensures
      var s := w.streams[k];
      && |s.stored[i].data| >= 18800
      && j < |s.received| && m < |s.received[j]| && s.received[j][m] <= s.stored[i].data
      && RandomAccess(s.stored[i].data) == RandomAccess(s.received[j][m])
      && (RandomAccess(s.received[j][m]) || (m == 0 && i == |CutAll(s.received[..j]).0|))
  {
    hide Reached, RandomAccess, RingInv, TableInv, Inv, Cut, CutAll;
    ReachedInv(w);
    StreamFacts(w, k);
    var s := w.streams[k];
    LongReached(w, k);
    var chunk := s.stored[i].data;
    assert chunk == CutAll(s.received).0[i];
    var c;
    j, c := SinkOf(s.received, i);
    m := CutShape(s.received[j], c);
    if c == 0 {
      m := 0;
      SomeBuffer(s.received[j]);
      FirstChunk(s.received[j]);
    }
    var first := s.received[j][m];
    assert chunk == first + chunk[|first|..];
    RandomAccessOfPrefix(first, chunk[|first|..]);
  }

  lemma SomeBuffer(buffers: seq<Bytes>)
    requires Cut(buffers).0 != []
    ensures buffers != []
  {
  }

  ghost predicate Long(sinks: seq<seq<Bytes>>) {
    forall j, m :: 0 <= j < |sinks| && 0 <= m < |sinks[j]| ==> |sinks[j][m]| > 5
  }

  lemma LongReached(w: World, k: nat)
    requires Reached(w) && k < |w.streams|
    ensures Long(w.streams[k].received)
  {
    hide Run, Long;
    var cfg, table, events :| w == Run(Init(cfg, table), events);
    ReceivedLong(cfg, table, events, k);
  }

  lemma {:induction false} ReceivedLong(cfg: Config, table: map<string, Resource>, events: seq<Event>, k: nat)
    requires k < |Run(Init(cfg, table), events).streams|
    ensures Long(Run(Init(cfg, table), events).streams[k].received)
  {
    hide Step, Long;
    if events != [] {
      var before := events[..|events| - 1];
      if k < |Run(Init(cfg, table), before).streams| {
        ReceivedLong(cfg, table, before, k);
      }
      StepLong(Run(Init(cfg, table), before), events[|events| - 1], k);
    }
  }

  lemma StepLong(w: World, e: Event, k: nat)
    requires k < |w.streams| ==> Long(w.streams[k].received)
    requires k < |Step(w, e).streams|
    ensures Long(Step(w, e).streams[k].received)
  {
    hide RandomAccess, Location, Fresh, TableWithChunk, VariantText, VariantLocation, IndexLocation, NewSegment;
    hide WithBuffer, Long;
    if k >= |w.streams| {
      FirstLong(Step(w, e).streams[k]);
    } else if e.Probe? && Enabled(w, e) {
      MoreLong(w.streams[k].received, e.buffer);
    } else if e.NewSink? {
      SinkLong(w.streams[k].received);
    }
  }

  lemma FirstLong(s: Stream)
    ensures s.received == [[]] ==> Long(s.received)
  {
  }

  lemma MoreLong(sinks: seq<seq<Bytes>>, buffer: Bytes)
    requires Long(sinks) && |buffer| > 5
    ensures Long(WithBuffer(sinks, buffer))
  {
  }

  lemma SinkLong(sinks: seq<seq<Bytes>>)
    requires Long(sinks)
    ensures Long(sinks + [[]])
  {
  }

  // ---------------------------------------------------------------- ring, table and requests

  datatype Response = NotFound | Chunk(data: Bytes) | Playlist(text: string) | Foreign

  /** The answer to a request for a path. */
  function Fetch(w: World, path: string): Response {
    if path !in w.table then NotFound
    else match w.table[path]
      case ChunkOf(k, slot) =>
        if k < |w.streams| && slot < |w.streams[k].ring| && w.streams[k].ring[slot].Some?
        then Chunk(w.streams[k].ring[slot].value.data) else Foreign
      case IndexOf(k) =>
        if k < |w.streams| && |w.streams[k].ring| == RING then Playlist(Served(w, k)) else Foreign
      case Variant => if w.variant.Some? then Playlist(w.variant.value) else Foreign
      case Other => Foreign
  }

  /** The playlist a request for stream k's index gets. */
  function Served(w: World, k: nat): string
    requires k < |w.streams| && |w.streams[k].ring| == RING
  {
    Refreshed(w.cfg, w.nHls, w.streams[k]).cache.value
  }

  /** The newest twenty segments are in their slots, and the table leads from each one's name to its slot;
      no other number's name is in the table. A request therefore gets exactly that segment's bytes, and
      nothing before it is stored or after it is evicted. */
  lemma FetchSegment(w: World, k: nat, i: nat)
    requires Reached(w) && k < |w.streams| && w.streams[k].info.isHls
    ensures
      var s := w.streams[k];
      var there := s.nChunks - 20 <= i < s.nChunks;
      && |s.stored| == s.nChunks && |s.ring| == 20
      && (there ==> s.ring[i % 20] == Some(s.stored[i]) && s.stored[i].index == i)
      && (Location(w.cfg, s.info, i) in w.table <==> there)
      && (there ==> w.table[Location(w.cfg, s.info, i)] == ChunkOf(k, i % 20))
      && Fetch(w, Location(w.cfg, s.info, i)) == if there then Chunk(s.stored[i].data) else NotFound
  {
    hide Reached, Location, FlowInv, CacheInv, Inv;
    ReachedInv(w);
    StreamFacts(w, k);
    var s := w.streams[k];
    assert Location(w.cfg, s.info, i) in w.table <==> Oldest(s.nChunks) <= i < s.nChunks;
    if Oldest(s.nChunks) <= i < s.nChunks {
      assert s.ring[i % RING] == Some(s.stored[i]);
    }
  }

  /** What a player follows: the program's playlist is found under the program's name, each stream's
      under the name the program's playlist gives, and each segment of the ring under the name the
      stream's playlist gives. */
  lemma PlayerPath(w: World, k: nat)
    requires Reached(w) && k < |w.streams| && w.streams[k].info.isHls
    ensures
      var s := w.streams[k];
      && Fetch(w, VariantLocation(w.cfg)) == Playlist(VariantText(w.cfg, w.streams))
      && |s.ring| == RING && |s.stored| == s.nChunks
      && Fetch(w, IndexLocation(w.cfg, s.info)) == Playlist(Served(w, k))
      && (forall i :: Oldest(s.nChunks) <= i < s.nChunks ==> Fetch(w, s.stored[i].location) == Chunk(s.stored[i].data))
  {
    hide Reached, Location, VariantLocation, IndexLocation, VariantText, FlowInv, CacheInv, TableInv, Served;
    ReachedInv(w);
    StreamFacts(w, k);
    var s := w.streams[k];
    assert HasHls(w.streams);
    forall i | Oldest(s.nChunks) <= i < s.nChunks ensures Fetch(w, s.stored[i].location) == Chunk(s.stored[i].data) {
      FetchSegment(w, k, i);
      assert s.stored[i].location == Location(w.cfg, s.info, i);
    }
  }

  // ---------------------------------------------------------------- the sliding window

  /** The slots a playlist lists, in order. */
  function Listed(ring: seq<Option<Segment>>, from: nat, to: nat): seq<Option<Segment>>
    requires |ring| == RING
  {
    if from >= to then [] else seq(to - from, i requires 0 <= i < to - from => ring[(from + i) % RING])
  }

  function Slots(segs: seq<Segment>): seq<Option<Segment>> {
    seq(|segs|, i requires 0 <= i < |segs| => Some(segs[i]))
  }

  function From(segs: seq<Segment>, from: nat): seq<Segment> {
    if from <= |segs| then segs[from..] else []
  }

  /** All streams of a program share the counter the window is computed from. What a playlist lists is
      the consecutive run of segments it announces exactly when that counter is not too far behind. */
  lemma WindowExact(w: World, k: nat)
    requires Reached(w) && k < |w.streams|
    ensures
      var s, first := w.streams[k], SeqNum(w.nHls);
      && |s.ring| == RING
      && (Listed(s.ring, first, s.nChunks) == Slots(From(s.stored, first)) <==> s.nChunks - 20 <= first)
  {
    hide Reached, Inv, FlowInv, CacheInv, TableInv;
    ReachedInv(w);
    StreamFacts(w, k);
    ListedIsStored(w.cfg, w.streams[k], SeqNum(w.nHls));
  }

  lemma ListedIsStored(cfg: Config, s: Stream, first: nat)
    requires RingInv(cfg, s)
    ensures |s.ring| == RING
    ensures Listed(s.ring, first, s.nChunks) == Slots(From(s.stored, first)) <==> s.nChunks - RING <= first
  {
    hide Location;
    var n := s.nChunks;
    var listed, wanted := Listed(s.ring, first, n), Slots(From(s.stored, first));
    if n - RING <= first {
      forall i | 0 <= i < |listed| ensures listed[i] == wanted[i] {
        assert s.ring[(first + i) % RING] == Some(s.stored[first + i]);
      }
      assert listed == wanted;
    } else {
      var j := SlotHolds(n, first);
      assert s.ring[j % RING] == Some(s.stored[j]);
      assert listed[0] == s.ring[(first + 0) % RING];
      assert wanted[0] == Some(s.stored[first]);
      assert s.stored[j].index == j && s.stored[first].index == first;
    }
  }

  /** The segment that has taken the slot of an evicted one. */
  lemma SlotHolds(n: nat, first: nat) returns (j: nat)
    requires first < n - RING
    ensures j % RING == first % RING && n - RING <= j < n
  {
    j := first + (n - 1 - first) / RING * RING;
  }

  ghost predicate SoleHls(w: World, k: nat) {
    k < |w.streams| && forall j :: 0 <= j < |w.streams| ==> (w.streams[j].info.isHls <==> j == k)
  }

  /** With a single HLS stream the shared counter is that stream's own, and a clean cache was rendered for it. */
  ghost predicate SoleInv(w: World) {
    && (!HasHls(w.streams) ==> w.nHls == 0)
    && (forall k: nat :: SoleHls(w, k) ==>
         && w.nHls == w.streams[k].nChunks
         && (w.streams[k].cache.Some? && !w.streams[k].needUpdate ==> w.streams[k].cachedFor == w.nHls))
  }

  lemma InfoKept(w: World, e: Event, j: nat)
    requires j < |w.streams|
    ensures j < |Step(w, e).streams| && Step(w, e).streams[j].info == w.streams[j].info
  {
    hide Location, Fresh, TableWithChunk, VariantText, VariantLocation, IndexLocation, RandomAccess, NewSegment;
  }

  lemma SoleStep(w: World, e: Event)
    requires Inv(w) && SoleInv(w)
    ensures SoleInv(Step(w, e))
  {
    hide Location, Prefix, Fresh, TableWithChunk, VariantText, VariantLocation, IndexLocation, RandomAccess;
    hide NewSegment, Inv;
    var w' := Step(w, e);
    QueuedAreHls(w);
    forall j | 0 <= j < |w.streams| ensures w'.streams[j].info == w.streams[j].info && |w.streams| <= |w'.streams| {
      InfoKept(w, e, j);
    }
    forall k: nat | SoleHls(w', k)
      ensures
        && w'.nHls == w'.streams[k].nChunks
        && (w'.streams[k].cache.Some? && !w'.streams[k].needUpdate ==> w'.streams[k].cachedFor == w'.nHls)
    {
      if k < |w.streams| {
        assert SoleHls(w, k);
      }
    }
  }

  lemma QueuedAreHls(w: World)
    requires Inv(w)
    ensures QueueInv(w)
  {
  }

  lemma {:induction false} SoleReachable(cfg: Config, table: map<string, Resource>, events: seq<Event>)
    ensures SoleInv(Run(Init(cfg, table), events))
  {
    hide Inv, Step;
    if events != [] {
      var before := events[..|events| - 1];
      Reachable(cfg, table, before);
      SoleReachable(cfg, table, before);
      SoleStep(Run(Init(cfg, table), before), events[|events| - 1]);
    }
  }

  /** What a stream has stored only grows, and its parameters stay. */
  ghost predicate Extends(w: World, v: World, k: nat)
    requires k < |w.streams|
  {
    && v.cfg == w.cfg
    && |w.streams| <= |v.streams|
    && v.streams[k].info == w.streams[k].info
    && w.streams[k].stored <= v.streams[k].stored
    && w.streams[k].nChunks <= v.streams[k].nChunks
  }

  lemma StepExtends(w: World, e: Event, k: nat)
    requires k < |w.streams|
    ensures Extends(w, Step(w, e), k)
  {
    hide Location, Fresh, TableWithChunk, VariantText, VariantLocation, IndexLocation, RandomAccess, NewSegment;
    hide WithBuffer;
  }

  /** Streams are never removed. */
  lemma {:induction false} RunExtends(w: World, events: seq<Event>, k: nat)
    requires k < |w.streams|
    ensures Extends(w, Run(w, events), k)
  {
    hide Step;
    if events != [] {
      RunExtends(w, events[..|events| - 1], k);
      StepExtends(Run(w, events[..|events| - 1]), events[|events| - 1], k);
    }
  }

  /** Over any run of a program with one HLS stream: the media sequence number never decreases; the
      later playlist is the earlier one with the new segments appended and exactly as many entries
      dropped from its front as the sequence number grew; and number and URI stay together for ever. */
  lemma SlidingWindow(w: World, events: seq<Event>, k: nat)
    requires Reached(w) && k < |w.streams| && SoleHls(Run(w, events), k)
    ensures
      var w' := Run(w, events);
      var s, s' := w.streams[k], w'.streams[k];
      var first, first' := SeqNum(w.nHls), SeqNum(w'.nHls);
      && first == (if s.nChunks < 5 then 0 else s.nChunks - 5) && first <= first'
      && |s.ring| == 20 && |s'.ring| == 20 && |s'.stored| == s'.nChunks && s.nChunks <= s'.nChunks
      && first' - first <= |Listed(s.ring, first, s.nChunks)| + (s'.nChunks - s.nChunks)
      && Listed(s'.ring, first', s'.nChunks) ==
           (Listed(s.ring, first, s.nChunks) + Slots(s'.stored[s.nChunks..]))[first' - first..]
      && |Listed(s'.ring, first', s'.nChunks)| == (if s'.nChunks < 5 then s'.nChunks else 5)
      && s.stored == s'.stored[..s.nChunks]
      && (forall i :: 0 <= i < s'.nChunks ==>
            s'.stored[i].index == i && s'.stored[i].location == Location(w.cfg, s.info, i))
  {
    hide Reached, Location, IndexText, Run, Inv, TableInv, FlowInv, CacheInv;
    var w' := Run(w, events);
    RunReached(w, events);
    RunExtends(w, events, k);
    SoleBefore(w, events, k);
    ReachedInv(w);
    ReachedInv(w');
    StreamFacts(w, k);
    StreamFacts(w', k);
    var s, s' := w.streams[k], w'.streams[k];
    ListedIsStored(w.cfg, s, SeqNum(s.nChunks));
    ListedIsStored(w.cfg, s', SeqNum(s'.nChunks));
    Slide(s.stored, s'.stored);
  }

  lemma Slide(a: seq<Segment>, b: seq<Segment>)
    requires a <= b
    ensures
      var i, j := SeqNum(|a|), SeqNum(|b|);
      && i <= j && j - i <= |Slots(From(a, i))| + (|b| - |a|)
      && Slots(From(b, j)) == (Slots(From(a, i)) + Slots(b[|a|..]))[j - i..]
  {
  }

  lemma SoleBefore(w: World, events: seq<Event>, k: nat)
    requires k < |w.streams| && SoleHls(Run(w, events), k)
    ensures SoleHls(w, k)
  {
    hide Run;
    forall j | 0 <= j < |w.streams|
      ensures |w.streams| <= |Run(w, events).streams| && w.streams[j].info == Run(w, events).streams[j].info
    {
      RunExtends(w, events, j);
    }
  }

  // ---------------------------------------------------------------- how long a segment stays available

  function TotalDuration(segs: seq<Segment>): int {
    if segs == [] then 0 else segs[0].duration + TotalDuration(segs[1..])
  }

  lemma {:induction false} UniformDuration(segs: seq<Segment>, d: int)
    requires forall i :: 0 <= i < |segs| ==> segs[i].duration == d
    ensures TotalDuration(segs) == |segs| * d
  {
    if segs != [] {
      UniformDuration(segs[1..], d);
    }
  }

  /** A segment that a playlist lists can still be fetched when up to fifteen more segments have arrived. */
  lemma StaysFetchable(w: World, events: seq<Event>, k: nat, i: nat)
    requires Reached(w) && k < |w.streams| && w.streams[k].info.isHls
    requires w.streams[k].nChunks - 5 <= i < w.streams[k].nChunks
    requires k < |Run(w, events).streams| && Run(w, events).streams[k].nChunks <= w.streams[k].nChunks + 15
    ensures i < |w.streams[k].stored|
    ensures Fetch(Run(w, events), Location(w.cfg, w.streams[k].info, i)) == Chunk(w.streams[k].stored[i].data)
  {
    hide Reached, Location, Fetch, Run;
    RunReached(w, events);
    RunExtends(w, events, k);
    FetchSegment(w, k, i);
    FetchSegment(Run(w, events), k, i);
  }

  /** Section 6.2.2 of RFC 8216: counted in media time, a dropped segment stays available at least for its
      own duration plus that of the five-entry playlist that held it last. */
  lemma AvailableLongEnough(w: World, k: nat, i: nat)
    requires Reached(w) && k < |w.streams| && w.streams[k].info.isHls && w.cfg.targetDuration > 0
    requires |w.streams[k].stored| == w.streams[k].nChunks && i + 5 < w.streams[k].nChunks
    requires
      var segs := w.streams[k].stored;
      TotalDuration(segs[i + 6..]) <= segs[i].duration + TotalDuration(segs[i..i + 5])
    ensures Fetch(w, Location(w.cfg, w.streams[k].info, i)) == Chunk(w.streams[k].stored[i].data)
  {
    hide Reached, Location, Fetch, Inv, TableInv, FlowInv, CacheInv, TotalDuration;
    ReachedInv(w);
    StreamFacts(w, k);
    var s, d := w.streams[k], w.cfg.targetDuration;
    UniformDuration(s.stored[i + LISTED + 1..], d);
    UniformDuration(s.stored[i..i + LISTED], d);
    AtMostSix(s.nChunks - i - LISTED - 1, d);
    FetchSegment(w, k, i);
  }

  lemma AtMostSix(n: nat, d: int)
    requires d > 0 && n * d <= d + LISTED * d
    ensures n <= 6
  {
    assert (n - 6) * d <= 0;
  }

  // ---------------------------------------------------------------- cached playlists

  /** The announced sequence number can be read off the text. */
  lemma SeqNumShown(a: nat, restA: string, b: nat, restB: string, common: string)
    requires common + Num(a, 10) + "\n" + restA == common + Num(b, 10) + "\n" + restB
    ensures a == b
  {
    hide Num;
    var left, right := Num(a, 10) + ['\n'] + restA, Num(b, 10) + ['\n'] + restB;
    assert common + Num(a, 10) + "\n" + restA == common + left;
    assert common + Num(b, 10) + "\n" + restB == common + right;
    assert left == (common + left)[|common|..] == (common + right)[|common|..] == right;
    LineFree(a);
    LineFree(b);
    CutAtFirst(Num(a, 10), restA, Num(b, 10), restB, '\n');
    NumInjective(a, b);
  }

  lemma IndexSplit(cfg: Config, nHls: nat, ring: seq<Option<Segment>>, n: nat, atEos: bool, common: string)
    returns (rest: string)
    requires |ring| == RING
    requires common == "#EXTM3U\n" + ("#EXT-X-TARGETDURATION:" + Int(cfg.targetDuration) + "\n") +
                       "#EXT-X-MEDIA-SEQUENCE:"
    ensures IndexText(cfg, nHls, ring, n, atEos) == common + Num(SeqNum(nHls), 10) + "\n" + rest
  {
    hide EntriesText, KeyText, Num;
    var tail := KeyText(cfg) + "#EXT-X-ALLOW-CACHE:NO\n" + "#EXT-X-VERSION:1\n";
    var end := if atEos then "#EXT-X-ENDLIST\n" else "";
    rest := tail + EntriesText(cfg, ring, SeqNum(nHls), n) + end;
    assert HeaderText(cfg, SeqNum(nHls)) == common + Num(SeqNum(nHls), 10) + "\n" + tail;
  }

  lemma FreshInjective(cfg: Config, a: nat, b: nat, s: Stream)
    requires |s.ring| == RING && Fresh(cfg, a, s) == Fresh(cfg, b, s)
    ensures SeqNum(a) == SeqNum(b)
  {
    hide IndexText, Num, Int;
    var common := "#EXTM3U\n" + ("#EXT-X-TARGETDURATION:" + Int(cfg.targetDuration) + "\n") + "#EXT-X-MEDIA-SEQUENCE:";
    var restA := IndexSplit(cfg, a, s.ring, s.nChunks, s.info.atEos, common);
    var restB := IndexSplit(cfg, b, s.ring, s.nChunks, s.info.atEos, common);
    SeqNumShown(SeqNum(a), restA, SeqNum(b), restB, common);
  }

  lemma LineFree(n: nat)
    ensures '\n' !in Num(n, 10)
  {
    NumValue(n, 10);
    assert forall i :: 0 <= i < |Num(n, 10)| ==> IsDigit(Num(n, 10)[i], 10);
  }

  /** A stream's playlist is marked stale by its own chunks only, though the window moves with any
      stream's. What is served is a fresh rendering exactly when the playlist is stale or missing, or
      the window has not moved since it was rendered. */
  lemma CacheExact(w: World, k: nat)
    requires Reached(w) && k < |w.streams|
    ensures
      var s := w.streams[k];
      && |s.ring| == RING
      && (Served(w, k) == Fresh(w.cfg, w.nHls, s) <==>
            (s.cache.None? || s.needUpdate || SeqNum(s.cachedFor) == SeqNum(w.nHls)))
  {
    hide Reached, Fresh, Inv, RingInv, TableInv, FlowInv, SeqNum;
    ReachedInv(w);
    StreamFacts(w, k);
    var s := w.streams[k];
    if s.cache.Some? && !s.needUpdate {
      if Fresh(w.cfg, s.cachedFor, s) == Fresh(w.cfg, w.nHls, s) {
        FreshInjective(w.cfg, s.cachedFor, w.nHls, s);
      }
      if SeqNum(s.cachedFor) == SeqNum(w.nHls) {
        SameWindow(w.cfg, s.cachedFor, w.nHls, s);
      }
    }
  }

  lemma SameWindow(cfg: Config, a: nat, b: nat, s: Stream)
    requires |s.ring| == RING && SeqNum(a) == SeqNum(b)
    ensures Fresh(cfg, a, s) == Fresh(cfg, b, s)
  {
  }

  /** A request leaves its answer in the cache and nothing stale; the next one gets the same without a new
      rendering. */
  lemma RequestSettles(w: World, k: nat)
    requires k < |w.streams| && |w.streams[k].ring| == RING
    ensures
      var v := Step(w, GetIndex(k));
      && v.streams[k].cache == Some(Served(w, k)) && !v.streams[k].needUpdate
      && Step(v, GetIndex(k)) == v
      && v.table == w.table && v.queue == w.queue && v.nHls == w.nHls && v.variant == w.variant
  {
    hide Fresh;
    var v := Step(w, GetIndex(k));
    assert v.streams[k := v.streams[k]] == v.streams;
  }

  /** With one HLS stream both cached playlists always equal fresh renderings. */
  lemma CacheAgrees(w: World, k: nat)
    requires Reached(w) && SoleHls(w, k)
    ensures |w.streams[k].ring| == RING
    ensures Served(w, k) == Fresh(w.cfg, w.nHls, w.streams[k])
    ensures w.variant == Some(VariantText(w.cfg, w.streams))
  {
    hide Reached, VariantText, Served, Fresh, Inv;
    ReachedInv(w);
    CacheExact(w, k);
    assert HasHls(w.streams);
    VariantAgrees(w);
  }

  /** The variant playlist is a fresh rendering over all streams, however many there are. */
  lemma VariantAgrees(w: World)
    requires Reached(w) && HasHls(w.streams)
    ensures w.variant == Some(VariantText(w.cfg, w.streams))
  {
    hide Reached, VariantText, StreamInv;
    ReachedInv(w);
  }

  // ---------------------------------------------------------------- the playlist as a client reads it

  predicate OneLine(s: string) {
    '\n' !in s
  }

  function KeyLine(cfg: Config): string {
    if !cfg.isEncrypted then "#EXT-X-KEY:METHOD=NONE"
    else "#EXT-X-KEY:METHOD=AES-128,URI=\"" + cfg.keyUri + "\"" +
         (if cfg.haveIv then IvText(cfg) else "")
  }

  const ALLOW_CACHE := "#EXT-X-ALLOW-CACHE:NO"

  /** An initialization vector leaves the key line open, and the next tag is glued to it. */
  function HeaderLines(cfg: Config, seqNum: nat): seq<string> {
    ["#EXTM3U", "#EXT-X-TARGETDURATION:" + Int(cfg.targetDuration), "#EXT-X-MEDIA-SEQUENCE:" + Int(seqNum)] +
    (if cfg.isEncrypted && cfg.haveIv then [KeyLine(cfg) + ALLOW_CACHE] else [KeyLine(cfg), ALLOW_CACHE]) +
    ["#EXT-X-VERSION:1"]
  }

  function EntryLines(cfg: Config, segs: seq<Segment>): seq<string> {
    if segs == [] then []
    else ["#EXTINF:" + Int(segs[0].duration) + ",", cfg.baseUrl + segs[0].location] + EntryLines(cfg, segs[1..])
  }

  function IndexLines(cfg: Config, seqNum: nat, segs: seq<Segment>, atEos: bool): seq<string> {
    HeaderLines(cfg, seqNum) + EntryLines(cfg, segs) + (if atEos then ["#EXT-X-ENDLIST"] else [])
  }

  lemma {:induction false} PiecesOfLines(lines: seq<string>)
    requires forall i :: 0 <= i < |lines| ==> OneLine(lines[i])
    ensures Pieces(Terminated(lines, '\n'), '\n') == lines + [""]
  {
    if lines != [] {
      PiecesOfLines(lines[1..]);
      PiecesOfCut(lines[0], '\n', Terminated(lines[1..], '\n'));
      assert [lines[0]] + (lines[1..] + [""]) == lines + [""];
    }
  }

  lemma TerminatedOne(a: string)
    ensures Terminated([a], '\n') == a + "\n"
  {
    assert a + ['\n'] + "" == a + "\n";
  }

  lemma TerminatedMore(front: seq<string>, text: string, a: string)
    requires text == Terminated(front, '\n')
    ensures text + (a + "\n") == Terminated(front + [a], '\n')
  {
    TerminatedOne(a);
    TerminatedAppend(front, [a], '\n');
  }

  lemma ThreeLines(a: string, b: string, c: string)
    ensures a + "\n" + (b + "\n") + (c + "\n") == Terminated([a, b, c], '\n')
  {
    hide Terminated;
    TerminatedOne(a);
    assert [a] + [b] == [a, b] && [a, b] + [c] == [a, b, c];
    TerminatedMore([a], a + "\n", b);
    TerminatedMore([a, b], a + "\n" + (b + "\n"), c);
  }

  /** Appending two or three more lines, the first of them open or closed. */
  lemma OpenLine(front: seq<string>, text: string, key: string, tag: string, v: string)
    requires text == Terminated(front, '\n')
    ensures text + key + (tag + "\n") + (v + "\n") == Terminated(front + [key + tag] + [v], '\n')
    ensures text + (key + "\n") + (tag + "\n") + (v + "\n") == Terminated(front + [key, tag] + [v], '\n')
  {
    hide Terminated;
    TerminatedMore(front, text, key + tag);
    TerminatedMore(front + [key + tag], text + ((key + tag) + "\n"), v);
    assert text + ((key + tag) + "\n") == text + key + (tag + "\n");
    TerminatedMore(front, text, key);
    TerminatedMore(front + [key], text + (key + "\n"), tag);
    TerminatedMore(front + [key] + [tag], text + (key + "\n") + (tag + "\n"), v);
    assert front + [key] + [tag] == front + [key, tag];
  }

  lemma HeaderIsLines(cfg: Config, seqNum: nat)
    ensures HeaderText(cfg, seqNum) == Terminated(HeaderLines(cfg, seqNum), '\n')
  {
    hide Int, Terminated, KeyLine, KeyText;
    var a, b := "#EXTM3U", "#EXT-X-TARGETDURATION:" + Int(cfg.targetDuration);
    var c := "#EXT-X-MEDIA-SEQUENCE:" + Int(seqNum);
    ThreeLines(a, b, c);
    KeyIsLine(cfg);
    OpenLine([a, b, c], a + "\n" + (b + "\n") + (c + "\n"), KeyLine(cfg), ALLOW_CACHE, "#EXT-X-VERSION:1");
    HeaderSpelled(cfg, seqNum, a + "\n" + (b + "\n") + (c + "\n"));
  }

  lemma HeaderSpelled(cfg: Config, seqNum: nat, front: string)
    requires front == "#EXTM3U" + "\n" + ("#EXT-X-TARGETDURATION:" + Int(cfg.targetDuration) + "\n") +
                      ("#EXT-X-MEDIA-SEQUENCE:" + Int(seqNum) + "\n")
    ensures HeaderText(cfg, seqNum) == front + KeyText(cfg) + (ALLOW_CACHE + "\n") + ("#EXT-X-VERSION:1" + "\n")
  {
    hide Int, KeyText;
  }

  lemma KeyIsLine(cfg: Config)
    ensures KeyText(cfg) == KeyLine(cfg) + (if cfg.isEncrypted && cfg.haveIv then "" else "\n")
  {
    hide IvText;
  }

  lemma EntryIsLines(cfg: Config, seg: Segment, rest: seq<string>)
    ensures EntryText(cfg, Some(seg)) + Terminated(rest, '\n') ==
              Terminated(["#EXTINF:" + Int(seg.duration) + ",", cfg.baseUrl + seg.location] + rest, '\n')
  {
    hide Int, Terminated;
    var x, y := "#EXTINF:" + Int(seg.duration) + ",", cfg.baseUrl + seg.location;
    TerminatedOne(x);
    TerminatedMore([x], x + "\n", y);
    TerminatedAppend([x] + [y], rest, '\n');
    assert [x] + [y] == [x, y];
    assert EntryText(cfg, Some(seg)) == (x + "\n") + (y + "\n");
  }

  lemma {:induction false} EntriesAreLines(cfg: Config, ring: seq<Option<Segment>>, from: nat, to: nat,
                                           segs: seq<Segment>)
    requires |ring| == RING && |segs| == (if from < to then to - from else 0)
    requires forall i :: 0 <= i < |segs| ==> ring[(from + i) % RING] == Some(segs[i])
    ensures EntriesText(cfg, ring, from, to) == Terminated(EntryLines(cfg, segs), '\n')
    decreases |segs|
  {
    hide Int, Terminated, EntryText;
    if segs == [] {
      assert Terminated([], '\n') == "" by { NoLines(); }
    } else {
      assert ring[(from + 0) % RING] == Some(segs[0]);
      forall i | 0 <= i < |segs[1..]| ensures ring[(from + 1 + i) % RING] == Some(segs[1..][i]) {
        assert ring[(from + (i + 1)) % RING] == Some(segs[i + 1]);
      }
      EntriesAreLines(cfg, ring, from + 1, to, segs[1..]);
      EntryIsLines(cfg, segs[0], EntryLines(cfg, segs[1..]));
    }
  }

  lemma NoLines()
    ensures Terminated([], '\n') == ""
  {
  }

  /** No configured text contains a line end. */
  predicate CleanConfig(cfg: Config) {
    OneLine(cfg.name) && OneLine(cfg.baseUrl) && OneLine(cfg.keyUri)
  }

  predicate CleanInfo(info: StreamInfo) {
    OneLine(info.mod) && OneLine(info.codecs)
  }

  lemma NumbersClean(n: nat, i: int)
    ensures OneLine(Padded(n, 10, 5)) && OneLine(Padded(n, 16, 8)) && OneLine(Int(i))
  {
    PaddedValue(n, 10, 5);
    PaddedValue(n, 16, 8);
    assert forall k :: 0 <= k < |Padded(n, 10, 5)| ==> IsDigit(Padded(n, 10, 5)[k], 10);
    assert forall k :: 0 <= k < |Padded(n, 16, 8)| ==> IsDigit(Padded(n, 16, 8)[k], 16);
    LineFree(if i < 0 then -i else i);
  }

  lemma NamesClean(cfg: Config, info: StreamInfo, n: nat)
    requires CleanConfig(cfg) && CleanInfo(info)
    ensures OneLine(Location(cfg, info, n)) && OneLine(IndexLocation(cfg, info)) && OneLine(InfLine(info))
  {
    hide Padded, Int;
    NumbersClean(n, info.width);
    NumbersClean(n, info.height);
    NumbersClean(n, CDiv(info.bitrate, 1000));
    NumbersClean(n, info.bitrate);
    NumbersClean(n, info.programId);
  }

  lemma HeaderClean(cfg: Config, seqNum: nat)
    requires CleanConfig(cfg)
    ensures forall line :: line in HeaderLines(cfg, seqNum) ==> OneLine(line)
  {
    hide Int, KeyLine, CleanConfig;
    NumbersClean(0, cfg.targetDuration);
    NumbersClean(0, seqNum);
    KeyClean(cfg);
    assert OneLine(ALLOW_CACHE) && OneLine("#EXT-X-VERSION:1") && OneLine("#EXTM3U");
    TwoClean("#EXT-X-TARGETDURATION:", Int(cfg.targetDuration));
    TwoClean("#EXT-X-MEDIA-SEQUENCE:", Int(seqNum));
    TwoClean(KeyLine(cfg), ALLOW_CACHE);
  }

  lemma TwoClean(a: string, b: string)
    ensures OneLine(a) && OneLine(b) ==> OneLine(a + b)
  {
  }

  lemma KeyClean(cfg: Config)
    requires CleanConfig(cfg)
    ensures OneLine(KeyLine(cfg))
  {
    hide IvText;
    IvClean(cfg);
  }

  lemma IvClean(cfg: Config)
    ensures OneLine(IvText(cfg))
  {
    hide Padded, Int;
    NumbersClean(cfg.iv.0, 0);
    NumbersClean(cfg.iv.1, 0);
    NumbersClean(cfg.iv.2, 0);
    NumbersClean(cfg.iv.3, 0);
  }

  lemma {:induction false} EntriesClean(cfg: Config, info: StreamInfo, segs: seq<Segment>)
    requires CleanConfig(cfg) && CleanInfo(info)
    requires forall i :: 0 <= i < |segs| ==> segs[i].location == Location(cfg, info, segs[i].index)
    ensures forall line :: line in EntryLines(cfg, segs) ==> OneLine(line)
  {
    hide Location, Int;
    if segs != [] {
      EntriesClean(cfg, info, segs[1..]);
      NamesClean(cfg, info, segs[0].index);
      NumbersClean(0, segs[0].duration);
    }
  }

  lemma WindowSegments(cfg: Config, s: Stream, first: nat)
    requires RingInv(cfg, s) && s.nChunks - RING <= first
    ensures |s.ring| == RING
    ensures
      var segs := From(s.stored, first);
      && |segs| == (if first < s.nChunks then s.nChunks - first else 0)
      && (forall i :: 0 <= i < |segs| ==> s.ring[(first + i) % RING] == Some(segs[i]))
      && (forall i :: 0 <= i < |segs| ==> segs[i].location == Location(cfg, s.info, segs[i].index))
  {
    hide Location;
    var segs := From(s.stored, first);
    forall i | 0 <= i < |segs| ensures s.ring[(first + i) % RING] == Some(segs[i]) {
      assert s.ring[(first + i) % RING] == Some(s.stored[first + i]);
    }
  }

  lemma LinesClean(cfg: Config, info: StreamInfo, first: nat, segs: seq<Segment>)
    requires CleanConfig(cfg) && CleanInfo(info)
    requires forall i :: 0 <= i < |segs| ==> segs[i].location == Location(cfg, info, segs[i].index)
    ensures forall i :: 0 <= i < |IndexLines(cfg, first, segs, info.atEos)| ==>
              OneLine(IndexLines(cfg, first, segs, info.atEos)[i])
  {
    hide Location, HeaderLines, EntryLines, CleanConfig, CleanInfo;
    HeaderClean(cfg, first);
    EntriesClean(cfg, info, segs);
    assert OneLine("#EXT-X-ENDLIST");
  }

  lemma StreamReads(cfg: Config, s: Stream, nHls: nat)
    requires RingInv(cfg, s) && s.nChunks - RING <= SeqNum(nHls)
    requires CleanConfig(cfg) && CleanInfo(s.info)
    ensures |s.ring| == RING
    ensures Pieces(Fresh(cfg, nHls, s), '\n') ==
              IndexLines(cfg, SeqNum(nHls), From(s.stored, SeqNum(nHls)), s.info.atEos) + [""]
  {
    hide RingInv, Location, IndexLines, Terminated, Pieces, SeqNum, From, CleanConfig, CleanInfo, OneLine;
    var first := SeqNum(nHls);
    var segs := From(s.stored, first);
    WindowSegments(cfg, s, first);
    IndexIsLines(cfg, nHls, s.ring, s.nChunks, s.info.atEos, segs);
    LinesClean(cfg, s.info, first, segs);
    PiecesOfLines(IndexLines(cfg, first, segs, s.info.atEos));
  }

  /** A client that cuts the playlist into lines reads the header with the sequence number and then, in
      order, the duration and URI of each segment from that number on; if the window of the shared
      counter still lies in the ring. */
  lemma PlaylistReads(w: World, k: nat)
    requires Reached(w) && k < |w.streams| && w.streams[k].nChunks - 20 <= SeqNum(w.nHls)
    requires CleanConfig(w.cfg) && CleanInfo(w.streams[k].info)
    ensures
      var s, first := w.streams[k], SeqNum(w.nHls);
      && |s.ring| == RING
      && Pieces(Fresh(w.cfg, w.nHls, s), '\n') ==
           IndexLines(w.cfg, first, From(s.stored, first), s.info.atEos) + [""]
  {
    hide Reached, Inv, RingInv, TableInv, FlowInv, CacheInv, Fresh, Pieces, IndexLines, CleanConfig, CleanInfo;
    ReachedInv(w);
    StreamFacts(w, k);
    StreamReads(w.cfg, w.streams[k], w.nHls);
  }

  lemma IndexIsLines(cfg: Config, nHls: nat, ring: seq<Option<Segment>>, n: nat, atEos: bool, segs: seq<Segment>)
    requires |ring| == RING && |segs| == (if SeqNum(nHls) < n then n - SeqNum(nHls) else 0)
    requires forall i :: 0 <= i < |segs| ==> ring[(SeqNum(nHls) + i) % RING] == Some(segs[i])
    ensures IndexText(cfg, nHls, ring, n, atEos) == Terminated(IndexLines(cfg, SeqNum(nHls), segs, atEos), '\n')
  {
    hide HeaderText, HeaderLines, EntryLines, EntriesText, Terminated, SeqNum;
    var first := SeqNum(nHls);
    HeaderIsLines(cfg, first);
    EntriesAreLines(cfg, ring, first, n, segs);
    var h, e := HeaderLines(cfg, first), EntryLines(cfg, segs);
    TerminatedAppend(h, e, '\n');
    if atEos {
      TerminatedMore(h + e, Terminated(h + e, '\n'), "#EXT-X-ENDLIST");
    } else {
      assert h + e + [] == h + e;
    }
  }

  /** Two lines for each stream that is segmented, has a bitrate, and has a segment to show. */
  function VariantLines(cfg: Config, streams: seq<Stream>): seq<string> {
    if streams == [] then []
    else
      var s := streams[|streams| - 1];
      VariantLines(cfg, streams[..|streams| - 1]) +
      (if s.info.isHls && s.info.bitrate != 0 && s.nChunks != 0
       then [InfLine(s.info), cfg.baseUrl + IndexLocation(cfg, s.info)] else [])
  }

  function InfLine(info: StreamInfo): string {
    "#EXT-X-STREAM-INF:PROGRAM-ID=" + Int(info.programId) + ",BANDWIDTH=" + Int(info.bitrate) +
    ",CODECS=\"" + info.codecs + "\",RESOLUTION=\"" + Int(info.width) + "x" + Int(info.height) + "\""
  }

  lemma StreamInfIsLines(cfg: Config, info: StreamInfo)
    ensures StreamInf(cfg, info) == Terminated([InfLine(info), cfg.baseUrl + IndexLocation(cfg, info)], '\n')
  {
    hide Int, IndexLocation, Terminated;
    var x, y := InfLine(info), cfg.baseUrl + IndexLocation(cfg, info);
    TerminatedOne(x);
    TerminatedMore([x], x + "\n", y);
    assert [x] + [y] == [x, y];
    assert StreamInf(cfg, info) == (x + "\n") + (y + "\n");
  }

  lemma {:induction false} VariantIsLines(cfg: Config, streams: seq<Stream>)
    ensures VariantEntries(cfg, streams) == Terminated(VariantLines(cfg, streams), '\n')
  {
    hide StreamInf, Terminated, InfLine;
    if streams == [] {
      NoLines();
    } else {
      var s := streams[|streams| - 1];
      VariantIsLines(cfg, streams[..|streams| - 1]);
      StreamInfIsLines(cfg, s.info);
      var front := VariantLines(cfg, streams[..|streams| - 1]);
      TerminatedAppend(front, [InfLine(s.info), cfg.baseUrl + IndexLocation(cfg, s.info)], '\n');
      assert front + [] == front;
    }
  }

  lemma {:induction false} VariantClean(cfg: Config, streams: seq<Stream>)
    requires CleanConfig(cfg) && forall j :: 0 <= j < |streams| ==> CleanInfo(streams[j].info)
    ensures forall line :: line in VariantLines(cfg, streams) ==> OneLine(line)
  {
    hide InfLine, IndexLocation;
    if streams != [] {
      VariantClean(cfg, streams[..|streams| - 1]);
      NamesClean(cfg, streams[|streams| - 1].info, 0);
    }
  }

  /** A client that cuts the program's playlist into lines finds one description and one URI for each
      stream with something to show, in the order of the streams, and nothing else. */
  lemma VariantReads(cfg: Config, streams: seq<Stream>)
    requires CleanConfig(cfg) && forall j :: 0 <= j < |streams| ==> CleanInfo(streams[j].info)
    ensures Pieces(VariantText(cfg, streams), '\n') == ["#EXTM3U"] + VariantLines(cfg, streams) + [""]
  {
    hide VariantLines, VariantEntries, Pieces, Terminated;
    var lines := ["#EXTM3U"] + VariantLines(cfg, streams);
    VariantIsLines(cfg, streams);
    VariantClean(cfg, streams);
    TerminatedOne("#EXTM3U");
    TerminatedAppend(["#EXTM3U"], VariantLines(cfg, streams), '\n');
    assert "#EXTM3U" + "\n" == "#EXTM3U\n" && OneLine("#EXTM3U");
    PiecesOfLines(lines);
  }

  /** Of the header's lines one is the caching tag exactly when no initialization vector is there. */
  lemma HeaderHasTag(cfg: Config, seqNum: nat)
    ensures ALLOW_CACHE in HeaderLines(cfg, seqNum) <==> !(cfg.isEncrypted && cfg.haveIv)
  {
    hide Int, IvText;
    var lines := HeaderLines(cfg, seqNum);
    assert ALLOW_CACHE[7] == 'A';
    assert lines[1][7] == 'T' && lines[2][7] == 'M' && lines[3][7] == 'K';
    assert lines[|lines| - 1][7] == 'V' && |lines[0]| == 7 && |ALLOW_CACHE| == 21;
    assert if cfg.isEncrypted && cfg.haveIv then |lines| == 5 else lines[4] == ALLOW_CACHE;
  }

  lemma EntryNotTag(cfg: Config, info: StreamInfo, seg: Segment)
    requires seg.location == Location(cfg, info, seg.index)
    ensures "#EXTINF:" + Int(seg.duration) + "," != ALLOW_CACHE && cfg.baseUrl + seg.location != ALLOW_CACHE
  {
    hide Int, Padded, Prefix;
    var inf, uri := "#EXTINF:" + Int(seg.duration) + ",", cfg.baseUrl + seg.location;
    assert inf[4] == 'I' && ALLOW_CACHE[4] == '-';
    assert uri[|uri| - 1] == 's' && ALLOW_CACHE[|ALLOW_CACHE| - 1] == 'O';
  }

  lemma {:induction false} EntriesNotTag(cfg: Config, info: StreamInfo, segs: seq<Segment>)
    requires forall i :: 0 <= i < |segs| ==> segs[i].location == Location(cfg, info, segs[i].index)
    ensures ALLOW_CACHE !in EntryLines(cfg, segs)
  {
    hide Location, Int;
    if segs != [] {
      EntryNotTag(cfg, info, segs[0]);
      EntriesNotTag(cfg, info, segs[1..]);
    }
  }

  /** Section 4.1 of RFC 8216 wants every tag on a line of its own. In a rendered playlist the caching tag
      has one exactly when no initialization vector is configured. */
  lemma AllowCacheOnOwnLine(w: World, k: nat)
    requires Reached(w) && k < |w.streams| && w.streams[k].nChunks - 20 <= SeqNum(w.nHls)
    requires CleanConfig(w.cfg) && CleanInfo(w.streams[k].info)
    ensures |w.streams[k].ring| == RING
    ensures ALLOW_CACHE in Pieces(Fresh(w.cfg, w.nHls, w.streams[k]), '\n') <==>
              !(w.cfg.isEncrypted && w.cfg.haveIv)
  {
    hide Reached, Location, HeaderLines, EntryLines, Fresh, Pieces, Inv, TableInv, FlowInv, CacheInv;
    var s, first := w.streams[k], SeqNum(w.nHls);
    ReachedInv(w);
    StreamFacts(w, k);
    PlaylistReads(w, k);
    HeaderHasTag(w.cfg, first);
    EntriesNotTag(w.cfg, s.info, From(s.stored, first));
    assert |ALLOW_CACHE| == 21 && |"#EXT-X-ENDLIST"| == 14;
  }

  // ---------------------------------------------------------------- names as they are

  lemma NumbersPrinted()
    ensures Int(640) == "640" && Int(360) == "360" && Int(600) == "600" && Padded(7, 10, 5) == "00007"
    ensures CDiv(600999, 1000) == 600 && CDiv(-1500, 1000) == -1
  {
    assert Num(64, 10) == "64" && Num(640, 10) == "640";
    assert Num(36, 10) == "36" && Num(360, 10) == "360";
    assert Num(60, 10) == "60" && Num(600, 10) == "600";
    PrintExamples();
  }

  predicate Example(cfg: Config, info: StreamInfo) {
    && cfg.name == "live" && info.width == 640 && info.height == 360 && info.bitrate == 600999
    && info.mod == "-main"
  }

  lemma PrefixExample(cfg: Config, info: StreamInfo)
    requires Example(cfg, info)
    ensures Prefix(cfg, info) == "/live-640x360-600kbps-main"
  {
    hide Int, Padded, CDiv;
    NumbersPrinted();
  }

  /** How a stream of a given size and rate is called, and the name of its segment number 7. */
  lemma NameExamples(cfg: Config, info: StreamInfo)
    requires Example(cfg, info)
    ensures IndexLocation(cfg, info) == "/live-640x360-600kbps-main.m3u8"
    ensures Location(cfg, info, 7) == "/live-640x360-600kbps-main-00007.ts"
    ensures VariantLocation(cfg) == "/live.m3u8"
  {
    hide Int, Padded, Prefix, CDiv;
    NumbersPrinted();
    PrefixExample(cfg, info);
  }

  /** An initialization vector is printed as four words of eight hexadecimal digits, the first one first. */
  lemma IvReads(cfg: Config)
    requires cfg.iv.0 < 0x1_0000_0000 && cfg.iv.1 < 0x1_0000_0000
    requires cfg.iv.2 < 0x1_0000_0000 && cfg.iv.3 < 0x1_0000_0000
    ensures
      var t := IvText(cfg);
      && |t| == 38 && t[..6] == ",IV=0x"
      && AllDigits(t[6..14], 16) && Value(t[6..14], 16) == cfg.iv.0
      && AllDigits(t[14..22], 16) && Value(t[14..22], 16) == cfg.iv.1
      && AllDigits(t[22..30], 16) && Value(t[22..30], 16) == cfg.iv.2
      && AllDigits(t[30..], 16) && Value(t[30..], 16) == cfg.iv.3
  {
    hide Padded, Value, AllDigits;
    EightDigits(cfg.iv.0);
    EightDigits(cfg.iv.1);
    EightDigits(cfg.iv.2);
    EightDigits(cfg.iv.3);
    var a, b := Padded(cfg.iv.0, 16, 8), Padded(cfg.iv.1, 16, 8);
    var c, d := Padded(cfg.iv.2, 16, 8), Padded(cfg.iv.3, 16, 8);
    var t := IvText(cfg);
    assert t == ",IV=0x" + a + b + c + d;
    assert t[6..14] == a && t[14..22] == b && t[22..30] == c && t[30..] == d;
  }

  lemma EightDigits(n: nat)
    requires n < 0x1_0000_0000
    ensures
      var s := Padded(n, 16, 8);
      |s| == 8 && AllDigits(s, 16) && Value(s, 16) == n
  {
    PaddedValue(n, 16, 8);
    assert Sixteen(4) == 0x1_0000 && Sixteen(8) == 0x1_0000_0000;
    NumLength(n, 8);
  }
}
