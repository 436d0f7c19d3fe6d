/** Two streams of one program share the counter from which playlists compute their window. These runs show
    what WindowExact and CacheExact rule out: a stale playlist, and one that lists the wrong segments. */
module HlsSharedCounter {
  import opened Text
  import opened Hls
  import opened HlsProperties

  function Big(): Bytes {
    seq(CHUNK_MIN, _ => 0xff)
  }

  /** A first buffer, and then each further one makes a chunk, which is stored at once. */
  function Growth(k: nat, m: nat): seq<Event> {
    if m == 0 then [Probe(k, Big())] else Growth(k, m - 1) + [Probe(k, Big()), Idle]
  }

  lemma BigCuts()
    ensures RandomAccess(Big()) && |Big()| == CHUNK_MIN
  {
    assert Big()[3] == 0xff && Big()[5] == 0xff;
  }

  /** Stream k has m chunks more, and nothing happened to the others. */
  ghost predicate Grown(w: World, v: World, k: nat, m: nat) {
    && v.cfg == w.cfg && v.queue == [] && |v.streams| == |w.streams|
    && k < |w.streams| && v.streams[k].info == w.streams[k].info
    && |v.streams[k].adapter| == CHUNK_MIN && v.streams[k].nChunks == w.streams[k].nChunks + m
    && |v.streams[k].ring| == RING
    && (forall j :: 0 <= j < |w.streams| && j != k ==> v.streams[j] == w.streams[j])
    && v.nHls == (if m == 0 then w.nHls else w.streams[k].nChunks + m)
  }

  lemma OneMoreChunk(w: World, v: World, k: nat, m: nat)
    requires Grown(w, v, k, m) && w.streams[k].info.isHls
    ensures Grown(w, Step(Step(v, Probe(k, Big())), Idle), k, m + 1)
  {
    hide Location, VariantText, TableWithChunk, RandomAccess;
    BigCuts();
    var u := Step(v, Probe(k, Big()));
    assert u == ProbeStep(v, k, Big());
    assert u.queue[1..] == [] && [] + Big() == Big();
  }

  lemma {:induction false} Grows(w: World, k: nat, m: nat)
    requires k < |w.streams| && w.streams[k].info.isHls && w.queue == []
    requires w.streams[k].adapter == [] && |w.streams[k].ring| == RING
    ensures Grown(w, Run(w, Growth(k, m)), k, m)
  {
    hide Step, Grown;
    var events := Growth(k, m);
    if m == 0 {
      assert events[..0] == [];
      Primed(w, k);
    } else {
      Grows(w, k, m - 1);
      var g, n := Growth(k, m - 1), |events|;
      assert events == g + [Probe(k, Big()), Idle] && n == |g| + 2;
      assert events[..n - 1] == g + [Probe(k, Big())];
      assert events[..n - 1][..n - 2] == g;
      OneMoreChunk(w, Run(w, Growth(k, m - 1)), k, m - 1);
    }
  }

  lemma Primed(w: World, k: nat)
    requires k < |w.streams| && w.streams[k].info.isHls && w.queue == []
    requires w.streams[k].adapter == [] && |w.streams[k].ring| == RING
    ensures Grown(w, Step(w, Probe(k, Big())), k, 0)
  {
    hide RandomAccess;
    BigCuts();
  }

  // ---------------------------------------------------------------- a program with two streams

  const CFG := Config("live", "http://localhost", 4, false, "", false, (0, 0, 0, 0))
  const BASE := StreamInfo(640, 360, 600000, "", "avc1", 0, true, false)
  const MAIN := BASE.(mod := "-main")

  ghost function Two(): World {
    Run(Init(CFG, map[]), [AddStream(BASE), AddStream(MAIN)])
  }

  lemma TwoStreams()
    ensures Reached(Two())
    ensures Two().streams == [NewStream(BASE), NewStream(MAIN)] && Two().queue == [] && Two().nHls == 0
    ensures Two().cfg == CFG
  {
    hide NewStream, VariantText, Prefix, Location, Run;
    var w := Init(CFG, map[]);
    var v := AddStreamStep(w, BASE);
    assert Step(w, AddStream(BASE)) == v;
    MainJoins(v);
    RunTwo(w, AddStream(BASE), AddStream(MAIN));
    assert Two() == AddStreamStep(v, MAIN);
  }

  lemma RunTwo(w: World, a: Event, b: Event)
    ensures Run(w, [a, b]) == Step(Step(w, a), b)
  {
    hide Step;
    assert [a, b][..1] == [a] && [a][..0] == [];
    assert Run(w, []) == w;
  }

  lemma MainJoins(v: World)
    requires v == AddStreamStep(Init(CFG, map[]), BASE)
    ensures Enabled(v, AddStream(MAIN))
  {
    hide NewStream, VariantText, Int;
    NewInfo(BASE);
    assert Prefix(CFG, MAIN) == Prefix(CFG, BASE) + "-main" && |Prefix(CFG, MAIN)| != |Prefix(CFG, BASE)|;
    forall i: nat ensures Location(CFG, MAIN, i) !in v.table {
      SegmentIsNotPlaylist(Prefix(CFG, MAIN), i, "/" + CFG.name);
      SegmentIsNotPlaylist(Prefix(CFG, MAIN), i, Prefix(CFG, BASE));
    }
  }

  lemma NewInfo(info: StreamInfo)
    ensures NewStream(info).info == info
  {
  }

  /** The second stream's playlist is requested, then the first stream gets six segments: the window has
      moved, and the second request is answered with the old rendering. */
  lemma StalePlaylist()
    ensures
      var w := Run(Run(Two(), [GetIndex(1)]), Growth(0, 6));
      && Reached(w) && |w.streams| == 2 && |w.streams[1].ring| == RING
      && Served(w, 1) != Fresh(w.cfg, w.nHls, w.streams[1])
  {
    hide Run, Served, Fresh, Reached, Two;
    TwoStreams();
    var v := Run(Two(), [GetIndex(1)]);
    Requested(Two());
    RunReached(Two(), [GetIndex(1)]);
    Grows(v, 0, 6);
    RunReached(v, Growth(0, 6));
    CacheExact(Run(v, Growth(0, 6)), 1);
  }

  lemma Requested(w: World)
    requires w.streams == [NewStream(BASE), NewStream(MAIN)] && w.queue == [] && w.nHls == 0
    ensures
      var v := Run(w, [GetIndex(1)]);
      && |v.streams| == 2 && v.streams[0] == NewStream(BASE) && v.queue == []
      && v.streams[1].cache.Some? && !v.streams[1].needUpdate && v.streams[1].cachedFor == 0
  {
    hide Fresh;
    assert [GetIndex(1)][..0] == [];
    assert Run(w, [GetIndex(1)]) == Step(w, GetIndex(1));
  }

  /** The first stream has twenty-six segments when the second gets its first one: the window starts at 0
      again, and the first stream's playlist does not list the segments it announces. */
  lemma WrongSegments()
    ensures
      var w := Run(Run(Two(), Growth(0, 26)), Growth(1, 1));
      && Reached(w) && |w.streams| == 2 && |w.streams[0].ring| == RING && w.nHls == 1 && w.streams[0].nChunks == 26
      && Listed(w.streams[0].ring, SeqNum(w.nHls), 26) != Slots(From(w.streams[0].stored, SeqNum(w.nHls)))
  {
    hide Run, Reached, Two, Listed, Slots, From;
    TwoStreams();
    Grows(Two(), 0, 26);
    var v := Run(Two(), Growth(0, 26));
    RunReached(Two(), Growth(0, 26));
    Grows(v, 1, 1);
    RunReached(v, Growth(1, 1));
    WindowExact(Run(v, Growth(1, 1)), 0);
  }
}
