/** HTTP Live Streaming: the pad probe that cuts a transport stream into chunks, the idle callbacks that
    put them in a ring of segments and in the resource table, and the playlists rendered from the ring.

    This module is the specification: the state as a value, one function for each event, and the
    invariant of every reachable state. HlsProperties proves what it promises; HlsServer refines it. */
module Hls {
  import opened Text

  type Bytes = seq<bv8>

  datatype Option<+T> = None | Some(value: T) {
    function GetOr(default: T): T {
      if Some? then value else default
    }
  }

  const RING := 20          // GSS_STREAM_HLS_CHUNKS
  const CHUNK_MIN := 188 * 100
  const LISTED := 5

  // ---------------------------------------------------------------- data model

  /** What the server knows of the program; none of it changes during a run. */
  datatype Config = Config(
    name: string, baseUrl: string, targetDuration: int,
    isEncrypted: bool, keyUri: string, haveIv: bool, iv: (nat, nat, nat, nat))

  /** The parameters of a stream; mod is "" or "-main" according to the stream's type. */
  datatype StreamInfo = StreamInfo(
    width: int, height: int, bitrate: int, mod: string, codecs: string, programId: int,
    isHls: bool, atEos: bool)

  datatype Segment = Segment(index: nat, data: Bytes, location: string, duration: int)

  datatype Resource = ChunkOf(stream: nat, slot: nat) | IndexOf(stream: nat) | Variant | Other

  datatype Queued = Queued(stream: nat, data: Bytes)

  /** received, stored and cachedFor record history; no step reads them. received has one list of buffers
      for each sink the stream had. */
  datatype Stream = Stream(
    info: StreamInfo, adapter: Bytes, ring: seq<Option<Segment>>, nChunks: nat,
    needUpdate: bool, cache: Option<string>,
    received: seq<seq<Bytes>>, stored: seq<Segment>, cachedFor: nat)

  datatype World = World(
    cfg: Config, streams: seq<Stream>, queue: seq<Queued>, table: map<string, Resource>,
    nHls: nat, variant: Option<string>)

  datatype Event =
    | Probe(stream: nat, buffer: Bytes)
    | Idle
    | GetIndex(stream: nat)
    | AddStream(info: StreamInfo)
    | NewSink(stream: nat)
    | OtherResource(location: string, present: bool)

  // ---------------------------------------------------------------- names

  /** Division of C, which truncates toward zero. */
  function CDiv(a: int, b: int): int
    requires b > 0
  {
    if a < 0 then -((-a) / b) else a / b
  }

  function Prefix(cfg: Config, info: StreamInfo): string {
    "/" + cfg.name + "-" + Int(info.width) + "x" + Int(info.height) + "-" +
    Int(CDiv(info.bitrate, 1000)) + "kbps" + info.mod
  }

  function Numbered(prefix: string, n: nat): string {
    prefix + "-" + Padded(n, 10, 5) + ".ts"
  }

  function Location(cfg: Config, info: StreamInfo, n: nat): string {
    Numbered(Prefix(cfg, info), n)
  }

  function IndexLocation(cfg: Config, info: StreamInfo): string {
    Prefix(cfg, info) + ".m3u8"
  }

  function VariantLocation(cfg: Config): string {
    "/" + cfg.name + ".m3u8"
  }

  // ---------------------------------------------------------------- playlists

  function IvText(cfg: Config): string {
    ",IV=0x" + Padded(cfg.iv.0, 16, 8) + Padded(cfg.iv.1, 16, 8) +
    Padded(cfg.iv.2, 16, 8) + Padded(cfg.iv.3, 16, 8)
  }

  function KeyText(cfg: Config): string {
    if cfg.isEncrypted then
      "#EXT-X-KEY:METHOD=AES-128,URI=\"" + cfg.keyUri + "\"" +
      (if cfg.haveIv then IvText(cfg) else "\n")
    else "#EXT-X-KEY:METHOD=NONE\n"
  }

  function HeaderText(cfg: Config, seqNum: nat): string {
    "#EXTM3U\n" +
    ("#EXT-X-TARGETDURATION:" + Int(cfg.targetDuration) + "\n") +
    ("#EXT-X-MEDIA-SEQUENCE:" + Int(seqNum) + "\n") +
    KeyText(cfg) +
    "#EXT-X-ALLOW-CACHE:NO\n" +
    "#EXT-X-VERSION:1\n"
  }

  /** No slot that is listed is ever empty; see Reachable. */
  function EntryText(cfg: Config, slot: Option<Segment>): string {
    match slot
    case None => ""
    case Some(seg) => "#EXTINF:" + Int(seg.duration) + ",\n" + cfg.baseUrl + seg.location + "\n"
  }

  function EntriesText(cfg: Config, ring: seq<Option<Segment>>, from: nat, to: nat): string
    requires |ring| == RING
    decreases if from < to then to - from else 0
  {
    if from >= to then "" else EntryText(cfg, ring[from % RING]) + EntriesText(cfg, ring, from + 1, to)
  }

  function SeqNum(nHls: nat): nat {
    if nHls >= LISTED then nHls - LISTED else 0
  }

  function IndexText(cfg: Config, nHls: nat, ring: seq<Option<Segment>>, nChunks: nat, atEos: bool): string
    requires |ring| == RING
  {
    HeaderText(cfg, SeqNum(nHls)) + EntriesText(cfg, ring, SeqNum(nHls), nChunks) +
    (if atEos then "#EXT-X-ENDLIST\n" else "")
  }

  /** The playlist of stream s rendered from its present state. */
  function Fresh(cfg: Config, nHls: nat, s: Stream): string
    requires |s.ring| == RING
  {
    IndexText(cfg, nHls, s.ring, s.nChunks, s.info.atEos)
  }

  function StreamInf(cfg: Config, info: StreamInfo): string {
    "#EXT-X-STREAM-INF:PROGRAM-ID=" + Int(info.programId) + ",BANDWIDTH=" + Int(info.bitrate) +
    ",CODECS=\"" + info.codecs + "\",RESOLUTION=\"" + Int(info.width) + "x" + Int(info.height) + "\"\n" +
    cfg.baseUrl + IndexLocation(cfg, info) + "\n"
  }

  function VariantEntry(cfg: Config, info: StreamInfo, nChunks: nat): string {
    if !info.isHls || info.bitrate == 0 || nChunks == 0 then "" else StreamInf(cfg, info)
  }

  function VariantEntries(cfg: Config, streams: seq<Stream>): string {
    if streams == [] then ""
    else VariantEntries(cfg, streams[..|streams| - 1]) +
         VariantEntry(cfg, streams[|streams| - 1].info, streams[|streams| - 1].nChunks)
  }

  function VariantText(cfg: Config, streams: seq<Stream>): string {
    "#EXTM3U\n" + VariantEntries(cfg, streams)
  }

  // ---------------------------------------------------------------- events

  /** The buffer begins with a transport packet that carries an adaptation field with the random access
      indicator set (sections 2.4.3.2 and 2.4.3.4 of ISO/IEC 13818-1). A buffer holds at least one packet. */
  predicate RandomAccess(data: Bytes) {
    |data| > 5 && ((data[3] >> 4) & 2) != 0 && ((data[5] >> 6) & 1) != 0
  }

  /** A buffer belongs to the newest sink. */
  function WithBuffer(received: seq<seq<Bytes>>, buffer: Bytes): seq<seq<Bytes>> {
    if received == [] then [[buffer]]
    else received[..|received| - 1] + [received[|received| - 1] + [buffer]]
  }

  function ProbeStep(w: World, k: nat, buffer: Bytes): World
    requires k < |w.streams|
  {
    var s := w.streams[k];
    var cut := RandomAccess(buffer) && |s.adapter| >= CHUNK_MIN;
    var rest := if cut then [] else s.adapter;
    w.(streams := w.streams[k := s.(adapter := rest + buffer, received := WithBuffer(s.received, buffer))],
       queue := if cut then w.queue + [Queued(k, s.adapter)] else w.queue)
  }

  function NewSegment(cfg: Config, s: Stream, data: Bytes): Segment {
    Segment(s.nChunks, data, Location(cfg, s.info, s.nChunks), cfg.targetDuration)
  }

  function StreamWithChunk(cfg: Config, s: Stream, data: Bytes): Stream
    requires |s.ring| == RING
  {
    var seg := NewSegment(cfg, s, data);
    s.(ring := s.ring[s.nChunks % RING := Some(seg)], nChunks := s.nChunks + 1, needUpdate := true,
       stored := s.stored + [seg])
  }

  function TableWithChunk(cfg: Config, table: map<string, Resource>, s: Stream, k: nat): map<string, Resource>
    requires |s.ring| == RING
  {
    var prev := s.ring[s.nChunks % RING];
    var evicted := if prev.Some? then table - {prev.value.location} else table;
    evicted[Location(cfg, s.info, s.nChunks) := ChunkOf(k, s.nChunks % RING)]
  }

  function AddChunk(w: World, k: nat, data: Bytes): World
    requires k < |w.streams| && |w.streams[k].ring| == RING
  {
    var s := w.streams[k];
    var streams := w.streams[k := StreamWithChunk(w.cfg, s, data)];
    w.(streams := streams,
       table := TableWithChunk(w.cfg, w.table, s, k),
       nHls := s.nChunks + 1,
       variant := if s.nChunks == 0 then Some(VariantText(w.cfg, streams)) else w.variant)
  }

  function IdleStep(w: World): World
    requires w.queue != [] && w.queue[0].stream < |w.streams| && |w.streams[w.queue[0].stream].ring| == RING
  {
    AddChunk(w.(queue := w.queue[1..]), w.queue[0].stream, w.queue[0].data)
  }

  function Refreshed(cfg: Config, nHls: nat, s: Stream): Stream
    requires |s.ring| == RING
  {
    if s.cache.None? || s.needUpdate
    then s.(cache := Some(Fresh(cfg, nHls, s)), needUpdate := false, cachedFor := nHls)
    else s
  }

  function NewStream(info: StreamInfo): Stream {
    Stream(info, [], seq(RING, _ => None), 0, false, None, [[]], [], 0)
  }

  predicate HasHls(streams: seq<Stream>) {
    exists j :: 0 <= j < |streams| && streams[j].info.isHls
  }

  function AddStreamStep(w: World, info: StreamInfo): World {
    var streams := w.streams + [NewStream(info)];
    if !info.isHls then w.(streams := streams)
    else
      var table := if HasHls(w.streams) then w.table else w.table[VariantLocation(w.cfg) := Variant];
      w.(streams := streams,
         table := table[IndexLocation(w.cfg, info) := IndexOf(|w.streams|)],
         variant := Some(VariantText(w.cfg, streams)))
  }

  /** A program that was stopped and starts again gives its streams new sinks; a stream that is already
      segmented gets a new adapter, and its playlist's name once more. */
  function NewSinkStep(w: World, k: nat): World
    requires k < |w.streams|
  {
    var streams := w.streams[k := w.streams[k].(adapter := [], received := w.streams[k].received + [[]])];
    w.(streams := streams,
       table := w.table[IndexLocation(w.cfg, w.streams[k].info) := IndexOf(k)],
       variant := Some(VariantText(w.cfg, streams)))
  }

  /** What the surroundings may do: probes exist on HLS streams only, different HLS streams have
      different names, and nobody else uses the name of a segment or playlist. */
  ghost predicate Enabled(w: World, e: Event) {
    match e
    case Probe(k, buffer) => k < |w.streams| && w.streams[k].info.isHls && |buffer| > 5
    case Idle => w.queue != [] && w.queue[0].stream < |w.streams| && |w.streams[w.queue[0].stream].ring| == RING
    case GetIndex(k) => k < |w.streams| && |w.streams[k].ring| == RING
    case AddStream(info) =>
      info.isHls ==>
        && (forall j :: 0 <= j < |w.streams| && w.streams[j].info.isHls ==>
             Prefix(w.cfg, w.streams[j].info) != Prefix(w.cfg, info))
        && (forall i: nat :: Location(w.cfg, info, i) !in w.table)
    case NewSink(k) => k < |w.streams| && w.streams[k].info.isHls
    case OtherResource(location, _) =>
      && location != VariantLocation(w.cfg)
      && (forall j :: 0 <= j < |w.streams| && w.streams[j].info.isHls ==>
           IndexLocation(w.cfg, w.streams[j].info) != location)
      && (forall j, i: nat :: 0 <= j < |w.streams| && w.streams[j].info.isHls ==>
           Location(w.cfg, w.streams[j].info, i) != location)
  }

  ghost function Step(w: World, e: Event): World {
    if !Enabled(w, e) then w
    else match e
      case Probe(k, buffer) => ProbeStep(w, k, buffer)
      case Idle => IdleStep(w)
      case GetIndex(k) => w.(streams := w.streams[k := Refreshed(w.cfg, w.nHls, w.streams[k])])
      case AddStream(info) => AddStreamStep(w, info)
      case NewSink(k) => NewSinkStep(w, k)
      case OtherResource(location, present) =>
        w.(table := if present then w.table[location := Other] else w.table - {location})
  }

  /** The state after any interleaving of events; an event that is not enabled changes nothing. */
  ghost function Run(w: World, events: seq<Event>): World
    decreases |events|
  {
    if events == [] then w else Step(Run(w, events[..|events| - 1]), events[|events| - 1])
  }

  function Init(cfg: Config, table: map<string, Resource>): World {
    World(cfg, [], [], table, 0, None)
  }

  // ---------------------------------------------------------------- the invariant

  /** Chunks and remainder that the buffers of one sink make, whatever the main loop does meanwhile. */
  function Cut(buffers: seq<Bytes>): (r: (seq<Bytes>, Bytes)) {
    if buffers == [] then ([], [])
    else
      var (chunks, rest) := Cut(buffers[..|buffers| - 1]);
      var b := buffers[|buffers| - 1];
      if RandomAccess(b) && |rest| >= CHUNK_MIN then (chunks + [rest], b) else (chunks, rest + b)
  }

  /** The chunks of all sinks, and what the last one has left over. */
  function CutAll(sinks: seq<seq<Bytes>>): (r: (seq<Bytes>, Bytes)) {
    if sinks == [] then ([], [])
    else
      var (chunks, rest) := Cut(sinks[|sinks| - 1]);
      (CutAll(sinks[..|sinks| - 1]).0 + chunks, rest)
  }

  function Pending(queue: seq<Queued>, k: nat): seq<Bytes> {
    if queue == [] then []
    else (if queue[0].stream == k then [queue[0].data] else []) + Pending(queue[1..], k)
  }

  function Datas(segs: seq<Segment>): seq<Bytes> {
    seq(|segs|, i requires 0 <= i < |segs| => segs[i].data)
  }

  /** First segment that is still in the ring. */
  function Oldest(n: nat): nat {
    if n >= RING then n - RING else 0
  }

  ghost predicate RingInv(cfg: Config, s: Stream) {
    && |s.ring| == RING
    && |s.stored| == s.nChunks
    && (forall i :: 0 <= i < s.nChunks ==>
         && s.stored[i].index == i
         && s.stored[i].location == Location(cfg, s.info, i)
         && s.stored[i].duration == cfg.targetDuration)
    && (forall i :: Oldest(s.nChunks) <= i < s.nChunks ==> s.ring[i % RING] == Some(s.stored[i]))
    && (forall j :: s.nChunks <= j < RING ==> s.ring[j] == None)
    && (!s.info.isHls ==> s.nChunks == 0)
  }

  /** The table maps exactly the names of the segments in the ring to their slots. */
  ghost predicate TableInv(cfg: Config, table: map<string, Resource>, info: StreamInfo, n: nat, k: nat) {
    forall i: nat ::
      && (Location(cfg, info, i) in table <==> Oldest(n) <= i < n)
      && (Oldest(n) <= i < n ==> table[Location(cfg, info, i)] == ChunkOf(k, i % RING))
  }

  ghost predicate FlowInv(queue: seq<Queued>, s: Stream, k: nat) {
    s.received != [] && CutAll(s.received) == (Datas(s.stored) + Pending(queue, k), s.adapter)
  }

  ghost predicate CacheInv(cfg: Config, s: Stream)
    requires |s.ring| == RING
  {
    && (s.cache.Some? && !s.needUpdate ==> s.cache.value == Fresh(cfg, s.cachedFor, s))
    && (s.nChunks > 0 && s.cache.None? ==> s.needUpdate)
  }

  ghost predicate StreamInv(cfg: Config, table: map<string, Resource>, queue: seq<Queued>, s: Stream, k: nat) {
    && RingInv(cfg, s)
    && FlowInv(queue, s, k)
    && CacheInv(cfg, s)
    && (s.info.isHls ==> TableInv(cfg, table, s.info, s.nChunks, k))
  }

  ghost predicate Distinct(w: World) {
    forall j, k :: 0 <= j < k < |w.streams| && w.streams[j].info.isHls && w.streams[k].info.isHls ==>
      Prefix(w.cfg, w.streams[j].info) != Prefix(w.cfg, w.streams[k].info)
  }

  /** The names of the playlists lead to them. */
  ghost predicate NamesInv(cfg: Config, table: map<string, Resource>, streams: seq<Stream>) {
    && (HasHls(streams) ==> VariantLocation(cfg) in table && table[VariantLocation(cfg)] == Variant)
    && (forall k :: 0 <= k < |streams| && streams[k].info.isHls ==>
         IndexLocation(cfg, streams[k].info) in table && table[IndexLocation(cfg, streams[k].info)] == IndexOf(k))
  }

  ghost predicate VariantInv(w: World) {
    && (HasHls(w.streams) ==> w.variant.Some?)
    && (w.variant.Some? ==> w.variant.value == VariantText(w.cfg, w.streams))
  }

  ghost predicate QueueInv(w: World) {
    forall q :: 0 <= q < |w.queue| ==>
      w.queue[q].stream < |w.streams| && w.streams[w.queue[q].stream].info.isHls
  }

  ghost predicate Inv(w: World) {
    && Distinct(w)
    && QueueInv(w)
    && VariantInv(w)
    && NamesInv(w.cfg, w.table, w.streams)
    && (forall k :: 0 <= k < |w.streams| ==> StreamInv(w.cfg, w.table, w.queue, w.streams[k], k))
  }

  // ---------------------------------------------------------------- names are distinct

  lemma {:induction false} DashFree(s: string)
    requires AllDigits(s, 10)
    ensures '-' !in s
  {
    assert forall i :: 0 <= i < |s| ==> IsDigit(s[i], 10);
  }

  /** Segment names of distinct streams or distinct numbers differ. */
  lemma NumberedInjective(p: string, m: nat, q: string, n: nat)
    requires Numbered(p, m) == Numbered(q, n)
    ensures p == q && m == n
  {
    var a, b := Padded(m, 10, 5), Padded(n, 10, 5);
    PaddedValue(m, 10, 5);
    PaddedValue(n, 10, 5);
    var l, r := p + "-" + a, q + "-" + b;
    assert Numbered(p, m)[..|l|] == l;
    assert Numbered(q, n)[..|r|] == r;
    DashFree(a);
    DashFree(b);
    CutAtLast(p, a, q, b, '-');
  }

  lemma SegmentIsNotPlaylist(p: string, n: nat, q: string)
    ensures Numbered(p, n) != q + ".m3u8"
  {
    var l, r := Numbered(p, n), q + ".m3u8";
    assert l[|l| - 1] == 's';
    assert r[|r| - 1] == '8';
  }

  lemma IndexNames(cfg: Config, a: StreamInfo, b: StreamInfo)
    ensures IndexLocation(cfg, a) == IndexLocation(cfg, b) ==> Prefix(cfg, a) == Prefix(cfg, b)
    ensures IndexLocation(cfg, a) != VariantLocation(cfg)
  {
    hide Int;
    assert IndexLocation(cfg, a)[..|Prefix(cfg, a)|] == Prefix(cfg, a);
    assert IndexLocation(cfg, b)[..|Prefix(cfg, b)|] == Prefix(cfg, b);
    assert |Prefix(cfg, a)| > |"/" + cfg.name|;
  }

  // ---------------------------------------------------------------- every step keeps the invariant

  lemma SameNames(cfg: Config, table: map<string, Resource>, a: seq<Stream>, b: seq<Stream>)
    requires NamesInv(cfg, table, a) && |a| == |b| && forall j :: 0 <= j < |a| ==> a[j].info == b[j].info
    ensures NamesInv(cfg, table, b)
    ensures HasHls(a) <==> HasHls(b)
  {
    hide IndexLocation, VariantLocation;
    if HasHls(b) {
      var j :| 0 <= j < |b| && b[j].info.isHls;
      assert a[j].info.isHls;
    }
    if HasHls(a) {
      var j :| 0 <= j < |a| && a[j].info.isHls;
      assert b[j].info.isHls;
    }
  }

  /** Storing a chunk touches no playlist's name. */
  lemma ChunkKeepsNames(cfg: Config, table: map<string, Resource>, s: Stream, k: nat, streams: seq<Stream>)
    requires RingInv(cfg, s) && NamesInv(cfg, table, streams)
    ensures |s.ring| == RING && NamesInv(cfg, TableWithChunk(cfg, table, s, k), streams)
  {
    hide Numbered, Prefix;
    var after := TableWithChunk(cfg, table, s, k);
    var n := s.nChunks;
    forall q: string ensures q + ".m3u8" in after <==> q + ".m3u8" in table
      ensures q + ".m3u8" in table ==> after[q + ".m3u8"] == table[q + ".m3u8"]
    {
      SegmentIsNotPlaylist(Prefix(cfg, s.info), n, q);
      if n >= RING {
        assert s.ring[(n - RING) % RING] == Some(s.stored[n - RING]);
        SegmentIsNotPlaylist(Prefix(cfg, s.info), n - RING, q);
      }
    }
    assert VariantLocation(cfg) == ("/" + cfg.name) + ".m3u8";
  }

  lemma {:induction false} VariantEntriesSame(cfg: Config, a: seq<Stream>, b: seq<Stream>)
    requires |a| == |b|
    requires forall j :: 0 <= j < |a| ==> a[j].info == b[j].info && (a[j].nChunks == 0 <==> b[j].nChunks == 0)
    ensures VariantEntries(cfg, a) == VariantEntries(cfg, b)
  {
    if a != [] {
      VariantEntriesSame(cfg, a[..|a| - 1], b[..|b| - 1]);
    }
  }

  lemma {:induction false} PendingAppend(queue: seq<Queued>, q: Queued, k: nat)
    ensures Pending(queue + [q], k) == Pending(queue, k) + (if q.stream == k then [q.data] else [])
  {
    if queue == [] {
      assert (queue + [q])[1..] == [];
    } else {
      assert (queue + [q])[1..] == queue[1..] + [q];
      PendingAppend(queue[1..], q, k);
      var head, last := if queue[0].stream == k then [queue[0].data] else [], if q.stream == k then [q.data] else [];
      assert head + (Pending(queue[1..], k) + last) == head + Pending(queue[1..], k) + last;
    }
  }

  lemma ProbeFlow(queue: seq<Queued>, s: Stream, k: nat, buffer: Bytes, cut: bool)
    requires FlowInv(queue, s, k)
    requires cut == (RandomAccess(buffer) && |s.adapter| >= CHUNK_MIN)
    ensures FlowInv(if cut then queue + [Queued(k, s.adapter)] else queue,
                    s.(adapter := (if cut then [] else s.adapter) + buffer,
                       received := WithBuffer(s.received, buffer)), k)
  {
    hide RandomAccess;
    var n := |s.received| - 1;
    var received := WithBuffer(s.received, buffer);
    assert received[..n] == s.received[..n] && received[n] == s.received[n] + [buffer];
    assert received[n][..|received[n]| - 1] == s.received[n];
    var earlier, last := CutAll(s.received[..n]).0, Cut(s.received[n]).0;
    assert earlier + (last + [s.adapter]) == earlier + last + [s.adapter];
    PendingAppend(queue, Queued(k, s.adapter), k);
    assert Datas(s.stored) + (Pending(queue, k) + [s.adapter]) == Datas(s.stored) + Pending(queue, k) + [s.adapter];
    assert [] + buffer == buffer;
  }

  lemma SameFlow(a: seq<Queued>, b: seq<Queued>, s: Stream, k: nat)
    requires FlowInv(a, s, k) && Pending(a, k) == Pending(b, k)
    ensures FlowInv(b, s, k)
  {
  }

  lemma SameRing(cfg: Config, s: Stream, t: Stream)
    requires RingInv(cfg, s) && t == s.(adapter := t.adapter, received := t.received)
    ensures RingInv(cfg, t)
  {
    hide Location;
  }

  lemma ProbeKeeps(w: World, k: nat, buffer: Bytes)
    requires Inv(w) && Enabled(w, Probe(k, buffer))
    ensures Inv(ProbeStep(w, k, buffer))
  {
    hide IndexText, TableInv, RandomAccess, RingInv, FlowInv, Prefix, VariantEntries, NamesInv;
    var s := w.streams[k];
    var w' := ProbeStep(w, k, buffer);
    VariantEntriesSame(w.cfg, w.streams, w'.streams);
    SameNames(w.cfg, w.table, w.streams, w'.streams);
    ProbeFlow(w.queue, s, k, buffer, RandomAccess(buffer) && |s.adapter| >= CHUNK_MIN);
    forall j | 0 <= j < |w.streams|
      ensures StreamInv(w.cfg, w.table, w'.queue, w'.streams[j], j)
    {
      assert StreamInv(w.cfg, w.table, w.queue, w.streams[j], j);
      PendingAppend(w.queue, Queued(k, s.adapter), j);
      if j != k {
        assert Pending(w'.queue, j) == Pending(w.queue, j);
        SameFlow(w.queue, w'.queue, w.streams[j], j);
      } else {
        SameRing(w.cfg, s, w'.streams[k]);
      }
    }
  }

  lemma RingKeeps(cfg: Config, s: Stream, data: Bytes)
    requires RingInv(cfg, s) && s.info.isHls
    ensures RingInv(cfg, StreamWithChunk(cfg, s, data))
  {
    hide Location;
    var n := s.nChunks;
    var t := StreamWithChunk(cfg, s, data);
    forall i | Oldest(n + 1) <= i < n + 1 ensures t.ring[i % RING] == Some(t.stored[i]) {
      if i < n {
        assert i % RING != n % RING;
        assert s.ring[i % RING] == Some(s.stored[i]);
      }
    }
  }

  lemma LocationInjective(cfg: Config, a: StreamInfo, m: nat, b: StreamInfo, n: nat)
    requires Location(cfg, a, m) == Location(cfg, b, n)
    ensures Prefix(cfg, a) == Prefix(cfg, b) && m == n
  {
    NumberedInjective(Prefix(cfg, a), m, Prefix(cfg, b), n);
  }

  /** What storing a chunk does to one name of the table. */
  lemma TableAt(cfg: Config, table: map<string, Resource>, s: Stream, k: nat, info: StreamInfo, i: nat)
    requires RingInv(cfg, s)
    ensures
      var loc, n := Location(cfg, info, i), s.nChunks;
      var own := Prefix(cfg, info) == Prefix(cfg, s.info);
      var after := TableWithChunk(cfg, table, s, k);
      && (own && i == n ==> loc in after && after[loc] == ChunkOf(k, n % RING))
      && (own && i + RING == n ==> loc !in after)
      && (!own || (i != n && i + RING != n) ==>
            (loc in after <==> loc in table) && (loc in table ==> after[loc] == table[loc]))
  {
    hide Location, Prefix;
    var loc, n := Location(cfg, info, i), s.nChunks;
    SameName(cfg, info, s.info, i);
    if loc == Location(cfg, s.info, n) {
      LocationInjective(cfg, info, i, s.info, n);
    }
    if n >= RING {
      assert (n - RING) % RING == n % RING;
      assert s.ring[(n - RING) % RING] == Some(s.stored[n - RING]);
      if loc == Location(cfg, s.info, n - RING) {
        LocationInjective(cfg, info, i, s.info, n - RING);
      }
    }
  }

  lemma SameName(cfg: Config, a: StreamInfo, b: StreamInfo, i: nat)
    ensures Prefix(cfg, a) == Prefix(cfg, b) ==> Location(cfg, a, i) == Location(cfg, b, i)
  {
  }

  lemma TableKeeps(cfg: Config, table: map<string, Resource>, s: Stream, k: nat, info: StreamInfo, n: nat, j: nat)
    requires RingInv(cfg, s) && TableInv(cfg, table, info, n, j) && |s.ring| == RING
    requires if j == k then info == s.info && n == s.nChunks else Prefix(cfg, info) != Prefix(cfg, s.info)
    ensures TableInv(cfg, TableWithChunk(cfg, table, s, k), info, if j == k then n + 1 else n, j)
  {
    hide Location, Prefix, TableWithChunk, RingInv;
    var after := TableWithChunk(cfg, table, s, k);
    var m := if j == k then n + 1 else n;
    forall i: nat
      ensures Location(cfg, info, i) in after <==> Oldest(m) <= i < m
      ensures Oldest(m) <= i < m ==> after[Location(cfg, info, i)] == ChunkOf(j, i % RING)
    {
      TableAt(cfg, table, s, k, info, i);
      assert Location(cfg, info, i) in table <==> Oldest(n) <= i < n;
    }
  }

  lemma IdleFlow(queue: seq<Queued>, cfg: Config, s: Stream, j: nat)
    requires FlowInv(queue, s, j) && queue != [] && |s.ring| == RING
    ensures FlowInv(queue[1..], if queue[0].stream == j then StreamWithChunk(cfg, s, queue[0].data) else s, j)
  {
    hide Location, CutAll;
    if queue[0].stream == j {
      var t := StreamWithChunk(cfg, s, queue[0].data);
      assert Datas(t.stored) == Datas(s.stored) + [queue[0].data];
      assert Datas(s.stored) + ([queue[0].data] + Pending(queue[1..], j)) == Datas(t.stored) + Pending(queue[1..], j);
    } else {
      assert Pending(queue, j) == Pending(queue[1..], j);
    }
  }

  lemma IdleKeeps(w: World)
    requires Inv(w) && Enabled(w, Idle)
    ensures Inv(IdleStep(w))
  {
    hide IndexText, TableInv, FlowInv, Location, TableWithChunk, Prefix, VariantEntries, NamesInv;
    var k, data := w.queue[0].stream, w.queue[0].data;
    var s := w.streams[k];
    var w' := IdleStep(w);
    assert StreamInv(w.cfg, w.table, w.queue, s, k);
    forall j | 0 <= j < |w.streams|
      ensures StreamInv(w.cfg, w'.table, w'.queue, w'.streams[j], j)
    {
      var t := w.streams[j];
      assert StreamInv(w.cfg, w.table, w.queue, t, j);
      IdleFlow(w.queue, w.cfg, t, j);
      if j == k {
        RingKeeps(w.cfg, s, data);
      }
      if t.info.isHls {
        TableKeeps(w.cfg, w.table, s, k, t.info, t.nChunks, j);
      }
    }
    if s.nChunks > 0 {
      VariantEntriesSame(w.cfg, w.streams, w'.streams);
    }
    ChunkKeepsNames(w.cfg, w.table, s, k, w.streams);
    SameNames(w.cfg, w'.table, w.streams, w'.streams);
    assert HasHls(w.streams);
  }

  /** Storing a chunk takes one name out of the table, that of its own stream's segment twenty back, if
      there is one, and points one name, the new segment's, at its slot. No other stream changes. */
  lemma IdleTouches(w: World)
    requires Inv(w) && Enabled(w, Idle)
    ensures
      var k, w' := w.queue[0].stream, IdleStep(w);
      var s, n := w.streams[k], w.streams[k].nChunks;
      && (forall name :: name in w.table && name !in w'.table ==>
            n >= RING && name == Location(w.cfg, s.info, n - RING))
      && (n >= RING ==> Location(w.cfg, s.info, n - RING) in w.table && Location(w.cfg, s.info, n - RING) !in w'.table)
      && (forall name :: name in w'.table && !(name in w.table && w.table[name] == w'.table[name]) ==>
            name == Location(w.cfg, s.info, n))
      && Location(w.cfg, s.info, n) in w'.table
      && w'.table[Location(w.cfg, s.info, n)] == ChunkOf(k, n % RING)
      && (forall j :: 0 <= j < |w.streams| && j != k ==> w'.streams[j] == w.streams[j])
  {
    hide IndexText, RingInv, TableInv, FlowInv, CacheInv, Location, VariantText, NamesInv, VariantInv, TableWithChunk;
    hide StreamWithChunk;
    var k := w.queue[0].stream;
    assert StreamInv(w.cfg, w.table, w.queue, w.streams[k], k);
    TableTouches(w.cfg, w.table, w.streams[k], k);
  }

  lemma TableTouches(cfg: Config, table: map<string, Resource>, s: Stream, k: nat)
    requires RingInv(cfg, s) && TableInv(cfg, table, s.info, s.nChunks, k)
    ensures |s.ring| == RING
    ensures
      var n, after := s.nChunks, TableWithChunk(cfg, table, s, k);
      && (forall name :: name in table && name !in after ==> n >= RING && name == Location(cfg, s.info, n - RING))
      && (n >= RING ==> Location(cfg, s.info, n - RING) in table && Location(cfg, s.info, n - RING) !in after)
      && (forall name :: name in after && !(name in table && table[name] == after[name]) ==>
            name == Location(cfg, s.info, n))
      && Location(cfg, s.info, n) in after && after[Location(cfg, s.info, n)] == ChunkOf(k, n % RING)
  {
    hide Location;
    var n := s.nChunks;
    if n >= RING {
      assert s.ring[(n - RING) % RING] == Some(s.stored[n - RING]) && (n - RING) % RING == n % RING;
      assert Location(cfg, s.info, n - RING) in table;
    } else {
      assert s.ring[n] == None;
    }
  }

  lemma RefreshedInv(cfg: Config, table: map<string, Resource>, queue: seq<Queued>, nHls: nat, s: Stream, k: nat)
    requires StreamInv(cfg, table, queue, s, k)
    ensures StreamInv(cfg, table, queue, Refreshed(cfg, nHls, s), k)
  {
    hide IndexText, TableInv, Location, CutAll;
  }

  lemma GetIndexKeeps(w: World, k: nat)
    requires Inv(w) && Enabled(w, GetIndex(k))
    ensures Inv(Step(w, GetIndex(k)))
  {
    hide IndexText, TableInv, RingInv, FlowInv, CacheInv, Prefix, VariantEntries, NamesInv;
    var w' := Step(w, GetIndex(k));
    VariantEntriesSame(w.cfg, w.streams, w'.streams);
    SameNames(w.cfg, w.table, w.streams, w'.streams);
    RefreshedInv(w.cfg, w.table, w.queue, w.nHls, w.streams[k], k);
    forall j | 0 <= j < |w.streams|
      ensures StreamInv(w.cfg, w.table, w.queue, w'.streams[j], j)
    {
      assert StreamInv(w.cfg, w.table, w.queue, w.streams[j], j);
    }
  }

  lemma {:induction false} NothingPending(queue: seq<Queued>, k: nat)
    requires forall q :: 0 <= q < |queue| ==> queue[q].stream < k
    ensures Pending(queue, k) == []
  {
    if queue != [] {
      NothingPending(queue[1..], k);
    }
  }

  /** Names that are no segment's can enter and leave the table freely. */
  lemma TableUntouched(cfg: Config, table: map<string, Resource>, after: map<string, Resource>,
                       info: StreamInfo, n: nat, k: nat)
    requires TableInv(cfg, table, info, n, k)
    requires forall i: nat ::
      var loc := Location(cfg, info, i);
      (loc in after <==> loc in table) && (loc in table ==> after[loc] == table[loc])
    ensures TableInv(cfg, after, info, n, k)
  {
    hide Location;
  }

  lemma PlaylistsAdded(w: World, info: StreamInfo, other: StreamInfo, n: nat, j: nat)
    requires info.isHls && TableInv(w.cfg, w.table, other, n, j)
    ensures TableInv(w.cfg, AddStreamStep(w, info).table, other, n, j)
  {
    hide Numbered;
    forall i: nat
      ensures Location(w.cfg, other, i) != VariantLocation(w.cfg)
      ensures Location(w.cfg, other, i) != IndexLocation(w.cfg, info)
    {
      SegmentIsNotPlaylist(Prefix(w.cfg, other), i, "/" + w.cfg.name);
      SegmentIsNotPlaylist(Prefix(w.cfg, other), i, Prefix(w.cfg, info));
    }
    hide Location, VariantLocation, IndexLocation;
    TableUntouched(w.cfg, w.table, AddStreamStep(w, info).table, other, n, j);
  }

  lemma StreamAdded(w: World, info: StreamInfo, j: nat)
    requires Inv(w) && Enabled(w, AddStream(info)) && j <= |w.streams|
    ensures
      var w' := AddStreamStep(w, info);
      StreamInv(w.cfg, w'.table, w.queue, w'.streams[j], j)
  {
    hide IndexText, Location, Prefix, VariantLocation, IndexLocation, RingInv, FlowInv, CacheInv, VariantEntries;
    var k := |w.streams|;
    var t := AddStreamStep(w, info).streams[j];
    NothingPending(w.queue, k);
    NewStreamInv(w.cfg, w.queue, info, k);
    assert j < k ==> StreamInv(w.cfg, w.table, w.queue, w.streams[j], j);
    if t.info.isHls {
      assert TableInv(w.cfg, w.table, t.info, t.nChunks, j);
      if info.isHls {
        PlaylistsAdded(w, info, t.info, t.nChunks, j);
      }
    }
  }

  lemma AddStreamKeeps(w: World, info: StreamInfo)
    requires Inv(w) && Enabled(w, AddStream(info))
    ensures Inv(AddStreamStep(w, info))
  {
    hide StreamInv, VariantEntry, Location, Prefix, VariantLocation, IndexLocation, NamesInv, TableInv;
    var w' := AddStreamStep(w, info);
    assert w'.streams[..|w.streams|] == w.streams;
    forall j | 0 <= j < |w'.streams| ensures StreamInv(w.cfg, w'.table, w.queue, w'.streams[j], j) {
      StreamAdded(w, info, j);
    }
    if !info.isHls {
      SilentEntry(w.cfg, info, 0);
      assert VariantEntries(w.cfg, w'.streams) == VariantEntries(w.cfg, w.streams) + "";
    }
    assert HasHls(w'.streams) ==> HasHls(w.streams) || info.isHls;
    NamesAdded(w, info);
  }

  /** A stream that joins changes no other stream, and what the names of their segments and playlists
      lead to stays. */
  lemma AddStreamTouches(w: World, info: StreamInfo)
    requires Inv(w) && Enabled(w, AddStream(info))
    ensures
      var w' := AddStreamStep(w, info);
      && w'.streams[..|w.streams|] == w.streams
      && (forall j, i: nat :: 0 <= j < |w.streams| && w.streams[j].info.isHls ==>
            var name := Location(w.cfg, w.streams[j].info, i);
            (name in w'.table <==> name in w.table) && (name in w.table ==> w'.table[name] == w.table[name]))
      && (forall j :: 0 <= j < |w.streams| && w.streams[j].info.isHls ==>
            var name := IndexLocation(w.cfg, w.streams[j].info);
            name in w.table && name in w'.table && w'.table[name] == w.table[name])
  {
    hide Numbered, StreamInv, VariantInv, VariantText, Prefix;
    var w' := AddStreamStep(w, info);
    forall j, i: nat | 0 <= j < |w.streams| && w.streams[j].info.isHls
      ensures
        var name := Location(w.cfg, w.streams[j].info, i);
        (name in w'.table <==> name in w.table) && (name in w.table ==> w'.table[name] == w.table[name])
    {
      SegmentIsNotPlaylist(Prefix(w.cfg, w.streams[j].info), i, "/" + w.cfg.name);
      SegmentIsNotPlaylist(Prefix(w.cfg, w.streams[j].info), i, Prefix(w.cfg, info));
    }
    forall j | 0 <= j < |w.streams| && w.streams[j].info.isHls
      ensures
        var name := IndexLocation(w.cfg, w.streams[j].info);
        name in w.table && name in w'.table && w'.table[name] == w.table[name]
    {
      NamesAdded(w, info);
      assert w'.streams[j] == w.streams[j];
    }
  }

  lemma NamesAdded(w: World, info: StreamInfo)
    requires Inv(w) && Enabled(w, AddStream(info))
    ensures NamesInv(w.cfg, AddStreamStep(w, info).table, AddStreamStep(w, info).streams)
  {
    hide Prefix, VariantLocation, IndexLocation, StreamInv, VariantInv, VariantText, Location;
    var w' := AddStreamStep(w, info);
    assert w'.streams[..|w.streams|] == w.streams;
    assert HasHls(w'.streams) ==> HasHls(w.streams) || info.isHls;
    if info.isHls {
      forall k | 0 <= k < |w.streams| && w.streams[k].info.isHls
        ensures IndexLocation(w.cfg, w.streams[k].info) != IndexLocation(w.cfg, info)
        ensures IndexLocation(w.cfg, w.streams[k].info) != VariantLocation(w.cfg)
      {
        IndexNames(w.cfg, w.streams[k].info, info);
      }
      IndexNames(w.cfg, info, info);
    }
  }

  lemma SilentEntry(cfg: Config, info: StreamInfo, n: nat)
    requires !info.isHls
    ensures VariantEntry(cfg, info, n) == ""
  {
  }

  lemma NewStreamInv(cfg: Config, queue: seq<Queued>, info: StreamInfo, k: nat)
    requires Pending(queue, k) == []
    ensures RingInv(cfg, NewStream(info)) && FlowInv(queue, NewStream(info), k) && CacheInv(cfg, NewStream(info))
  {
    hide Location, IndexText;
    assert Datas([]) + Pending(queue, k) == [];
    var none := NewStream(info).received;
    assert none[..0] == [] && CutAll(none) == ([], []);
  }

  lemma NewSinkFlow(queue: seq<Queued>, s: Stream, k: nat)
    requires FlowInv(queue, s, k)
    ensures FlowInv(queue, s.(adapter := [], received := s.received + [[]]), k)
  {
    var more := s.received + [[]];
    assert more[..|s.received|] == s.received && more[|s.received|] == [];
    assert CutAll(s.received).0 + [] == CutAll(s.received).0;
  }

  lemma NewSinkKeeps(w: World, k: nat)
    requires Inv(w) && Enabled(w, NewSink(k))
    ensures Inv(NewSinkStep(w, k))
  {
    hide IndexText, TableInv, RingInv, FlowInv, Prefix, VariantEntries, NamesInv, IndexLocation;
    var s := w.streams[k];
    var w' := NewSinkStep(w, k);
    VariantEntriesSame(w.cfg, w.streams, w'.streams);
    SameNames(w.cfg, w.table, w.streams, w'.streams);
    NameStands(w, k);
    forall j | 0 <= j < |w.streams|
      ensures StreamInv(w.cfg, w'.table, w'.queue, w'.streams[j], j)
    {
      assert StreamInv(w.cfg, w.table, w.queue, w.streams[j], j);
      if j == k {
        SameRing(w.cfg, s, w'.streams[k]);
        NewSinkFlow(w.queue, s, k);
      }
    }
  }

  lemma NameStands(w: World, k: nat)
    requires NamesInv(w.cfg, w.table, w.streams) && k < |w.streams| && w.streams[k].info.isHls
    ensures w.table[IndexLocation(w.cfg, w.streams[k].info) := IndexOf(k)] == w.table
  {
    hide IndexLocation, VariantLocation;
  }

  lemma OtherKeeps(w: World, location: string, present: bool)
    requires Inv(w) && Enabled(w, OtherResource(location, present))
    ensures Inv(Step(w, OtherResource(location, present)))
  {
    hide IndexText, RingInv, FlowInv, CacheInv, Prefix, IndexLocation, VariantLocation, VariantText;
    var w' := Step(w, OtherResource(location, present));
    forall j | 0 <= j < |w.streams|
      ensures StreamInv(w.cfg, w'.table, w.queue, w.streams[j], j)
    {
      assert StreamInv(w.cfg, w.table, w.queue, w.streams[j], j);
      if w.streams[j].info.isHls {
        NameFree(w, location, present, j);
      }
    }
  }

  lemma NameFree(w: World, location: string, present: bool, j: nat)
    requires Enabled(w, OtherResource(location, present)) && j < |w.streams| && w.streams[j].info.isHls
    requires TableInv(w.cfg, w.table, w.streams[j].info, w.streams[j].nChunks, j)
    ensures TableInv(w.cfg, Step(w, OtherResource(location, present)).table, w.streams[j].info, w.streams[j].nChunks, j)
  {
    hide Location;
    var s := w.streams[j];
    TableUntouched(w.cfg, w.table, Step(w, OtherResource(location, present)).table, s.info, s.nChunks, j);
  }

  lemma StepKeeps(w: World, e: Event)
    requires Inv(w)
    ensures Inv(Step(w, e))
  {
    if Enabled(w, e) {
      match e
      case Probe(k, buffer) => ProbeKeeps(w, k, buffer);
      case Idle => IdleKeeps(w);
      case GetIndex(k) => GetIndexKeeps(w, k);
      case AddStream(info) => AddStreamKeeps(w, info);
      case NewSink(k) => NewSinkKeeps(w, k);
      case OtherResource(location, present) => OtherKeeps(w, location, present);
    }
  }

  /** The invariant holds after every interleaving of probes, idle callbacks, requests and set-up. */
  lemma {:induction false} Reachable(cfg: Config, table: map<string, Resource>, events: seq<Event>)
    ensures Inv(Run(Init(cfg, table), events))
  {
    if events != [] {
      Reachable(cfg, table, events[..|events| - 1]);
      StepKeeps(Run(Init(cfg, table), events[..|events| - 1]), events[|events| - 1]);
    }
  }
}
