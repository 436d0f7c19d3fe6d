/** The live streaming code as it runs: streams and their program are objects updated in place. Each
    method is proved to be the step of module Hls that its name suggests. */
module HlsServer {
  import opened Text
  import opened Hls

  class GssStream {
    const info: StreamInfo
    const chunks: array<Option<Segment>>
    var adapter: Bytes
    var nChunks: nat
    var needIndexUpdate: bool
    var indexBuffer: Option<string>
    ghost var received: seq<seq<Bytes>>
    ghost var stored: seq<Segment>
    ghost var cachedFor: nat

    ghost function View(): Stream
      reads this, chunks
    {
      Stream(info, adapter, chunks[..], nChunks, needIndexUpdate, indexBuffer, received, stored, cachedFor)
    }

    constructor (info: StreamInfo)
      ensures fresh(chunks) && View() == NewStream(info)
    {
      this.info := info;
      chunks := new Option<Segment>[RING](_ => None);
      adapter, nChunks, needIndexUpdate, indexBuffer := [], 0, false, None;
      received, stored, cachedFor := [[]], [], 0;
      new;
      assert chunks[..] == seq(RING, _ => None);
    }

    /** The slot of the next segment is filled and the playlist marked stale. */
    method StoreSegment(cfg: Config, data: Bytes)
      requires chunks.Length == RING
      modifies this, chunks
      ensures View() == StreamWithChunk(cfg, old(View()), data)
    {
      hide Location;
      var slot := nChunks % RING;
      var segment := Segment(nChunks, data, Location(cfg, info, nChunks), cfg.targetDuration);
      chunks[slot] := Some(segment);
      needIndexUpdate := true;
      nChunks := nChunks + 1;
      stored := stored + [segment];
    }
  }

  ghost function ViewsOf(streams: seq<GssStream>): seq<Stream>
    reads streams, set s | s in streams :: s.chunks
  {
    seq(|streams|, i requires 0 <= i < |streams| reads streams, set s | s in streams :: s.chunks =>
      assert streams[i] in streams; streams[i].View())
  }

  lemma HasHlsSame(a: seq<Stream>, b: seq<Stream>)
    requires |a| == |b| && forall j :: 0 <= j < |a| ==> a[j].info == b[j].info
    ensures HasHls(a) <==> HasHls(b)
  {
    if HasHls(a) {
      var j :| 0 <= j < |a| && a[j].info.isHls;
      assert b[j].info.isHls;
    }
    if HasHls(b) {
      var j :| 0 <= j < |b| && b[j].info.isHls;
      assert a[j].info.isHls;
    }
  }

  /** A program, with the parts of the server and of the main loop that it uses. */
  class GssProgram {
    const cfg: Config
    var streams: seq<GssStream>
    var idles: seq<Queued>
    var resources: map<string, Resource>
    var enableHls: bool
    var nHlsChunks: nat
    var variantBuffer: Option<string>

    ghost function State(): World
      reads this, streams, set s | s in streams :: s.chunks
    {
      World(cfg, ViewsOf(streams), idles, resources, nHlsChunks, variantBuffer)
    }

    ghost predicate Valid()
      reads this, streams, set s | s in streams :: s.chunks
    {
      && (forall j :: 0 <= j < |streams| ==> streams[j].chunks.Length == RING)
      && (forall j, k :: 0 <= j < k < |streams| ==>
           streams[j] != streams[k] && streams[j].chunks != streams[k].chunks)
      && (enableHls <==> HasHls(ViewsOf(streams)))
    }

    constructor (cfg: Config, resources: map<string, Resource>)
      ensures Valid() && State() == Init(cfg, resources)
    {
      this.cfg := cfg;
      this.resources := resources;
      streams, idles, enableHls, nHlsChunks, variantBuffer := [], [], false, 0, None;
    }

    /** Runs in the streaming thread for each buffer that reaches the stream's sink. */
    method SinkProbe(k: nat, buffer: Bytes)
      requires Valid() && k < |streams| && |buffer| > 5
      modifies this`idles, streams[k]
      ensures Valid() && streams == old(streams)
      ensures State() == ProbeStep(old(State()), k, buffer)
    {
      var stream := streams[k];
      if ((buffer[3] >> 4) & 2) != 0 && ((buffer[5] >> 6) & 1) != 0 {
        var n := |stream.adapter|;
        if n < 188 * 100 {
          // too early
        } else {
          idles := idles + [Queued(k, stream.adapter)];
          stream.adapter := [];
        }
      }
      stream.adapter := stream.adapter + buffer;
      stream.received := WithBuffer(stream.received, buffer);
      assert ViewsOf(streams) == old(ViewsOf(streams))[k := stream.View()];
      HasHlsSame(ViewsOf(streams), old(ViewsOf(streams)));
    }

    /** The idle callback: the oldest queued chunk goes to its stream. */
    method AddHlsChunkCallback()
      requires Valid() && idles != [] && idles[0].stream < |streams|
      modifies this, streams[idles[0].stream], streams[idles[0].stream].chunks
      ensures Valid() && streams == old(streams)
      ensures State() == IdleStep(old(State()))
    {
      var callback := idles[0];
      idles := idles[1..];
      AddHlsChunk(callback.stream, callback.data);
    }

    method AddHlsChunk(k: nat, data: Bytes)
      requires Valid() && k < |streams|
      modifies this, streams[k], streams[k].chunks
      ensures Valid() && streams == old(streams)
      ensures State() == AddChunk(old(State()), k, data)
    {
      hide VariantText, StreamWithChunk, TableWithChunk, HasHls;
      ghost var before := ViewsOf(streams);
      RingChunk(k, data);
      ChunkKeepsInfo(cfg, before[k], data);
      assert ViewsOf(streams)[k] == streams[k].View();
      if streams[k].nChunks == 1 {
        UpdateVariant();
      }
    }

    /** The ring, the resource table and the counters. */
    method RingChunk(k: nat, data: Bytes)
      requires Valid() && k < |streams|
      modifies this`resources, this`nHlsChunks, streams[k], streams[k].chunks
      ensures Valid()
      ensures ViewsOf(streams) == old(ViewsOf(streams))[k := StreamWithChunk(cfg, old(ViewsOf(streams))[k], data)]
      ensures resources == TableWithChunk(cfg, old(resources), old(ViewsOf(streams))[k], k)
      ensures nHlsChunks == old(ViewsOf(streams))[k].nChunks + 1
    {
      hide Location, StreamWithChunk, HasHls;
      var stream := streams[k];
      var slot := stream.nChunks % RING;
      ghost var before := ViewsOf(streams);
      assert before[k] == stream.View();
      if stream.chunks[slot].Some? {
        resources := resources - {stream.chunks[slot].value.location};
      }
      var location := Location(cfg, stream.info, stream.nChunks);
      stream.StoreSegment(cfg, data);
      resources := resources[location := ChunkOf(k, slot)];
      nHlsChunks := stream.nChunks;
      ChunkKeepsInfo(cfg, before[k], data);
      assert ViewsOf(streams) == before[k := StreamWithChunk(cfg, before[k], data)];
      HasHlsSame(ViewsOf(streams), before);
    }

    method UpdateIndex(k: nat)
      requires Valid() && k < |streams|
      modifies streams[k]
      ensures Valid()
      ensures
        var s := old(ViewsOf(streams))[k];
        State() == old(State()).(streams := old(ViewsOf(streams))[k := s.(
          cache := Some(Fresh(cfg, nHlsChunks, s)), needUpdate := false, cachedFor := nHlsChunks)])
    {
      hide Fresh;
      var stream := streams[k];
      ghost var before := ViewsOf(streams);
      assert before[k] == stream.View();
      var s := RenderIndex(stream);
      stream.indexBuffer := Some(s);
      stream.needIndexUpdate := false;
      stream.cachedFor := nHlsChunks;
      assert ViewsOf(streams) == before[k := stream.View()];
      HasHlsSame(ViewsOf(streams), before);
    }

    method RenderIndex(stream: GssStream) returns (s: string)
      requires stream.chunks.Length == RING
      ensures s == Fresh(cfg, nHlsChunks, stream.View())
    {
      hide EntriesText, KeyText, Int;
      var seqNum := if nHlsChunks - LISTED > 0 then nHlsChunks - LISTED else 0;
      s := "#EXTM3U\n";
      s := s + ("#EXT-X-TARGETDURATION:" + Int(cfg.targetDuration) + "\n");
      s := s + ("#EXT-X-MEDIA-SEQUENCE:" + Int(seqNum) + "\n");
      s := s + KeyText(cfg);
      s := s + "#EXT-X-ALLOW-CACHE:NO\n";
      s := s + "#EXT-X-VERSION:1\n";
      s := AppendEntries(stream, s, seqNum);
      if stream.info.atEos {
        s := s + "#EXT-X-ENDLIST\n";
      }
    }

    /** The loop of the index: every segment from the announced number up to the newest. */
    method AppendEntries(stream: GssStream, header: string, seqNum: nat) returns (s: string)
      requires stream.chunks.Length == RING
      ensures s == header + EntriesText(cfg, stream.chunks[..], seqNum, stream.nChunks)
    {
      hide EntryText;
      s := header;
      var i := seqNum;
      ghost var all := EntriesText(cfg, stream.chunks[..], seqNum, stream.nChunks);
      while i < stream.nChunks
        invariant s + EntriesText(cfg, stream.chunks[..], i, stream.nChunks) == header + all
        invariant i >= seqNum
      {
        var segment := stream.chunks[i % RING];
        s := s + EntryText(cfg, segment);
        i := i + 1;
      }
    }

    method UpdateVariant()
      requires forall j :: 0 <= j < |streams| ==> streams[j].chunks.Length == RING
      modifies this`variantBuffer
      ensures variantBuffer == Some(VariantText(cfg, ViewsOf(streams)))
    {
      hide StreamInf;
      var s := "#EXTM3U\n";
      var j := 0;
      while j < |streams|
        invariant 0 <= j <= |streams|
        invariant s == "#EXTM3U\n" + VariantEntries(cfg, ViewsOf(streams)[..j])
      {
        var stream := streams[j];
        if stream.info.isHls && stream.info.bitrate != 0 && stream.nChunks != 0 {
          s := s + StreamInf(cfg, stream.info);
        }
        assert ViewsOf(streams)[..j + 1][..j] == ViewsOf(streams)[..j];
        j := j + 1;
      }
      assert ViewsOf(streams)[..j] == ViewsOf(streams);
      variantBuffer := Some(s);
    }

    /** A request for a stream's playlist renders it only if it is missing or stale. */
    method HandleStreamM3u8(k: nat) returns (body: string)
      requires Valid() && k < |streams|
      modifies streams[k]
      ensures Valid()
      ensures State() == Step(old(State()), GetIndex(k))
      ensures body == State().streams[k].cache.GetOr("")
      ensures State().streams[k].cache.Some?
    {
      var stream := streams[k];
      assert ViewsOf(streams)[k] == stream.View();
      if stream.indexBuffer == None || stream.needIndexUpdate {
        UpdateIndex(k);
      } else {
        assert ViewsOf(streams) == old(ViewsOf(streams))[k := stream.View()];
      }
      assert ViewsOf(streams)[k] == stream.View();
      body := stream.indexBuffer.value;
    }

    /** A stream joins the program; if it carries a transport stream its sink gets the probe and its
        playlist a name. */
    method AddHlsStream(info: StreamInfo)
      requires Valid()
      modifies this
      ensures Valid() && old(streams) <= streams && |streams| == |old(streams)| + 1
      ensures State() == AddStreamStep(old(State()), info)
    {
      hide VariantLocation, IndexLocation, VariantText, NewStream, HasHls;
      ghost var before := ViewsOf(streams);
      ghost var w := State();
      AppendStream(info);
      NewStreamInfo(info);
      HasHlsMore(before, NewStream(info));
      assert State() == w.(streams := before + [NewStream(info)]);
      if info.isHls {
        if !enableHls {
          enableHls := true;
          resources := resources[VariantLocation(cfg) := Variant];
        }
        resources := resources[IndexLocation(cfg, info) := IndexOf(|streams| - 1)];
        UpdateVariant();
      }
    }

    /** A new sink for a stream that is segmented already: the adapter is replaced. */
    method AddHlsAgain(k: nat)
      requires Valid() && k < |streams| && enableHls
      modifies this, streams[k]
      ensures Valid() && streams == old(streams)
      ensures State() == NewSinkStep(old(State()), k)
    {
      hide IndexLocation, VariantText;
      var stream := streams[k];
      ghost var before := ViewsOf(streams);
      assert before[k] == stream.View();
      stream.adapter := [];
      stream.received := stream.received + [[]];
      resources := resources[IndexLocation(cfg, stream.info) := IndexOf(k)];
      assert ViewsOf(streams) == before[k := stream.View()];
      HasHlsSame(ViewsOf(streams), before);
      UpdateVariant();
    }

    method AppendStream(info: StreamInfo)
      requires Valid()
      modifies this`streams
      ensures old(streams) <= streams && |streams| == |old(streams)| + 1
      ensures forall j :: 0 <= j < |streams| ==> streams[j].chunks.Length == RING
      ensures forall j, k :: 0 <= j < k < |streams| ==>
                streams[j] != streams[k] && streams[j].chunks != streams[k].chunks
      ensures ViewsOf(streams) == old(ViewsOf(streams)) + [NewStream(info)]
    {
      hide NewStream, HasHls;
      var stream := new GssStream(info);
      assert stream.chunks.Length == RING by {
        NewStreamInfo(info);
        assert stream.chunks[..] == stream.View().ring;
      }
      streams := streams + [stream];
    }
  }

  lemma NewStreamInfo(info: StreamInfo)
    ensures NewStream(info).info == info && |NewStream(info).ring| == RING
  {
  }

  lemma ChunkKeepsInfo(cfg: Config, s: Stream, data: Bytes)
    requires |s.ring| == RING
    ensures StreamWithChunk(cfg, s, data).info == s.info && StreamWithChunk(cfg, s, data).nChunks == s.nChunks + 1
  {
    hide Location;
  }

  lemma HasHlsMore(a: seq<Stream>, s: Stream)
    ensures HasHls(a + [s]) <==> HasHls(a) || s.info.isHls
  {
    var b := a + [s];
    if HasHls(a) {
      var j :| 0 <= j < |a| && a[j].info.isHls;
      assert b[j].info.isHls;
    }
    if s.info.isHls {
      assert b[|a|].info.isHls;
    }
  }
}
