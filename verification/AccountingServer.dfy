/** The accounting code as it runs: counter objects at three levels and a table of descriptors, updated in
    place by the handlers. Each handler is proved to be a step of module Accounting. */
module AccountingServer {
  import opened Accounting

  class GssMetrics {
    var nClients: int
    var maxClients: int
    var bitrate: int
    var maxBitrate: int

    ghost function View(): Metrics
      reads this
    {
      Metrics(nClients, maxClients, bitrate, maxBitrate)
    }

    constructor ()
      ensures View() == NONE
    {
      nClients, maxClients, bitrate, maxBitrate := 0, 0, 0, 0;
    }

    method Add(rate: int)
      modifies this
      ensures View() == AddClient(old(View()), rate)
    {
      nClients := nClients + 1;
      maxClients := Max(maxClients, nClients);
      bitrate := bitrate + rate;
      maxBitrate := Max(maxBitrate, bitrate);
    }

    method Remove(rate: int)
      modifies this
      ensures View() == RemoveClient(old(View()), rate)
    {
      nClients := nClients - 1;
      bitrate := bitrate - rate;
    }
  }

  class GssProgram {
    const metrics: GssMetrics
    var streaming: bool     // enable_streaming, and the program is running

    constructor (metrics: GssMetrics)
      ensures this.metrics == metrics && !streaming
    {
      this.metrics := metrics;
      streaming := false;
    }
  }

  class GssStream {
    const program: nat
    var bitrate: nat
    const metrics: GssMetrics
    var hasSink: bool

    constructor (program: nat, bitrate: nat, metrics: GssMetrics)
      ensures this.program == program && this.bitrate == bitrate && this.metrics == metrics && !hasSink
    {
      this.program, this.bitrate, this.metrics := program, bitrate, metrics;
      hasSink := false;
    }
  }

  ghost function ProgramViews(programs: seq<GssProgram>): seq<Program>
    reads programs, set p | p in programs :: p.metrics
  {
    seq(|programs|, i requires 0 <= i < |programs| reads programs, set p | p in programs :: p.metrics =>
      assert programs[i] in programs; Program(programs[i].streaming, programs[i].metrics.View()))
  }

  ghost function StreamViews(streams: seq<GssStream>): seq<Stream>
    reads streams, set s | s in streams :: s.metrics
  {
    seq(|streams|, i requires 0 <= i < |streams| reads streams, set s | s in streams :: s.metrics =>
      assert streams[i] in streams; Stream(streams[i].program, streams[i].hasSink, streams[i].metrics.View()))
  }

  ghost function RatesOf(streams: seq<GssStream>): seq<nat>
    reads streams
  {
    seq(|streams|, i requires 0 <= i < |streams| reads streams => streams[i].bitrate)
  }

  class GssServer {
    const metrics: GssMetrics
    const programs: seq<GssProgram>
    const streams: seq<GssStream>
    const fdTable: array<FdInfo>
    const maxConnections: int
    const maxRate: int
    var pending: seq<nat>

    ghost function View(): World
      reads this, metrics, programs, streams, fdTable,
            (set p | p in programs :: p.metrics), (set s | s in streams :: s.metrics)
    {
      World(metrics.View(), ProgramViews(programs), StreamViews(streams), RatesOf(streams), fdTable[..], pending,
            maxConnections, maxRate)
    }

    /** No two counter sets are the same object. */
    ghost predicate Apart() {
      && (forall i, j :: 0 <= i < j < |programs| ==>
           programs[i] != programs[j] && programs[i].metrics != programs[j].metrics)
      && (forall i, j :: 0 <= i < j < |streams| ==>
           streams[i] != streams[j] && streams[i].metrics != streams[j].metrics)
      && (forall i, j :: 0 <= i < |programs| && 0 <= j < |streams| ==> programs[i].metrics != streams[j].metrics)
      && (forall i :: 0 <= i < |programs| ==> programs[i].metrics != metrics)
      && (forall j :: 0 <= j < |streams| ==> streams[j].metrics != metrics)
    }

    ghost predicate Valid()
      reads this, metrics, programs, streams, fdTable,
            (set p | p in programs :: p.metrics), (set s | s in streams :: s.metrics)
    {
      Apart() && Shaped(View()) && forall k :: 0 <= k < |streams| ==> streams[k].program < |programs|
    }

    constructor (metrics: GssMetrics, programs: seq<GssProgram>, streams: seq<GssStream>,
                 maxConnections: int, maxRate: int)
      ensures this.metrics == metrics && this.programs == programs && this.streams == streams
      ensures this.maxConnections == maxConnections && this.maxRate == maxRate && pending == []
      ensures fresh(fdTable) && fdTable[..] == seq(MAX_FDS, _ => FdInfo(false, Free))
    {
      this.metrics, this.programs, this.streams := metrics, programs, streams;
      this.maxConnections, this.maxRate, this.pending := maxConnections, maxRate, [];
      fdTable := new FdInfo[MAX_FDS](_ => FdInfo(false, Free));
    }

    /** All three levels, as both handlers change them. */
    method Count(k: nat, add: bool)
      requires Valid() && k < |streams|
      modifies metrics, streams[k].metrics, programs[streams[k].program].metrics
      ensures Valid() && View() == CountAll(old(View()), k, add)
    {
      hide Shaped, AddClient, RemoveClient;
      var s := streams[k];
      var p := programs[s.program];
      ghost var w := View();
      if add {
        s.metrics.Add(s.bitrate);
        p.metrics.Add(s.bitrate);
        metrics.Add(s.bitrate);
      } else {
        s.metrics.Remove(s.bitrate);
        p.metrics.Remove(s.bitrate);
        metrics.Remove(s.bitrate);
      }
      assert StreamViews(streams) == w.streams[k := Stream(s.program, s.hasSink, s.metrics.View())];
      assert ProgramViews(programs) == w.programs[s.program := Program(p.streaming, p.metrics.View())];
      CountShaped(w, k, add);
    }

    /** The request handler: it only looks at the counters. */
    method StreamResource(k: nat) returns (r: Response)
      requires Valid() && k < |streams|
      modifies this`pending
      ensures Valid() && View() == Step(old(View()), Request(k))
      ensures
        var streaming := programs[streams[k].program].streaming;
        var full := metrics.nClients >= maxConnections || metrics.bitrate + streams[k].bitrate >= maxRate * 8000;
        && (r == NoContent <==> !streaming)
        && (r == Unavailable <==> streaming && full)
        && (r == Ok <==> streaming && !full)
        && pending == if streaming && !full then old(pending) + [k] else old(pending)
    {
      var s := streams[k];
      assert View().streams[k].program == s.program;
      assert View().programs[s.program].streaming == programs[s.program].streaming;
      if !programs[s.program].streaming {
        return NoContent;
      }
      if metrics.nClients >= maxConnections || metrics.bitrate + s.bitrate >= maxRate * 8000 {
        return Unavailable;
      }
      pending := pending + [k];
      return Ok;
    }

    /** A descriptor that does not fit the table is refused without a word to the caller. */
    method AddDescriptor(k: nat, fd: nat, callback: bool)
      requires Valid() && k < |streams| && (fd < MAX_FDS ==> fdTable[fd].holder.Free?)
      modifies fdTable
      ensures Valid()
      ensures View() == if fd < MAX_FDS then old(View()).(table := old(View()).table[fd := FdInfo(callback, Held(k))])
                        else old(View())
    {
      if fd < MAX_FDS {
        fdTable[fd] := FdInfo(callback, Held(k));
      }
    }

    method MsgWroteHeaders(i: nat, fd: nat)
      requires Valid() && i < |pending| && (fd < MAX_FDS ==> fdTable[fd].holder.Free?)
      modifies this`pending, fdTable, metrics, streams[pending[i]].metrics,
               programs[streams[pending[i]].program].metrics
      ensures Valid() && View() == HeadersWritten(old(View()), i, fd)
    {
      hide CountAll;
      ghost var w := View();
      var k := pending[i];
      assert w.streams[k].hasSink == streams[k].hasSink;
      pending := pending[..i] + pending[i + 1..];
      if streams[k].hasSink {
        AddDescriptor(k, fd, false);
        Count(k, true);
      }
    }

    /** The property's setter. It looks at no counter. */
    method SetBitrate(k: nat, rate: nat)
      requires Valid() && k < |streams|
      modifies streams[k]
      ensures Valid() && View() == old(View()).(rates := old(View()).rates[k := rate])
      ensures old(View()).streams[k].metrics.n == 0 ==> View() == Step(old(View()), Accounting.SetBitrate(k, rate))
    {
      ghost var w := View();
      streams[k].bitrate := rate;
      assert RatesOf(streams) == w.rates[k := rate];
    }

    method ClientRemoved(fd: nat)
      requires Valid() && fd < MAX_FDS && fdTable[fd].holder.Held?
      modifies fdTable, metrics, streams[fdTable[fd].holder.stream].metrics,
               programs[streams[fdTable[fd].holder.stream].program].metrics
      ensures Valid() && View() == Step(old(View()), Accounting.ClientRemoved(fd))
    {
      hide CountAll;
      ghost var w := View();
      var entry := fdTable[fd];
      assert w.table[fd] == entry;
      fdTable[fd] := entry.(holder := Closing(entry.holder.stream));
      if !entry.callback {
        Count(entry.holder.stream, false);
      }
    }

    method ClientFdRemoved(fd: nat)
      requires Valid() && fd < MAX_FDS && fdTable[fd].holder.Closing?
      modifies fdTable
      ensures Valid() && View() == Step(old(View()), Accounting.ClientFdRemoved(fd))
    {
      assert View().table[fd] == fdTable[fd];
      fdTable[fd] := FdInfo(false, Free);
    }
  }

  lemma CountShaped(w: World, k: nat, add: bool)
    requires Shaped(w) && k < |w.streams|
    ensures Shaped(CountAll(w, k, add))
  {
  }
}
