/** Client accounting: three levels of counters moved by the events of the streaming elements, and the
    admission check, which runs when a request arrives, while counting waits for the response headers. */
module Accounting {

  const MAX_FDS := 65536    // GSS_STREAM_MAX_FDS

  datatype Metrics = Metrics(n: int, maxN: int, bitrate: int, maxBitrate: int)

  /** Where a file descriptor stands with the sinks: held by the sink of a stream until that signals
      client-removed, then closing until it signals client-fd-removed. */
  datatype Holder = Free | Held(stream: nat) | Closing(stream: nat)

  /** An entry of the descriptor table; only whether a callback is set matters to the counters. */
  datatype FdInfo = FdInfo(callback: bool, holder: Holder)

  datatype Program = Program(streaming: bool, metrics: Metrics)

  datatype Stream = Stream(program: nat, hasSink: bool, metrics: Metrics)

  /** rates are the streams' bitrates; pending are the streams of admitted requests whose headers are not
      written yet. */
  datatype World = World(
    server: Metrics, programs: seq<Program>, streams: seq<Stream>, rates: seq<nat>,
    table: seq<FdInfo>, pending: seq<nat>, maxConnections: int, maxRate: int)

  datatype Event =
    | Request(stream: nat)
    | WroteHeaders(index: nat, fd: nat)
    | Abandoned(index: nat)
    | AddFd(stream: nat, fd: nat)
    | ClientRemoved(fd: nat)
    | ClientFdRemoved(fd: nat)
    | SetSink(stream: nat, present: bool)
    | SetBitrate(stream: nat, rate: nat)
    | SetStreaming(program: nat, on: bool)

  datatype Response = Ok | NoContent | Unavailable

  function Max(a: int, b: int): int {
    if a > b then a else b
  }

  function AddClient(m: Metrics, bitrate: int): Metrics {
    Metrics(m.n + 1, Max(m.maxN, m.n + 1), m.bitrate + bitrate, Max(m.maxBitrate, m.bitrate + bitrate))
  }

  function RemoveClient(m: Metrics, bitrate: int): Metrics {
    m.(n := m.n - 1, bitrate := m.bitrate - bitrate)
  }

  ghost predicate Shaped(w: World) {
    && |w.rates| == |w.streams|
    && |w.table| == MAX_FDS
    && (forall k :: 0 <= k < |w.streams| ==> w.streams[k].program < |w.programs|)
    && (forall i :: 0 <= i < |w.pending| ==> w.pending[i] < |w.streams|)
    && (forall fd :: 0 <= fd < |w.table| && !w.table[fd].holder.Free? ==> w.table[fd].holder.stream < |w.streams|)
  }

  /** All three levels change together. */
  function CountAll(w: World, k: nat, add: bool): World
    requires k < |w.streams| && |w.rates| == |w.streams| && w.streams[k].program < |w.programs|
  {
    var s, b := w.streams[k], w.rates[k];
    var p := w.programs[s.program];
    if add then
      w.(streams := w.streams[k := s.(metrics := AddClient(s.metrics, b))],
         programs := w.programs[s.program := p.(metrics := AddClient(p.metrics, b))],
         server := AddClient(w.server, b))
    else
      w.(streams := w.streams[k := s.(metrics := RemoveClient(s.metrics, b))],
         programs := w.programs[s.program := p.(metrics := RemoveClient(p.metrics, b))],
         server := RemoveClient(w.server, b))
  }

  function Admission(w: World, k: nat): Response
    requires k < |w.streams| && |w.rates| == |w.streams| && w.streams[k].program < |w.programs|
  {
    if !w.programs[w.streams[k].program].streaming then NoContent
    else if w.server.n >= w.maxConnections || w.server.bitrate + w.rates[k] >= w.maxRate * 8000 then Unavailable
    else Ok
  }

  function Without(s: seq<nat>, i: nat): seq<nat>
    requires i < |s|
  {
    s[..i] + s[i + 1..]
  }

  /** A stream without a sink turns the client away; a descriptor too large for the table is not given to
      the sink, but it is counted. */
  function HeadersWritten(w: World, i: nat, fd: nat): World
    requires Shaped(w) && i < |w.pending|
  {
    var k := w.pending[i];
    var v := w.(pending := Without(w.pending, i));
    if !w.streams[k].hasSink then v
    else CountAll(if fd < MAX_FDS then v.(table := v.table[fd := FdInfo(false, Held(k))]) else v, k, true)
  }

  function Removed(w: World, fd: nat): World
    requires Shaped(w) && fd < MAX_FDS && w.table[fd].holder.Held?
  {
    var k := w.table[fd].holder.stream;
    var v := w.(table := w.table[fd := w.table[fd].(holder := Closing(k))]);
    if w.table[fd].callback then v else CountAll(v, k, false)
  }

  /** What the elements, the network and the owner may do: a descriptor is open in one place at a time and
      is released by client-removed and then client-fd-removed; a stream's bitrate changes while nobody
      is connected to it, see BitrateChange. */
  ghost predicate Enabled(w: World, e: Event)
    requires Shaped(w)
  {
    match e
    case Request(k) => k < |w.streams|
    case WroteHeaders(i, fd) => i < |w.pending| && fd < MAX_FDS && w.table[fd].holder.Free?
    case Abandoned(i) => i < |w.pending|
    case AddFd(k, fd) => k < |w.streams| && fd < MAX_FDS && w.table[fd].holder.Free?
    case ClientRemoved(fd) => fd < MAX_FDS && w.table[fd].holder.Held?
    case ClientFdRemoved(fd) => fd < MAX_FDS && w.table[fd].holder.Closing?
    case SetSink(k, _) => k < |w.streams|
    case SetBitrate(k, _) => k < |w.streams| && w.streams[k].metrics.n == 0
    case SetStreaming(p, _) => p < |w.programs|
  }

  ghost function Step(w: World, e: Event): World
    requires Shaped(w)
  {
    if !Enabled(w, e) then w
    else match e
      case Request(k) => if Admission(w, k) == Ok then w.(pending := w.pending + [k]) else w
      case WroteHeaders(i, fd) => HeadersWritten(w, i, fd)
      case Abandoned(i) => w.(pending := Without(w.pending, i))
      case AddFd(k, fd) => w.(table := w.table[fd := FdInfo(true, Held(k))])
      case ClientRemoved(fd) => Removed(w, fd)
      case ClientFdRemoved(fd) => w.(table := w.table[fd := FdInfo(false, Free)])
      case SetSink(k, present) => w.(streams := w.streams[k := w.streams[k].(hasSink := present)])
      case SetBitrate(k, rate) => w.(rates := w.rates[k := rate])
      case SetStreaming(p, on) => w.(programs := w.programs[p := w.programs[p].(streaming := on)])
  }

  lemma StepShaped(w: World, e: Event)
    requires Shaped(w)
    ensures Shaped(Step(w, e))
  {
  }

  ghost function Run(w: World, events: seq<Event>): (r: World)
    requires Shaped(w)
    ensures Shaped(r)
    decreases |events|
  {
    if events == [] then w
    else
      var before := Run(w, events[..|events| - 1]);
      StepShaped(before, events[|events| - 1]);
      Step(before, events[|events| - 1])
  }

  const NONE := Metrics(0, 0, 0, 0)

  /** Nobody is connected. */
  ghost predicate Start(w: World) {
    && Shaped(w) && w.server == NONE && w.pending == []
    && (forall p :: 0 <= p < |w.programs| ==> w.programs[p].metrics == NONE)
    && (forall k :: 0 <= k < |w.streams| ==> w.streams[k].metrics == NONE)
    && (forall fd :: 0 <= fd < |w.table| ==> w.table[fd] == FdInfo(false, Free))
  }

  // ---------------------------------------------------------------- sums

  function Sum<T>(s: seq<T>, g: T -> int): int {
    if s == [] then 0 else Sum(s[..|s| - 1], g) + g(s[|s| - 1])
  }

  lemma {:induction false} SumUpdate<T>(s: seq<T>, i: nat, v: T, g: T -> int)
    requires i < |s|
    ensures Sum(s[i := v], g) == Sum(s, g) - g(s[i]) + g(v)
  {
    var n := |s| - 1;
    if i == n {
      assert s[i := v][..n] == s[..n];
    } else {
      assert s[i := v][..n] == s[..n][i := v];
      SumUpdate(s[..n], i, v, g);
    }
  }

  lemma {:induction false} SumZero<T>(s: seq<T>, g: T -> int)
    requires forall i :: 0 <= i < |s| ==> g(s[i]) == 0
    ensures Sum(s, g) == 0
  {
    if s != [] {
      SumZero(s[..|s| - 1], g);
    }
  }

  lemma {:induction false} SumNonNegative<T>(s: seq<T>, g: T -> int)
    requires forall i :: 0 <= i < |s| ==> g(s[i]) >= 0
    ensures Sum(s, g) >= 0
  {
    if s != [] {
      SumNonNegative(s[..|s| - 1], g);
    }
  }

  /** A connected descriptor that counts: held by a sink, and no callback is set. */
  predicate Counts(x: FdInfo) {
    x.holder.Held? && !x.callback
  }

  function FdN(): FdInfo -> int {
    (x: FdInfo) => if Counts(x) then 1 else 0
  }

  function FdRate(rates: seq<nat>): FdInfo -> int {
    (x: FdInfo) => if Counts(x) && x.holder.stream < |rates| then rates[x.holder.stream] else 0
  }

  function FdOf(k: nat): FdInfo -> int {
    (x: FdInfo) => if Counts(x) && x.holder.stream == k then 1 else 0
  }

  function StreamN(): Stream -> int {
    (s: Stream) => s.metrics.n
  }

  function StreamRate(): Stream -> int {
    (s: Stream) => s.metrics.bitrate
  }

  function StreamNOf(p: nat): Stream -> int {
    (s: Stream) => if s.program == p then s.metrics.n else 0
  }

  function StreamRateOf(p: nat): Stream -> int {
    (s: Stream) => if s.program == p then s.metrics.bitrate else 0
  }

  function ProgramN(): Program -> int {
    (p: Program) => p.metrics.n
  }

  function ProgramRate(): Program -> int {
    (p: Program) => p.metrics.bitrate
  }

  /** Each stream counts its own connected descriptors at its own bitrate. */
  ghost predicate StreamBooks(w: World)
    requires Shaped(w)
  {
    forall k :: 0 <= k < |w.streams| ==>
      && w.streams[k].metrics.n == Sum(w.table, FdOf(k))
      && w.streams[k].metrics.bitrate == Sum(w.table, FdOf(k)) * w.rates[k]
  }

  ghost predicate ProgramBooks(w: World) {
    forall p :: 0 <= p < |w.programs| ==>
      && w.programs[p].metrics.n == Sum(w.streams, StreamNOf(p))
      && w.programs[p].metrics.bitrate == Sum(w.streams, StreamRateOf(p))
  }

  /** The server's count is the sum over programs, over streams, and over connected descriptors. */
  ghost predicate ServerBooks(w: World) {
    && w.server.n == Sum(w.programs, ProgramN()) == Sum(w.streams, StreamN()) == Sum(w.table, FdN())
    && w.server.bitrate == Sum(w.programs, ProgramRate())
    && w.server.bitrate == Sum(w.streams, StreamRate()) == Sum(w.table, FdRate(w.rates))
  }

  ghost predicate Books(w: World)
    requires Shaped(w)
  {
    StreamBooks(w) && ProgramBooks(w) && ServerBooks(w)
  }

  /** Counting a client of stream k while one more, or one fewer, of its descriptors is connected. */
  lemma CountKeeps(w: World, fd: nat, k: nat, add: bool, x: FdInfo)
    requires Shaped(w) && Books(w) && k < |w.streams| && fd < MAX_FDS
    requires Counts(if add then x else w.table[fd]) && (if add then x else w.table[fd]).holder.stream == k
    requires !Counts(if add then w.table[fd] else x)
    requires !x.holder.Free? ==> x.holder.stream < |w.streams|
    ensures Books(CountAll(w.(table := w.table[fd := x]), k, add))
  {
    hide Sum;
    var v := w.(table := w.table[fd := x]);
    var w' := CountAll(v, k, add);
    var p := w.streams[k].program;
    SumUpdate(w.table, fd, x, FdN());
    SumUpdate(w.table, fd, x, FdRate(w.rates));
    SumUpdate(w.streams, k, w'.streams[k], StreamN());
    SumUpdate(w.streams, k, w'.streams[k], StreamRate());
    SumUpdate(w.programs, p, w'.programs[p], ProgramN());
    SumUpdate(w.programs, p, w'.programs[p], ProgramRate());
    forall j | 0 <= j < |w.streams|
      ensures
        && w'.streams[j].metrics.n == Sum(w'.table, FdOf(j))
        && w'.streams[j].metrics.bitrate == Sum(w'.table, FdOf(j)) * w.rates[j]
    {
      SumUpdate(w.table, fd, x, FdOf(j));
      if j == k {
        OneMore(Sum(w.table, FdOf(j)), w.rates[j]);
      }
    }
    forall q | 0 <= q < |w.programs|
      ensures
        && w'.programs[q].metrics.n == Sum(w'.streams, StreamNOf(q))
        && w'.programs[q].metrics.bitrate == Sum(w'.streams, StreamRateOf(q))
    {
      SumUpdate(w.streams, k, w'.streams[k], StreamNOf(q));
      SumUpdate(w.streams, k, w'.streams[k], StreamRateOf(q));
    }
  }

  lemma OneMore(n: int, r: int)
    ensures (n + 1) * r == n * r + r && (n - 1) * r == n * r - r
  {
  }

  /** An entry changes, but neither before nor after does it count. */
  lemma UncountedKeeps(w: World, fd: nat, x: FdInfo)
    requires Shaped(w) && Books(w) && fd < MAX_FDS && !Counts(w.table[fd]) && !Counts(x)
    requires !x.holder.Free? ==> x.holder.stream < |w.streams|
    ensures Books(w.(table := w.table[fd := x]))
  {
    hide Sum, ProgramBooks;
    SumUpdate(w.table, fd, x, FdN());
    SumUpdate(w.table, fd, x, FdRate(w.rates));
    forall j | 0 <= j < |w.streams| ensures Sum(w.table[fd := x], FdOf(j)) == Sum(w.table, FdOf(j)) {
      SumUpdate(w.table, fd, x, FdOf(j));
    }
    SameStreams(w, w.(table := w.table[fd := x]));
  }

  lemma SameStreams(a: World, b: World)
    requires a.streams == b.streams && a.programs == b.programs
    ensures ProgramBooks(a) <==> ProgramBooks(b)
  {
  }

  lemma SetSinkKeeps(w: World, k: nat, present: bool)
    requires Shaped(w) && Books(w) && k < |w.streams|
    ensures Books(w.(streams := w.streams[k := w.streams[k].(hasSink := present)]))
  {
    hide Sum;
    var s := w.streams[k].(hasSink := present);
    SumUpdate(w.streams, k, s, StreamN());
    SumUpdate(w.streams, k, s, StreamRate());
    forall q | 0 <= q < |w.programs|
      ensures Sum(w.streams[k := s], StreamNOf(q)) == Sum(w.streams, StreamNOf(q))
      ensures Sum(w.streams[k := s], StreamRateOf(q)) == Sum(w.streams, StreamRateOf(q))
    {
      SumUpdate(w.streams, k, s, StreamNOf(q));
      SumUpdate(w.streams, k, s, StreamRateOf(q));
    }
  }

  lemma SetStreamingKeeps(w: World, p: nat, on: bool)
    requires Shaped(w) && Books(w) && p < |w.programs|
    ensures Books(w.(programs := w.programs[p := w.programs[p].(streaming := on)]))
  {
    hide Sum;
    var x := w.programs[p].(streaming := on);
    SumUpdate(w.programs, p, x, ProgramN());
    SumUpdate(w.programs, p, x, ProgramRate());
  }

  lemma PendingFree(w: World, pending: seq<nat>)
    requires Shaped(w) && Books(w) && Shaped(w.(pending := pending))
    ensures Books(w.(pending := pending))
  {
    hide Sum;
  }

  lemma {:induction false} RateShift(table: seq<FdInfo>, rates: seq<nat>, k: nat, rate: nat)
    requires k < |rates|
    ensures Sum(table, FdRate(rates[k := rate])) == Sum(table, FdRate(rates)) + Sum(table, FdOf(k)) * (rate - rates[k])
  {
    if table != [] {
      var n := |table| - 1;
      RateShift(table[..n], rates, k, rate);
      OneMore(Sum(table[..n], FdOf(k)), rate - rates[k]);
    }
  }

  /** Removal subtracts the stream's present bitrate. Changing it keeps the books balanced, at all levels,
      exactly when it is no change or nobody is connected to the stream. */
  lemma BitrateChange(w: World, k: nat, rate: nat)
    requires Shaped(w) && Books(w) && k < |w.streams|
    ensures Books(w.(rates := w.rates[k := rate])) <==> rate == w.rates[k] || w.streams[k].metrics.n == 0
  {
    hide Sum;
    var v := w.(rates := w.rates[k := rate]);
    var n := Sum(w.table, FdOf(k));
    RateShift(w.table, w.rates, k, rate);
    SameStreams(w, v);
    assert v.streams[k].metrics.bitrate == n * w.rates[k];
    Cancel(n, rate, w.rates[k]);
  }

  lemma Cancel(n: int, a: int, b: int)
    ensures n * a == n * b <==> n == 0 || a == b
    ensures n * (a - b) == n * a - n * b
  {
    if n != 0 && n * a == n * b {
      assert n * (a - b) == 0;
    }
  }

  lemma StepBooks(w: World, e: Event)
    requires Shaped(w) && Books(w)
    ensures Shaped(Step(w, e)) && Books(Step(w, e))
  {
    hide Books, CountAll;
    StepShaped(w, e);
    if Enabled(w, e) {
      match e
      case Request(k) => PendingFree(w, w.pending + [k]);
      case WroteHeaders(i, fd) =>
        var v := w.(pending := Without(w.pending, i));
        PendingFree(w, v.pending);
        if w.streams[w.pending[i]].hasSink {
          CountKeeps(v, fd, w.pending[i], true, FdInfo(false, Held(w.pending[i])));
        }
      case Abandoned(i) => PendingFree(w, Without(w.pending, i));
      case AddFd(k, fd) => UncountedKeeps(w, fd, FdInfo(true, Held(k)));
      case ClientRemoved(fd) =>
        var k := w.table[fd].holder.stream;
        var x := w.table[fd].(holder := Closing(k));
        if w.table[fd].callback {
          UncountedKeeps(w, fd, x);
        } else {
          CountKeeps(w, fd, k, false, x);
        }
      case ClientFdRemoved(fd) => UncountedKeeps(w, fd, FdInfo(false, Free));
      case SetSink(k, present) => SetSinkKeeps(w, k, present);
      case SetBitrate(k, rate) => BitrateChange(w, k, rate);
      case SetStreaming(p, on) => SetStreamingKeeps(w, p, on);
    }
  }

  lemma StartBooks(w: World)
    requires Start(w)
    ensures Books(w)
  {
    hide Sum;
    SumZero(w.table, FdN());
    SumZero(w.table, FdRate(w.rates));
    SumZero(w.streams, StreamN());
    SumZero(w.streams, StreamRate());
    SumZero(w.programs, ProgramN());
    SumZero(w.programs, ProgramRate());
    forall k: nat ensures Sum(w.table, FdOf(k)) == 0 {
      SumZero(w.table, FdOf(k));
    }
    forall p: nat ensures Sum(w.streams, StreamNOf(p)) == 0 && Sum(w.streams, StreamRateOf(p)) == 0 {
      SumZero(w.streams, StreamNOf(p));
      SumZero(w.streams, StreamRateOf(p));
    }
  }

  /** In every run, at all three levels, the counters equal the sums one level down and over the connected
      descriptors without a callback. */
  lemma {:induction false} BooksBalance(w: World, events: seq<Event>)
    requires Start(w)
    ensures Books(Run(w, events))
  {
    hide Books, Step;
    if events == [] {
      StartBooks(w);
    } else {
      var before := events[..|events| - 1];
      BooksBalance(w, before);
      StepBooks(Run(w, before), events[|events| - 1]);
    }
  }

  /** No counter is ever negative. */
  lemma NeverNegative(w: World, events: seq<Event>)
    requires Start(w)
    ensures
      var v := Run(w, events);
      && v.server.n >= 0 && v.server.bitrate >= 0
      && (forall k :: 0 <= k < |v.streams| ==> v.streams[k].metrics.n >= 0 && v.streams[k].metrics.bitrate >= 0)
      && (forall p :: 0 <= p < |v.programs| ==> v.programs[p].metrics.n >= 0 && v.programs[p].metrics.bitrate >= 0)
  {
    hide Run, Sum;
    BooksBalance(w, events);
    var v := Run(w, events);
    SumNonNegative(v.table, FdN());
    SumNonNegative(v.table, FdRate(v.rates));
    forall k | 0 <= k < |v.streams| ensures v.streams[k].metrics.n >= 0 && v.streams[k].metrics.bitrate >= 0 {
      SumNonNegative(v.table, FdOf(k));
      Product(v.streams[k].metrics.n, v.rates[k]);
    }
    forall p | 0 <= p < |v.programs| ensures v.programs[p].metrics.n >= 0 && v.programs[p].metrics.bitrate >= 0 {
      SumNonNegative(v.streams, StreamNOf(p));
      SumNonNegative(v.streams, StreamRateOf(p));
    }
  }

  lemma Product(a: int, b: int)
    ensures a >= 0 && b >= 0 ==> a * b >= 0
  {
  }
}
