/** What the limits and the maxima mean over whole runs, and where the books stop balancing. */
module Admissions {
  import opened Accounting

  // ---------------------------------------------------------------- running maxima

  /** One of the counter sets. */
  datatype Level = OfServer | OfProgram(p: nat) | OfStream(k: nat)

  predicate Exists(w: World, l: Level) {
    match l
    case OfServer => true
    case OfProgram(p) => p < |w.programs|
    case OfStream(k) => k < |w.streams|
  }

  function At(w: World, l: Level): Metrics
    requires Exists(w, l)
  {
    match l
    case OfServer => w.server
    case OfProgram(p) => w.programs[p].metrics
    case OfStream(k) => w.streams[k].metrics
  }

  lemma StepKeepsLevels(w: World, e: Event, l: Level)
    requires Shaped(w) && Exists(w, l)
    ensures Shaped(Step(w, e)) && Exists(Step(w, e), l)
    ensures
      var m, m' := At(w, l), At(Step(w, e), l);
      m' == m || exists b: nat :: m' == AddClient(m, b) || m' == RemoveClient(m, b)
  {
    StepShaped(w, e);
    if Enabled(w, e) && e.WroteHeaders? {
      var b := w.rates[w.pending[e.index]];
      assert At(Step(w, e), l) == At(w, l) || At(Step(w, e), l) == AddClient(At(w, l), b);
    }
    if Enabled(w, e) && e.ClientRemoved? {
      var b := w.rates[w.table[e.fd].holder.stream];
      assert At(Step(w, e), l) == At(w, l) || At(Step(w, e), l) == RemoveClient(At(w, l), b);
    }
  }

  lemma {:induction false} RunKeepsLevels(w: World, events: seq<Event>, l: Level)
    requires Shaped(w) && Exists(w, l)
    ensures Exists(Run(w, events), l)
  {
    hide Step;
    if events != [] {
      RunKeepsLevels(w, events[..|events| - 1], l);
      StepKeepsLevels(Run(w, events[..|events| - 1]), events[|events| - 1], l);
    }
  }

  /** The largest value a counter had after any prefix of the run. */
  ghost function Peak(w: World, events: seq<Event>, l: Level, rate: bool): int
    requires Shaped(w) && Exists(w, l)
    decreases |events|
  {
    RunKeepsLevels(w, events, l);
    var now := if rate then At(Run(w, events), l).bitrate else At(Run(w, events), l).n;
    if events == [] then now else Max(Peak(w, events[..|events| - 1], l, rate), now)
  }

  /** At every level, over every run, the recorded maxima are the true maxima of the counters. */
  lemma {:induction false} MaximaAreExact(w: World, events: seq<Event>, l: Level)
    requires Start(w) && Exists(w, l)
    ensures Exists(Run(w, events), l)
    ensures At(Run(w, events), l).maxN == Peak(w, events, l, false)
    ensures At(Run(w, events), l).maxBitrate == Peak(w, events, l, true)
  {
    hide Step;
    RunKeepsLevels(w, events, l);
    if events != [] {
      MaximaAreExact(w, events[..|events| - 1], l);
      var before := Run(w, events[..|events| - 1]);
      StepKeepsLevels(before, events[|events| - 1], l);
      PeakAbove(w, events[..|events| - 1], l);
    }
  }

  lemma PeakAbove(w: World, events: seq<Event>, l: Level)
    requires Shaped(w) && Exists(w, l)
    ensures Exists(Run(w, events), l)
    ensures At(Run(w, events), l).n <= Peak(w, events, l, false)
    ensures At(Run(w, events), l).bitrate <= Peak(w, events, l, true)
  {
    hide Run;
    RunKeepsLevels(w, events, l);
  }

  // ---------------------------------------------------------------- who is admitted

  /** Nothing but a request makes a client wait for its headers, and that exactly when the stream's program is
      streaming and neither limit is reached; a request that is turned away changes nothing. */
  lemma AdmittedExactly(w: World, e: Event)
    requires Shaped(w)
    ensures
      var admitted :=
        && e.Request? && e.stream < |w.streams| && w.programs[w.streams[e.stream].program].streaming
        && w.server.n < w.maxConnections && w.server.bitrate + w.rates[e.stream] < w.maxRate * 8000;
      && (|Step(w, e).pending| > |w.pending| <==> admitted)
      && (admitted ==> Step(w, e) == w.(pending := w.pending + [e.stream]))
      && (e.Request? && !admitted ==> Step(w, e) == w)
  {
  }

  /** The three answers to a request: no content without streaming whatever the limits, service unavailable
      only for a limit. */
  lemma Answers(w: World, k: nat)
    requires Shaped(w) && k < |w.streams|
    ensures
      var streaming := w.programs[w.streams[k].program].streaming;
      var full := w.server.n >= w.maxConnections || w.server.bitrate + w.rates[k] >= w.maxRate * 8000;
      && (Admission(w, k) == NoContent <==> !streaming)
      && (Admission(w, k) == Unavailable <==> streaming && full)
      && (Admission(w, k) == Ok <==> streaming && !full)
  {
  }

  /** No request of program p is awaited. */
  ghost predicate NoneAwaited(w: World, p: nat)
    requires Shaped(w)
  {
    forall i :: 0 <= i < |w.pending| ==> w.streams[w.pending[i]].program != p
  }

  /** The program exists, is not streaming, and has n clients at most. */
  ghost predicate Quiet(w: World, p: nat, n: int)
    requires Shaped(w)
  {
    p < |w.programs| && !w.programs[p].streaming && NoneAwaited(w, p) && w.programs[p].metrics.n <= n
  }

  lemma StepAwaitsNone(w: World, e: Event, p: nat)
    requires Shaped(w) && p < |w.programs| && !w.programs[p].streaming && NoneAwaited(w, p)
    ensures Shaped(Step(w, e)) && NoneAwaited(Step(w, e), p)
  {
    StepShaped(w, e);
    StreamsKeepPrograms(w, e);
    if Enabled(w, e) && (e.WroteHeaders? || e.Abandoned?) {
      WithoutFrom(w.pending, e.index);
    }
  }

  lemma StreamsKeepPrograms(w: World, e: Event)
    requires Shaped(w)
    ensures |Step(w, e).streams| == |w.streams|
    ensures forall k :: 0 <= k < |w.streams| ==> Step(w, e).streams[k].program == w.streams[k].program
  {
  }

  lemma StepQuiet(w: World, e: Event, p: nat, n: int)
    requires Shaped(w) && Quiet(w, p, n) && (e.SetStreaming? && e.program == p ==> !e.on)
    ensures Shaped(Step(w, e)) && Quiet(Step(w, e), p, n)
  {
    StepAwaitsNone(w, e, p);
    if Enabled(w, e) && e.WroteHeaders? {
      assert w.streams[w.pending[e.index]].program != p;
    }
    hide NoneAwaited;
  }

  lemma WithoutFrom(pending: seq<nat>, i: nat)
    requires i < |pending|
    ensures |Without(pending, i)| == |pending| - 1
    ensures forall j :: 0 <= j < |pending| - 1 ==> Without(pending, i)[j] == pending[if j < i then j else j + 1]
  {
  }

  /** A program that does not stream gains no client: once none of its requests is awaited, its count never
      grows until it streams again, whatever else happens. */
  lemma {:induction false} StoppedGainsNone(w: World, events: seq<Event>, p: nat)
    requires Shaped(w) && p < |w.programs| && !w.programs[p].streaming && NoneAwaited(w, p)
    requires forall i :: 0 <= i < |events| && events[i].SetStreaming? && events[i].program == p ==> !events[i].on
    ensures Quiet(Run(w, events), p, w.programs[p].metrics.n)
    decreases |events|
  {
    hide Step, NoneAwaited;
    if events != [] {
      StoppedGainsNone(w, events[..|events| - 1], p);
      StepQuiet(Run(w, events[..|events| - 1]), events[|events| - 1], p, w.programs[p].metrics.n);
    }
  }

  function Visit(index: nat, fd: nat): seq<Event> {
    [WroteHeaders(index, fd), ClientRemoved(fd), ClientFdRemoved(fd)]
  }

  /** A client that comes and goes leaves all counters, at every level, as they were before its headers, and
      its descriptor free again. */
  lemma ComesAndGoes(w: World, i: nat, fd: nat, l: Level)
    requires Shaped(w) && i < |w.pending| && fd < 65536 && w.table[fd] == FdInfo(false, Free)
    requires w.streams[w.pending[i]].hasSink && Exists(w, l)
    ensures
      var v := Run(w, Visit(i, fd));
      && v.table == w.table && v.pending == Without(w.pending, i)
      && Exists(v, l) && At(v, l).n == At(w, l).n && At(v, l).bitrate == At(w, l).bitrate
  {
    hide CountAll, Step;
    RunThree(w, WroteHeaders(i, fd), ClientRemoved(fd), ClientFdRemoved(fd));
    var a := Step(w, WroteHeaders(i, fd));
    var b := Step(a, ClientRemoved(fd));
    HeldNow(w, i, fd, l);
    ClosingNow(a, fd, l);
    FreeNow(b, fd, l);
    var t := w.table;
    assert t[fd := FdInfo(false, Held(w.pending[i]))][fd := FdInfo(false, Closing(w.pending[i]))][fd := t[fd]] == t;
  }

  /** The counters that a client of stream k is counted in. */
  predicate Concerns(w: World, k: nat, l: Level)
    requires k < |w.streams|
  {
    l == OfServer || l == OfStream(k) || l == OfProgram(w.streams[k].program)
  }

  lemma RunThree(w: World, a: Event, b: Event, c: Event)
    requires Shaped(w)
    ensures Shaped(Step(w, a)) && Shaped(Step(Step(w, a), b))
    ensures Run(w, [a, b, c]) == Step(Step(Step(w, a), b), c)
    ensures Run(w, [a, b]) == Step(Step(w, a), b)
  {
    hide Step, Shaped;
    StepShaped(w, a);
    StepShaped(Step(w, a), b);
    RunMore(w, [], a);
    RunMore(w, [a], b);
    RunMore(w, [a, b], c);
    assert [] + [a] == [a] && [a] + [b] == [a, b] && [a, b] + [c] == [a, b, c];
    assert Run(w, []) == w;
  }

  lemma HeldNow(w: World, i: nat, fd: nat, l: Level)
    requires Shaped(w) && i < |w.pending| && fd < 65536 && w.table[fd].holder.Free?
    requires w.streams[w.pending[i]].hasSink && Exists(w, l)
    ensures
      var k, v := w.pending[i], Step(w, WroteHeaders(i, fd));
      && v.table == w.table[fd := FdInfo(false, Held(k))] && v.pending == Without(w.pending, i)
      && |v.streams| == |w.streams| && v.rates == w.rates && v.streams[k].program == w.streams[k].program
      && Exists(v, l)
      && At(v, l).n == At(w, l).n + (if Concerns(w, k, l) then 1 else 0)
      && At(v, l).bitrate == At(w, l).bitrate + (if Concerns(w, k, l) then w.rates[k] else 0)
  {
  }

  lemma ClosingNow(w: World, fd: nat, l: Level)
    requires Shaped(w) && fd < 65536 && w.table[fd].holder.Held? && !w.table[fd].callback && Exists(w, l)
    ensures
      var k, v := w.table[fd].holder.stream, Step(w, ClientRemoved(fd));
      && v.table == w.table[fd := FdInfo(false, Closing(k))] && v.pending == w.pending && Exists(v, l)
      && At(v, l).n == At(w, l).n - (if Concerns(w, k, l) then 1 else 0)
      && At(v, l).bitrate == At(w, l).bitrate - (if Concerns(w, k, l) then w.rates[k] else 0)
  {
  }

  lemma FreeNow(w: World, fd: nat, l: Level)
    requires Shaped(w) && fd < 65536 && w.table[fd].holder.Closing? && Exists(w, l)
    ensures
      var v := Step(w, ClientFdRemoved(fd));
      v.table == w.table[fd := FdInfo(false, Free)] && v.pending == w.pending && Exists(v, l) && At(v, l) == At(w, l)
  {
  }

  /** A descriptor that was added with a callback comes and goes without moving anything. */
  lemma CallbackCountsNothing(w: World, k: nat, fd: nat)
    requires Shaped(w) && k < |w.streams| && fd < 65536 && w.table[fd] == FdInfo(false, Free)
    ensures Run(w, [AddFd(k, fd), ClientRemoved(fd)]) == w.(table := w.table[fd := FdInfo(true, Closing(k))])
    ensures Run(w, [AddFd(k, fd), ClientRemoved(fd), ClientFdRemoved(fd)]) == w
  {
    hide Step;
    RunThree(w, AddFd(k, fd), ClientRemoved(fd), ClientFdRemoved(fd));
    WithCallback(w, k, fd);
    ClosedWithCallback(Step(w, AddFd(k, fd)), k, fd);
    var t := w.table;
    assert t[fd := FdInfo(true, Held(k))][fd := FdInfo(true, Closing(k))] == t[fd := FdInfo(true, Closing(k))];
    assert t[fd := FdInfo(true, Closing(k))][fd := FdInfo(false, Free)] == t;
  }

  lemma WithCallback(w: World, k: nat, fd: nat)
    requires Shaped(w) && k < |w.streams| && fd < 65536 && w.table[fd].holder.Free?
    ensures Step(w, AddFd(k, fd)) == w.(table := w.table[fd := FdInfo(true, Held(k))])
  {
  }

  lemma ClosedWithCallback(w: World, k: nat, fd: nat)
    requires Shaped(w) && fd < 65536 && w.table[fd] == FdInfo(true, Held(k))
    ensures
      var v := w.(table := w.table[fd := FdInfo(true, Closing(k))]);
      && Shaped(v) && Step(w, ClientRemoved(fd)) == v
      && Step(v, ClientFdRemoved(fd)) == v.(table := v.table[fd := FdInfo(false, Free)])
  {
  }

  /** A stream that has no sink any more when the headers are written turns the client away. */
  lemma TurnedAway(w: World, i: nat, fd: nat)
    requires Shaped(w) && Enabled(w, WroteHeaders(i, fd)) && !w.streams[w.pending[i]].hasSink
    ensures Step(w, WroteHeaders(i, fd)) == w.(pending := Without(w.pending, i))
  {
  }

  /** What the setters and an abandoned request change, and that they change nothing else. */
  lemma SettersExact(w: World, k: nat, p: nat, i: nat, present: bool, on: bool, rate: nat)
    requires Shaped(w) && k < |w.streams| && p < |w.programs|
    ensures Step(w, SetSink(k, present)) == w.(streams := w.streams[k := w.streams[k].(hasSink := present)])
    ensures Step(w, SetStreaming(p, on)) == w.(programs := w.programs[p := w.programs[p].(streaming := on)])
    ensures w.streams[k].metrics.n == 0 ==> Step(w, SetBitrate(k, rate)) == w.(rates := w.rates[k := rate])
    ensures i < |w.pending| ==> Step(w, Abandoned(i)) == w.(pending := w.pending[..i] + w.pending[i + 1..])
  {
  }

  // ---------------------------------------------------------------- limits

  function Awaited(rates: seq<nat>, pending: seq<nat>): nat
    requires forall i :: 0 <= i < |pending| ==> pending[i] < |rates|
  {
    if pending == [] then 0 else Awaited(rates, pending[..|pending| - 1]) + rates[pending[|pending| - 1]]
  }

  lemma {:induction false} AwaitedWithout(rates: seq<nat>, pending: seq<nat>, i: nat)
    requires i < |pending| && forall j :: 0 <= j < |pending| ==> pending[j] < |rates|
    ensures Awaited(rates, Without(pending, i)) == Awaited(rates, pending) - rates[pending[i]]
  {
    var n := |pending| - 1;
    var rest := Without(pending, i);
    if i == n {
      assert rest == pending[..n];
    } else {
      AwaitedWithout(rates, pending[..n], i);
      assert rest[..n - 1] == Without(pending[..n], i) && rest[n - 1] == pending[n] && |rest| == n;
    }
  }

  lemma AwaitedMore(rates: seq<nat>, pending: seq<nat>, k: nat)
    requires k < |rates| && forall j :: 0 <= j < |pending| ==> pending[j] < |rates|
    ensures Awaited(rates, pending + [k]) == Awaited(rates, pending) + rates[k]
  {
    assert (pending + [k])[..|pending|] == pending;
  }

  lemma {:induction false} AwaitedBound(rates: seq<nat>, pending: seq<nat>, most: nat)
    requires forall i :: 0 <= i < |pending| ==> pending[i] < |rates|
    requires forall k :: 0 <= k < |rates| ==> rates[k] <= most
    ensures Awaited(rates, pending) <= |pending| * most
  {
    if pending != [] {
      AwaitedBound(rates, pending[..|pending| - 1], most);
      assert |pending| * most == (|pending| - 1) * most + most;
    }
  }

  /** At no time in the run do more than p admitted requests await their headers, and no bitrate is larger
      than most. */
  ghost predicate AtMostAwaited(w: World, events: seq<Event>, p: nat, most: nat)
    requires Shaped(w)
    decreases |events|
  {
    && |Run(w, events).pending| <= p
    && (forall k :: 0 <= k < |Run(w, events).rates| ==> Run(w, events).rates[k] <= most)
    && (events != [] ==> AtMostAwaited(w, events[..|events| - 1], p, most))
  }

  /** No bitrate changes while a request of its stream is awaited. */
  ghost predicate Steady(w: World, events: seq<Event>)
    requires Shaped(w)
    decreases |events|
  {
    events != [] ==>
      var e := events[|events| - 1];
      && (e.SetBitrate? ==> e.stream !in Run(w, events[..|events| - 1]).pending)
      && Steady(w, events[..|events| - 1])
  }

  /** Counted and awaited clients together respect the limits, but for the requests that were let in
      while others were awaited. */
  ghost predicate Within(w: World, p: nat, most: nat)
    requires Shaped(w)
  {
    && w.server.n + |w.pending| <= Max(0, w.maxConnections - 1 + p)
    && w.server.bitrate + |w.pending| * most < w.maxRate * 8000 + p * most
  }

  ghost predicate WithinSteadily(w: World, p: nat, most: nat)
    requires Shaped(w)
  {
    w.server.bitrate + Awaited(w.rates, w.pending) < w.maxRate * 8000 + (p - 1) * most
  }

  lemma Limits(w: World, e: Event)
    requires Shaped(w)
    ensures Shaped(Step(w, e)) && Step(w, e).maxConnections == w.maxConnections && Step(w, e).maxRate == w.maxRate
  {
    StepShaped(w, e);
  }

  lemma StepWithin(w: World, e: Event, p: nat, most: nat)
    requires Shaped(w) && Within(w, p, most)
    requires forall k :: 0 <= k < |w.rates| ==> w.rates[k] <= most
    requires |Step(w, e).pending| <= p
    ensures Shaped(Step(w, e)) && Within(Step(w, e), p, most)
  {
    Limits(w, e);
    if Enabled(w, e) {
      match e
      case Request(k) =>
        if Admission(w, k) == Ok {
          Fewer(|w.pending| + 1, p, most);
        }
      case WroteHeaders(i, fd) => OneLess(|w.pending|, most);
      case Abandoned(i) => OneLess(|w.pending|, most);
      case AddFd(_, _) =>
      case ClientRemoved(_) =>
      case ClientFdRemoved(_) =>
      case SetSink(_, _) =>
      case SetBitrate(_, _) =>
      case SetStreaming(_, _) =>
    }
  }

  lemma StepSteadily(w: World, e: Event, p: nat, most: nat)
    requires Shaped(w) && WithinSteadily(w, p, most) && p >= 1
    requires forall k :: 0 <= k < |w.rates| ==> w.rates[k] <= most
    requires |Step(w, e).pending| <= p
    requires e.SetBitrate? ==> e.stream !in w.pending
    ensures Shaped(Step(w, e)) && WithinSteadily(Step(w, e), p, most)
  {
    hide Awaited;
    Limits(w, e);
    if Enabled(w, e) {
      match e
      case Request(k) =>
        if Admission(w, k) == Ok {
          AwaitedBound(w.rates, w.pending, most);
          AwaitedMore(w.rates, w.pending, k);
          Fewer(|w.pending|, p - 1, most);
        }
      case WroteHeaders(i, fd) => AwaitedWithout(w.rates, w.pending, i);
      case Abandoned(i) => AwaitedWithout(w.rates, w.pending, i);
      case AddFd(_, _) =>
      case ClientRemoved(_) =>
      case ClientFdRemoved(_) =>
      case SetSink(_, _) =>
      case SetBitrate(k, rate) => AwaitedElsewhere(w.rates, w.pending, k, rate);
      case SetStreaming(_, _) =>
    }
  }

  lemma {:induction false} AwaitedElsewhere(rates: seq<nat>, pending: seq<nat>, k: nat, rate: nat)
    requires k < |rates| && k !in pending && forall j :: 0 <= j < |pending| ==> pending[j] < |rates|
    ensures Awaited(rates[k := rate], pending) == Awaited(rates, pending)
  {
    if pending != [] {
      AwaitedElsewhere(rates, pending[..|pending| - 1], k, rate);
    }
  }

  lemma Fewer(a: nat, b: nat, most: nat)
    requires a <= b
    ensures a * most <= b * most
  {
  }

  lemma OneLess(a: nat, most: nat)
    ensures a * most - most == (a - 1) * most <= a * most
  {
  }

  lemma {:induction false} RunFixed(w: World, events: seq<Event>)
    requires Shaped(w)
    ensures Run(w, events).maxConnections == w.maxConnections && Run(w, events).maxRate == w.maxRate
  {
    hide Step;
    if events != [] {
      RunFixed(w, events[..|events| - 1]);
      Limits(Run(w, events[..|events| - 1]), events[|events| - 1]);
    }
  }

  lemma {:induction false} RunWithin(w: World, events: seq<Event>, p: nat, most: nat)
    requires Start(w) && p >= 1 && w.maxRate > 0
    requires AtMostAwaited(w, events, p, most)
    ensures Within(Run(w, events), p, most)
    ensures Steady(w, events) ==> WithinSteadily(Run(w, events), p, most)
  {
    hide Step, Within, WithinSteadily;
    if events == [] {
      StartWithin(w, p, most);
    } else {
      var before := events[..|events| - 1];
      RunWithin(w, before, p, most);
      StepWithin(Run(w, before), events[|events| - 1], p, most);
      if Steady(w, events) {
        StepSteadily(Run(w, before), events[|events| - 1], p, most);
      }
    }
  }

  lemma StartWithin(w: World, p: nat, most: nat)
    requires Start(w) && p >= 1 && w.maxRate > 0
    ensures Within(w, p, most) && WithinSteadily(w, p, most)
  {
    Fewer(0, p, most);
    Fewer(0, p - 1, most);
  }

  /** Nobody is admitted, waiting or counted. */
  ghost predicate Deserted(w: World) {
    w.pending == [] && w.server.n == 0 && w.server.bitrate == 0
  }

  lemma StepDeserted(w: World, e: Event)
    requires Shaped(w) && Deserted(w) && (w.maxRate <= 0 || w.maxConnections <= 0)
    requires Step(w, e).server.n >= 0
    ensures Deserted(Step(w, e))
  {
    if Enabled(w, e) {
      match e
      case Request(k) => assert Admission(w, k) != Ok;
      case WroteHeaders(_, _) =>
      case Abandoned(_) =>
      case AddFd(_, _) =>
      case ClientRemoved(_) =>
      case ClientFdRemoved(_) =>
      case SetSink(_, _) =>
      case SetBitrate(_, _) =>
      case SetStreaming(_, _) =>
    }
  }

  /** A limit of zero refuses every request: in no run is a client admitted or counted. */
  lemma {:induction false} ZeroRefusesAll(w: World, events: seq<Event>)
    requires Start(w) && (w.maxRate <= 0 || w.maxConnections <= 0)
    ensures Deserted(Run(w, events))
  {
    hide Step;
    if events != [] {
      var before := events[..|events| - 1];
      ZeroRefusesAll(w, before);
      RunFixed(w, before);
      NeverNegative(w, events);
      StepDeserted(Run(w, before), events[|events| - 1]);
    }
  }

  /** Admission looks at counters that do not include the requests still waiting for their headers. If at
      most p of those exist at any time, the configured limits are exceeded by at most p - 1 clients and,
      unless a bitrate changes under a waiting request, p - 1 times the largest bitrate; with p = 1 they
      hold as configured. A limit of zero lets nobody in. */
  lemma AdmissionBound(w: World, events: seq<Event>, p: nat, most: nat)
    requires Start(w) && p >= 1
    requires AtMostAwaited(w, events, p, most)
    ensures
      var m := Run(w, events).server;
      if w.maxRate <= 0 || w.maxConnections <= 0 then m.n == 0 && m.bitrate == 0
      else
        && m.n <= w.maxConnections - 1 + p
        && m.bitrate < w.maxRate * 8000 + p * most
        && (Steady(w, events) ==> m.bitrate < w.maxRate * 8000 + (p - 1) * most)
  {
    hide Run;
    if w.maxRate <= 0 || w.maxConnections <= 0 {
      ZeroRefusesAll(w, events);
    } else {
      RunWithin(w, events, p, most);
      RunFixed(w, events);
    }
  }

  // ---------------------------------------------------------------- the bound is reached

  /** One client after the other, on the given streams. */
  function Connects(ks: seq<nat>): seq<Event> {
    if ks == [] then []
    else Connects(ks[..|ks| - 1]) + [Request(ks[|ks| - 1])] + [WroteHeaders(0, |ks| - 1)]
  }

  function Requests(k: nat, n: nat): seq<Event> {
    seq(n, _ => Request(k))
  }

  function Headers(from: nat, n: nat): seq<Event> {
    seq(n, i requires 0 <= i < n => WroteHeaders(0, from + i))
  }

  /** After the clients of ks, p requests for stream k arrive before any of them gets its headers. */
  function Crowd(ks: seq<nat>, k: nat, p: nat): seq<Event> {
    Connects(ks) + Requests(k, p) + Headers(|ks|, p)
  }

  function Repeat(k: nat, n: nat): seq<nat> {
    seq(n, _ => k)
  }

  /** n clients are counted at a total of rate, in descriptors below n; all streams run. */
  ghost predicate Occupied(w: World, v: World, n: nat, rate: nat, pending: seq<nat>) {
    && Shaped(v) && v.pending == pending && v.server.n == n && v.server.bitrate == rate
    && v.rates == w.rates && v.maxConnections == w.maxConnections && v.maxRate == w.maxRate
    && (forall k :: 0 <= k < |v.streams| ==> v.streams[k].hasSink)
    && (forall p :: 0 <= p < |v.programs| ==> v.programs[p].streaming)
    && (forall fd :: n <= fd < MAX_FDS ==> v.table[fd].holder.Free?)
  }

  lemma RequestJoins(w: World, v: World, n: nat, rate: nat, pending: seq<nat>, k: nat)
    requires Occupied(w, v, n, rate, pending) && k < |w.rates|
    requires n < w.maxConnections && rate + w.rates[k] < w.maxRate * 8000
    ensures Occupied(w, Step(v, Request(k)), n, rate, pending + [k])
  {
  }

  lemma HeadersJoin(w: World, v: World, n: nat, rate: nat, pending: seq<nat>)
    requires Occupied(w, v, n, rate, pending) && pending != [] && n < MAX_FDS
    ensures pending[0] < |w.rates|
    ensures Occupied(w, Step(v, WroteHeaders(0, n)), n + 1, rate + w.rates[pending[0]], pending[1..])
  {
    StepShaped(v, WroteHeaders(0, n));
    assert Without(pending, 0) == pending[1..];
  }

  ghost predicate Largest(w: World, most: nat) {
    forall k :: 0 <= k < |w.rates| ==> w.rates[k] <= most
  }

  lemma RunMore(w: World, events: seq<Event>, e: Event)
    requires Shaped(w)
    ensures Run(w, events + [e]) == Step(Run(w, events), e)
  {
    hide Step;
    assert (events + [e])[..|events|] == events;
  }

  lemma AwaitedAfter(w: World, events: seq<Event>, e: Event, p: nat, most: nat)
    requires Shaped(w) && AtMostAwaited(w, events, p, most) && Steady(w, events) && !e.SetBitrate?
    requires Run(w, events + [e]).rates == w.rates && Largest(w, most) && |Run(w, events + [e]).pending| <= p
    ensures AtMostAwaited(w, events + [e], p, most) && Steady(w, events + [e])
  {
    hide Run;
    assert (events + [e])[..|events|] == events;
  }

  /** All streams run, nobody is connected. */
  ghost predicate Open(w: World) {
    && Start(w)
    && (forall k :: 0 <= k < |w.streams| ==> w.streams[k].hasSink)
    && (forall p :: 0 <= p < |w.programs| ==> w.programs[p].streaming)
  }

  /** The events so far lead to this occupation, with no more than p requests awaited on the way. */
  ghost predicate Leads(w: World, events: seq<Event>, n: nat, rate: nat, pending: seq<nat>, p: nat, most: nat) {
    && Shaped(w) && Occupied(w, Run(w, events), n, rate, pending)
    && AtMostAwaited(w, events, p, most) && Steady(w, events)
  }

  lemma LeadsRequest(w: World, events: seq<Event>, n: nat, rate: nat, pending: seq<nat>, k: nat, p: nat, most: nat)
    requires Leads(w, events, n, rate, pending, p, most) && k < |w.rates| && Largest(w, most) && |pending| < p
    requires n < w.maxConnections && rate + w.rates[k] < w.maxRate * 8000
    ensures Leads(w, events + [Request(k)], n, rate, pending + [k], p, most)
  {
    hide Run, Step, AtMostAwaited, Steady;
    RunMore(w, events, Request(k));
    RequestJoins(w, Run(w, events), n, rate, pending, k);
    AwaitedAfter(w, events, Request(k), p, most);
  }

  lemma LeadsHeaders(w: World, events: seq<Event>, n: nat, rate: nat, pending: seq<nat>, p: nat, most: nat)
    requires Leads(w, events, n, rate, pending, p, most) && Largest(w, most)
    requires pending != [] && n < MAX_FDS && |pending| <= p
    ensures pending[0] < |w.rates|
    ensures Leads(w, events + [WroteHeaders(0, n)], n + 1, rate + w.rates[pending[0]], pending[1..], p, most)
  {
    hide Run, Step, AtMostAwaited, Steady;
    RunMore(w, events, WroteHeaders(0, n));
    HeadersJoin(w, Run(w, events), n, rate, pending);
    AwaitedAfter(w, events, WroteHeaders(0, n), p, most);
  }

  ghost predicate Of(w: World, ks: seq<nat>) {
    forall i :: 0 <= i < |ks| ==> ks[i] < |w.rates|
  }

  lemma {:induction false} Connected(w: World, ks: seq<nat>, p: nat, most: nat)
    requires Open(w) && Of(w, ks) && Largest(w, most) && p >= 1
    requires |ks| <= w.maxConnections && |ks| <= MAX_FDS && Awaited(w.rates, ks) < w.maxRate * 8000
    ensures Leads(w, Connects(ks), |ks|, Awaited(w.rates, ks), [], p, most)
  {
    hide Leads;
    if ks == [] {
      OpenLeads(w, p, most);
    } else {
      var init, k := ks[..|ks| - 1], ks[|ks| - 1];
      Connected(w, init, p, most);
      LeadsRequest(w, Connects(init), |init|, Awaited(w.rates, init), [], k, p, most);
      LeadsHeaders(w, Connects(init) + [Request(k)], |init|, Awaited(w.rates, init), [] + [k], p, most);
      assert ([] + [k])[1..] == [];
    }
  }

  lemma OpenLeads(w: World, p: nat, most: nat)
    requires Open(w) && Largest(w, most)
    ensures Leads(w, [], 0, 0, [], p, most)
  {
  }

  lemma {:induction false} Arrived(w: World, ks: seq<nat>, k: nat, n: nat, p: nat, most: nat)
    requires Open(w) && Of(w, ks) && Largest(w, most) && 1 <= p && n <= p && k < |w.rates|
    requires |ks| < w.maxConnections && |ks| <= MAX_FDS
    requires Awaited(w.rates, ks) + w.rates[k] < w.maxRate * 8000
    ensures Leads(w, Connects(ks) + Requests(k, n), |ks|, Awaited(w.rates, ks), Repeat(k, n), p, most)
  {
    hide Leads, Connects, Awaited;
    if n == 0 {
      Connected(w, ks, p, most);
      assert Connects(ks) + Requests(k, 0) == Connects(ks);
    } else {
      Arrived(w, ks, k, n - 1, p, most);
      LeadsRequest(w, Connects(ks) + Requests(k, n - 1), |ks|, Awaited(w.rates, ks), Repeat(k, n - 1), k, p, most);
      assert Connects(ks) + Requests(k, n) == Connects(ks) + Requests(k, n - 1) + [Request(k)];
      assert Repeat(k, n) == Repeat(k, n - 1) + [k];
    }
  }

  lemma {:induction false} Crowded(w: World, ks: seq<nat>, k: nat, n: nat, p: nat, most: nat)
    requires Open(w) && Of(w, ks) && Largest(w, most) && 1 <= p && n <= p && k < |w.rates|
    requires |ks| < w.maxConnections && |ks| + p <= MAX_FDS
    requires Awaited(w.rates, ks) + w.rates[k] < w.maxRate * 8000
    ensures Leads(w, Connects(ks) + Requests(k, p) + Headers(|ks|, n), |ks| + n,
                  Awaited(w.rates, ks) + n * w.rates[k], Repeat(k, p - n), p, most)
  {
    hide Leads, Connects, Awaited, Requests;
    var arrived := Connects(ks) + Requests(k, p);
    if n == 0 {
      Arrived(w, ks, k, p, p, most);
      assert arrived + Headers(|ks|, 0) == arrived;
    } else {
      var rate := Awaited(w.rates, ks) + (n - 1) * w.rates[k];
      Crowded(w, ks, k, n - 1, p, most);
      LeadsHeaders(w, arrived + Headers(|ks|, n - 1), |ks| + n - 1, rate, Repeat(k, p - n + 1), p, most);
      assert arrived + Headers(|ks|, n) == arrived + Headers(|ks|, n - 1) + [WroteHeaders(0, |ks| + n - 1)];
      assert Repeat(k, p - n + 1)[1..] == Repeat(k, p - n);
      assert n * w.rates[k] == (n - 1) * w.rates[k] + w.rates[k];
    }
  }

  /** The bounds of AdmissionBound cannot be improved, as long as the table has room for the clients: when
      those connected leave room for one more, p requests that arrive before any headers are written make
      p clients. If that one would have filled the client limit, the bound on clients is reached; if it
      would have come within one of the rate limit at the largest bitrate, the bound on bitrates is. */
  lemma AdmissionBoundReached(w: World, ks: seq<nat>, k: nat, p: nat, most: nat)
    requires Open(w) && Of(w, ks) && Largest(w, most) && p >= 1 && k < |w.rates| && |ks| + p <= MAX_FDS
    requires |ks| < w.maxConnections && Awaited(w.rates, ks) + w.rates[k] < w.maxRate * 8000
    ensures
      var events := Crowd(ks, k, p);
      var m := Run(w, events).server;
      && AtMostAwaited(w, events, p, most) && Steady(w, events)
      && m.n == |ks| + p && m.bitrate == Awaited(w.rates, ks) + p * w.rates[k]
      && (|ks| == w.maxConnections - 1 ==> m.n == w.maxConnections - 1 + p)
      && (Awaited(w.rates, ks) + w.rates[k] == w.maxRate * 8000 - 1 ==>
            m.bitrate == w.maxRate * 8000 + (p - 1) * w.rates[k] - 1)
      && (Awaited(w.rates, ks) + w.rates[k] == w.maxRate * 8000 - 1 && w.rates[k] == most ==>
            m.bitrate == w.maxRate * 8000 + (p - 1) * most - 1)
  {
    hide Run, AtMostAwaited, Steady, Connects, Awaited;
    Crowded(w, ks, k, p, p, most);
    assert p * w.rates[k] == (p - 1) * w.rates[k] + w.rates[k];
  }

  // ---------------------------------------------------------------- where the books stop balancing

  /** A descriptor the table has no room for is refused, but the client is counted all the same: the books
      balance after the headers are written exactly when the descriptor fits, or there is no sink. */
  lemma LargeDescriptor(w: World, i: nat, fd: nat)
    requires Shaped(w) && Books(w) && i < |w.pending|
    requires fd < 65536 ==> w.table[fd].holder.Free?
    ensures Shaped(HeadersWritten(w, i, fd))
    ensures Books(HeadersWritten(w, i, fd)) <==> (fd < 65536 || !w.streams[w.pending[i]].hasSink)
  {
    hide Sum;
    var k := w.pending[i];
    if w.streams[k].hasSink && fd >= MAX_FDS {
      assert HeadersWritten(w, i, fd).server.n == w.server.n + 1;
    } else {
      PendingFree(w, Without(w.pending, i));
      if fd < MAX_FDS {
        StepBooks(w, WroteHeaders(i, fd));
      }
    }
  }
}
