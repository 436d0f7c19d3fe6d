/** The life of a program: state changes, the enabled flag, the restart timer, and the idle callback that
    reconciles state and flag. */
module Lifecycle {

  datatype State = Unknown | Stopped | Starting | Running | Stopping

  /** idle: state_idle is set. sources: idle sources of this program in the main loop. */
  datatype Program = Program(state: State, enabled: bool, idle: bool, sources: nat, restartDelay: int)

  /** External code, such as a bus handler or a subclass's start and stop functions, sets any state and
      arms the restart timer at any time. */
  datatype Event =
    | SetState(state: State)
    | SetEnabled(enabled: bool)
    | Start
    | Stop
    | RunIdle
    | Tick
    | SetRestartDelay(delay: int)

  /** Neither the stopped program that should run nor the running one that should not; on is
      enable_programs of the server. */
  predicate Mismatch(p: Program, on: bool) {
    (p.state == Stopped && p.enabled && on) || (p.state == Running && !(p.enabled && on))
  }

  function StateSet(p: Program, on: bool, state: State): Program {
    var q := p.(state := state);
    if Mismatch(q, on) && !q.idle then q.(idle := true, sources := q.sources + 1) else q
  }

  function Started(p: Program, on: bool): Program {
    if p.state == Starting || p.state == Running || p.state == Stopping || !p.enabled || !on then p
    else StateSet(p, on, Starting)
  }

  function Halted(p: Program, on: bool): Program {
    if p.state == Stopped || p.state == Stopping then p else StateSet(p, on, Stopping)
  }

  function EnabledSet(p: Program, on: bool, enabled: bool): Program {
    if p.enabled && !enabled then Halted(p.(enabled := enabled), on)
    else if !p.enabled && enabled then Started(p.(enabled := enabled), on)
    else p
  }

  /** The main loop runs one idle source and drops it. */
  function IdleRun(p: Program, on: bool): Program
    requires p.sources > 0
  {
    var q := p.(idle := false, sources := p.sources - 1);
    if q.state == Stopped && q.enabled && on then Started(q, on)
    else if q.state == Running && !(q.enabled && on) then Halted(q, on)
    else q
  }

  function Ticked(p: Program, on: bool): Program {
    if p.restartDelay == 0 then p
    else
      var q := p.(restartDelay := p.restartDelay - 1);
      if q.restartDelay == 0 then Started(q, on) else q
  }

  function Step(p: Program, on: bool, e: Event): Program {
    match e
    case SetState(state) => StateSet(p, on, state)
    case SetEnabled(enabled) => EnabledSet(p, on, enabled)
    case Start => Started(p, on)
    case Stop => Halted(p, on)
    case RunIdle => if p.sources > 0 then IdleRun(p, on) else p
    case Tick => Ticked(p, on)
    case SetRestartDelay(delay) => p.(restartDelay := delay)
  }

  function Run(p: Program, on: bool, events: seq<Event>): Program {
    if events == [] then p else Step(Run(p, on, events[..|events| - 1]), on, events[|events| - 1])
  }

  /** A new program: stopped and not enabled. */
  const NEW := Program(Stopped, false, false, 0, 0)

  /** A mismatch has a reconciliation pending, and there is never more than one. */
  predicate Inv(p: Program, on: bool) {
    p.sources == (if p.idle then 1 else 0) && (Mismatch(p, on) ==> p.idle)
  }

  lemma {:induction false} RunInv(on: bool, events: seq<Event>)
    ensures Inv(Run(NEW, on, events), on)
  {
    if events != [] {
      RunInv(on, events[..|events| - 1]);
    }
  }

  /** With enable_programs fixed, in every reachable state a stopped program that should run or a running
      one that should not has exactly one reconciliation outstanding, and no other state has more. */
  lemma Reconciled(on: bool, events: seq<Event>)
    ensures
      var p := Run(NEW, on, events);
      && (p.state == Stopped && p.enabled && on ==> p.sources == 1)
      && (p.state == Running && !(p.enabled && on) ==> p.sources == 1)
      && p.sources <= 1 && (p.idle <==> p.sources == 1)
  {
    RunInv(on, events);
  }

  /** A state change takes effect in any state, and asks for a reconciliation exactly if it makes one
      necessary and none is outstanding. */
  lemma SetStateExact(on: bool, events: seq<Event>, state: State)
    ensures
      var p, q := Run(NEW, on, events), Run(NEW, on, events + [SetState(state)]);
      && q.state == state && q.enabled == p.enabled && q.restartDelay == p.restartDelay
      && (q.sources > p.sources <==>
            p.sources == 0 &&
            ((state == Stopped && p.enabled && on) || (state == Running && !(p.enabled && on))))
  {
    RunInv(on, events);
    assert (events + [SetState(state)])[..|events|] == events;
  }

  /** Running the reconciliation leaves no mismatch, and nothing outstanding, wherever it is run: a
      stopped program that should run is starting, a running one that should not is stopping, and any
      other program is left alone. */
  lemma IdleSettles(on: bool, events: seq<Event>)
    requires Run(NEW, on, events).sources > 0
    ensures
      var p, q := Run(NEW, on, events), Run(NEW, on, events + [RunIdle]);
      && q.sources == 0 && !q.idle && q.enabled == p.enabled && q.restartDelay == p.restartDelay
      && q.state ==
           (if p.state == Stopped && p.enabled && on then Starting
            else if p.state == Running && !(p.enabled && on) then Stopping
            else p.state)
  {
    hide Step;
    RunInv(on, events);
    assert (events + [RunIdle])[..|events|] == events;
    IdleStepSettles(Run(NEW, on, events), on);
  }

  lemma IdleStepSettles(p: Program, on: bool)
    requires Inv(p, on) && p.sources > 0
    ensures
      var q := Step(p, on, RunIdle);
      && q.sources == 0 && !q.idle && q.enabled == p.enabled && q.restartDelay == p.restartDelay
      && q.state ==
           (if p.state == Stopped && p.enabled && on then Starting
            else if p.state == Running && !(p.enabled && on) then Stopping
            else p.state)
  {
  }

  /** What a start does in each state: only a stopped program, or one whose state is unknown, begins to
      start, and only if it is enabled and programs are on. Nothing else of it changes. */
  lemma StartTable(p: Program, on: bool)
    ensures Step(p, on, Start) == p.(state :=
              match p.state
              case Stopped => if p.enabled && on then Starting else Stopped
              case Unknown => if p.enabled && on then Starting else Unknown
              case Starting => Starting
              case Running => Running
              case Stopping => Stopping)
  {
  }

  /** What a stop does in each state: everything but a stopped program is stopping afterwards. */
  lemma StopTable(p: Program, on: bool)
    ensures Step(p, on, Stop) == p.(state :=
              match p.state
              case Stopped => Stopped
              case Unknown => Stopping
              case Starting => Stopping
              case Running => Stopping
              case Stopping => Stopping)
  {
  }

  /** The flag moves as told; setting it to what it is changes nothing, and otherwise the program is
      stopped or started. */
  lemma EnabledTable(p: Program, on: bool, enabled: bool)
    ensures
      var q := Step(p, on, SetEnabled(enabled));
      if enabled == p.enabled then q == p
      else q == Step(p.(enabled := enabled), on, if enabled then Start else Stop)
  {
  }

  /** A new program does nothing by itself. */
  lemma NewIsStill(on: bool, e: Event)
    requires e == Tick || e == RunIdle || e == Start || e == Stop
    ensures Step(NEW, on, e) == NEW && NEW.state == Stopped && !NEW.enabled
  {
  }

  /** An event that gives no reason to stop. */
  predicate Encourages(e: Event) {
    e.Start? || e.Tick? || e.RunIdle? || e.SetRestartDelay? || (e.SetEnabled? && e.enabled)
  }

  /** A program that should run and does, or is about to, is not started over again: it keeps its state
      through every run of starts, timer ticks, reconciliations and enabling. */
  lemma {:induction false} RunningStays(p: Program, events: seq<Event>)
    requires p.enabled && (p.state == Running || p.state == Starting)
    requires forall i :: 0 <= i < |events| ==> Encourages(events[i])
    ensures Run(p, true, events).state == p.state && Run(p, true, events).enabled
    decreases |events|
  {
    if events != [] {
      RunningStays(p, events[..|events| - 1]);
    }
  }

  /** A disabled program that is stopped stays so through every run of starts, stops, ticks and
      reconciliations. */
  lemma {:induction false} StoppedStays(p: Program, on: bool, events: seq<Event>)
    requires !p.enabled && p.state == Stopped
    requires forall i :: 0 <= i < |events| ==> !events[i].SetState? && !events[i].SetEnabled?
    ensures Run(p, on, events).state == Stopped && !Run(p, on, events).enabled
    decreases |events|
  {
    if events != [] {
      StoppedStays(p, on, events[..|events| - 1]);
    }
  }

  /** The timer counts any delay but zero down by one, and starts with the tick that reaches zero only. */
  lemma TickExact(p: Program, on: bool)
    ensures
      var q := Step(p, on, Tick);
      if p.restartDelay == 0 then q == p
      else if p.restartDelay == 1 then q == Step(p.(restartDelay := 0), on, Start)
      else q == p.(restartDelay := p.restartDelay - 1)
  {
  }

  /** Enabling and disabling take effect at once: whatever led here, a program that was just disabled is
      stopped or on its way, and one that was just enabled is not stopped unless programs are off. */
  lemma EnabledTakesEffect(on: bool, events: seq<Event>, enabled: bool)
    requires Run(NEW, on, events).enabled != enabled
    ensures
      var q := Run(NEW, on, events + [SetEnabled(enabled)]);
      && q.enabled == enabled
      && (!enabled ==> q.state == if Run(NEW, on, events).state == Stopped then Stopped else Stopping)
      && (enabled && on ==> q.state != Stopped && q.state != Unknown)
  {
    assert (events + [SetEnabled(enabled)])[..|events|] == events;
  }

  /** The restart timer, armed with a positive delay and left alone, starts an enabled stopped program with
      exactly its last tick. */
  lemma {:induction false} RestartAfterDelay(p: Program, ticks: nat)
    requires p.state == Stopped && p.enabled && 0 < ticks <= p.restartDelay
    ensures
      var q := Run(p, true, Ticks(ticks));
      && q.restartDelay == p.restartDelay - ticks
      && q.state == (if ticks < p.restartDelay then Stopped else Starting)
      && q.enabled
  {
    assert Ticks(ticks)[..ticks - 1] == Ticks(ticks - 1);
    if ticks > 1 {
      RestartAfterDelay(p, ticks - 1);
    } else {
      assert Run(p, true, Ticks(0)) == p;
    }
  }

  function Ticks(n: nat): seq<Event> {
    seq(n, _ => Tick)
  }

  /** Only external code moves a program to running or stopped: a program that is stopping stays so
      through any run of starts, stops, enabling, timers and reconciliations. */
  lemma {:induction false} StoppingStays(p: Program, on: bool, events: seq<Event>)
    requires p.state == Stopping && forall i :: 0 <= i < |events| ==> !events[i].SetState?
    ensures Run(p, on, events).state == Stopping
  {
    if events != [] {
      StoppingStays(p, on, events[..|events| - 1]);
    }
  }

  /** Turning enable_programs off at run time schedules nothing. The invariant survives exactly when the
      program is not running, was not meant to run, or has a reconciliation pending anyway. */
  lemma DisablingPrograms(p: Program)
    requires Inv(p, true)
    ensures Inv(p, false) <==> (p.state == Running ==> p.sources == 1)
    ensures Inv(p, false) <==> p.state != Running || !p.enabled || p.idle
  {
  }

  // ---------------------------------------------------------------- the objects

  class GssServer {
    var enablePrograms: bool
    var programs: seq<GssProgram>

    constructor (on: bool)
      ensures enablePrograms == on && programs == []
    {
      enablePrograms, programs := on, [];
    }

    /** One tick of the timer reaches every program. */
    method PeriodicTimer()
      requires forall i, j :: 0 <= i < j < |programs| ==> programs[i] != programs[j]
      requires forall i :: 0 <= i < |programs| ==> programs[i].server == this
      modifies programs
      ensures forall i :: 0 <= i < |programs| ==>
                programs[i].View() == Ticked(old(programs[i].View()), enablePrograms)
    {
      var i := 0;
      while i < |programs|
        invariant 0 <= i <= |programs|
        invariant forall k :: 0 <= k < i ==> programs[k].View() == Ticked(old(programs[k].View()), enablePrograms)
        invariant forall k :: i <= k < |programs| ==> programs[k].View() == old(programs[k].View())
      {
        var program := programs[i];
        if program.restartDelay != 0 {
          program.restartDelay := program.restartDelay - 1;
          if program.restartDelay == 0 {
            program.DoStart();
          }
        }
        i := i + 1;
      }
    }
  }

  class GssProgram {
    const server: GssServer
    var state: State
    var enabled: bool
    var stateIdle: bool
    var restartDelay: int
    ghost var sources: nat

    ghost function View(): Program
      reads this
    {
      Program(state, enabled, stateIdle, sources, restartDelay)
    }

    constructor (server: GssServer)
      ensures this.server == server && View() == NEW
    {
      this.server := server;
      state, enabled, stateIdle, restartDelay, sources := Stopped, false, false, 0, 0;
    }

    method DoSetState(newState: State)
      modifies this
      ensures View() == StateSet(old(View()), server.enablePrograms, newState)
    {
      var shouldRun := enabled && server.enablePrograms;
      state := newState;
      if (state == Stopped && shouldRun) || (state == Running && !shouldRun) {
        if !stateIdle {
          stateIdle := true;
          sources := sources + 1;
        }
      }
    }

    method DoSetEnabled(on: bool)
      modifies this
      ensures View() == EnabledSet(old(View()), server.enablePrograms, on)
    {
      if enabled && !on {
        enabled := on;
        DoStop();
      } else if !enabled && on {
        enabled := on;
        DoStart();
      }
    }

    method DoStop()
      modifies this
      ensures View() == Halted(old(View()), server.enablePrograms)
    {
      if state == Stopped || state == Stopping {
        return;
      }
      DoSetState(Stopping);
    }

    method DoStart()
      modifies this
      ensures View() == Started(old(View()), server.enablePrograms)
    {
      if state == Starting || state == Running || state == Stopping {
        return;
      }
      if !enabled || !server.enablePrograms {
        return;
      }
      DoSetState(Starting);
    }

    /** The idle callback. */
    method IdleStateEnable()
      requires sources > 0
      modifies this
      ensures View() == IdleRun(old(View()), server.enablePrograms)
    {
      stateIdle := false;
      sources := sources - 1;
      var shouldRun := enabled && server.enablePrograms;
      if state == Stopped && shouldRun {
        DoStart();
      } else if state == Running && !shouldRun {
        DoStop();
      }
    }
  }
}
