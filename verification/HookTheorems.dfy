/** What the inactive hooks spawn over a run: for each timeout its start commands and its stop commands, in turn. */
module HookTheorems {
  import opened Common
  import Backlights
  import opened Hooks
  import opened SessionModel
  import opened Unwinding
  import opened Runs
  import opened RunTheorems

  type Batch = seq<Argv>

  /** What the hooks of the timeout `t` have spawned, one batch for each call of hooks_on_timeout. */
  function Batches(log: Log, t: guint): seq<Batch> {
    match log
    case Silence => []
    case Then(before, TimeoutCommands(timeout, argvs)) =>
      Batches(before, t) + if timeout == t then [argvs] else []
    case Then(before, _) => Batches(before, t)
  }

  /** What callbacks of `t` with these states should spawn. */
  function Expected(hooks: seq<Hook>, states: seq<bool>, t: guint): seq<Batch> {
    seq(|states|, i requires 0 <= i < |states| => Spawned(hooks, OnInactive, states[i], t))
  }

  /** At rest, the hooks have followed every callback. In the midst of a nested start, some are still to come. */
  predicate Follows(c: Config, log: Log, t: guint) {
    Batches(log, t) == Expected(c.hooks, StatesOf(Calls(log), t), t)
  }

  // ---------------------------------------------------------------- unwinding

  function Times(ts: seq<guint>, k: nat, t: guint): nat
    requires k <= |ts|
  {
    if k == 0 then 0 else Times(ts, k - 1, t) + if ts[k - 1] == t then 1 else 0
  }

  /** `n` batches of the stop commands of `t`. */
  function Stops(hooks: seq<Hook>, t: guint, n: nat): seq<Batch> {
    seq(n, _ => Spawned(hooks, OnInactive, false, t))
  }

  lemma UndoBatches(c: Config, u: guint, d: DaemonState, t: guint)
    ensures Batches(Undo(c, u, d).log, t) ==
            Batches(d.log, t) + if u == t then [Spawned(c.hooks, OnInactive, false, t)] else []
  {
  }

  lemma LeaveIdleBatches(c: Config, d: DaemonState, t: guint)
    ensures Batches(LeaveIdle(d).log, t) == Batches(d.log, t)
    ensures Batches(AfterLeaveIdle(c, d).log, t) == Batches(d.log, t)
  {
  }

  /** However the starts nest, each fired timeout has its stop commands spawned exactly once. */
  lemma {:induction false} UnwindBatches(c: Config, ts: seq<guint>, k: nat, d: DaemonState, t: guint)
    requires k <= |ts|
    ensures Batches(Unwind(c, ts, k, d).log, t) == Batches(d.log, t) + Stops(c.hooks, t, Times(ts, k, t))
    decreases k
  {
    if k > 0 {
      var u := ts[k - 1];
      var d1 := Emit(d, Callback(u, false));
      if u == c.idleSec && d.idle {
        LeaveIdleBatches(c, d1, t);
        UnwindBatches(c, ts, k - 1, LeaveIdle(d1), t);
        var nested := Unwind(c, ts, k - 1, LeaveIdle(d1));
        LeaveIdleBatches(c, nested, t);
        UndoBatches(c, u, AfterLeaveIdle(c, nested), t);
      } else {
        UndoBatches(c, u, d1, t);
        UnwindBatches(c, ts, k - 1, Undo(c, u, d1), t);
      }
    }
  }

  lemma {:induction false} StatesJoin(a: seq<Call>, b: seq<Call>, t: guint)
    ensures StatesOf(a + b, t) == StatesOf(a, t) + StatesOf(b, t)
    decreases |b|
  {
    if b == [] {
      assert a + b == a;
    } else {
      assert (a + b)[..|a + b| - 1] == a + b[..|b| - 1];
      StatesJoin(a, b[..|b| - 1], t);
    }
  }

  lemma {:induction false} TakenBackStops(hooks: seq<Hook>, ts: seq<guint>, k: nat, t: guint)
    requires k <= |ts|
    ensures Expected(hooks, StatesOf(TakenBack(ts, k), t), t) == Stops(hooks, t, Times(ts, k, t))
    decreases k
  {
    if k > 0 {
      var first := [Call(ts[k - 1], false)];
      assert TakenBack(ts, k) == first + TakenBack(ts, k - 1);
      StatesJoin(first, TakenBack(ts, k - 1), t);
      TakenBackStops(hooks, ts, k - 1, t);
      var rest := StatesOf(TakenBack(ts, k - 1), t);
      if ts[k - 1] == t {
        assert first[..0] == [] && StatesOf(first, t) == [false];
        ExpectedJoin(hooks, [false], rest, t);
      } else {
        assert first[..0] == [] && StatesOf(first, t) == [];
        assert [] + rest == rest;
      }
    }
  }

  lemma ExpectedJoin(hooks: seq<Hook>, a: seq<bool>, b: seq<bool>, t: guint)
    ensures Expected(hooks, a + b, t) == Expected(hooks, a, t) + Expected(hooks, b, t)
  {
  }

  // ---------------------------------------------------------------- every event

  lemma StartFollows(c: Config, s: SessionState, now: nat, t: guint)
    requires Startable(s.tl) && Follows(c, s.d.log, t)
    ensures Follows(c, Start(c, s, now).d.log, t)
  {
    if s.tl.running {
      var ts, k := s.tl.timeouts, s.tl.index;
      UnwindBatches(c, ts, k, s.d, t);
      UnwindCalls(c, ts, k, s.d);
      StatesJoin(Calls(s.d.log), TakenBack(ts, k), t);
      ExpectedJoin(c.hooks, StatesOf(Calls(s.d.log), t), StatesOf(TakenBack(ts, k), t), t);
      TakenBackStops(c.hooks, ts, k, t);
    }
  }

  lemma BecomeIdleBatches(c: Config, d: DaemonState, t: guint)
    ensures Batches(BecomeIdle(c, d).log, t) == Batches(d.log, t)
  {
    if !d.idle {
      var started := Emit(Emit(d.(idle := true), IdleHint(true)), StartUnit("graphical-idle.target"));
      assert Batches(started.log, t) == Batches(d.log, t);
    }
  }

  lemma FireBatches(c: Config, u: guint, d: DaemonState, t: guint)
    ensures Batches(Fire(c, u, d).log, t) ==
            Batches(d.log, t) + if u == t then [Spawned(c.hooks, OnInactive, true, t)] else []
  {
    var d0 := Emit(d, Callback(u, true));
    BecomeIdleBatches(c, d0, t);
    var d1 := if u == c.idleSec then BecomeIdle(c, d0) else d0;
    assert Batches(d1.log, t) == Batches(d.log, t);
  }

  lemma FireFollows(c: Config, u: guint, d: DaemonState, t: guint)
    requires Follows(c, d.log, t)
    ensures Follows(c, Fire(c, u, d).log, t)
  {
    FireBatches(c, u, d, t);
    FireReadings(c, u, d);
    var calls := Calls(d.log);
    assert (calls + [Call(u, true)])[..|calls|] == calls;
    ExpectedJoin(c.hooks, StatesOf(calls, t), [true], t);
  }

  /** Effects that are neither callbacks nor commands of timeouts. */
  lemma OtherFollows(c: Config, d: DaemonState, e: Effect, t: guint)
    requires Follows(c, d.log, t) && !e.Callback? && !e.TimeoutCommands?
    ensures Follows(c, Emit(d, e).log, t)
  {
  }

  lemma UnidleFollows(c: Config, s: SessionState, now: nat, t: guint)
    requires Startable(s.tl) && Follows(c, s.d.log, t)
    ensures Follows(c, Unidle(c, s, now).d.log, t)
  {
    if s.d.idle {
      var left := s.(d := LeaveIdle(s.d));
      LeaveIdleBatches(c, s.d, t);
      LeaveIdleReadings(c, s.d);
      StartFollows(c, left, now, t);
      LeaveIdleBatches(c, Start(c, left, now).d, t);
      LeaveIdleReadings(c, Start(c, left, now).d);
    }
  }

  lemma LockFollows(c: Config, s: SessionState, state: bool, now: nat, t: guint)
    requires Startable(s.tl) && Follows(c, s.d.log, t)
    ensures Follows(c, Lock(c, s, state, now).d.log, t)
  {
    if state != s.d.locked {
      var asked := s.(d := Emit(s.d.(locked := state), LockedHint(state)));
      assert Follows(c, asked.d.log, t);
      var done := if state then asked else Unidle(c, asked, now);
      if !state {
        UnidleFollows(c, asked, now, t);
      }
      var unit := StartUnit(if state then "graphical-lock.target" else "graphical-unlock.target");
      OtherFollows(c, done.d, unit, t);
      OtherFollows(c, Emit(done.d, unit), Commands(RunSpawned(c.hooks, OnLock, state)), t);
    }
  }

  lemma SleepFollows(c: Config, s: SessionState, state: bool, now: nat, t: guint)
    requires Startable(s.tl) && Follows(c, s.d.log, t)
    ensures Follows(c, Sleep(c, s, state, now).d.log, t)
  {
    if state {
      var asked := Emit(s.d, StartUnit("user-sleep.target"));
      assert Follows(c, EmitIf(c.onSleep && !s.d.locked, asked, LockSession).log, t);
    } else {
      UnidleFollows(c, s, now, t);
    }
  }

  lemma UninhibitedFollows(c: Config, s: SessionState, n: nat, now: nat, t: guint)
    requires Startable(s.tl) && Follows(c, s.d.log, t)
    ensures Follows(c, Uninhibited(c, s, n, now).d.log, t)
  {
    StartFollows(c, s.(d := Emit(s.d.(inhibited := false), InhibitedHint(false))), now, t);
  }

  lemma CountdownFollows(c: Config, d: DaemonState, k: nat, n: nat, t: guint)
    requires n <= k && Follows(c, d.log, t)
    ensures Follows(c, Countdown(d, k, n).log, t)
    decreases k - n
  {
  }

  predicate StepFollowing(c: Config, v: ServerState, e: Event, t: guint)
    requires TimelineInv(v.s.tl) && Possible(v, e)
  {
    Follows(c, Step(c, v, e).s.d.log, t)
  }

  lemma WokenFollows(c: Config, v: ServerState, now: nat, t: guint)
    requires TimelineInv(v.s.tl) && Possible(v, Woken(now)) && Follows(c, v.s.d.log, t)
    ensures StepFollowing(c, v, Woken(now), t)
  {
    FireFollows(c, v.s.tl.timeouts[v.s.tl.index], v.s.d, t);
  }

  lemma AddFollows(c: Config, v: ServerState, u: guint, now: nat, t: guint)
    requires TimelineInv(v.s.tl) && Possible(v, AddCall(u, now)) && Follows(c, v.s.d.log, t)
    ensures StepFollowing(c, v, AddCall(u, now), t)
  {
    FireFollows(c, u, v.s.d, t);
  }

  lemma UninhibitFollows(c: Config, v: ServerState, id: Id, now: nat, t: guint)
    requires TimelineInv(v.s.tl) && Possible(v, UninhibitCall(id, now)) && Follows(c, v.s.d.log, t)
    ensures StepFollowing(c, v, UninhibitCall(id, now), t)
  {
    var n := |v.ids - {id}|;
    UninhibitedFollows(c, v.s.(d := Emit(v.s.d, UninhibitSignal(n))), n, now, t);
  }

  lemma StopInhibitorsFollows(c: Config, v: ServerState, now: nat, t: guint)
    requires TimelineInv(v.s.tl) && Possible(v, StopInhibitorsCall(now)) && Follows(c, v.s.d.log, t)
    ensures StepFollowing(c, v, StopInhibitorsCall(now), t)
  {
    CountdownFollows(c, v.s.d, |v.ids|, 0, t);
    UninhibitedFollows(c, v.s.(d := Countdown(v.s.d, |v.ids|, 0)), 0, now, t);
  }

  lemma StepFollows(c: Config, v: ServerState, e: Event, t: guint)
    requires TimelineInv(v.s.tl) && Possible(v, e) && Follows(c, v.s.d.log, t)
    ensures StepFollowing(c, v, e, t)
  {
    match e
    case Input(now) => StartFollows(c, v.s, now, t);
    case Woken(now) => WokenFollows(c, v, now, t);
    case LockRequest(state, now) => LockFollows(c, v.s, state, now, t);
    case SleepNotice(state, now) => SleepFollows(c, v.s, state, now, t);
    case UninhibitCall(id, now) => UninhibitFollows(c, v, id, now, t);
    case StopInhibitorsCall(now) => StopInhibitorsFollows(c, v, now, t);
    case AddCall(u, now) => AddFollows(c, v, u, now, t);
    case _ =>
  }

  // ---------------------------------------------------------------- every run

  lemma {:induction false} RunFollows(c: Config, v: ServerState, es: seq<Event>, t: guint)
    requires Inv(c, v) && Feasible(c, v, es) && Follows(c, v.s.d.log, t)
    ensures Follows(c, Run(c, v, es).s.d.log, t)
    decreases |es|
  {
    if es != [] {
      StepKeepsInv(c, v, es[0]);
      StepFollows(c, v, es[0], t);
      RunFollows(c, Step(c, v, es[0]), es[1..], t);
    }
  }

  /**
   * Over every run, the inactive hooks of a timeout spawn their start commands and their stop commands in turn, first
   * the start commands, and it is for the stop commands to come next exactly while the timeout is in the fired prefix.
   */
  lemma HooksAlternate(c: Config, devices: Backlights.Devices, now: nat, es: seq<Event>, t: guint)
    requires |c.hooks| + 1 < GUINT_RANGE
    requires Feasible(c, Booted(c, devices, now), es)
    ensures var v := Run(c, Booted(c, devices, now), es);
            var batches := Batches(v.s.d.log, t);
            && (forall i :: 0 <= i < |batches| ==> batches[i] == Spawned(c.hooks, OnInactive, i % 2 == 0, t))
            && (t in v.s.tl.timeouts[..v.s.tl.index] <==> |batches| % 2 == 1)
  {
    var v := Run(c, Booted(c, devices, now), es);
    RunFollows(c, Booted(c, devices, now), es, t);
    PairedOverRuns(c, devices, now, es);
    assert Alternates(StatesOf(Calls(v.s.d.log), t));
  }
}
