/**
 * src/timeline.c, src/sessiond.c and the inhibitors of src/dbus-server.c, in place. The timeline calls the daemon
 * from inside its loop, and the daemon may start the same timeline again before that call returns.
 */
module Session {
  import opened Common
  import opened Backlights
  import opened Hooks
  import opened SessionModel

  class GSource {
    const delay: guint

    constructor (delay: guint)
      ensures this.delay == delay
    {
      this.delay := delay;
    }
  }

  /** The main context: a clock that never goes back, and the sources that will be dispatched. */
  class MainContext {
    var clock: nat
    var attached: set<GSource>

    constructor ()
      ensures attached == {}
    {
      clock, attached := 0, {};
    }

    /** Any amount of time may have passed since the last reading. */
    method MonotonicTime() returns (t: nat)
      modifies this`clock
      ensures t == clock >= old(clock)
    {
      t :| t >= clock;
      clock := t;
    }
  }

  /** What timeline_add_timeout comes to. */
  datatype Adding = Added | Known | PastEnd

  class Timeline {
    const ctx: MainContext
    var running: bool
    var source: GSource?
    var timeouts: seq<guint>
    var index: guint
    var inactiveSince: int

    ghost function State(): TimelineState
      reads this, ctx
    {
      var armed := if source == null then None else Some(source.delay);
      TimelineState(running, timeouts, index, armed, inactiveSince, ctx.clock)
    }

    /** At most one source is attached, and it is the one the timeline knows. */
    ghost predicate Valid()
      reads this, ctx
    {
      ctx.attached == if source == null then {} else {source}
    }

    constructor (ctx: MainContext)
      requires ctx.attached == {}
      ensures this.ctx == ctx && Valid()
      ensures State() == TimelineState(false, [], 0, None, -1, ctx.clock)
    {
      this.ctx := ctx;
      running, source, timeouts, index, inactiveSince := false, null, [], 0, -1;
    }

    method InactiveSeconds() returns (sec: guint)
      requires -1 <= inactiveSince <= ctx.clock
      modifies ctx`clock
      ensures ctx.clock >= old(ctx.clock)
      ensures sec == InactiveSec(ctx.clock, inactiveSince)
    {
      var now := ctx.MonotonicTime();
      sec := ToGuint((now - inactiveSince) / SECOND);
    }

    method RemoveSource()
      requires Valid()
      modifies this`source, ctx`attached
      ensures Valid() && State() == old(State()).(armed := None)
    {
      if source == null {
        return;
      }
      ctx.attached := ctx.attached - {source};
      source := null;
    }

    method AddSource(delay: guint)
      requires Valid()
      modifies this`source, ctx`attached
      ensures Valid() && State() == old(State()).(armed := Some(delay))
      ensures fresh(source)
    {
      RemoveSource();
      source := new GSource(delay);
      ctx.attached := ctx.attached + {source};
    }

    /** timeline_start. */
    method Start(d: Daemon)
      requires d.timeline == this && Valid() && Startable(State())
      modifies this, ctx, d, d.backlights
      ensures Valid() && ctx.clock >= old(ctx.clock)
      ensures d.State() == SessionModel.Start(d.config, old(d.State()), ctx.clock)
      decreases d.idle, index, 3
    {
      if running {
        Rewind(d);
      } else if |timeouts| > 0 {
        timeouts := Sort(timeouts);
        running := true;
      } else {
        return;
      }
      index := 0;
      AddSource(timeouts[index]);
      inactiveSince := ctx.MonotonicTime();
    }

    /** The loop of timeline_start that takes back what has fired. */
    method Rewind(d: Daemon)
      requires d.timeline == this && Valid() && Startable(State()) && running
      modifies this, ctx, d, d.backlights
      ensures Valid() && ctx.clock >= old(ctx.clock)
      ensures running && timeouts == old(timeouts) && index == 0
      ensures d.State().d == Unwind(d.config, timeouts, old(index), old(d.State().d))
      decreases d.idle, index, 2
    {
      while index > 0
        invariant Valid() && ctx.clock >= old(ctx.clock)
        invariant running && timeouts == old(timeouts) && index <= old(index)
        invariant d.idle ==> old(d.idle)
        invariant Unwind(d.config, timeouts, index, d.State().d)
               == Unwind(d.config, timeouts, old(index), old(d.State().d))
        decreases index
      {
        index := index - 1;
        d.OnTimeout(timeouts[index], false);
      }
    }

    /** timeline_stop. */
    method Stop()
      requires Valid()
      modifies this, ctx`attached
      ensures Valid() && State() == SessionModel.Stop(old(State()))
    {
      if !running {
        return;
      }
      if index == 0 {
        running := false;
      }
      inactiveSince := -1;
      RemoveSource();
    }

    /** on_timeout of the timeline: the main context dispatches `fired`, and then destroys it. */
    method OnTimeout(fired: GSource, d: Daemon)
      requires d.timeline == this && Valid() && fired in ctx.attached
      requires running ==> index < |timeouts| < GUINT_RANGE && -1 <= inactiveSince <= ctx.clock
      modifies this, ctx, d, d.backlights
      ensures fired !in ctx.attached && ctx.clock >= old(ctx.clock) && (old(running) ==> Valid())
      ensures d.State() == Wake(d.config, old(d.State()), ctx.clock)
    {
      if !running {
        ctx.attached := ctx.attached - {fired};
        return;
      }
      var inactive := InactiveSeconds();
      var timeout := timeouts[index];
      if inactive >= timeout {
        index := index + 1;
        d.OnTimeout(timeout, true);
        if index < |timeouts| {
          AddSource(Minus(timeouts[index], inactive));
        } else {
          Stop();
        }
      } else {
        AddSource(Minus(timeout, inactive));
      }
      ctx.attached := ctx.attached - {fired};
    }

    /** timeline_add_timeout. PastEnd stands for the read of timeouts[len], whose value C does not define. */
    method AddTimeout(timeout: guint, d: Daemon) returns (r: Adding)
      requires d.timeline == this && Valid() && AddReady(State(), timeout, ctx.clock)
      modifies this, ctx, d, d.backlights
      ensures Valid() && ctx.clock >= old(ctx.clock)
      ensures r.Known? <==> timeout in old(timeouts)
      ensures r.PastEnd? <==> !Addable(old(State()), timeout, ctx.clock)
      ensures d.State() == Add(d.config, old(d.State()), timeout, ctx.clock)
    {
      for i := 0 to |timeouts|
        invariant timeout !in timeouts[..i]
      {
        if timeouts[i] == timeout {
          return Known;
        }
      }
      assert timeouts[..|timeouts|] == timeouts;
      timeouts := timeouts + [timeout];
      if running {
        r := Reschedule(timeout, d);
        return;
      }
      return Added;
    }

    /** The part of timeline_add_timeout for a running timeline, once `timeout` has been appended. */
    method Reschedule(timeout: guint, d: Daemon) returns (r: Adding)
      requires d.timeline == this && Valid() && running
      requires |timeouts| < GUINT_RANGE && -1 <= inactiveSince <= ctx.clock
      modifies this, ctx, d, d.backlights
      ensures Valid() && ctx.clock >= old(ctx.clock)
      ensures var inactive := InactiveSec(ctx.clock, old(inactiveSince));
              r == if CountDue(Sort(old(timeouts)), inactive) < |old(timeouts)| then Added else PastEnd
      ensures d.State() == Rescheduled(d.config, old(d.State()), timeout, ctx.clock)
    {
      RemoveSource();
      timeouts := Sort(timeouts);
      index := 0;
      var inactive := InactiveSeconds();
      Recount(inactive);
      if inactive >= timeout {
        d.OnTimeout(timeout, true);
      }
      if index == |timeouts| {
        return PastEnd;
      }
      AddSource(Minus(timeouts[index], inactive));
      return Added;
    }

    method Recount(inactive: guint)
      requires index == 0 && |timeouts| < GUINT_RANGE
      modifies this`index
      ensures index == CountDue(timeouts, inactive)
    {
      for i := 0 to |timeouts|
        invariant index == CountDue(timeouts[..i], inactive)
      {
        assert timeouts[..i + 1][..i] == timeouts[..i];
        if timeouts[i] <= inactive {
          index := index + 1;
        }
      }
      assert timeouts[..|timeouts|] == timeouts;
    }

    /** timeline_remove_timeout. */
    method RemoveTimeout(timeout: guint) returns (removed: bool)
      requires Valid()
      modifies this
      ensures Valid() && removed == (timeout in old(timeouts))
      ensures State() == Removed(old(State()), timeout)
    {
      for i := 0 to |timeouts|
        invariant forall j :: 0 <= j < i ==> timeouts[j] != timeout
      {
        if timeouts[i] == timeout {
          timeouts := timeouts[..i] + timeouts[i + 1..];
          if i <= index {
            index := Minus(index, 1);
          }
          return true;
        }
      }
      return false;
    }
  }

  /** The globals of src/sessiond.c. `lockedHint` is the property kept by logind. */
  class Daemon {
    const config: Config
    const timeline: Timeline
    const backlights: BacklightTable
    var idle: bool
    var inactive: bool
    var inhibited: bool
    var lockedHint: bool
    ghost var log: Log

    ghost function State(): SessionState
      reads this, timeline, timeline.ctx, backlights
    {
      SessionState(timeline.State(), DaemonState(idle, inactive, inhibited, lockedHint, backlights.devices, log))
    }

    constructor (config: Config, timeline: Timeline, backlights: BacklightTable)
      ensures this.config == config && this.timeline == timeline && this.backlights == backlights
      ensures State().tl == timeline.State()
      ensures State().d == DaemonState(false, false, false, false, backlights.devices, Silence)
    {
      this.config, this.timeline, this.backlights := config, timeline, backlights;
      idle, inactive, inhibited, lockedHint, log := false, false, false, false, Silence;
    }

    /** timeline_add_timeout while the timeline is stopped: only its array changes. */
    method AddStopped(timeout: guint)
      requires timeline.Valid() && !timeline.running && |timeline.timeouts| + 1 < GUINT_RANGE
      modifies this, timeline, timeline.ctx, backlights
      ensures timeline.Valid() && State() == old(State()).(tl := timeline.State())
      ensures var ts := old(timeline.timeouts);
              timeline.State() == old(timeline.State()).(timeouts := if timeout in ts then ts else ts + [timeout])
    {
      var _ := timeline.AddTimeout(timeout, this);
    }

    /** hooks_add_timeouts, while the timeline is stopped. */
    method AddHookTimeouts()
      requires timeline.Valid() && !timeline.running
      requires |timeline.timeouts| + |config.hooks| < GUINT_RANGE
      modifies this, timeline, timeline.ctx, backlights
      ensures timeline.Valid()
      ensures State() == old(State()).(tl := timeline.State())
      ensures var ts := Collected(old(timeline.timeouts), Timeouts(config.hooks));
              timeline.State() == old(timeline.State()).(timeouts := ts)
    {
      for i := 0 to |config.hooks|
        invariant timeline.Valid()
        invariant State() == old(State()).(tl := timeline.State())
        invariant timeline.State() ==
          old(timeline.State()).(timeouts := Collected(old(timeline.timeouts), Timeouts(config.hooks[..i])))
        invariant |timeline.timeouts| <= |old(timeline.timeouts)| + i
      {
        assert config.hooks[..i + 1][..i] == config.hooks[..i];
        var h := config.hooks[i];
        if h.trigger == OnInactive {
          CollectedStep(old(timeline.timeouts), Timeouts(config.hooks[..i]), h.inactiveSec);
          AddStopped(h.inactiveSec);
        } else {
          assert Timeouts(config.hooks[..i + 1]) == Timeouts(config.hooks[..i]);
        }
      }
      assert config.hooks[..|config.hooks|] == config.hooks;
    }

    /** init_timeline. */
    method InitTimeline()
      requires timeline.Valid() && timeline.State() == TimelineState(false, [], 0, None, -1, timeline.ctx.clock)
      requires State().d == DaemonState(false, false, false, false, backlights.devices, Silence)
      requires |config.hooks| + 1 < GUINT_RANGE
      modifies this, timeline, timeline.ctx, backlights
      ensures timeline.Valid() && timeline.ctx.clock >= old(timeline.ctx.clock)
      ensures State() == SessionModel.Start(config, Configured(config, old(backlights.devices)), timeline.ctx.clock)
    {
      AddStopped(config.idleSec);
      assert timeline.timeouts == [config.idleSec];
      AddHookTimeouts();
      ghost var clock, s := timeline.ctx.clock, Configured(config, backlights.devices);
      assert State() == s.(tl := s.tl.(clock := clock));
      timeline.Start(this);
      ConfiguredStarts(config, old(backlights.devices), clock, timeline.ctx.clock);
    }

    /** set_idle. */
    method SetIdle(state: bool)
      requires timeline.Valid()
      requires !state ==> Startable(timeline.State())
      modifies this, timeline, timeline.ctx, backlights
      ensures timeline.Valid() && timeline.ctx.clock >= old(timeline.ctx.clock)
      ensures state ==> State() == old(State()).(d := BecomeIdle(config, old(State().d)))
      ensures !state ==> State() == Unidle(config, old(State()), timeline.ctx.clock)
      decreases idle, timeline.index, 0
    {
      if state == idle {
        return;
      }
      idle := state;
      Note(IdleHint(state));
      if state {
        Note(StartUnit("graphical-idle.target"));
        if config.onIdle && !lockedHint {
          Note(LockSession);
        }
      } else {
        timeline.Start(this);
        Note(StartUnit("graphical-unidle.target"));
      }
      RunHooks(OnIdle, state);
    }

    /** The outside sees one more effect. */
    ghost method Note(e: Effect)
      modifies this`log
      ensures State() == old(State()).(d := Emit(old(State().d), e))
    {
      log := Then(log, e);
    }

    /** hooks_run. */
    method RunHooks(trigger: Trigger, state: bool)
      modifies this`log
      ensures State() == old(State()).(d := Emit(old(State().d), Commands(RunSpawned(config.hooks, trigger, state))))
    {
      var spawned: seq<Argv> := [];
      if trigger != OnInactive {
        spawned := RunHooksTimeout(config.hooks, trigger, state, 0);
      }
      Note(Commands(spawned));
    }

    /** on_timeout of the daemon, the function the timeline calls. */
    method OnTimeout(timeout: guint, state: bool)
      requires timeline.Valid()
      requires !state ==> Startable(timeline.State())
      modifies this, timeline, timeline.ctx, backlights
      ensures timeline.Valid() && timeline.ctx.clock >= old(timeline.ctx.clock)
      ensures state ==> State() == old(State()).(d := Fire(config, timeout, old(State().d)))
      ensures !state ==> State() == Undone(config, timeout, old(State()), timeline.ctx.clock)
      decreases idle, timeline.index, 1
    {
      Note(Callback(timeout, state));
      if timeout == config.idleSec {
        SetIdle(state);
      }
      FinishTimeout(timeout, state);
    }

    /** The rest of on_timeout, after its call of set_idle. */
    method FinishTimeout(timeout: guint, state: bool)
      modifies this, backlights
      ensures var d := old(State().d);
              State() == old(State()).(d := if state then Announce(config, timeout, d) else Undo(config, timeout, d))
    {
      backlights.OnTimeout(config.backlights, timeout, state);
      var spawned := RunHooksTimeout(config.hooks, OnInactive, state, timeout);
      Note(TimeoutCommands(timeout, spawned));
      if state {
        Note(Inactive(timeout));
      } else if inactive {
        Note(Active(idle));
      }
      inactive := state;
    }

    /** xsource_cb. */
    method OnInput()
      requires timeline.Valid() && Startable(timeline.State())
      modifies this, timeline, timeline.ctx, backlights
      ensures timeline.Valid() && timeline.ctx.clock >= old(timeline.ctx.clock)
      ensures State() == Activity(config, old(State()), timeline.ctx.clock)
    {
      if !inhibited {
        timeline.Start(this);
      }
    }

    /** lock_callback. */
    method OnLock(state: bool)
      requires timeline.Valid() && Startable(timeline.State())
      modifies this, timeline, timeline.ctx, backlights
      ensures timeline.Valid() && timeline.ctx.clock >= old(timeline.ctx.clock)
      ensures State() == Lock(config, old(State()), state, timeline.ctx.clock)
    {
      if state == lockedHint {
        return;
      }
      lockedHint := state;
      Note(LockedHint(state));
      if state {
        Note(StartUnit("graphical-lock.target"));
      } else {
        SetIdle(false);
        Note(StartUnit("graphical-unlock.target"));
      }
      RunHooks(Trigger.OnLock, state);
    }

    /** sleep_callback. */
    method OnSleep(state: bool)
      requires timeline.Valid() && Startable(timeline.State())
      modifies this, timeline, timeline.ctx, backlights
      ensures timeline.Valid() && timeline.ctx.clock >= old(timeline.ctx.clock)
      ensures State() == Sleep(config, old(State()), state, timeline.ctx.clock)
    {
      if state {
        Note(StartUnit("user-sleep.target"));
        if config.onSleep && !lockedHint {
          Note(LockSession);
        }
      } else {
        SetIdle(false);
        Note(StartUnit("user-sleep-finished.target"));
      }
      RunHooks(Trigger.OnSleep, state);
    }

    /** inhibit_callback. */
    method OnInhibit()
      requires timeline.Valid()
      modifies this, timeline, timeline.ctx
      ensures timeline.Valid()
      ensures State() == Inhibited(old(State()))
    {
      inhibited := true;
      Note(InhibitedHint(true));
      inactive := false;
      timeline.Stop();
    }

    /** uninhibit_callback. */
    method OnUninhibit(n: nat)
      requires timeline.Valid() && Startable(timeline.State())
      modifies this, timeline, timeline.ctx, backlights
      ensures timeline.Valid() && timeline.ctx.clock >= old(timeline.ctx.clock)
      ensures State() == Uninhibited(config, old(State()), n, timeline.ctx.clock)
    {
      if n > 0 {
        return;
      }
      inhibited := false;
      Note(InhibitedHint(false));
      timeline.Start(this);
    }
  }

  datatype Inhibitor = Inhibitor(who: string, why: string)

  /** The inhibitor table of src/dbus-server.c, whose signals reach the daemon at once. */
  class DBusServer {
    const daemon: Daemon
    var inhibitors: map<Id, Inhibitor>

    ghost function State(): ServerState
      reads this, daemon, daemon.timeline, daemon.timeline.ctx, daemon.backlights
    {
      ServerState(daemon.State(), inhibitors.Keys)
    }

    constructor (daemon: Daemon)
      ensures this.daemon == daemon && State() == ServerState(daemon.State(), {})
    {
      this.daemon, inhibitors := daemon, map[];
    }

    /** on_handle_inhibit; `id` is the fresh identifier. */
    method HandleInhibit(who: string, why: string, id: Id)
      requires id !in inhibitors && daemon.timeline.Valid()
      modifies this, daemon, daemon.timeline, daemon.timeline.ctx
      ensures daemon.timeline.Valid()
      ensures inhibitors == old(inhibitors)[id := Inhibitor(who, why)]
      ensures State() == Inhibit(old(State()), id)
    {
      inhibitors := inhibitors[id := Inhibitor(who, why)];
      daemon.OnInhibit();
    }

    /** on_handle_uninhibit; `found` is false when an error is returned instead. */
    method HandleUninhibit(id: Id) returns (found: bool)
      requires daemon.timeline.Valid() && Startable(daemon.timeline.State())
      modifies this, daemon, daemon.timeline, daemon.timeline.ctx, daemon.backlights
      ensures daemon.timeline.Valid() && daemon.timeline.ctx.clock >= old(daemon.timeline.ctx.clock)
      ensures found == (id in old(inhibitors)) && inhibitors == old(inhibitors) - {id}
      ensures State() == Uninhibit(daemon.config, old(State()), id, daemon.timeline.ctx.clock)
    {
      found := id in inhibitors;
      if !found {
        assert inhibitors == inhibitors - {id};
        return;
      }
      inhibitors := inhibitors - {id};
      assert inhibitors.Keys == old(inhibitors).Keys - {id};
      Signal(|inhibitors|);
    }

    /** The Uninhibit signal, and the daemon's callback for it. */
    method Signal(n: nat)
      requires daemon.timeline.Valid() && Startable(daemon.timeline.State())
      modifies daemon, daemon.timeline, daemon.timeline.ctx, daemon.backlights
      ensures daemon.timeline.Valid() && daemon.timeline.ctx.clock >= old(daemon.timeline.ctx.clock)
      ensures daemon.State() == Signalled(daemon.config, old(daemon.State()), n, daemon.timeline.ctx.clock)
    {
      daemon.Note(UninhibitSignal(n));
      daemon.OnUninhibit(n);
    }

    /** on_handle_stop_inhibitors, in the arbitrary order of a hash table. */
    method HandleStopInhibitors() returns (count: nat)
      requires daemon.timeline.Valid() && Startable(daemon.timeline.State())
      modifies this, daemon, daemon.timeline, daemon.timeline.ctx, daemon.backlights
      ensures daemon.timeline.Valid() && daemon.timeline.ctx.clock >= old(daemon.timeline.ctx.clock)
      ensures count == |old(inhibitors)| && inhibitors == map[]
      ensures State() == StopInhibitors(daemon.config, old(State()), daemon.timeline.ctx.clock)
    {
      count := |inhibitors|;
      var n := count;
      while inhibitors != map[]
        invariant n == |inhibitors| <= count
        invariant daemon.timeline.Valid() && daemon.timeline.ctx.clock >= old(daemon.timeline.ctx.clock)
        invariant daemon.State() == Stopping(daemon.config, old(daemon.State()), count, n, daemon.timeline.ctx.clock)
        decreases |inhibitors|
      {
        ghost var clock := daemon.timeline.ctx.clock;
        var id :| id in inhibitors;
        assert (inhibitors - {id}).Keys == inhibitors.Keys - {id};
        inhibitors := inhibitors - {id};
        n := n - 1;
        StoppingStep(daemon.config, old(daemon.State()), count, n, clock, clock);
        Signal(n);
        StoppingStep(daemon.config, old(daemon.State()), count, n, clock, daemon.timeline.ctx.clock);
      }
    }
  }
}
