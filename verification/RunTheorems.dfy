/** The theorems about whole runs of the session, and where exactly the code keeps to them. */
module RunTheorems {
  import opened Common
  import opened Backlights
  import opened SessionModel
  import opened Unwinding
  import opened Runs

  // ---------------------------------------------------------------- runs

  /** Every event of the run is possible when it happens. */
  predicate Feasible(c: Config, v: ServerState, es: seq<Event>)
    requires Inv(c, v)
    decreases |es|
  {
    es == [] ||
    (Possible(v, es[0]) && (StepKeepsInv(c, v, es[0]); Feasible(c, Step(c, v, es[0]), es[1..])))
  }

  function Run(c: Config, v: ServerState, es: seq<Event>): (r: ServerState)
    requires Inv(c, v) && Feasible(c, v, es)
    ensures Inv(c, r)
    decreases |es|
  {
    if es == [] then v
    else
      StepKeepsInv(c, v, es[0]);
      Run(c, Step(c, v, es[0]), es[1..])
  }

  lemma {:induction false} CollectedSet(ts: seq<guint>, more: seq<guint>)
    requires NoDuplicates(ts)
    ensures NoDuplicates(Collected(ts, more)) && |Collected(ts, more)| <= |ts| + |more|
    ensures forall t :: t in Collected(ts, more) <==> t in ts || t in more
    decreases |more|
  {
    if more == [] {
    } else {
      CollectedSet(ts, more[..|more| - 1]);
      assert more == more[..|more| - 1] + [more[|more| - 1]];
    }
  }

  lemma ConfiguredInv(c: Config, devices: Devices)
    requires |c.hooks| + 1 < GUINT_RANGE
    ensures var s := Configured(c, devices);
            && SessionInv(c, s)
            && forall t :: t in s.tl.timeouts <==> t == c.idleSec || t in Hooks.Timeouts(c.hooks)
  {
    HookTimeoutsBound(c.hooks);
    CollectedSet([c.idleSec], Hooks.Timeouts(c.hooks));
    assert Fired(Configured(c, devices).tl.timeouts, 0) == {};
  }

  /** The session once init_timeline has started its timeline at `now`. */
  function Booted(c: Config, devices: Devices, now: nat): (v: ServerState)
    requires |c.hooks| + 1 < GUINT_RANGE
    ensures Inv(c, v)
  {
    ConfiguredInv(c, devices);
    StartKeeps(c, Configured(c, devices), now);
    ServerState(Start(c, Configured(c, devices), now), {})
  }

  lemma BootedTimeouts(c: Config, devices: Devices, now: nat)
    requires |c.hooks| + 1 < GUINT_RANGE
    ensures var s := Booted(c, devices, now).s;
            && c.idleSec in s.tl.timeouts && s.tl.armed == Some(s.tl.timeouts[0]) && s.d.devices == devices
            && forall t :: t in s.tl.timeouts <==> t == c.idleSec || t in Hooks.Timeouts(c.hooks)
  {
    var s := Configured(c, devices);
    ConfiguredInv(c, devices);
    SortMembers(s.tl.timeouts);
    assert c.idleSec in s.tl.timeouts;
  }

  lemma HookTimeoutsBound(hooks: seq<Hooks.Hook>)
    ensures |Hooks.Timeouts(hooks)| <= |hooks|
  {
  }

  // ---------------------------------------------------------------- pairing and idleness

  /**
   * Over every run: each timeout sees TRUE, FALSE, TRUE, ... in alternation and is at TRUE exactly when it is in the
   * fired prefix; the session is idle exactly when the idle timeout is; the idle hint alternates with it; and it is
   * inhibited exactly when the inhibitor table is not empty.
   */
  lemma PairedOverRuns(c: Config, devices: Devices, now: nat, es: seq<Event>)
    requires |c.hooks| + 1 < GUINT_RANGE
    requires Feasible(c, Booted(c, devices, now), es)
    ensures var v := Run(c, Booted(c, devices, now), es);
            var fired := v.s.tl.timeouts[..v.s.tl.index];
            && (forall t: guint ::
                  && Alternates(StatesOf(Calls(v.s.d.log), t))
                  && (t in fired <==> |StatesOf(Calls(v.s.d.log), t)| % 2 == 1))
            && (v.s.d.idle <==> c.idleSec in fired)
            && Alternates(IdleHints(v.s.d.log)) && (v.s.d.idle <==> |IdleHints(v.s.d.log)| % 2 == 1)
            && (v.s.d.inhibited <==> v.ids != {})
  {
    var v := Run(c, Booted(c, devices, now), es);
    OpenMeansPaired(Calls(v.s.d.log));
    forall t: guint
      ensures t in v.s.tl.timeouts[..v.s.tl.index] <==> |StatesOf(Calls(v.s.d.log), t)| % 2 == 1
    {
      assert t in v.s.tl.timeouts[..v.s.tl.index] <==> t in Fired(v.s.tl.timeouts, v.s.tl.index);
    }
  }

  // ---------------------------------------------------------------- devices

  /** `original` is what each device showed when nothing was dimmed. */
  predicate DevicesInv(c: Config, v: ServerState, original: map<Path, nat>)
    requires v.s.tl.index <= |v.s.tl.timeouts|
  {
    && v.s.d.devices.Keys == original.Keys
    && forall p :: p in original ==>
         DeviceInv(c, p, v.s.d.devices[p], original[p], Fired(v.s.tl.timeouts, v.s.tl.index))
  }

  predicate DeviceInv(c: Config, p: Path, bl: Backlight, original: nat, fired: set<guint>) {
    if p in c.backlights && c.backlights[p].dimSec in fired
    then bl.preDimBrightness == original && bl.level == Target(c.backlights[p], original)
    else bl.preDimBrightness == UNKNOWN && bl.level == original
  }

  /** The timeout that the event calls with TRUE, if it calls one. */
  function Fires(v: ServerState, e: Event): Option<guint>
    requires TimelineInv(v.s.tl) && Possible(v, e)
  {
    var tl := v.s.tl;
    match e
    case Woken(now) =>
      var t := tl.timeouts[tl.index];
      if t <= InactiveSec(now, tl.since) then Some(t) else None
    case AddCall(t, now) =>
      if tl.running && t !in tl.timeouts && t <= InactiveSec(now, tl.since) then Some(t) else None
    case _ => None
  }

  /** The devices configured for the timeout that are not dimmed have their brightness cached. */
  predicate Fresh(c: Config, v: ServerState, t: guint) {
    forall p :: p in v.s.d.devices && Concerns(c.backlights, p, t) && v.s.d.devices[p].preDimBrightness == UNKNOWN ==>
      v.s.d.devices[p].brightness == v.s.d.devices[p].level
  }

  /** Whenever a timeout fires, the caches of the devices it dims are fresh. */
  predicate FreshRun(c: Config, v: ServerState, es: seq<Event>)
    requires Inv(c, v) && Feasible(c, v, es)
    decreases |es|
  {
    es == [] ||
    (StepKeepsInv(c, v, es[0]);
     && (Fires(v, es[0]).Some? ==> Fresh(c, v, Fires(v, es[0]).value))
     && FreshRun(c, Step(c, v, es[0]), es[1..]))
  }

  /** A session whose devices are not dimmed starts with what they show as their original levels. */
  lemma BootedDevices(c: Config, devices: Devices, now: nat, original: map<Path, nat>)
    requires |c.hooks| + 1 < GUINT_RANGE && devices.Keys == original.Keys
    requires forall p :: p in original ==>
      devices[p].preDimBrightness == UNKNOWN && devices[p].level == original[p]
    ensures var v := Booted(c, devices, now);
            DevicesInv(c, v, original)
  {
    BootedTimeouts(c, devices, now);
    var tl := Booted(c, devices, now).s.tl;
    assert tl.index == 0 && Fired(tl.timeouts, 0) == {};
  }

  lemma StartRestores(c: Config, v: ServerState, d: DaemonState, now: nat, original: map<Path, nat>)
    requires Inv(c, v) && DevicesInv(c, v, original) && v.s.tl.clock <= now && d.devices == v.s.d.devices
    ensures var r := Start(c, v.s.(d := d), now);
            r.tl.index == 0 && DevicesInv(c, v.(s := r), original)
  {
    var ts, k := v.s.tl.timeouts, v.s.tl.index;
    assert Fired(ts, 0) == {};
    if v.s.tl.running {
      UnwindState(c, ts, k, d);
      var r := Start(c, v.s.(d := d), now);
      assert Fired(r.tl.timeouts, r.tl.index) == {};
      forall p | p in original ensures DeviceInv(c, p, r.d.devices[p], original[p], {}) {
        assert DeviceInv(c, p, d.devices[p], original[p], Fired(ts, k));
      }
    } else {
      assert Fired(Sort(ts), 0) == {};
    }
  }

  lemma FireDims(c: Config, v: ServerState, t: guint, tl: TimelineState, original: map<Path, nat>)
    requires Inv(c, v) && DevicesInv(c, v, original) && Fresh(c, v, t) && tl.index <= |tl.timeouts|
    requires t !in Fired(v.s.tl.timeouts, v.s.tl.index)
    requires Fired(tl.timeouts, tl.index) == Fired(v.s.tl.timeouts, v.s.tl.index) + {t}
    ensures DevicesInv(c, v.(s := SessionState(tl, Fire(c, t, v.s.d))), original)
  {
    FireState(c, t, v.s.d);
    var fired := Fired(v.s.tl.timeouts, v.s.tl.index);
    forall p | p in original
      ensures DeviceInv(c, p, AfterTimeout(v.s.d.devices, c.backlights, t, true)[p], original[p], fired + {t})
    {
      assert DeviceInv(c, p, v.s.d.devices[p], original[p], fired);
    }
  }

  lemma SameDevices(c: Config, v: ServerState, v': ServerState, original: map<Path, nat>)
    requires v.s.tl.index <= |v.s.tl.timeouts| && v'.s.tl.index <= |v'.s.tl.timeouts|
    requires DevicesInv(c, v, original) && v'.s.d.devices == v.s.d.devices
    requires Fired(v'.s.tl.timeouts, v'.s.tl.index) == Fired(v.s.tl.timeouts, v.s.tl.index)
    ensures DevicesInv(c, v', original)
  {
  }

  lemma WakeDevices(c: Config, v: ServerState, now: nat, original: map<Path, nat>)
    requires Inv(c, v) && DevicesInv(c, v, original) && v.s.tl.clock <= now && v.s.tl.armed.Some?
    requires var t := v.s.tl.timeouts[v.s.tl.index];
             t <= InactiveSec(now, v.s.tl.since) ==> Fresh(c, v, t)
    ensures var r := Wake(c, v.s, now);
            r.tl.index <= |r.tl.timeouts| && DevicesInv(c, v.(s := r), original)
  {
    var tl := v.s.tl;
    var t := tl.timeouts[tl.index];
    if InactiveSec(now, tl.since) >= t {
      FiredLast(tl.timeouts, tl.index + 1);
      assert Fired(tl.timeouts, tl.index + 1) == Fired(tl.timeouts, tl.index) + {t};
      FireDims(c, v, t, Wake(c, v.s, now).tl, original);
    }
  }

  lemma AddDevices(c: Config, v: ServerState, t: guint, now: nat, original: map<Path, nat>)
    requires Inv(c, v) && DevicesInv(c, v, original) && Possible(v, AddCall(t, now))
    requires Fires(v, AddCall(t, now)).Some? ==> Fresh(c, v, t)
    ensures var r := Step(c, v, AddCall(t, now));
            r.s.tl.index <= |r.s.tl.timeouts| && DevicesInv(c, r, original)
  {
    SplitAllowsAdd(v.s.tl, t, now);
    AddKeeps(c, v.s, t, now);
    var v' := v.(s := Add(c, v.s, t, now));
    if t !in v.s.tl.timeouts {
      if v.s.tl.running {
        AddedArray(v.s.tl, t, now);
        if t <= InactiveSec(now, v.s.tl.since) {
          FireDims(c, v, t, v'.s.tl, original);
        } else {
          SameDevices(c, v, v', original);
        }
      } else {
        assert v'.s.tl.timeouts[..0] == v.s.tl.timeouts[..0];
        SameDevices(c, v, v', original);
      }
    }
  }

  lemma UnidleDevices(c: Config, v: ServerState, d: DaemonState, now: nat, original: map<Path, nat>)
    requires Inv(c, v) && DevicesInv(c, v, original) && v.s.tl.clock <= now && d.devices == v.s.d.devices
    ensures var r := Unidle(c, v.s.(d := d), now);
            r.tl.index <= |r.tl.timeouts| && DevicesInv(c, v.(s := r), original)
  {
    if d.idle {
      StartRestores(c, v, LeaveIdle(d), now, original);
    }
  }

  lemma LockDevices(c: Config, v: ServerState, state: bool, now: nat, original: map<Path, nat>)
    requires Inv(c, v) && DevicesInv(c, v, original) && v.s.tl.clock <= now
    ensures var r := Lock(c, v.s, state, now);
            r.tl.index <= |r.tl.timeouts| && DevicesInv(c, v.(s := r), original)
  {
    UnidleDevices(c, v, Emit(v.s.d.(locked := state), LockedHint(state)), now, original);
  }

  lemma SleepDevices(c: Config, v: ServerState, state: bool, now: nat, original: map<Path, nat>)
    requires Inv(c, v) && DevicesInv(c, v, original) && v.s.tl.clock <= now
    ensures var r := Sleep(c, v.s, state, now);
            r.tl.index <= |r.tl.timeouts| && DevicesInv(c, v.(s := r), original)
  {
    UnidleDevices(c, v, v.s.d, now, original);
  }

  lemma UninhibitedDevices(
    c: Config, v: ServerState, d: DaemonState, n: nat, now: nat, original: map<Path, nat>)
    requires Inv(c, v) && DevicesInv(c, v, original) && v.s.tl.clock <= now && d.devices == v.s.d.devices
    ensures var r := Uninhibited(c, v.s.(d := d), n, now);
            && r.tl.index <= |r.tl.timeouts|
            && forall ids :: DevicesInv(c, ServerState(r, ids), original)
  {
    StartRestores(c, v, Emit(d.(inhibited := false), InhibitedHint(false)), now, original);
  }

  lemma RemoveDevices(c: Config, v: ServerState, t: guint, original: map<Path, nat>)
    requires Inv(c, v) && DevicesInv(c, v, original) && Possible(v, RemoveCall(t))
    ensures var r := Step(c, v, RemoveCall(t));
            r.s.tl.index <= |r.s.tl.timeouts| && DevicesInv(c, r, original)
  {
    var tl, tl' := v.s.tl, Removed(v.s.tl, t);
    assert tl'.timeouts[..tl.index] == tl.timeouts[..tl.index];
  }

  lemma CountdownDevices(d: DaemonState, k: nat, n: nat)
    requires n <= k
    ensures Countdown(d, k, n).devices == d.devices
    decreases k - n
  {
  }

  lemma StepDevices(c: Config, v: ServerState, e: Event, original: map<Path, nat>)
    requires Inv(c, v) && Possible(v, e) && DevicesInv(c, v, original)
    requires Fires(v, e).Some? ==> Fresh(c, v, Fires(v, e).value)
    ensures var r := Step(c, v, e);
            r.s.tl.index <= |r.s.tl.timeouts| && DevicesInv(c, r, original)
  {
    StepKeepsInv(c, v, e);
    match e
    case Input(now) => StartRestores(c, v, v.s.d, now, original);
    case Woken(now) => WakeDevices(c, v, now, original);
    case LockRequest(state, now) =>
      LockDevices(c, v, state, now, original);
    case SleepNotice(state, now) => SleepDevices(c, v, state, now, original);
    case InhibitCall(id) => SameDevices(c, v, Step(c, v, e), original);
    case UninhibitCall(id, now) =>
      if id in v.ids {
        UninhibitedDevices(c, v, Emit(v.s.d, UninhibitSignal(|v.ids - {id}|)), |v.ids - {id}|, now, original);
      }
    case StopInhibitorsCall(now) =>
      CountdownDevices(v.s.d, |v.ids|, 0);
      UninhibitedDevices(c, v, Countdown(v.s.d, |v.ids|, 0), 0, now, original);
    case AddCall(t, now) => AddDevices(c, v, t, now, original);
    case RemoveCall(t) => RemoveDevices(c, v, t, original);
    case DeviceChange(p) =>
      RefreshDevices(c, v, p, original);
  }

  lemma RefreshDevices(c: Config, v: ServerState, p: Path, original: map<Path, nat>)
    requires Inv(c, v) && DevicesInv(c, v, original)
    ensures DevicesInv(c, Step(c, v, DeviceChange(p)), original)
  {
    var fired := Fired(v.s.tl.timeouts, v.s.tl.index);
    forall q | q in original
      ensures DeviceInv(c, q, Step(c, v, DeviceChange(p)).s.d.devices[q], original[q], fired)
    {
      assert DeviceInv(c, q, v.s.d.devices[q], original[q], fired);
    }
  }

  /**
   * Over every run in which only the daemon changes brightness and caches are refreshed before the next dim, a device
   * is dimmed exactly while its timeout is in the fired prefix; once nothing is fired, all show their original level.
   */
  lemma {:induction false} BacklightsComeBack(c: Config, v: ServerState, es: seq<Event>, original: map<Path, nat>)
    requires Inv(c, v) && Feasible(c, v, es) && FreshRun(c, v, es) && DevicesInv(c, v, original)
    ensures var r := Run(c, v, es);
            && DevicesInv(c, r, original)
            && (r.s.tl.index == 0 ==> forall p :: p in original ==>
                  r.s.d.devices[p].level == original[p] && r.s.d.devices[p].preDimBrightness == UNKNOWN)
    decreases |es|
  {
    if es == [] {
      if v.s.tl.index == 0 {
        forall p | p in original
          ensures v.s.d.devices[p].level == original[p] && v.s.d.devices[p].preDimBrightness == UNKNOWN
        {
          assert DeviceInv(c, p, v.s.d.devices[p], original[p], Fired(v.s.tl.timeouts, 0));
        }
      }
    } else {
      StepKeepsInv(c, v, es[0]);
      StepDevices(c, v, es[0], original);
      BacklightsComeBack(c, Step(c, v, es[0]), es[1..], original);
    }
  }
}
