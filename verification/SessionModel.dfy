/**
 * What the timeline (src/timeline.c) and the session daemon (src/sessiond.c) do to their state, as functions.
 * The classes of module Session are proved against these; modules Unwinding and Runs prove what they mean.
 */
module SessionModel {
  import opened Common
  import opened Backlights
  import opened Hooks

  const SECOND := 1_000_000

  datatype Config = Config(
    idleSec: guint, onIdle: bool, onSleep: bool, backlights: Confs, hooks: seq<Hook>)

  /** What the outside sees, in order. */
  datatype Effect =
    | Callback(timeout: guint, state: bool)  // the timeline calls its function
    | IdleHint(hint: bool)
    | LockedHint(hint: bool)
    | InhibitedHint(hint: bool)
    | StartUnit(unit: string)
    | LockSession
    | Commands(argvs: seq<Argv>)             // by hooks_run
    | TimeoutCommands(timeout: guint, argvs: seq<Argv>)  // by hooks_on_timeout
    | Inactive(seconds: guint)
    | Active(idleHint: bool)                 // with the value of `idle` at that moment
    | UninhibitSignal(remaining: nat)

  /** The effects so far, the latest last. */
  datatype Log = Silence | Then(before: Log, effect: Effect)

  /**
   * The fields of a Timeline, the clock it reads (in microseconds), and the delay of its armed source.
   * `since` is -1 while no inactivity is being measured.
   */
  datatype TimelineState = TimelineState(
    running: bool, timeouts: seq<guint>, index: guint, armed: Option<guint>, since: int, clock: nat)

  /** The globals of the daemon, its devices, and everything emitted so far. */
  datatype DaemonState = DaemonState(
    idle: bool, inactive: bool, inhibited: bool, locked: bool, devices: Devices, log: Log)

  datatype SessionState = SessionState(tl: TimelineState, d: DaemonState)

  // ---------------------------------------------------------------- the timeline alone

  function InactiveSec(now: nat, since: int): guint
    requires -1 <= since <= now
  {
    ToGuint((now - since) / SECOND)
  }

  predicate Sorted(ts: seq<guint>) {
    forall i, j :: 0 <= i < j < |ts| ==> ts[i] <= ts[j]
  }

  predicate Ascending(ts: seq<guint>) {
    forall i, j :: 0 <= i < j < |ts| ==> ts[i] < ts[j]
  }

  predicate NoDuplicates(ts: seq<guint>) {
    forall i, j :: 0 <= i < j < |ts| ==> ts[i] != ts[j]
  }

  function Insert(t: guint, ts: seq<guint>): (r: seq<guint>) {
    if ts == [] || t <= ts[0] then [t] + ts
    else [ts[0]] + Insert(t, ts[1..])
  }

  lemma {:induction false} InsertAdds(t: guint, ts: seq<guint>)
    ensures multiset(Insert(t, ts)) == multiset(ts) + multiset{t}
  {
    if ts == [] || t <= ts[0] {
    } else {
      InsertAdds(t, ts[1..]);
      assert ts == [ts[0]] + ts[1..];
    }
  }

  lemma {:induction false} InsertSorts(t: guint, ts: seq<guint>)
    requires Sorted(ts)
    ensures Sorted(Insert(t, ts))
  {
    if ts == [] || t <= ts[0] {
    } else {
      var rest := Insert(t, ts[1..]);
      InsertSorts(t, ts[1..]);
      forall i | 0 <= i < |rest| ensures ts[0] <= rest[i] {
        InsertedFrom(t, ts[1..], i);
      }
    }
  }

  lemma InsertedFrom(t: guint, ts: seq<guint>, i: nat)
    requires i < |Insert(t, ts)|
    ensures Insert(t, ts)[i] == t || Insert(t, ts)[i] in ts
  {
    InsertAdds(t, ts);
    assert Insert(t, ts)[i] in multiset(Insert(t, ts));
  }

  /** g_array_sort with compare_timeouts: the sorted permutation, which is unique. */
  function Sort(ts: seq<guint>): (r: seq<guint>)
    ensures Sorted(r) && multiset(r) == multiset(ts) && |r| == |ts|
  {
    if ts == [] then []
    else
      assert ts == [ts[0]] + ts[1..];
      var r := Insert(ts[0], Sort(ts[1..]));
      InsertSorts(ts[0], Sort(ts[1..]));
      InsertAdds(ts[0], Sort(ts[1..]));
      assert |r| == |multiset(r)|;
      r
  }

  function CountDue(ts: seq<guint>, inactive: guint): (n: nat)
    ensures n <= |ts|
  {
    if ts == [] then 0
    else CountDue(ts[..|ts| - 1], inactive) + if ts[|ts| - 1] <= inactive then 1 else 0
  }

  function Stop(tl: TimelineState): TimelineState {
    if !tl.running then tl
    else tl.(running := tl.index != 0, since := -1, armed := None)
  }

  /** remove_timeout looks for the first position. */
  function Position(ts: seq<guint>, t: guint): (i: nat)
    ensures i <= |ts|
    ensures i < |ts| ==> ts[i] == t
    ensures forall j :: 0 <= j < i ==> ts[j] != t
  {
    if ts == [] || ts[0] == t then 0 else 1 + Position(ts[1..], t)
  }

  function Removed(tl: TimelineState, t: guint): TimelineState {
    var i := Position(tl.timeouts, t);
    if i == |tl.timeouts| then tl
    else tl.(timeouts := tl.timeouts[..i] + tl.timeouts[i + 1..],
             index := if i <= tl.index then Minus(tl.index, 1) else tl.index)
  }

  // ---------------------------------------------------------------- the daemon alone

  function Emit(d: DaemonState, e: Effect): DaemonState {
    d.(log := Then(d.log, e))
  }

  function EmitIf(condition: bool, d: DaemonState, e: Effect): DaemonState {
    if condition then Emit(d, e) else d
  }

  /** set_idle(TRUE). */
  function BecomeIdle(c: Config, d: DaemonState): DaemonState {
    if d.idle then d
    else
      var started := Emit(Emit(d.(idle := true), IdleHint(true)), StartUnit("graphical-idle.target"));
      Emit(EmitIf(c.onIdle && !d.locked, started, LockSession), Commands(RunSpawned(c.hooks, OnIdle, true)))
  }

  /** The daemon's on_timeout(t, TRUE) after its call of set_idle. */
  function Announce(c: Config, t: guint, d: DaemonState): DaemonState {
    var d1 := d.(devices := AfterTimeout(d.devices, c.backlights, t, true));
    var d2 := Emit(d1, TimeoutCommands(t, Spawned(c.hooks, OnInactive, true, t)));
    Emit(d2, Inactive(t)).(inactive := true)
  }

  /** The daemon's on_timeout(t, TRUE). */
  function Fire(c: Config, t: guint, d: DaemonState): DaemonState {
    var d0 := Emit(d, Callback(t, true));
    Announce(c, t, if t == c.idleSec then BecomeIdle(c, d0) else d0)
  }

  /** The daemon's on_timeout(t, FALSE) after its call of set_idle. */
  function Undo(c: Config, t: guint, d: DaemonState): DaemonState {
    var d1 := d.(devices := AfterTimeout(d.devices, c.backlights, t, false));
    var d2 := Emit(d1, TimeoutCommands(t, Spawned(c.hooks, OnInactive, false, t)));
    EmitIf(d.inactive, d2, Active(d.idle)).(inactive := false)
  }

  /** set_idle(FALSE) up to, and from, its call of timeline_start. */
  function LeaveIdle(d: DaemonState): DaemonState {
    Emit(d.(idle := false), IdleHint(false))
  }

  function AfterLeaveIdle(c: Config, d: DaemonState): DaemonState {
    Emit(Emit(d, StartUnit("graphical-unidle.target")), Commands(RunSpawned(c.hooks, OnIdle, false)))
  }

  /**
   * The unwinding loop of timeline_start over the fired prefix ts[..k]: the FALSE callback of the idle timeout
   * starts the timeline again, so all callbacks below it run before the idle one has finished.
   */
  function Unwind(c: Config, ts: seq<guint>, k: nat, d: DaemonState): DaemonState
    requires k <= |ts|
    decreases k
  {
    if k == 0 then d
    else
      var t := ts[k - 1];
      var d1 := Emit(d, Callback(t, false));
      if t == c.idleSec && d.idle then
        Undo(c, t, AfterLeaveIdle(c, Unwind(c, ts, k - 1, LeaveIdle(d1))))
      else
        Unwind(c, ts, k - 1, Undo(c, t, d1))
  }

  // ---------------------------------------------------------------- both together

  /** timeline_start needs an index within the array, and a timeout to arm when it is running. */
  predicate Startable(tl: TimelineState) {
    tl.index <= |tl.timeouts| && (tl.running ==> tl.timeouts != [])
  }

  function Restarted(tl: TimelineState, now: nat): TimelineState
    requires tl.timeouts != []
  {
    tl.(running := true, index := 0, armed := Some(tl.timeouts[0]), since := now, clock := now)
  }

  /** timeline_start, whose last reading of the clock is `now`. */
  function Start(c: Config, s: SessionState, now: nat): SessionState
    requires Startable(s.tl)
  {
    var tl := s.tl;
    if tl.running then
      SessionState(Restarted(tl, now), Unwind(c, tl.timeouts, tl.index, s.d))
    else if tl.timeouts != [] then
      s.(tl := Restarted(tl.(timeouts := Sort(tl.timeouts)), now))
    else
      s
  }

  /** The timeouts of a stopped timeline after those in `more` were added too, without repetition. */
  function Collected(ts: seq<guint>, more: seq<guint>): (r: seq<guint>)
    ensures |ts| <= |r|
  {
    if more == [] then ts
    else
      var before, last := Collected(ts, more[..|more| - 1]), more[|more| - 1];
      if last in before then before else before + [last]
  }

  lemma CollectedStep(ts: seq<guint>, more: seq<guint>, t: guint)
    ensures var before := Collected(ts, more);
            Collected(ts, more + [t]) == if t in before then before else before + [t]
  {
    assert (more + [t])[..|more|] == more;
  }

  /** The session before init_timeline starts its timeline. */
  function Configured(c: Config, devices: Devices): SessionState {
    var ts := Collected([c.idleSec], Timeouts(c.hooks));
    SessionState(TimelineState(false, ts, 0, None, -1, 0), DaemonState(false, false, false, false, devices, Silence))
  }

  /** The start does not depend on what the clock said while timeouts were added. */
  lemma ConfiguredStarts(c: Config, devices: Devices, clock: nat, now: nat)
    ensures var s := Configured(c, devices);
            Start(c, s.(tl := s.tl.(clock := clock)), now) == Start(c, s, now)
  {
  }

  /** set_idle(FALSE). */
  function Unidle(c: Config, s: SessionState, now: nat): SessionState
    requires Startable(s.tl)
  {
    if !s.d.idle then s
    else
      var s1 := Start(c, s.(d := LeaveIdle(s.d)), now);
      s1.(d := AfterLeaveIdle(c, s1.d))
  }

  /** The timeline's on_timeout: the dispatch of the armed source, at `now`. */
  function Wake(c: Config, s: SessionState, now: nat): SessionState
    requires s.tl.running ==> s.tl.index < |s.tl.timeouts| < GUINT_RANGE && -1 <= s.tl.since <= now
  {
    var tl := s.tl;
    if !tl.running then s
    else
      var inactive := InactiveSec(now, tl.since);
      var timeout := tl.timeouts[tl.index];
      if inactive >= timeout then
        var fired := tl.(index := tl.index + 1, clock := now);
        SessionState(
          if fired.index < |tl.timeouts|
          then fired.(armed := Some(Minus(tl.timeouts[fired.index], inactive)))
          else Stop(fired),
          Fire(c, timeout, s.d))
      else
        s.(tl := tl.(armed := Some(timeout - inactive), clock := now))
  }

  /** What timeline_add_timeout counts with: room for one more, and a clock not behind the start of inactivity. */
  predicate AddReady(tl: TimelineState, t: guint, now: nat) {
    && |tl.timeouts| + 1 < GUINT_RANGE
    && (tl.running && t !in tl.timeouts ==> -1 <= tl.since <= now)
  }

  /** A running timeline finds a timeout to arm for: with every timeout due it reads past the end of the array. */
  predicate Addable(tl: TimelineState, t: guint, now: nat)
    requires AddReady(tl, t, now)
  {
    tl.running && t !in tl.timeouts ==>
      CountDue(Sort(tl.timeouts + [t]), InactiveSec(now, tl.since)) < |tl.timeouts| + 1
  }

  /** timeline_add_timeout at `now`; where it is not Addable, up to the read past the end of the array. */
  function Add(c: Config, s: SessionState, t: guint, now: nat): SessionState
    requires AddReady(s.tl, t, now)
  {
    if t in s.tl.timeouts then s
    else
      var appended := s.(tl := s.tl.(timeouts := s.tl.timeouts + [t]));
      if s.tl.running then Rescheduled(c, appended, t, now) else appended
  }

  /** A running timeline sorts the array, counts the timeouts due, and calls back for the new one if it is. */
  function Rescheduled(c: Config, s: SessionState, t: guint, now: nat): SessionState
    requires -1 <= s.tl.since <= now && |s.tl.timeouts| < GUINT_RANGE
  {
    var ts := Sort(s.tl.timeouts);
    var inactive := InactiveSec(now, s.tl.since);
    var n := CountDue(ts, inactive);
    SessionState(
      s.tl.(timeouts := ts, index := n, clock := now,
            armed := if n < |ts| then Some(Minus(ts[n], inactive)) else None),
      if inactive >= t then Fire(c, t, s.d) else s.d)
  }

  /** The daemon's on_timeout(t, FALSE). */
  function Undone(c: Config, t: guint, s: SessionState, now: nat): SessionState
    requires Startable(s.tl)
  {
    var s0 := s.(d := Emit(s.d, Callback(t, false)));
    var s1 := if t == c.idleSec then Unidle(c, s0, now) else s0;
    s1.(d := Undo(c, t, s1.d))
  }

  // ---------------------------------------------------------------- events

  /** xsource_cb: input was seen. */
  function Activity(c: Config, s: SessionState, now: nat): SessionState
    requires Startable(s.tl)
  {
    if s.d.inhibited then s else Start(c, s, now)
  }

  /** lock_callback: logind asks to lock or to unlock. */
  function Lock(c: Config, s: SessionState, state: bool, now: nat): SessionState
    requires Startable(s.tl)
  {
    if state == s.d.locked then s
    else
      var s1 := s.(d := Emit(s.d.(locked := state), LockedHint(state)));
      var s2 := if state then s1 else Unidle(c, s1, now);
      var unit := StartUnit(if state then "graphical-lock.target" else "graphical-unlock.target");
      s2.(d := Emit(Emit(s2.d, unit), Commands(RunSpawned(c.hooks, OnLock, state))))
  }

  /** sleep_callback: logind prepares for sleep, or is back from it. */
  function Sleep(c: Config, s: SessionState, state: bool, now: nat): SessionState
    requires Startable(s.tl)
  {
    var s1 :=
      if state then
        s.(d := EmitIf(c.onSleep && !s.d.locked, Emit(s.d, StartUnit("user-sleep.target")), LockSession))
      else
        var back := Unidle(c, s, now);
        back.(d := Emit(back.d, StartUnit("user-sleep-finished.target")));
    s1.(d := Emit(s1.d, Commands(RunSpawned(c.hooks, OnSleep, state))))
  }

  /** inhibit_callback. */
  function Inhibited(s: SessionState): SessionState {
    SessionState(Stop(s.tl), Emit(s.d.(inhibited := true, inactive := false), InhibitedHint(true)))
  }

  /** uninhibit_callback, with `n` inhibitors remaining. */
  function Uninhibited(c: Config, s: SessionState, n: nat, now: nat): SessionState
    requires Startable(s.tl)
  {
    if n > 0 then s
    else Start(c, s.(d := Emit(s.d.(inhibited := false), InhibitedHint(false))), now)
  }

  type Id = string

  /** The session together with the inhibitor table of src/dbus-server.c. */
  datatype ServerState = ServerState(s: SessionState, ids: set<Id>)

  /** on_handle_inhibit, for a fresh identifier. */
  function Inhibit(v: ServerState, id: Id): ServerState {
    ServerState(Inhibited(v.s), v.ids + {id})
  }

  /** on_handle_uninhibit: an unknown identifier is an error that changes nothing. */
  function Uninhibit(c: Config, v: ServerState, id: Id, now: nat): ServerState
    requires Startable(v.s.tl)
  {
    if id !in v.ids then v
    else
      ServerState(Signalled(c, v.s, |v.ids - {id}|, now), v.ids - {id})
  }

  /** The signal that `n` inhibitors remain, and the daemon's callback for it. */
  function Signalled(c: Config, s: SessionState, n: nat, now: nat): SessionState
    requires Startable(s.tl)
  {
    Uninhibited(c, s.(d := Emit(s.d, UninhibitSignal(n))), n, now)
  }

  /** The signals of stopping `k` inhibitors until `n` remain: the counts k-1 down to n. */
  function Countdown(d: DaemonState, k: nat, n: nat): DaemonState
    requires n <= k
    decreases k - n
  {
    if n == k then d else Emit(Countdown(d, k, n + 1), UninhibitSignal(n))
  }

  /** Stopping `k` inhibitors, when `n` of them remain. */
  function Stopping(c: Config, s: SessionState, k: nat, n: nat, now: nat): SessionState
    requires Startable(s.tl) && n <= k
  {
    var signalled := s.(d := Countdown(s.d, k, n));
    if n == 0 < k then Uninhibited(c, signalled, 0, now) else signalled
  }

  lemma StoppingStep(c: Config, s: SessionState, k: nat, n: nat, before: nat, now: nat)
    requires Startable(s.tl) && n < k
    ensures var s1 := Stopping(c, s, k, n + 1, before);
            Startable(s1.tl) && Signalled(c, s1, n, now) == Stopping(c, s, k, n, now)
  {
  }

  /** on_handle_stop_inhibitors. */
  function StopInhibitors(c: Config, v: ServerState, now: nat): ServerState
    requires Startable(v.s.tl)
  {
    if v.ids == {} then v
    else
      var signalled := v.s.(d := Countdown(v.s.d, |v.ids|, 0));
      ServerState(Uninhibited(c, signalled, 0, now), {})
  }
}
