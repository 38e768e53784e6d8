/** What holds over every run of the session: the invariant, and the theorems that follow from it. */
module Runs {
  import opened Common
  import opened Backlights
  import opened SessionModel
  import opened Unwinding

  datatype Event =
    | Input(now: nat)                        // activity seen on the X server
    | Woken(now: nat)                        // the armed source is dispatched, early or late
    | LockRequest(state: bool, now: nat)
    | SleepNotice(state: bool, now: nat)
    | InhibitCall(id: Id)
    | UninhibitCall(id: Id, now: nat)
    | StopInhibitorsCall(now: nat)
    | AddCall(timeout: guint, now: nat)
    | RemoveCall(timeout: guint)
    | DeviceChange(path: Path)

  // ---------------------------------------------------------------- the invariant

  predicate TimelineInv(tl: TimelineState) {
    && tl.index <= |tl.timeouts| < GUINT_RANGE
    && NoDuplicates(tl.timeouts)
    && (if tl.running then tl.timeouts != [] && Ascending(tl.timeouts) else tl.index == 0)
    && (if tl.armed.Some? then tl.running && tl.index < |tl.timeouts| && 0 <= tl.since <= tl.clock
        else tl.since == -1 && (tl.running ==> tl.index > 0))
    && (tl.armed.Some? ==> forall i :: 0 <= i < tl.index ==> tl.timeouts[i] * SECOND <= tl.clock - tl.since)
  }

  /** The timeouts whose TRUE has not been undone are exactly the fired prefix. */
  predicate Paired(s: SessionState)
    requires s.tl.index <= |s.tl.timeouts|
  {
    Open(Calls(s.d.log)) == Some(Fired(s.tl.timeouts, s.tl.index))
  }

  predicate IdleInv(c: Config, s: SessionState)
    requires s.tl.index <= |s.tl.timeouts|
  {
    && (s.d.idle <==> c.idleSec in s.tl.timeouts[..s.tl.index])
    && Alternates(IdleHints(s.d.log)) && (s.d.idle <==> |IdleHints(s.d.log)| % 2 == 1)
    && (s.d.inactive ==> s.tl.index > 0)
  }

  predicate SessionInv(c: Config, s: SessionState) {
    TimelineInv(s.tl) && Paired(s) && IdleInv(c, s)
  }

  predicate Inv(c: Config, v: ServerState) {
    SessionInv(c, v.s) && (v.s.d.inhibited <==> v.ids != {})
  }

  // ---------------------------------------------------------------- steps

  /** The array is split at the number of seconds measured: the fired timeouts are due and the pending ones are not. */
  predicate SplitAt(tl: TimelineState, now: nat)
    requires TimelineInv(tl) && tl.clock <= now
  {
    && tl.armed.Some?
    && InactiveSec(now, tl.since) < tl.timeouts[tl.index]
    && forall i :: 0 <= i < tl.index ==> tl.timeouts[i] <= InactiveSec(now, tl.since)
  }

  predicate Possible(v: ServerState, e: Event)
    requires TimelineInv(v.s.tl)
  {
    var tl := v.s.tl;
    match e
    case Woken(now) => tl.clock <= now && tl.armed.Some?
    case InhibitCall(id) => id !in v.ids
    case AddCall(t, now) =>
      tl.clock <= now && |tl.timeouts| + 1 < GUINT_RANGE && (tl.running && t !in tl.timeouts ==> SplitAt(tl, now))
    case RemoveCall(t) => t in tl.timeouts ==> Position(tl.timeouts, t) > tl.index
    case DeviceChange(_) => true
    case _ => tl.clock <= e.now
  }

  function Step(c: Config, v: ServerState, e: Event): ServerState
    requires TimelineInv(v.s.tl) && Possible(v, e)
  {
    match e
    case Input(now) => v.(s := Activity(c, v.s, now))
    case Woken(now) => v.(s := Wake(c, v.s, now))
    case LockRequest(state, now) => v.(s := Lock(c, v.s, state, now))
    case SleepNotice(state, now) => v.(s := Sleep(c, v.s, state, now))
    case InhibitCall(id) => Inhibit(v, id)
    case UninhibitCall(id, now) => Uninhibit(c, v, id, now)
    case StopInhibitorsCall(now) => StopInhibitors(c, v, now)
    case AddCall(t, now) =>
      SplitAllowsAdd(v.s.tl, t, now);
      v.(s := Add(c, v.s, t, now))
    case RemoveCall(t) => v.(s := v.s.(tl := Removed(v.s.tl, t)))
    case DeviceChange(p) =>
      var devices := v.s.d.devices;
      if p in devices then v.(s := v.s.(d := v.s.d.(devices := devices[p := Refresh(devices[p])]))) else v
  }

  // ---------------------------------------------------------------- adding to a sorted array

  lemma SortAscends(ts: seq<guint>)
    requires NoDuplicates(ts)
    ensures Ascending(Sort(ts))
  {
    var r := Sort(ts);
    forall i, j | 0 <= i < j < |r| ensures r[i] < r[j] {
      if r[i] == r[j] {
        Twice(r, i, j);
        NoDuplicatesOnce(ts, r[i]);
      }
    }
  }

  lemma Twice(r: seq<guint>, i: nat, j: nat)
    requires i < j < |r| && r[i] == r[j]
    ensures multiset(r)[r[i]] >= 2
  {
    assert r == r[..j] + [r[j]] + r[j + 1..];
    assert r[i] in r[..j];
  }

  lemma {:induction false} NoDuplicatesOnce(ts: seq<guint>, x: guint)
    requires NoDuplicates(ts)
    ensures multiset(ts)[x] <= 1
  {
    if ts == [] {
    } else {
      assert ts == [ts[0]] + ts[1..];
      NoDuplicatesOnce(ts[1..], x);
      if ts[0] == x {
        assert x !in ts[1..];
      }
    }
  }

  lemma SortMembers(ts: seq<guint>)
    ensures forall x :: x in Sort(ts) <==> x in ts
  {
    forall x: guint ensures x in Sort(ts) <==> x in ts {
      assert x in Sort(ts) <==> x in multiset(Sort(ts));
      assert x in ts <==> x in multiset(ts);
    }
  }

  /** In an ascending array, the timeouts due are a prefix, and CountDue is its length. */
  lemma {:induction false} DuePrefix(ts: seq<guint>, inactive: guint)
    requires Ascending(ts)
    ensures forall i :: 0 <= i < |ts| ==> (ts[i] <= inactive <==> i < CountDue(ts, inactive))
  {
    if ts == [] {
    } else {
      var init := ts[..|ts| - 1];
      DuePrefix(init, inactive);
      forall i | 0 <= i < |ts| ensures ts[i] <= inactive <==> i < CountDue(ts, inactive) {
        assert i < |init| ==> ts[i] == init[i];
      }
    }
  }

  /** What adding a new timeout does to the array of a running timeline. */
  lemma AddedArray(tl: TimelineState, t: guint, now: nat)
    requires TimelineInv(tl) && tl.clock <= now && SplitAt(tl, now) && t !in tl.timeouts
    ensures var ts := Sort(tl.timeouts + [t]);
            var inactive := InactiveSec(now, tl.since);
            var n := CountDue(ts, inactive);
            && Ascending(ts) && n < |ts| && inactive < ts[n]
            && (forall x :: x in ts <==> x in tl.timeouts || x == t)
            && Fired(ts, n) == Fired(tl.timeouts, tl.index) + if t <= inactive then {t} else {}
  {
    var ts := Sort(tl.timeouts + [t]);
    var inactive := InactiveSec(now, tl.since);
    var n := CountDue(ts, inactive);
    SortAscends(tl.timeouts + [t]);
    SortMembers(tl.timeouts + [t]);
    DuePrefix(ts, inactive);
    assert tl.timeouts[tl.index] in ts;
    var at :| 0 <= at < |ts| && ts[at] == tl.timeouts[tl.index];
    assert n <= at;
    DueMembers(ts, n, inactive);
    DueMembers(tl.timeouts, tl.index, inactive);
  }

  lemma DueMembers(ts: seq<guint>, n: nat, inactive: guint)
    requires n <= |ts| && forall i :: 0 <= i < |ts| ==> (ts[i] <= inactive <==> i < n)
    ensures Fired(ts, n) == set t | t in ts && t <= inactive
  {
    forall t | t in ts && t <= inactive ensures t in ts[..n] {
      var i :| 0 <= i < |ts| && ts[i] == t;
      assert ts[..n][i] == t;
    }
  }

  lemma SplitAllowsAdd(tl: TimelineState, t: guint, now: nat)
    requires TimelineInv(tl) && tl.clock <= now && |tl.timeouts| + 1 < GUINT_RANGE
    requires tl.running && t !in tl.timeouts ==> SplitAt(tl, now)
    ensures AddReady(tl, t, now) && Addable(tl, t, now)
  {
    if tl.running && t !in tl.timeouts {
      AddedArray(tl, t, now);
    }
  }

  // ---------------------------------------------------------------- each step keeps the invariant

  /** Starting takes everything back and arms the least timeout, wherever the session was. */
  lemma StartResets(c: Config, s: SessionState, now: nat)
    requires TimelineInv(s.tl) && Paired(s) && s.tl.clock <= now
    requires s.d.idle ==> c.idleSec in s.tl.timeouts[..s.tl.index]
    ensures var r := Start(c, s, now);
            && TimelineInv(r.tl) && r.tl.index == 0 && Paired(r)
            && !r.d.idle && (r.d.inactive ==> s.d.inactive && s.tl.index == 0)
            && r.d.inhibited == s.d.inhibited && r.d.locked == s.d.locked
            && multiset(r.tl.timeouts) == multiset(s.tl.timeouts)
            && (s.tl.timeouts != [] ==> r.tl == Restarted(r.tl, now) && Sorted(r.tl.timeouts))
            && IdleHints(r.d.log) == IdleHints(s.d.log) + if s.d.idle then [false] else []
  {
    var ts, k := s.tl.timeouts, s.tl.index;
    assert Fired(ts, 0) == {};
    if s.tl.running {
      UnwindCalls(c, ts, k, s.d);
      UnwindState(c, ts, k, s.d);
      TakenBackCloses(Calls(s.d.log), ts, k);
    } else {
      SortAscends(ts);
      assert Fired(Sort(ts), 0) == {};
    }
  }

  lemma UnidleKeeps(c: Config, s: SessionState, now: nat)
    requires SessionInv(c, s) && s.tl.clock <= now
    ensures var r := Unidle(c, s, now);
            SessionInv(c, r) && !r.d.idle && r.d.inhibited == s.d.inhibited && r.d.locked == s.d.locked
  {
    if s.d.idle {
      var left := s.(d := LeaveIdle(s.d));
      LeaveIdleReadings(c, s.d);
      StartResets(c, left, now);
      LeaveIdleReadings(c, Start(c, left, now).d);
      AlternatesStep(IdleHints(s.d.log), false);
    }
  }

  lemma StartKeeps(c: Config, s: SessionState, now: nat)
    requires SessionInv(c, s) && s.tl.clock <= now
    ensures SessionInv(c, Start(c, s, now)) && Start(c, s, now).d.inhibited == s.d.inhibited
  {
    StartResets(c, s, now);
    AlternatesStep(IdleHints(s.d.log), false);
  }

  lemma FireState(c: Config, t: guint, d: DaemonState)
    ensures var f := Fire(c, t, d);
            && f.idle == (d.idle || t == c.idleSec) && f.inactive
            && f.inhibited == d.inhibited && f.locked == d.locked
            && f.devices == AfterTimeout(d.devices, c.backlights, t, true)
  {
  }

  /** A callback with TRUE for the timeouts that join the fired prefix keeps the daemon in step with it. */
  lemma FireKeeps(c: Config, s: SessionState, t: guint, tl: TimelineState)
    requires SessionInv(c, s) && TimelineInv(tl) && tl.index > 0
    requires t !in Fired(s.tl.timeouts, s.tl.index)
    requires Fired(tl.timeouts, tl.index) == Fired(s.tl.timeouts, s.tl.index) + {t}
    ensures SessionInv(c, SessionState(tl, Fire(c, t, s.d)))
  {
    FireReadings(c, t, s.d);
    FireState(c, t, s.d);
    OpenStep(Calls(s.d.log), Call(t, true));
    AlternatesStep(IdleHints(s.d.log), true);
    assert forall x :: x in Fired(tl.timeouts, tl.index) <==> x in tl.timeouts[..tl.index];
    assert forall x :: x in Fired(s.tl.timeouts, s.tl.index) <==> x in s.tl.timeouts[..s.tl.index];
  }

  lemma WakeKeeps(c: Config, s: SessionState, now: nat)
    requires SessionInv(c, s) && s.tl.clock <= now && s.tl.armed.Some?
    ensures SessionInv(c, Wake(c, s, now)) && Wake(c, s, now).d.inhibited == s.d.inhibited
  {
    var tl := s.tl;
    var inactive, t := InactiveSec(now, tl.since), tl.timeouts[tl.index];
    if inactive >= t {
      var tl' := Wake(c, s, now).tl;
      NeverEarly(now, tl.since, t);
      assert tl.timeouts[..tl.index + 1] == tl.timeouts[..tl.index] + [t];
      FireKeeps(c, s, t, tl');
      FireState(c, t, s.d);
    }
  }

  /** Whatever the wrap-around of the seconds, a timeout found due has really elapsed. */
  lemma NeverEarly(now: nat, since: nat, t: guint)
    requires since <= now && InactiveSec(now, since) >= t
    ensures t * SECOND <= now - since
  {
  }

  lemma AddKeeps(c: Config, s: SessionState, t: guint, now: nat)
    requires SessionInv(c, s) && s.tl.clock <= now && |s.tl.timeouts| + 1 < GUINT_RANGE
    requires s.tl.running && t !in s.tl.timeouts ==> SplitAt(s.tl, now)
    ensures SessionInv(c, Add(c, s, t, now)) && Add(c, s, t, now).d.inhibited == s.d.inhibited
  {
    if t in s.tl.timeouts {
    } else if s.tl.running {
      AddedArray(s.tl, t, now);
      var inactive := InactiveSec(now, s.tl.since);
      var tl' := Add(c, s, t, now).tl;
      AddedInv(s.tl, t, now, tl');
      if t <= inactive {
        FireKeeps(c, s, t, tl');
        FireState(c, t, s.d);
      } else {
        assert forall x :: x in Fired(tl'.timeouts, tl'.index) <==> x in tl'.timeouts[..tl'.index];
        assert forall x :: x in Fired(s.tl.timeouts, s.tl.index) <==> x in s.tl.timeouts[..s.tl.index];
        SameFired(s.tl, tl');
      }
    } else {
      assert (s.tl.timeouts + [t])[..0] == s.tl.timeouts[..0];
    }
  }

  lemma SameFired(tl: TimelineState, tl': TimelineState)
    requires TimelineInv(tl) && TimelineInv(tl')
    requires Fired(tl.timeouts, tl.index) == Fired(tl'.timeouts, tl'.index)
    ensures tl.index > 0 <==> tl'.index > 0
  {
    assert tl.index > 0 ==> tl.timeouts[0] in Fired(tl.timeouts, tl.index);
    assert tl'.index > 0 ==> tl'.timeouts[0] in Fired(tl'.timeouts, tl'.index);
  }

  lemma AddedInv(tl: TimelineState, t: guint, now: nat, tl': TimelineState)
    requires TimelineInv(tl) && tl.clock <= now && SplitAt(tl, now) && t !in tl.timeouts
    requires |tl.timeouts| + 1 < GUINT_RANGE
    requires var ts := Sort(tl.timeouts + [t]);
             var n := CountDue(ts, InactiveSec(now, tl.since));
             && n < |ts|
             && tl' == tl.(timeouts := ts, index := n, clock := now,
                           armed := Some(Minus(ts[n], InactiveSec(now, tl.since))))
    ensures TimelineInv(tl') && (t <= InactiveSec(now, tl.since) ==> tl'.index > 0)
  {
    AddedArray(tl, t, now);
    DuePrefix(tl'.timeouts, InactiveSec(now, tl.since));
    forall i | 0 <= i < tl'.index ensures tl'.timeouts[i] * SECOND <= now - tl.since {
      NeverEarly(now, tl.since, tl'.timeouts[i]);
    }
    if t <= InactiveSec(now, tl.since) {
      assert t in Fired(tl'.timeouts, tl'.index);
    }
  }

  lemma RemoveKeeps(c: Config, s: SessionState, t: guint)
    requires SessionInv(c, s)
    requires t in s.tl.timeouts ==> Position(s.tl.timeouts, t) > s.tl.index
    ensures SessionInv(c, s.(tl := Removed(s.tl, t)))
  {
    var i := Position(s.tl.timeouts, t);
    if i < |s.tl.timeouts| {
      var ts := s.tl.timeouts[..i] + s.tl.timeouts[i + 1..];
      assert ts[..s.tl.index] == s.tl.timeouts[..s.tl.index];
    }
  }

  lemma CountdownKeeps(c: Config, s: SessionState, k: nat, n: nat)
    requires SessionInv(c, s) && n <= k
    ensures SessionInv(c, s.(d := Countdown(s.d, k, n)))
    decreases k - n
  {
    if n < k {
      CountdownKeeps(c, s, k, n + 1);
    }
  }

  /** An effect that is no callback and no hint leaves the invariant alone. */
  lemma OtherEffectKeeps(c: Config, s: SessionState, e: Effect)
    requires SessionInv(c, s) && !e.Callback? && !e.IdleHint?
    ensures SessionInv(c, s.(d := Emit(s.d, e)))
  {
  }

  lemma LockKeeps(c: Config, s: SessionState, state: bool, now: nat)
    requires SessionInv(c, s) && s.tl.clock <= now
    ensures var r := Lock(c, s, state, now);
            SessionInv(c, r) && r.d.locked == state && r.d.inhibited == s.d.inhibited
  {
    if state != s.d.locked {
      var asked := s.(d := Emit(s.d.(locked := state), LockedHint(state)));
      assert SessionInv(c, asked);
      UnidleKeeps(c, asked, now);
    }
  }

  lemma SleepKeeps(c: Config, s: SessionState, state: bool, now: nat)
    requires SessionInv(c, s) && s.tl.clock <= now
    ensures var r := Sleep(c, s, state, now);
            SessionInv(c, r) && r.d.inhibited == s.d.inhibited
  {
    if state {
      var notice := s.(d := Emit(s.d, StartUnit("user-sleep.target")));
      OtherEffectKeeps(c, s, StartUnit("user-sleep.target"));
      var asked := notice.(d := EmitIf(c.onSleep && !s.d.locked, notice.d, LockSession));
      OtherEffectKeeps(c, notice, LockSession);
      OtherEffectKeeps(c, asked, Commands(Hooks.RunSpawned(c.hooks, Hooks.OnSleep, state)));
    } else {
      UnidleKeeps(c, s, now);
    }
  }

  lemma UninhibitedKeeps(c: Config, s: SessionState, n: nat, now: nat)
    requires SessionInv(c, s) && s.tl.clock <= now
    ensures var r := Uninhibited(c, s, n, now);
            SessionInv(c, r) && r.d.inhibited == (s.d.inhibited && n > 0)
  {
    if n == 0 {
      StartKeeps(c, s.(d := Emit(s.d.(inhibited := false), InhibitedHint(false))), now);
    }
  }

  /** Every possible step keeps the invariant. */
  lemma StepKeepsInv(c: Config, v: ServerState, e: Event)
    requires Inv(c, v) && Possible(v, e)
    ensures Inv(c, Step(c, v, e))
  {
    match e
    case Input(now) => StartKeeps(c, v.s, now);
    case Woken(now) => WakeKeeps(c, v.s, now);
    case LockRequest(state, now) =>
      LockKeeps(c, v.s, state, now);
    case SleepNotice(state, now) => SleepKeeps(c, v.s, state, now);
    case InhibitCall(id) => InhibitKeeps(c, v.s);
    case UninhibitCall(id, now) =>
      if id in v.ids {
        var n := |v.ids - {id}|;
        UninhibitedKeeps(c, v.s.(d := Emit(v.s.d, UninhibitSignal(n))), n, now);
      }
    case StopInhibitorsCall(now) =>
      if v.ids != {} {
        CountdownKeeps(c, v.s, |v.ids|, 0);
        UninhibitedKeeps(c, v.s.(d := Countdown(v.s.d, |v.ids|, 0)), 0, now);
      }
    case AddCall(t, now) =>
      SplitAllowsAdd(v.s.tl, t, now);
      AddKeeps(c, v.s, t, now);
    case RemoveCall(t) => RemoveKeeps(c, v.s, t);
    case DeviceChange(p) =>
  }

  lemma InhibitKeeps(c: Config, s: SessionState)
    requires SessionInv(c, s)
    ensures SessionInv(c, Inhibited(s)) && Inhibited(s).d.inhibited
  {
  }
}
