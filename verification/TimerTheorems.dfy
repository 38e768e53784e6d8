/** Starting, waking, adding, removing and inhibiting: what each promises, and exactly when. */
module TimerTheorems {
  import opened Common
  import opened Backlights
  import opened SessionModel
  import opened Unwinding
  import opened Runs
  import opened RunTheorems

  // ---------------------------------------------------------------- starting

  /**
   * From any state whatever, a start of a running timeline takes back each fired timeout exactly once, latest first;
   * it ends with nothing fired and the source armed for the first timeout; and the session is left idle
   * only if it was idle without its timeout having fired.
   */
  lemma StartUnwinds(c: Config, s: SessionState, now: nat)
    requires Startable(s.tl) && s.tl.running
    ensures var r := Start(c, s, now);
            && Calls(r.d.log) == Calls(s.d.log) + TakenBack(s.tl.timeouts, s.tl.index)
            && r.tl == s.tl.(index := 0, armed := Some(s.tl.timeouts[0]), since := now, clock := now)
            && (r.d.idle <==> s.d.idle && c.idleSec !in s.tl.timeouts[..s.tl.index])
            && r.d.devices == RestoredDevices(c.backlights, s.tl.timeouts, s.tl.index, s.d.devices)
  {
    UnwindCalls(c, s.tl.timeouts, s.tl.index, s.d);
    UnwindState(c, s.tl.timeouts, s.tl.index, s.d);
  }

  /** The events that start the timeline. */
  predicate Starts(v: ServerState, e: Event) {
    match e
    case Input(_) => !v.s.d.inhibited
    case LockRequest(state, _) => !state && v.s.d.locked && v.s.d.idle
    case SleepNotice(state, _) => !state && v.s.d.idle
    case UninhibitCall(id, _) => v.ids == {id}
    case StopInhibitorsCall(_) => v.ids != {}
    case _ => false
  }

  /** Unlocking and waking from sleep end idleness before they start the timeline. */
  predicate IdleAtActive(c: Config, v: ServerState, e: Event)
    requires 0 < v.s.tl.index <= |v.s.tl.timeouts|
  {
    !e.LockRequest? && !e.SleepNotice? && v.s.d.idle && v.s.tl.timeouts[v.s.tl.index - 1] != c.idleSec
  }

  lemma StartActives(c: Config, s: SessionState, now: nat)
    requires TimelineInv(s.tl) && (s.d.inactive ==> s.tl.index > 0)
    ensures Actives(Start(c, s, now).d.log) == Actives(s.d.log) +
            if s.d.inactive then [s.d.idle && s.tl.timeouts[s.tl.index - 1] != c.idleSec] else []
  {
    if s.tl.running {
      UnwindActives(c, s.tl.timeouts, s.tl.index, s.d);
    }
  }

  lemma UnidleActives(c: Config, s: SessionState, now: nat)
    requires TimelineInv(s.tl) && (s.d.inactive ==> s.tl.index > 0)
    ensures Actives(Unidle(c, s, now).d.log) == Actives(s.d.log) + if s.d.idle && s.d.inactive then [false] else []
  {
    if s.d.idle {
      LeaveIdleReadings(c, s.d);
      StartActives(c, s.(d := LeaveIdle(s.d)), now);
      LeaveIdleReadings(c, Start(c, s.(d := LeaveIdle(s.d)), now).d);
    }
  }

  lemma CountdownActives(d: DaemonState, k: nat, n: nat)
    requires n <= k
    ensures var r := Countdown(d, k, n);
            Actives(r.log) == Actives(d.log) && r == d.(log := r.log)
    decreases k - n
  {
  }

  lemma UninhibitedActives(c: Config, s: SessionState, n: nat, now: nat)
    requires TimelineInv(s.tl) && (s.d.inactive ==> s.tl.index > 0)
    ensures Actives(Uninhibited(c, s, n, now).d.log) == Actives(s.d.log) +
            if n == 0 && s.d.inactive then [s.d.idle && s.tl.timeouts[s.tl.index - 1] != c.idleSec] else []
  {
    if n == 0 {
      var last := s.(d := Emit(s.d.(inhibited := false), InhibitedHint(false)));
      assert Actives(last.d.log) == Actives(s.d.log);
      StartActives(c, last, now);
    }
  }

  lemma LastInhibitor(ids: set<Id>, id: Id)
    requires id in ids
    ensures |ids - {id}| == 0 <==> ids == {id}
  {
    if |ids - {id}| == 0 {
      assert ids - {id} == {};
    }
  }

  lemma LockActives(c: Config, s: SessionState, state: bool, now: nat)
    requires TimelineInv(s.tl) && (s.d.inactive ==> s.tl.index > 0)
    ensures Actives(Lock(c, s, state, now).d.log) == Actives(s.d.log) +
            if !state && s.d.locked && s.d.idle && s.d.inactive then [false] else []
  {
    if state != s.d.locked {
      var asked := s.(d := Emit(s.d.(locked := state), LockedHint(state)));
      assert Actives(asked.d.log) == Actives(s.d.log);
      if !state {
        UnidleActives(c, asked, now);
      }
    }
  }

  lemma SleepActives(c: Config, s: SessionState, state: bool, now: nat)
    requires TimelineInv(s.tl) && (s.d.inactive ==> s.tl.index > 0)
    ensures Actives(Sleep(c, s, state, now).d.log) == Actives(s.d.log) +
            if !state && s.d.idle && s.d.inactive then [false] else []
  {
    if state {
      var notice := Emit(s.d, StartUnit("user-sleep.target"));
      assert Actives(EmitIf(c.onSleep && !s.d.locked, notice, LockSession).log) == Actives(s.d.log);
    } else {
      UnidleActives(c, s, now);
    }
  }

  /** What the event adds to the Active signals. */
  predicate EmitsActive(c: Config, v: ServerState, e: Event)
    requires Inv(c, v) && Possible(v, e)
  {
    Actives(Step(c, v, e).s.d.log) == Actives(v.s.d.log) +
    if Starts(v, e) && v.s.d.inactive then [IdleAtActive(c, v, e)] else []
  }

  lemma WokenActives(c: Config, v: ServerState, now: nat)
    requires Inv(c, v) && Possible(v, Woken(now))
    ensures EmitsActive(c, v, Woken(now))
  {
    FireReadings(c, v.s.tl.timeouts[v.s.tl.index], v.s.d);
  }

  lemma AddActives(c: Config, v: ServerState, t: guint, now: nat)
    requires Inv(c, v) && Possible(v, AddCall(t, now))
    ensures EmitsActive(c, v, AddCall(t, now))
  {
    FireReadings(c, t, v.s.d);
  }

  lemma UninhibitActives(c: Config, v: ServerState, id: Id, now: nat)
    requires Inv(c, v) && Possible(v, UninhibitCall(id, now))
    ensures EmitsActive(c, v, UninhibitCall(id, now))
  {
    if id in v.ids {
      LastInhibitor(v.ids, id);
      UninhibitedActives(c, v.s.(d := Emit(v.s.d, UninhibitSignal(|v.ids - {id}|))), |v.ids - {id}|, now);
    }
  }

  lemma StopInhibitorsActives(c: Config, v: ServerState, now: nat)
    requires Inv(c, v) && Possible(v, StopInhibitorsCall(now))
    ensures EmitsActive(c, v, StopInhibitorsCall(now))
  {
    CountdownActives(v.s.d, |v.ids|, 0);
    UninhibitedActives(c, v.s.(d := Countdown(v.s.d, |v.ids|, 0)), 0, now);
  }

  /**
   * One Active signal per resumption: an event emits one exactly when it starts the timeline of an inactive session,
   * and no event emits two. The idle hint is still true at that signal, against the interface, exactly
   * when idleness had set in before the last fired timeout and no unlock or wake from sleep ended it first.
   */
  lemma OneActivePerEvent(c: Config, v: ServerState, e: Event)
    requires Inv(c, v) && Possible(v, e)
    ensures Actives(Step(c, v, e).s.d.log) == Actives(v.s.d.log) +
            if Starts(v, e) && v.s.d.inactive then [IdleAtActive(c, v, e)] else []
  {
    assert EmitsActive(c, v, e) by {
      match e
      case Input(now) => StartActives(c, v.s, now);
      case Woken(now) => WokenActives(c, v, now);
      case LockRequest(state, now) => LockActives(c, v.s, state, now);
      case SleepNotice(state, now) => SleepActives(c, v.s, state, now);
      case UninhibitCall(id, now) => UninhibitActives(c, v, id, now);
      case StopInhibitorsCall(now) => StopInhibitorsActives(c, v, now);
      case AddCall(t, now) => AddActives(c, v, t, now);
      case _ =>
    }
  }

  // ---------------------------------------------------------------- waking

  /**
   * A wake is never early and always makes progress. Before its timeout is due it calls back for nothing and arms the
   * positive rest of the delay. Otherwise exactly the next timeout is called with TRUE, and the source is
   * armed for the one after it - with the time left to it, if and only if that one is not overdue as well.
   */
  lemma WakeExact(c: Config, s: SessionState, now: nat)
    requires TimelineInv(s.tl) && s.tl.clock <= now && s.tl.armed.Some?
    ensures var r := Wake(c, s, now);
            var inactive := InactiveSec(now, s.tl.since);
            var i := s.tl.index;
            var ts := s.tl.timeouts;
            if inactive < ts[i] then
              r.d == s.d && r.tl.index == i && r.tl.armed == Some(ts[i] - inactive)
            else
              && Calls(r.d.log) == Calls(s.d.log) + [Call(ts[i], true)]
              && ts[i] * SECOND <= now - s.tl.since
              && r.tl.index == i + 1 && r.tl.running
              && (i + 1 == |ts| ==> r.tl.armed == None && r.tl.since == -1)
              && (i + 1 < |ts| ==>
                    && r.tl.armed.Some? && r.tl.since == s.tl.since
                    && (r.tl.armed.value == ts[i + 1] - inactive <==> inactive <= ts[i + 1])
                    && (inactive > ts[i + 1] ==> r.tl.armed.value == GUINT_RANGE - (inactive - ts[i + 1])))
  {
    var inactive := InactiveSec(now, s.tl.since);
    var t := s.tl.timeouts[s.tl.index];
    if inactive >= t {
      FireReadings(c, t, s.d);
      NeverEarly(now, s.tl.since, t);
      if s.tl.index + 1 < |s.tl.timeouts| {
        MinusWraps(s.tl.timeouts[s.tl.index + 1], inactive);
      }
    }
  }

  /** The TRUE callbacks of ts[i..j], in order. */
  function CalledBetween(ts: seq<guint>, i: nat, j: nat): seq<Call>
    requires i <= j <= |ts|
  {
    seq(j - i, n requires 0 <= n < j - i => Call(ts[i + n], true))
  }

  /** A quiet period: the source is dispatched, devices change, and nothing else happens. */
  predicate Quiet(es: seq<Event>) {
    forall e :: e in es ==> e.Woken? || e.DeviceChange?
  }

  /**
   * Between two states of a quiet period the callbacks are TRUE for the next timeouts of the array, each once and in
   * order, and each had been due since the same start.
   */
  predicate QuietBetween(s: SessionState, r: SessionState) {
    && r.tl.timeouts == s.tl.timeouts && s.tl.index <= r.tl.index <= |s.tl.timeouts|
    && Calls(r.d.log) == Calls(s.d.log) + CalledBetween(s.tl.timeouts, s.tl.index, r.tl.index)
    && s.tl.clock <= r.tl.clock
    && (forall i :: s.tl.index <= i < r.tl.index ==> s.tl.timeouts[i] * SECOND <= r.tl.clock - s.tl.since)
    && (r.tl.armed.Some? ==> r.tl.since == s.tl.since)
  }

  lemma QuietJoins(s: SessionState, m: SessionState, r: SessionState)
    requires QuietBetween(s, m) && QuietBetween(m, r) && (m.tl.armed.None? ==> r.tl == m.tl)
    requires m.tl.armed.Some? ==> m.tl.since == s.tl.since
    ensures QuietBetween(s, r)
  {
    assert CalledBetween(s.tl.timeouts, s.tl.index, r.tl.index)
        == CalledBetween(s.tl.timeouts, s.tl.index, m.tl.index) + CalledBetween(s.tl.timeouts, m.tl.index, r.tl.index);
  }

  lemma QuietStep(c: Config, v: ServerState, e: Event)
    requires Inv(c, v) && Possible(v, e) && (e.Woken? || e.DeviceChange?)
    ensures QuietBetween(v.s, Step(c, v, e).s)
    ensures v.s.tl.armed.None? ==> Step(c, v, e).s.tl == v.s.tl
  {
    if e.Woken? {
      WakeExact(c, v.s, e.now);
    }
  }

  lemma QuietTail(es: seq<Event>)
    requires Quiet(es) && es != []
    ensures (es[0].Woken? || es[0].DeviceChange?) && Quiet(es[1..])
  {
    assert es[0] in es;
    forall e | e in es[1..] ensures e.Woken? || e.DeviceChange? {
      assert e in es;
    }
  }

  /**
   * Over every quiet period the callbacks are TRUE for the next timeouts, in strictly ascending order, and none of
   * them came before that many seconds had passed since the period started.
   */
  lemma {:induction false} QuietPeriodAscends(c: Config, v: ServerState, es: seq<Event>)
    requires Inv(c, v) && Feasible(c, v, es) && Quiet(es)
    ensures var r := Run(c, v, es);
            && QuietBetween(v.s, r.s)
            && (v.s.tl.index < r.s.tl.index ==> Ascending(v.s.tl.timeouts))
            && (v.s.tl.armed.None? ==> r.s.tl == v.s.tl)
    decreases |es|
  {
    if es == [] {
      assert CalledBetween(v.s.tl.timeouts, v.s.tl.index, v.s.tl.index) == [];
    } else {
      StepKeepsInv(c, v, es[0]);
      QuietTail(es);
      var v' := Step(c, v, es[0]);
      QuietStep(c, v, es[0]);
      QuietPeriodAscends(c, v', es[1..]);
      QuietJoins(v.s, v'.s, Run(c, v', es[1..]).s);
    }
  }

  // ---------------------------------------------------------------- changing the timeouts

  /**
   * timeline_add_timeout stays within the array if and only if the new timeout, or any other, is not due yet. All are
   * due in particular once everything has fired, when the seconds are those since the clock began.
   */
  lemma AddableExact(tl: TimelineState, t: guint, now: nat)
    requires TimelineInv(tl) && tl.running && t !in tl.timeouts
    requires tl.clock <= now && |tl.timeouts| + 1 < GUINT_RANGE
    ensures var inactive := InactiveSec(now, tl.since);
            Addable(tl, t, now) <==> inactive < t || exists i :: 0 <= i < |tl.timeouts| && inactive < tl.timeouts[i]
  {
    var ts := Sort(tl.timeouts + [t]);
    var inactive := InactiveSec(now, tl.since);
    var n := CountDue(ts, inactive);
    SortAscends(tl.timeouts + [t]);
    SortMembers(tl.timeouts + [t]);
    DuePrefix(ts, inactive);
    if n < |ts| {
      assert ts[n] in ts && ts[n] > inactive;
    } else {
      assert forall x :: x in ts ==> x <= inactive;
      assert t in tl.timeouts + [t];
      forall i | 0 <= i < |tl.timeouts| ensures tl.timeouts[i] <= inactive {
        assert tl.timeouts[i] in tl.timeouts + [t];
      }
    }
  }

  /**
   * Adding a new timeout to a running timeline stays within the array and keeps the session's invariant if and only
   * if the array is split at the seconds measured: a source is armed, the next timeout is still pending, and the
   * fired ones are due.
   */
  lemma AddExact(c: Config, s: SessionState, t: guint, now: nat)
    requires SessionInv(c, s) && s.tl.running && t !in s.tl.timeouts
    requires s.tl.clock <= now && |s.tl.timeouts| + 1 < GUINT_RANGE
    ensures Addable(s.tl, t, now) && SessionInv(c, Add(c, s, t, now)) <==> SplitAt(s.tl, now)
  {
    if SplitAt(s.tl, now) {
      SplitAllowsAdd(s.tl, t, now);
      AddKeeps(c, s, t, now);
    } else if s.tl.armed.Some? && Addable(s.tl, t, now) {
      AddOffSplit(c, s, t, now);
    }
  }

  lemma AddOffSplit(c: Config, s: SessionState, t: guint, now: nat)
    requires SessionInv(c, s) && s.tl.armed.Some? && t !in s.tl.timeouts
    requires s.tl.clock <= now && |s.tl.timeouts| + 1 < GUINT_RANGE
    requires Addable(s.tl, t, now) && !SplitAt(s.tl, now)
    ensures var r := Add(c, s, t, now);
            r.tl.index <= |r.tl.timeouts| && !Paired(r)
  {
    var r := Add(c, s, t, now);
    var inactive := InactiveSec(now, s.tl.since);
    SortAscends(s.tl.timeouts + [t]);
    SortMembers(s.tl.timeouts + [t]);
    DuePrefix(r.tl.timeouts, inactive);
    DueMembers(r.tl.timeouts, r.tl.index, inactive);
    FireReadings(c, t, s.d);
    OpenStep(Calls(s.d.log), Call(t, true));
    var fired := Fired(s.tl.timeouts, s.tl.index);
    if s.tl.timeouts[s.tl.index] <= inactive {
      var x := s.tl.timeouts[s.tl.index];
      assert x in Fired(r.tl.timeouts, r.tl.index) && x !in fired + {t};
    } else {
      var i :| 0 <= i < s.tl.index && s.tl.timeouts[i] > inactive;
      var x := s.tl.timeouts[i];
      assert x in fired && x !in Fired(r.tl.timeouts, r.tl.index);
    }
  }

  /**
   * Such an add leaves the array ascending and without repetition; the fired prefix gains the new timeout if and only
   * if it is due already, and only then its TRUE is delivered; the source is armed for the least pending one.
   */
  lemma AddKeepsSplit(c: Config, s: SessionState, t: guint, now: nat)
    requires SessionInv(c, s) && s.tl.running && t !in s.tl.timeouts
    requires s.tl.clock <= now && |s.tl.timeouts| + 1 < GUINT_RANGE && SplitAt(s.tl, now)
    ensures var r := Add(c, s, t, now);
            var inactive := InactiveSec(now, s.tl.since);
            && Ascending(r.tl.timeouts) && (forall x :: x in r.tl.timeouts <==> x in s.tl.timeouts || x == t)
            && Fired(r.tl.timeouts, r.tl.index)
               == Fired(s.tl.timeouts, s.tl.index) + (if t <= inactive then {t} else {})
            && Calls(r.d.log) == Calls(s.d.log) + (if t <= inactive then [Call(t, true)] else [])
            && r.tl.index < |r.tl.timeouts| && r.tl.armed == Some(r.tl.timeouts[r.tl.index] - inactive)
            && r.tl.timeouts[r.tl.index] > inactive
  {
    AddedArray(s.tl, t, now);
    AddedState(c, s, t, now);
    FireReadings(c, t, s.d);
  }

  /** The parts of the state after adding to a running timeline. */
  lemma AddedState(c: Config, s: SessionState, t: guint, now: nat)
    requires SessionInv(c, s) && s.tl.running && t !in s.tl.timeouts
    requires s.tl.clock <= now && |s.tl.timeouts| + 1 < GUINT_RANGE && SplitAt(s.tl, now)
    ensures var r, ts := Add(c, s, t, now), Sort(s.tl.timeouts + [t]);
            var inactive := InactiveSec(now, s.tl.since);
            var n := CountDue(ts, inactive);
            && r.tl.timeouts == ts && r.tl.index == n < |ts| && r.tl.armed == Some(ts[n] - inactive)
            && r.d == if t <= inactive then Fire(c, t, s.d) else s.d
  {
    AddedArray(s.tl, t, now);
    var ts := Sort(s.tl.timeouts + [t]);
    var inactive := InactiveSec(now, s.tl.since);
    MinusWraps(ts[CountDue(ts, inactive)], inactive);
  }

  /** The other timeouts stay on their side of the split. */
  predicate KeepsSides(tl: TimelineState, tl': TimelineState, t: guint)
    requires tl.index <= |tl.timeouts|
  {
    && tl'.index <= |tl'.timeouts|
    && forall x :: x in tl.timeouts && x != t ==>
         x in tl'.timeouts && (x in tl'.timeouts[..tl'.index] <==> x in tl.timeouts[..tl.index])
  }

  lemma InPrefix(ts: seq<guint>, k: nat, n: nat)
    requires NoDuplicates(ts) && n < |ts| && k <= |ts|
    ensures ts[n] in ts[..k] <==> n < k
  {
    if n < k {
      assert ts[..k][n] == ts[n];
    }
  }

  /** Where the timeout at `n` is once the one at `i` is gone. */
  function Shifted(n: nat, i: nat): nat
    requires n != i
  {
    if n < i then n else n - 1
  }

  lemma RemovedArray(tl: TimelineState, t: guint)
    requires TimelineInv(tl) && t in tl.timeouts
    ensures var i := Position(tl.timeouts, t);
            var tl' := Removed(tl, t);
            && |tl'.timeouts| == |tl.timeouts| - 1 && NoDuplicates(tl'.timeouts)
            && (forall n :: 0 <= n < |tl.timeouts| && n != i ==> tl'.timeouts[Shifted(n, i)] == tl.timeouts[n])
            && tl'.index == if i > tl.index then tl.index else if tl.index > 0 then tl.index - 1 else GUINT_RANGE - 1
  {
    MinusWraps(tl.index, 1);
  }

  /**
   * Removing a timeout keeps all others on their side of the split if and only if it is not the one at the index:
   * that removal takes the last fired timeout for pending, or wraps the index around when nothing has fired.
   */
  lemma RemovalKeepsSides(tl: TimelineState, t: guint)
    requires TimelineInv(tl) && t in tl.timeouts
    ensures KeepsSides(tl, Removed(tl, t), t) <==> Position(tl.timeouts, t) != tl.index
  {
    var i := Position(tl.timeouts, t);
    RemovedArray(tl, t);
    if i != tl.index {
      forall x | x in tl.timeouts && x != t
        ensures var tl' := Removed(tl, t);
                x in tl'.timeouts && (x in tl'.timeouts[..tl'.index] <==> x in tl.timeouts[..tl.index])
      {
        var n :| 0 <= n < |tl.timeouts| && tl.timeouts[n] == x;
        RemainsOnSide(tl, t, n);
      }
    } else if i > 0 {
      LosesLastFired(tl, t);
    }
  }

  lemma RemainsOnSide(tl: TimelineState, t: guint, n: nat)
    requires TimelineInv(tl) && t in tl.timeouts && n < |tl.timeouts| && tl.timeouts[n] != t
    requires Position(tl.timeouts, t) != tl.index
    ensures var tl', x := Removed(tl, t), tl.timeouts[n];
            && tl'.index <= |tl'.timeouts|
            && x in tl'.timeouts && (x in tl'.timeouts[..tl'.index] <==> x in tl.timeouts[..tl.index])
  {
    var tl' := Removed(tl, t);
    RemovedArray(tl, t);
    InPrefix(tl.timeouts, tl.index, n);
    InPrefix(tl'.timeouts, tl'.index, Shifted(n, Position(tl.timeouts, t)));
  }

  /** Removing the timeout at the index takes the last fired one for pending. */
  lemma LosesLastFired(tl: TimelineState, t: guint)
    requires TimelineInv(tl) && t in tl.timeouts && Position(tl.timeouts, t) == tl.index > 0
    ensures var tl', x := Removed(tl, t), tl.timeouts[tl.index - 1];
            && tl'.index <= |tl'.timeouts|
            && x in tl.timeouts[..tl.index] && x !in tl'.timeouts[..tl'.index] && x != t
  {
    var tl' := Removed(tl, t);
    RemovedArray(tl, t);
    InPrefix(tl.timeouts, tl.index, tl.index - 1);
    InPrefix(tl'.timeouts, tl'.index, tl.index - 1);
  }

  /**
   * Removing a timeout keeps the session's invariant if and only if it is pending behind the next one: a fired timeout
   * that is removed never gets its FALSE.
   */
  lemma RemovalExact(c: Config, s: SessionState, t: guint)
    requires SessionInv(c, s) && t in s.tl.timeouts
    ensures SessionInv(c, s.(tl := Removed(s.tl, t))) <==> Position(s.tl.timeouts, t) > s.tl.index
  {
    var i := Position(s.tl.timeouts, t);
    var tl' := Removed(s.tl, t);
    RemovedArray(s.tl, t);
    if i > s.tl.index {
      RemoveKeeps(c, s, t);
    } else if i < s.tl.index {
      InPrefix(s.tl.timeouts, s.tl.index, i);
      assert t in Fired(s.tl.timeouts, s.tl.index);
      assert t !in tl'.timeouts[..tl'.index];
      assert t !in Fired(tl'.timeouts, tl'.index);
    } else if i > 0 {
      LosesLastFired(s.tl, t);
      var x := s.tl.timeouts[i - 1];
      assert x in Fired(s.tl.timeouts, s.tl.index) && x !in Fired(tl'.timeouts, tl'.index);
    }
  }

  // ---------------------------------------------------------------- inhibiting

  /** Some inhibitor is left after every event of the run. */
  predicate InhibitedThroughout(c: Config, v: ServerState, es: seq<Event>)
    requires Inv(c, v) && Feasible(c, v, es)
    decreases |es|
  {
    v.ids != {} &&
    (es == [] || (StepKeepsInv(c, v, es[0]); InhibitedThroughout(c, Step(c, v, es[0]), es[1..])))
  }

  /**
   * From a session that is inhibited while not idle, and until its last inhibitor goes, no source is armed
   * and the timeline calls back for nothing.
   */
  lemma {:induction false} QuietWhileInhibited(c: Config, v: ServerState, es: seq<Event>)
    requires Inv(c, v) && Feasible(c, v, es) && InhibitedThroughout(c, v, es)
    requires v.s.tl.armed.None? && !v.s.d.idle
    ensures var r := Run(c, v, es).s;
            r.tl.armed.None? && !r.d.idle && Calls(r.d.log) == Calls(v.s.d.log)
    decreases |es|
  {
    if es != [] {
      StepKeepsInv(c, v, es[0]);
      InhibitedStep(c, v, es[0]);
      QuietWhileInhibited(c, Step(c, v, es[0]), es[1..]);
    }
  }

  lemma InhibitedStep(c: Config, v: ServerState, e: Event)
    requires Inv(c, v) && Possible(v, e) && v.ids != {} && Step(c, v, e).ids != {}
    requires v.s.tl.armed.None? && !v.s.d.idle
    ensures var r := Step(c, v, e).s;
            r.tl.armed.None? && !r.d.idle && Calls(r.d.log) == Calls(v.s.d.log)
  {
    match e
    case UninhibitCall(id, now) =>
      if id in v.ids {
        LastInhibitor(v.ids, id);
      }
    case SleepNotice(state, now) =>
      if state {
        var notice := Emit(v.s.d, StartUnit("user-sleep.target"));
        assert Calls(EmitIf(c.onSleep && !v.s.d.locked, notice, LockSession).log) == Calls(v.s.d.log);
      }
    case LockRequest(state, now) =>
      var asked := Emit(v.s.d.(locked := state), LockedHint(state));
      assert Calls(asked.log) == Calls(v.s.d.log);
    case _ =>
  }

  /** Inhibiting disarms the timeline at once, and says so: what the theorem above starts from. */
  lemma InhibitDisarms(c: Config, v: ServerState, id: Id)
    requires Inv(c, v) && id !in v.ids
    ensures var r := Inhibit(v, id);
            && Inv(c, r) && r.s.tl.armed.None? && r.s.d.inhibited && !r.s.d.inactive
            && r.s.d.idle == v.s.d.idle && Calls(r.s.d.log) == Calls(v.s.d.log)
            && (r.s.tl.running <==> v.s.tl.running && v.s.tl.index > 0)
  {
    InhibitKeeps(c, v.s);
  }

  /**
   * The restriction to a session that is not idle is exact: an inhibited and disarmed session is armed again by a
   * wake from sleep, or by an unlock, if and only if it is idle.
   */
  lemma IdleRearmsWhileInhibited(c: Config, v: ServerState, now: nat)
    requires Inv(c, v) && v.ids != {} && v.s.tl.armed.None? && v.s.tl.clock <= now
    ensures var woken := Step(c, v, SleepNotice(false, now));
            woken.s.d.inhibited && (woken.s.tl.armed.Some? <==> v.s.d.idle)
    ensures v.s.d.locked ==>
            var unlocked := Step(c, v, LockRequest(false, now));
            unlocked.s.d.inhibited && (unlocked.s.tl.armed.Some? <==> v.s.d.idle)
  {
    SleepKeeps(c, v.s, false, now);
    LockKeeps(c, v.s, false, now);
  }

  /** The counts signalled as inhibitors go. */
  function Remaining(log: Log): seq<nat> {
    match log
    case Silence => []
    case Then(before, UninhibitSignal(n)) => Remaining(before) + [n]
    case Then(before, _) => Remaining(before)
  }

  lemma UndoRemaining(c: Config, t: guint, d: DaemonState)
    ensures Remaining(Undo(c, t, d).log) == Remaining(d.log)
  {
  }

  lemma {:induction false} UnwindRemaining(c: Config, ts: seq<guint>, k: nat, d: DaemonState)
    requires k <= |ts|
    ensures Remaining(Unwind(c, ts, k, d).log) == Remaining(d.log)
    decreases k
  {
    if k == 0 {
    } else {
      var d1 := Emit(d, Callback(ts[k - 1], false));
      if ts[k - 1] == c.idleSec && d.idle {
        UnwindRemaining(c, ts, k - 1, LeaveIdle(d1));
        var nested := AfterLeaveIdle(c, Unwind(c, ts, k - 1, LeaveIdle(d1)));
        assert Remaining(LeaveIdle(d1).log) == Remaining(d.log);
        assert Remaining(nested.log) == Remaining(d.log);
        UndoRemaining(c, ts[k - 1], nested);
      } else {
        UndoRemaining(c, ts[k - 1], d1);
        UnwindRemaining(c, ts, k - 1, Undo(c, ts[k - 1], d1));
      }
    }
  }

  lemma {:induction false} CountdownRemaining(d: DaemonState, k: nat, n: nat)
    requires n <= k
    ensures Remaining(Countdown(d, k, n).log) == Remaining(d.log) + seq(k - n, i requires 0 <= i < k - n => k - 1 - i)
    decreases k - n
  {
    if n < k {
      CountdownRemaining(d, k, n + 1);
    }
  }

  /**
   * Stopping k > 0 inhibitors signals the counts k-1 down to 0, empties the table, ends the inhibition, and starts the
   * timeline exactly once: what had fired is taken back once, and one source is armed for the least timeout.
   */
  lemma StopInhibitorsExact(c: Config, v: ServerState, now: nat)
    requires Inv(c, v) && v.ids != {} && v.s.tl.clock <= now && v.s.tl.timeouts != []
    ensures var k := |v.ids|;
            var r := StopInhibitors(c, v, now);
            && Remaining(r.s.d.log) == Remaining(v.s.d.log) + seq(k, i requires 0 <= i < k => k - 1 - i)
            && r.ids == {} && !r.s.d.inhibited && !r.s.d.idle
            && Calls(r.s.d.log) == Calls(v.s.d.log) + TakenBack(v.s.tl.timeouts, v.s.tl.index)
            && r.s.tl == Restarted(r.s.tl, now) && Sorted(r.s.tl.timeouts)
  {
    var d := CountedDown(c, v);
    StartResets(c, v.s.(d := d), now);
    StartRecords(c, v.s.(d := d), now);
  }

  /** What the daemon is like when the last count has been signalled and the timeline is about to start. */
  lemma CountedDown(c: Config, v: ServerState) returns (d: DaemonState)
    requires Inv(c, v)
    ensures d == Emit(Countdown(v.s.d, |v.ids|, 0).(inhibited := false), InhibitedHint(false))
    ensures SessionInv(c, v.s.(d := d)) && !d.inhibited && Calls(d.log) == Calls(v.s.d.log)
    ensures var k := |v.ids|;
            Remaining(d.log) == Remaining(v.s.d.log) + seq(k, i requires 0 <= i < k => k - 1 - i)
  {
    d := Emit(Countdown(v.s.d, |v.ids|, 0).(inhibited := false), InhibitedHint(false));
    CountdownRemaining(v.s.d, |v.ids|, 0);
    CountdownKeeps(c, v.s, |v.ids|, 0);
    CountdownCalls(v.s.d, |v.ids|, 0);
  }

  lemma StartRecords(c: Config, s: SessionState, now: nat)
    requires Startable(s.tl)
    ensures var log := Start(c, s, now).d.log;
            && Remaining(log) == Remaining(s.d.log)
            && Calls(log) == Calls(s.d.log) + if s.tl.running then TakenBack(s.tl.timeouts, s.tl.index) else []
  {
    if s.tl.running {
      UnwindRemaining(c, s.tl.timeouts, s.tl.index, s.d);
      UnwindCalls(c, s.tl.timeouts, s.tl.index, s.d);
    }
  }

  lemma CountdownCalls(d: DaemonState, k: nat, n: nat)
    requires n <= k
    ensures Calls(Countdown(d, k, n).log) == Calls(d.log)
    decreases k - n
  {
  }
}
