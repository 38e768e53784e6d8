/** Runs of the session in which the code departs from its intent: what the exact conditions elsewhere shut out. */
module Departures {
  import opened Common
  import Backlights
  import opened Hooks
  import opened SessionModel
  import opened Unwinding
  import opened Runs
  import opened RunTheorems
  import opened TimerTheorems

  /** A session that becomes idle after `idle` seconds and has just been started. */
  predicate AtStart(c: Config, v: ServerState, idle: guint, ts: seq<guint>) {
    && c.idleSec == idle && v.ids == {} && Inv(c, v)
    && v.s.tl.running && v.s.tl.timeouts == ts && v.s.tl.index == 0 && v.s.tl.armed.Some?
    && v.s.tl.since == 0 && v.s.tl.clock == 0
    && Actives(v.s.d.log) == []
  }

  /** That is how init_timeline leaves it. */
  ghost predicate Boots(c: Config, v: ServerState) {
    |c.hooks| + 1 < GUINT_RANGE && v == Booted(c, map[], 0)
  }

  lemma SortOne(a: guint)
    ensures Sort([a]) == [a]
  {
    assert [a][1..] == [];
    assert Sort([a]) == Insert(a, Sort([]));
  }

  lemma SortPair(a: guint, b: guint)
    requires a < b
    ensures Sort([a, b]) == [a, b] && Sort([b, a]) == [a, b]
  {
    SortOne(a);
    SortOne(b);
    assert [a, b][1..] == [b] && [b, a][1..] == [a];
    assert Insert(a, [b]) == [a] + [b];
    assert [a][1..] == [] && Insert(b, [a]) == [a] + Insert(b, []);
  }

  lemma HookTimeout(h: Hook)
    requires h.trigger == OnInactive
    ensures Timeouts([h]) == [h.inactiveSec]
  {
    assert [h][..0] == [] && Timeouts([]) == [];
  }

  lemma CollectedOne(a: guint, b: guint)
    requires a != b
    ensures Collected([a], []) == [a] && Collected([a], [b]) == [a, b]
  {
    var none: seq<guint> :| none == [];
    CollectedStep([a], none, b);
    assert none + [b] == [b] && [a] + [b] == [a, b];
  }

  /** The idle timeout, and a hook that waits longer. */
  lemma BootedPair(a: guint, b: guint) returns (c: Config, v: ServerState)
    requires a < b
    ensures Boots(c, v) && AtStart(c, v, a, [a, b])
  {
    var h := Hook(OnInactive, b, None, None);
    c := Config(a, false, false, map[], [h]);
    v := Booted(c, map[], 0);
    HookTimeout(h);
    CollectedOne(a, b);
    SortPair(a, b);
  }

  /** The idle timeout alone. */
  lemma BootedAlone(a: guint) returns (c: Config, v: ServerState)
    ensures Boots(c, v) && AtStart(c, v, a, [a])
  {
    c := Config(a, false, false, map[], []);
    v := Booted(c, map[], 0);
    SortOne(a);
  }

  /** The run leads from `v` to `r`. */
  ghost predicate Reaches(c: Config, v: ServerState, es: seq<Event>, r: ServerState) {
    Inv(c, v) && Feasible(c, v, es) && r == Run(c, v, es)
  }

  lemma ReachesOne(c: Config, v: ServerState, e: Event)
    requires Inv(c, v) && Possible(v, e)
    ensures Reaches(c, v, [e], Step(c, v, e)) && Inv(c, Step(c, v, e))
  {
    StepKeepsInv(c, v, e);
    assert [e][1..] == [];
  }

  lemma ReachesMore(c: Config, v: ServerState, e: Event, es: seq<Event>, r: ServerState)
    requires Inv(c, v) && Possible(v, e) && Reaches(c, Step(c, v, e), es, r)
    ensures Reaches(c, v, [e] + es, r)
  {
    assert ([e] + es)[1..] == es;
  }

  // ---------------------------------------------------------------- runs of two timeouts

  /** The next timeout fires in time. */
  lemma NextFires(c: Config, v: ServerState, t: guint, now: nat) returns (r: ServerState)
    requires Inv(c, v) && v.s.tl.armed.Some? && v.s.tl.clock <= now
    requires v.s.tl.timeouts[v.s.tl.index] == t == InactiveSec(now, v.s.tl.since)
    ensures Possible(v, Woken(now)) && r == Step(c, v, Woken(now)) && Inv(c, r) && r.ids == v.ids
    ensures r.s.tl.timeouts == v.s.tl.timeouts && r.s.tl.index == v.s.tl.index + 1
    ensures r.s.tl.running && r.s.tl.clock == now
    ensures if r.s.tl.index < |r.s.tl.timeouts| then r.s.tl.armed.Some? && r.s.tl.since == v.s.tl.since
            else r.s.tl.armed == None && r.s.tl.since == -1
    ensures r.s.d.idle == (v.s.d.idle || t == c.idleSec) && r.s.d.inactive && r.s.d.inhibited == v.s.d.inhibited
    ensures Actives(r.s.d.log) == Actives(v.s.d.log)
  {
    r := Step(c, v, Woken(now));
    StepKeepsInv(c, v, Woken(now));
    WakeExact(c, v.s, now);
    FireReadings(c, t, v.s.d);
    FireState(c, t, v.s.d);
  }

  lemma RemovedKeepsIdle(c: Config, s: SessionState, a: guint, b: guint, now: nat)
    requires s.tl.timeouts == [a, b] && s.tl.index == 1 && s.tl.running && s.d.idle
    ensures var removed := s.(tl := Removed(s.tl, a));
            Startable(removed.tl) && Activity(c, removed, now).d.idle
  {
    var removed := s.(tl := Removed(s.tl, a));
    MinusWraps(1, 1);
    assert Position(s.tl.timeouts, a) == 0;
    assert removed.tl.timeouts == [b] && removed.tl.index == 0;
  }

  lemma LateWake(c: Config, v: ServerState, a: guint, b: guint, now: nat, late: guint) returns (r: ServerState)
    requires AtStart(c, v, a, [a, b]) && a < b < late && InactiveSec(now, 0) == late
    ensures Possible(v, Woken(now)) && r == Step(c, v, Woken(now))
    ensures r.s.tl.armed == Some(GUINT_RANGE - (late - b))
  {
    r := Step(c, v, Woken(now));
    WakeExact(c, v.s, now);
  }

  lemma AddAfterAll(c: Config, v: ServerState, a: guint, wake: nat, t: guint, now: nat) returns (r: ServerState)
    requires AtStart(c, v, a, [a]) && InactiveSec(wake, 0) == a && t != a
    requires wake <= now && InactiveSec(now, -1) >= a && InactiveSec(now, -1) >= t
    ensures Possible(v, Woken(wake)) && r == Step(c, v, Woken(wake))
    ensures AddReady(r.s.tl, t, now) && !Addable(r.s.tl, t, now)
  {
    r := NextFires(c, v, a, wake);
    AddableExact(r.s.tl, t, now);
  }

  lemma SleepArms(c: Config, v: ServerState, id: Id, now: nat) returns (es: seq<Event>, r: ServerState)
    requires Inv(c, v) && v.ids == {} && v.s.d.idle && v.s.tl.clock <= now
    ensures es == [InhibitCall(id), SleepNotice(false, now)] && Reaches(c, v, es, r)
    ensures r.s.d.inhibited && r.ids == {id} && r.s.tl.armed.Some?
  {
    var inhibited := Step(c, v, InhibitCall(id));
    InhibitDisarms(c, v, id);
    r := Step(c, inhibited, SleepNotice(false, now));
    ReachesOne(c, inhibited, SleepNotice(false, now));
    ReachesMore(c, v, InhibitCall(id), [SleepNotice(false, now)], r);
    IdleRearmsWhileInhibited(c, inhibited, now);
    es := [InhibitCall(id)] + [SleepNotice(false, now)];
  }

  lemma InputActivates(c: Config, v: ServerState, all: ServerState, now: nat, input: nat)
    returns (es: seq<Event>, r: ServerState)
    requires Inv(c, v) && Possible(v, Woken(now)) && all == Step(c, v, Woken(now)) && all.s.tl.clock <= input
    requires 0 < all.s.tl.index <= |all.s.tl.timeouts| && all.s.tl.timeouts[all.s.tl.index - 1] != c.idleSec
    requires all.s.d.idle && all.s.d.inactive && !all.s.d.inhibited && Actives(all.s.d.log) == []
    ensures es == [Woken(now), Input(input)] && Reaches(c, v, es, r) && Actives(r.s.d.log) == [true]
  {
    StepKeepsInv(c, v, Woken(now));
    r := Step(c, all, Input(input));
    OneActivePerEvent(c, all, Input(input));
    ReachesOne(c, all, Input(input));
    ReachesMore(c, v, Woken(now), [Input(input)], r);
    es := [Woken(now)] + [Input(input)];
  }

  lemma AfterWake(c: Config, v: ServerState, m: ServerState, now: nat, es: seq<Event>, r: ServerState)
    returns (all: seq<Event>)
    requires Inv(c, v) && Possible(v, Woken(now)) && m == Step(c, v, Woken(now)) && Reaches(c, m, es, r)
    ensures all == [Woken(now)] + es && Reaches(c, v, all, r)
  {
    ReachesMore(c, v, Woken(now), es, r);
    all := [Woken(now)] + es;
  }

  // ---------------------------------------------------------------- departures

  /** Removing the next timeout when nothing has fired wraps the index: src/timeline.c:147. */
  lemma RemovalWrapsIndex() returns (c: Config, v: ServerState)
    ensures Boots(c, v) && v.s.tl.timeouts == [5, 10] && Removed(v.s.tl, 5).index == GUINT_RANGE - 1
  {
    c, v := BootedPair(5, 10);
    MinusWraps(0, 1);
  }

  /** Removing the idle timeout once it has fired leaves the session idle, whatever activity follows. */
  lemma RemovalLeavesIdle(now: nat) returns (c: Config, v: ServerState, es: seq<Event>, r: ServerState)
    ensures Boots(c, v) && c.idleSec == 5 && v.s.tl.timeouts == [5, 10]
    ensures es == [Woken(5 * SECOND)] && Reaches(c, v, es, r)
    ensures var removed := r.s.(tl := Removed(r.s.tl, 5));
            Startable(removed.tl) && Activity(c, removed, now).d.idle
  {
    var wake :| wake == 5 * SECOND;
    c, v := BootedPair(5, 10);
    r := NextFires(c, v, 5, wake);
    es := [Woken(wake)];
    ReachesOne(c, v, Woken(wake));
    RemovedKeepsIdle(c, r.s, 5, 10, now);
  }

  /** A wake so late that the second timeout is overdue by 94 seconds arms a delay of a century: src/timeline.c:65. */
  lemma LateWakeWraps() returns (c: Config, v: ServerState, es: seq<Event>, r: ServerState)
    ensures Boots(c, v) && c.idleSec == 5 && v.s.tl.timeouts == [5, 6]
    ensures es == [Woken(100 * SECOND)] && Reaches(c, v, es, r)
    ensures r.s.tl.armed == Some(GUINT_RANGE - 94)
  {
    var wake :| wake == 100 * SECOND;
    c, v := BootedPair(5, 6);
    r := LateWake(c, v, 5, 6, wake, 100);
    es := [Woken(wake)];
    ReachesOne(c, v, Woken(wake));
  }

  /** Once everything has fired, a new timeout is due by the age of the clock, and so are all: src/timeline.c:135. */
  lemma AddReadsPastEnd() returns (c: Config, v: ServerState, es: seq<Event>, r: ServerState)
    ensures Boots(c, v) && c.idleSec == 5 && v.s.tl.timeouts == [5]
    ensures es == [Woken(5 * SECOND)] && Reaches(c, v, es, r)
    ensures AddReady(r.s.tl, 3, 10 * SECOND) && !Addable(r.s.tl, 3, 10 * SECOND)
  {
    var wake, now :| wake == 5 * SECOND && now == 10 * SECOND;
    c, v := BootedAlone(5);
    r := AddAfterAll(c, v, 5, wake, 3, now);
    es := [Woken(wake)];
    ReachesOne(c, v, Woken(wake));
  }

  lemma InhibitedRun(c: Config, v: ServerState, idle: guint, hook: guint, wake: nat, id: Id, back: nat)
    returns (es: seq<Event>, r: ServerState)
    requires AtStart(c, v, idle, [idle, hook]) && idle < hook && InactiveSec(wake, 0) == idle && wake <= back
    ensures es == [Woken(wake), InhibitCall(id), SleepNotice(false, back)] && Reaches(c, v, es, r)
    ensures r.s.d.inhibited && r.ids == {id} && r.s.tl.armed.Some?
  {
    var fired := NextFires(c, v, idle, wake);
    es, r := SleepArms(c, fired, id, back);
    es := AfterWake(c, v, fired, wake, es, r);
  }

  /** An idle session that is inhibited is armed again by waking from sleep: src/sessiond.c:239-240. */
  lemma InhibitedYetArmed() returns (c: Config, v: ServerState, es: seq<Event>, r: ServerState)
    ensures Boots(c, v) && c.idleSec == 5
    ensures es == [Woken(5 * SECOND), InhibitCall("a"), SleepNotice(false, 6 * SECOND)] && Reaches(c, v, es, r)
    ensures r.s.d.inhibited && r.ids == {"a"} && r.s.tl.armed.Some?
  {
    var idle: guint, hook: guint, wake, back, id :|
      idle == 5 && hook == 10 && wake == 5 * SECOND && back == 6 * SECOND && id == "a";
    c, v := BootedPair(idle, hook);
    es, r := InhibitedRun(c, v, idle, hook, wake, id, back);
  }

  lemma ActiveRun(c: Config, v: ServerState, idle: guint, hook: guint, wake: nat, again: nat, input: nat)
    returns (es: seq<Event>, r: ServerState)
    requires AtStart(c, v, idle, [idle, hook]) && idle < hook
    requires InactiveSec(wake, 0) == idle && InactiveSec(again, 0) == hook && wake <= again <= input
    ensures es == [Woken(wake), Woken(again), Input(input)] && Reaches(c, v, es, r)
    ensures Actives(r.s.d.log) == [true]
  {
    var fired := NextFires(c, v, idle, wake);
    var all := NextFires(c, fired, hook, again);
    es, r := InputActivates(c, fired, all, again, input);
    es := AfterWake(c, v, fired, wake, es, r);
  }

  /** With a hook behind the idle timeout, Active comes while IdleHint is true: man/sessiond-dbus.8.pod:134-137. */
  lemma ActiveWhileIdle() returns (c: Config, v: ServerState, es: seq<Event>, r: ServerState)
    ensures Boots(c, v) && c.idleSec == 5 && v.s.tl.timeouts == [5, 10]
    ensures es == [Woken(5 * SECOND), Woken(10 * SECOND), Input(11 * SECOND)] && Reaches(c, v, es, r)
    ensures Actives(r.s.d.log) == [true]
  {
    var idle: guint, hook: guint, wake, again, input :|
      idle == 5 && hook == 10 && wake == 5 * SECOND && again == 10 * SECOND && input == 11 * SECOND;
    c, v := BootedPair(idle, hook);
    es, r := ActiveRun(c, v, idle, hook, wake, again, input);
  }
}
