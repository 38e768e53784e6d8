/**
 * What the re-entrant unwinding of a timeline amounts to: however the starts nest, the fired prefix is taken back
 * once and in reverse, idleness ends once, one Active signal is sent, and the devices are restored.
 */
module Unwinding {
  import opened Common
  import opened Backlights
  import opened SessionModel

  // ---------------------------------------------------------------- readings of the log

  datatype Call = Call(timeout: guint, state: bool)

  /** The callbacks of the timeline. */
  function Calls(log: Log): seq<Call> {
    match log
    case Silence => []
    case Then(before, Callback(t, state)) => Calls(before) + [Call(t, state)]
    case Then(before, _) => Calls(before)
  }

  /** The Active signals, each with the idle hint that held when it was sent. */
  function Actives(log: Log): seq<bool> {
    match log
    case Silence => []
    case Then(before, Active(idleHint)) => Actives(before) + [idleHint]
    case Then(before, _) => Actives(before)
  }

  function IdleHints(log: Log): seq<bool> {
    match log
    case Silence => []
    case Then(before, IdleHint(hint)) => IdleHints(before) + [hint]
    case Then(before, _) => IdleHints(before)
  }

  lemma UndoReadings(c: Config, t: guint, d: DaemonState)
    ensures var u := Undo(c, t, d).log;
            && Calls(u) == Calls(d.log) && IdleHints(u) == IdleHints(d.log)
            && Actives(u) == Actives(d.log) + if d.inactive then [d.idle] else []
  {
  }

  lemma LeaveIdleReadings(c: Config, d: DaemonState)
    ensures var l := LeaveIdle(d).log;
            && Calls(l) == Calls(d.log) && Actives(l) == Actives(d.log)
            && IdleHints(l) == IdleHints(d.log) + [false]
    ensures var a := AfterLeaveIdle(c, d).log;
            && Calls(a) == Calls(d.log) && Actives(a) == Actives(d.log)
            && IdleHints(a) == IdleHints(d.log)
  {
  }

  lemma BecomeIdleReadings(c: Config, d: DaemonState)
    ensures var i := BecomeIdle(c, d).log;
            && Calls(i) == Calls(d.log) && Actives(i) == Actives(d.log)
            && IdleHints(i) == IdleHints(d.log) + if !d.idle then [true] else []
  {
    if !d.idle {
      var started := Emit(Emit(d.(idle := true), IdleHint(true)), StartUnit("graphical-idle.target"));
      assert IdleHints(started.log) == IdleHints(d.log) + [true];
      assert Calls(started.log) == Calls(d.log) && Actives(started.log) == Actives(d.log);
    }
  }

  lemma FireReadings(c: Config, t: guint, d: DaemonState)
    ensures var f := Fire(c, t, d).log;
            && Calls(f) == Calls(d.log) + [Call(t, true)]
            && Actives(f) == Actives(d.log)
            && IdleHints(f) == IdleHints(d.log) + if t == c.idleSec && !d.idle then [true] else []
  {
    var d0 := Emit(d, Callback(t, true));
    BecomeIdleReadings(c, d0);
    var d1 := if t == c.idleSec then BecomeIdle(c, d0) else d0;
    assert Calls(d1.log) == Calls(d.log) + [Call(t, true)];
  }

  // ---------------------------------------------------------------- unwinding

  /** The FALSE callbacks of ts[..k], latest first. */
  function TakenBack(ts: seq<guint>, k: nat): seq<Call>
    requires k <= |ts|
  {
    seq(k, i requires 0 <= i < k => Call(ts[k - 1 - i], false))
  }

  /** The devices configured for one of the timeouts in ts[..k] are restored. */
  function RestoredDevices(cs: Confs, ts: seq<guint>, k: nat, devices: Devices): Devices
    requires k <= |ts|
  {
    map p | p in devices :: if p in cs && cs[p].dimSec in ts[..k] then Restore(devices[p]) else devices[p]
  }

  /** Every fired timeout gets its FALSE callback exactly once, in reverse order, whatever the nesting. */
  lemma {:induction false} UnwindCalls(c: Config, ts: seq<guint>, k: nat, d: DaemonState)
    requires k <= |ts|
    ensures Calls(Unwind(c, ts, k, d).log) == Calls(d.log) + TakenBack(ts, k)
    decreases k
  {
    if k == 0 {
    } else {
      var t := ts[k - 1];
      var d1 := Emit(d, Callback(t, false));
      assert TakenBack(ts, k) == [Call(t, false)] + TakenBack(ts, k - 1);
      if t == c.idleSec && d.idle {
        LeaveIdleReadings(c, d1);
        UnwindCalls(c, ts, k - 1, LeaveIdle(d1));
        var nested := Unwind(c, ts, k - 1, LeaveIdle(d1));
        LeaveIdleReadings(c, nested);
        UndoReadings(c, t, AfterLeaveIdle(c, nested));
      } else {
        UndoReadings(c, t, d1);
        UnwindCalls(c, ts, k - 1, Undo(c, t, d1));
      }
    }
  }

  /**
   * An unwinding ends idleness exactly when the idle timeout is among the fired ones, with one idle hint;
   * it ends inactivity when anything had fired; and it restores the devices.
   */
  lemma {:induction false} UnwindState(c: Config, ts: seq<guint>, k: nat, d: DaemonState)
    requires k <= |ts|
    ensures var u := Unwind(c, ts, k, d);
            && u.idle == (d.idle && c.idleSec !in ts[..k])
            && u.inactive == (d.inactive && k == 0)
            && u.inhibited == d.inhibited && u.locked == d.locked
            && u.devices == RestoredDevices(c.backlights, ts, k, d.devices)
            && IdleHints(u.log) == IdleHints(d.log) + if d.idle && c.idleSec in ts[..k] then [false] else []
    decreases k
  {
    if k == 0 {
      assert RestoredDevices(c.backlights, ts, k, d.devices) == d.devices;
    } else {
      var t := ts[k - 1];
      assert ts[..k] == ts[..k - 1] + [t];
      var d1 := Emit(d, Callback(t, false));
      RestoreStep(c.backlights, ts, k, d.devices);
      if t == c.idleSec && d.idle {
        LeaveIdleReadings(c, d1);
        UnwindState(c, ts, k - 1, LeaveIdle(d1));
        var nested := Unwind(c, ts, k - 1, LeaveIdle(d1));
        LeaveIdleReadings(c, nested);
        UndoReadings(c, t, AfterLeaveIdle(c, nested));
      } else {
        UndoReadings(c, t, d1);
        UnwindState(c, ts, k - 1, Undo(c, t, d1));
      }
    }
  }

  lemma RestoreStep(cs: Confs, ts: seq<guint>, k: nat, devices: Devices)
    requires 0 < k <= |ts|
    ensures RestoredDevices(cs, ts, k, devices)
         == RestoredDevices(cs, ts, k - 1, AfterTimeout(devices, cs, ts[k - 1], false))
    ensures RestoredDevices(cs, ts, k, devices)
         == AfterTimeout(RestoredDevices(cs, ts, k - 1, devices), cs, ts[k - 1], false)
  {
    assert ts[..k] == ts[..k - 1] + [ts[k - 1]];
  }

  /** What the FALSE callback of the idle timeout still emits after the nested start. */
  lemma NestedActives(c: Config, t: guint, nested: DaemonState)
    ensures Actives(Undo(c, t, AfterLeaveIdle(c, nested)).log) ==
            Actives(nested.log) + if nested.inactive then [nested.idle] else []
  {
    LeaveIdleReadings(c, nested);
    UndoReadings(c, t, AfterLeaveIdle(c, nested));
  }

  /**
   * One Active signal per resumption: exactly one when inactivity was signalled and something had fired, and none
   * otherwise. The session's idle hint is already false at that signal, as the interface promises, if and only if
   * the session was not idle or the idle timeout is the last one that fired.
   */
  lemma {:induction false} UnwindActives(c: Config, ts: seq<guint>, k: nat, d: DaemonState)
    requires k <= |ts|
    ensures Actives(Unwind(c, ts, k, d).log) == Actives(d.log) +
            if d.inactive && k > 0 then [d.idle && ts[k - 1] != c.idleSec] else []
    decreases k
  {
    if k == 0 {
    } else {
      var t := ts[k - 1];
      var d1 := Emit(d, Callback(t, false));
      if t == c.idleSec && d.idle {
        LeaveIdleReadings(c, d1);
        UnwindActives(c, ts, k - 1, LeaveIdle(d1));
        UnwindState(c, ts, k - 1, LeaveIdle(d1));
        NestedActives(c, t, Unwind(c, ts, k - 1, LeaveIdle(d1)));
      } else {
        UndoReadings(c, t, d1);
        UnwindActives(c, ts, k - 1, Undo(c, t, d1));
      }
    }
  }

  // ---------------------------------------------------------------- pairing

  /** The timeouts called with TRUE and not yet with FALSE; None once a call repeats or has nothing to undo. */
  function Open(calls: seq<Call>): Option<set<guint>> {
    if calls == [] then Some({})
    else
      var last := calls[|calls| - 1];
      match Open(calls[..|calls| - 1])
      case None => None
      case Some(open) =>
        if last.state == (last.timeout in open) then None
        else if last.state then Some(open + {last.timeout})
        else Some(open - {last.timeout})
  }

  lemma OpenStep(calls: seq<Call>, call: Call)
    ensures Open(calls + [call]) ==
            match Open(calls)
            case None => None
            case Some(open) =>
              if call.state == (call.timeout in open) then None
              else if call.state then Some(open + {call.timeout})
              else Some(open - {call.timeout})
  {
    assert (calls + [call])[..|calls|] == calls;
  }

  /** What one timeout sees of the callbacks. */
  function StatesOf(calls: seq<Call>, t: guint): seq<bool> {
    if calls == [] then []
    else
      var last := calls[|calls| - 1];
      var before := StatesOf(calls[..|calls| - 1], t);
      if last.timeout == t then before + [last.state] else before
  }

  /** TRUE, FALSE, TRUE, FALSE, ... */
  predicate Alternates(states: seq<bool>) {
    forall i :: 0 <= i < |states| ==> states[i] == (i % 2 == 0)
  }

  lemma AlternatesStep(states: seq<bool>, state: bool)
    ensures Alternates(states + [state]) <==> Alternates(states) && state == (|states| % 2 == 0)
  {
    if Alternates(states + [state]) {
      forall i | 0 <= i < |states| ensures states[i] == (i % 2 == 0) {
        assert (states + [state])[i] == states[i];
      }
      assert (states + [state])[|states|] == state;
    }
  }

  lemma {:induction false} OpenPairs(calls: seq<Call>, t: guint)
    requires Open(calls).Some?
    ensures Alternates(StatesOf(calls, t))
    ensures t in Open(calls).value <==> |StatesOf(calls, t)| % 2 == 1
  {
    if calls == [] {
    } else {
      var init, last := calls[..|calls| - 1], calls[|calls| - 1];
      OpenPairs(init, t);
      AlternatesStep(StatesOf(init, t), last.state);
    }
  }

  lemma {:induction false} Unpaired(calls: seq<Call>) returns (t: guint)
    requires Open(calls).None?
    ensures !Alternates(StatesOf(calls, t))
  {
    var init, last := calls[..|calls| - 1], calls[|calls| - 1];
    if Open(init).Some? {
      t := last.timeout;
      OpenPairs(init, t);
    } else {
      t := Unpaired(init);
    }
    AlternatesStep(StatesOf(init, t), last.state);
  }

  /** Open is the alternation of TRUE and FALSE seen by every single timeout, and collects those left at TRUE. */
  lemma OpenMeansPaired(calls: seq<Call>)
    ensures Open(calls).Some? <==> forall t: guint :: Alternates(StatesOf(calls, t))
    ensures Open(calls).Some? ==> forall t: guint :: t in Open(calls).value <==> |StatesOf(calls, t)| % 2 == 1
  {
    if Open(calls).Some? {
      forall t: guint
        ensures Alternates(StatesOf(calls, t)) && (t in Open(calls).value <==> |StatesOf(calls, t)| % 2 == 1)
      {
        OpenPairs(calls, t);
      }
    } else {
      var t := Unpaired(calls);
    }
  }

  function Fired(ts: seq<guint>, k: nat): set<guint>
    requires k <= |ts|
  {
    set t | t in ts[..k]
  }

  lemma FiredLast(ts: seq<guint>, k: nat)
    requires 0 < k <= |ts| && NoDuplicates(ts)
    ensures ts[k - 1] in Fired(ts, k) && Fired(ts, k) - {ts[k - 1]} == Fired(ts, k - 1)
  {
    assert ts[..k] == ts[..k - 1] + [ts[k - 1]];
  }

  lemma TakenBackFirst(calls: seq<Call>, ts: seq<guint>, k: nat)
    requires 0 < k <= |ts|
    ensures calls + TakenBack(ts, k) == calls + [Call(ts[k - 1], false)] + TakenBack(ts, k - 1)
  {
  }

  /** Taking back what is open leaves nothing open. */
  lemma {:induction false} TakenBackCloses(calls: seq<Call>, ts: seq<guint>, k: nat)
    requires k <= |ts| && NoDuplicates(ts)
    requires Open(calls) == Some(Fired(ts, k))
    ensures Open(calls + TakenBack(ts, k)) == Some({})
    decreases k
  {
    if k == 0 {
      assert calls + TakenBack(ts, k) == calls;
      assert Fired(ts, k) == {};
    } else {
      var call := Call(ts[k - 1], false);
      OpenStep(calls, call);
      FiredLast(ts, k);
      TakenBackCloses(calls + [call], ts, k - 1);
      TakenBackFirst(calls, ts, k);
    }
  }
}
