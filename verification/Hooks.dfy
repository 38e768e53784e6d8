/** src/hooks.c: commands run on the session's triggers and on timeouts. */
module Hooks {
  import opened Common

  type Argv = seq<string>

  datatype Trigger = NoTrigger | OnLock | OnIdle | OnSleep | OnShutdown | OnInactive

  datatype Hook = Hook(trigger: Trigger, inactiveSec: guint, execStart: Option<Argv>, execStop: Option<Argv>)

  predicate Matches(h: Hook, trigger: Trigger, timeout: guint) {
    h.trigger == trigger && (trigger == OnInactive ==> h.inactiveSec == timeout)
  }

  /** The command of a hook for a state, if it has one. */
  function Command(h: Hook, state: bool): Option<Argv> {
    if state then h.execStart else h.execStop
  }

  /** The commands spawned, in the order of the hooks. */
  function Spawned(hooks: seq<Hook>, trigger: Trigger, state: bool, timeout: guint): seq<Argv> {
    if hooks == [] then []
    else
      var last := hooks[|hooks| - 1];
      Spawned(hooks[..|hooks| - 1], trigger, state, timeout) +
      if Matches(last, trigger, timeout) && Command(last, state).Some? then [Command(last, state).value] else []
  }

  method RunHooksTimeout(hooks: seq<Hook>, trigger: Trigger, state: bool, timeout: guint)
    returns (spawned: seq<Argv>)
    ensures spawned == Spawned(hooks, trigger, state, timeout)
  {
    spawned := [];
    for i := 0 to |hooks|
      invariant spawned == Spawned(hooks[..i], trigger, state, timeout)
    {
      assert hooks[..i + 1][..i] == hooks[..i];
      var h := hooks[i];
      if h.trigger != trigger || (trigger == OnInactive && h.inactiveSec != timeout) {
        continue;
      }
      if state && h.execStart.Some? {
        spawned := spawned + [h.execStart.value];
      } else if !state && h.execStop.Some? {
        spawned := spawned + [h.execStop.value];
      }
    }
    assert hooks[..|hooks|] == hooks;
  }

  /** hooks_run: the inactive trigger is left to the timeouts. */
  function RunSpawned(hooks: seq<Hook>, trigger: Trigger, state: bool): seq<Argv> {
    if trigger == OnInactive then [] else Spawned(hooks, trigger, state, 0)
  }

  /** The timeouts that the inactive hooks register. */
  function Timeouts(hooks: seq<Hook>): seq<guint> {
    if hooks == [] then []
    else
      var last := hooks[|hooks| - 1];
      Timeouts(hooks[..|hooks| - 1]) + if last.trigger == OnInactive then [last.inactiveSec] else []
  }
}
