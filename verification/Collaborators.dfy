/** The collaborators internal/daemon names as interfaces. Each one may answer
    anything its contract allows, and keeps the record of what was asked of it
    that the daemon's promises are about. */
module Collaborators {
  import opened Wrappers
  import Modules

  type WatchId = nat
  type LaunchId = nat
  type SaverId = nat

  /** What a watch waits for: an idle time, or the user coming back. */
  datatype Watch = IdleFor(after: int) | UserActive

  /** Every watch ever issued, the ids the monitor still holds a watch for, and
      the registered ids whose removal was asked for and failed. */
  datatype MonitorState = MonitorState(issued: map<WatchId, Watch>, registered: set<WatchId>, stuck: set<WatchId>)

  /** Mutter's idle monitor. It never hands out the same watch id twice. */
  class IdleMonitor {
    var next: WatchId
    ghost var state: MonitorState
    /** The last answer of Idletime. */
    ghost var idle: Option<int>
    /** How often a watch could not be added. */
    ghost var refusals: nat

    ghost predicate Valid()
      reads this`next, this`state
    {
      forall id :: id in state.issued ==> id < next
    }

    constructor ()
      ensures Valid() && state == MonitorState(map[], {}, {})
    {
      next, idle, refusals := 0, None, 0;
      state := MonitorState(map[], {}, {});
    }

    method Idletime() returns (t: Option<int>)
      modifies this`idle
      ensures t == idle && (t.Some? ==> t.value >= 0)
    {
      t := *;
      if t.Some? && t.value < 0 {
        t := None;
      }
      idle := t;
    }

    method Add(w: Watch) returns (id: Option<WatchId>)
      requires Valid()
      modifies this`next, this`state, this`refusals
      ensures Valid()
      ensures refusals == old(refusals) + if id.None? then 1 else 0
      ensures id.None? ==> state == old(state)
      ensures id.Some? ==>
        && id.value !in old(state).issued
        && state == old(state).(issued := old(state).issued[id.value := w], registered := old(state).registered + {id.value})
    {
      var works: bool := *;
      if !works {
        refusals := refusals + 1;
        return None;
      }
      id := Some(next);
      state := state.(issued := state.issued[next := w], registered := state.registered + {next});
      next := next + 1;
    }

    method RemoveWatch(id: WatchId) returns (ok: bool)
      requires Valid()
      modifies this`state
      ensures Valid()
      ensures state == if ok then old(state).(registered := old(state).registered - {id}) else old(state).(stuck := old(state).stuck + {id})
    {
      ok := *;
      if ok {
        state := state.(registered := state.registered - {id});
      } else {
        state := state.(stuck := state.stuck + {id});
      }
    }
  }

  /** A launch handed to a worker goroutine: the generation it belongs to and
      the module for each monitor. */
  datatype Launch = Launch(gen: nat, names: seq<string>)

  /** The modules INCLUDE and EXCLUDE leave, every launch begun, those whose
      result has not arrived, those cancelled, and how many were begun. */
  datatype LauncherState = LauncherState(
    selectable: set<string>,
    begun: map<LaunchId, Launch>,
    inflight: set<LaunchId>,
    cancelled: set<LaunchId>,
    launches: nat)

  /** The launcher. A launch is in flight from Begin to Collect. */
  class Launcher {
    const discovered: seq<string>
    var only: seq<string>
    var never: seq<string>
    var next: LaunchId
    var state: LauncherState
    /** How often discovering the modules has failed. */
    ghost var faults: nat
    /** The last answer of Monitors. */
    ghost var counted: Option<int>

    ghost predicate Valid()
      reads this`next, this`state, this`only, this`never
    {
      && (forall l :: l in state.begun ==> l < next)
      && (forall n :: n in state.selectable <==> n in discovered && (only != [] ==> n in only) && n !in never)
    }

    constructor (discovered: seq<string>, only: seq<string>, never: seq<string>)
      ensures Valid() && faults == 0
      ensures state == LauncherState(state.selectable, map[], {}, {}, 0)
    {
      this.discovered, this.only, this.never := discovered, only, never;
      faults, next, counted := 0, 0, None;
      state := LauncherState(set n | n in discovered && Modules.Allowed(n, only, never), map[], {}, {}, 0);
    }

    /** A random selectable module outside `avoid`; none when there is none, or
        when the modules cannot be discovered. */
    method Pick(avoid: seq<string>) returns (name: Option<string>)
      requires Valid()
      modifies this`faults
      ensures name.Some? ==> name.value in state.selectable && name.value !in avoid && faults == old(faults)
      ensures name.None? && faults == old(faults) ==> forall n :: n in state.selectable ==> n in avoid
      ensures faults >= old(faults)
    {
      var unreadable: bool := *;
      if unreadable {
        faults := faults + 1;
        return None;
      }
      var available := Modules.Select(discovered, only, never + avoid);
      forall n ensures n in available <==> n in state.selectable && n !in avoid {
        Modules.SelectionMembers(discovered, only, never + avoid, n);
      }
      if available == [] {
        return None;
      }
      var i: int := *;
      i := if 0 <= i < |available| then i else 0;
      assert available[i] in available;
      return Some(available[i]);
    }

    /** The number is whatever the display says, if it can be asked. */
    method Monitors() returns (n: Option<int>)
      modifies this`counted
      ensures n == counted
    {
      n := *;
      counted := n;
    }

    method SetFilters(only: seq<string>, never: seq<string>)
      requires Valid()
      modifies this`only, this`never, this`state
      ensures Valid() && state == old(state).(selectable := state.selectable)
      ensures this.only == only && this.never == never
    {
      this.only, this.never := only, never;
      state := state.(selectable := set n | n in discovered && Modules.Allowed(n, only, never));
    }

    method Begin(launch: Launch) returns (l: LaunchId)
      requires Valid()
      modifies this`next, this`state
      ensures Valid() && l !in old(state).begun
      ensures state == old(state).(begun := old(state).begun[l := launch], inflight := old(state).inflight + {l}, launches := old(state).launches + 1)
    {
      l := next;
      state := state.(begun := state.begun[l := launch], inflight := state.inflight + {l}, launches := state.launches + 1);
      next := next + 1;
    }

    method Cancel(l: LaunchId)
      requires Valid()
      modifies this`state
      ensures Valid() && state == old(state).(cancelled := old(state).cancelled + {l})
    {
      state := state.(cancelled := state.cancelled + {l});
    }

    /** The result of l reaches the event loop, saying what was launched. */
    method Collect(l: LaunchId) returns (launch: Launch)
      requires Valid() && l in state.begun
      modifies this`state
      ensures Valid() && launch == old(state).begun[l]
      ensures state == old(state).(inflight := old(state).inflight - {l})
    {
      state := state.(inflight := state.inflight - {l});
      launch := state.begun[l];
    }

    /** The result of l is taken off the channel unread. */
    method Forget(l: LaunchId)
      requires Valid()
      modifies this`state
      ensures Valid() && state == old(state).(inflight := old(state).inflight - {l})
    {
      state := state.(inflight := state.inflight - {l});
    }
  }

  /** How often key i was counted. */
  function Count(m: map<nat, nat>, i: nat): nat {
    if i in m then m[i] else 0
  }

  /** How often each saver received was stopped, and how often Replace was called
      for each monitor. */
  datatype SaversState = SaversState(stops: map<SaverId, nat>, replacements: map<nat, nat>)

  /** Every saver the daemon has been handed, and what became of it. */
  class Savers {
    var next: SaverId
    ghost var state: SaversState
    /** Whether the last Replace could start the module. */
    ghost var replaced: bool

    ghost predicate Valid()
      reads this`next, this`state
    {
      forall s :: s in state.stops ==> s < next
    }

    constructor ()
      ensures Valid() && state == SaversState(map[], map[])
    {
      next, replaced := 0, false;
      state := SaversState(map[], map[]);
    }

    /** A launch that succeeded hands over a saver nobody has stopped. */
    method Receive() returns (s: SaverId)
      requires Valid()
      modifies this`next, this`state
      ensures Valid() && s !in old(state).stops && state == old(state).(stops := old(state).stops[s := 0])
    {
      s := next;
      state := state.(stops := state.stops[s := 0]);
      next := next + 1;
    }

    method Stop(s: SaverId) returns (ok: bool)
      requires Valid() && s in state.stops
      modifies this`state
      ensures Valid() && state == old(state).(stops := old(state).stops[s := Count(old(state).stops, s) + 1])
    {
      state := state.(stops := state.stops[s := Count(state.stops, s) + 1]);
      ok := *;
    }

    /** Only a saver that is still up may have a module replaced. */
    method Replace(s: SaverId, monitor: nat, name: string) returns (ok: bool)
      requires Valid() && s in state.stops && state.stops[s] == 0
      modifies this`state, this`replaced
      ensures Valid() && ok == replaced
      ensures state == old(state).(replacements := old(state).replacements[monitor := Count(old(state).replacements, monitor) + 1])
    {
      state := state.(replacements := state.replacements[monitor := Count(state.replacements, monitor) + 1]);
      ok := *;
      replaced := ok;
    }
  }

  /** The setting, and how often locking and blanking were asked for. */
  datatype SessionState = SessionState(idleDelay: int, locks: nat, blanks: nat)

  /** The GNOME session. */
  class Session {
    ghost var state: SessionState
    ghost var restores: nat
    /** How often SetIdleDelay could not write the setting. */
    ghost var failures: nat
    /** The last answer of Locked. */
    ghost var locked: Option<bool>
    /** What RestoreIdleDelay writes back. */
    const saved: nat

    constructor (idleDelay: int, saved: nat)
      ensures state == SessionState(idleDelay, 0, 0) && restores == 0 && this.saved == saved
    {
      this.saved := saved;
      state, restores, failures, locked := SessionState(idleDelay, 0, 0), 0, 0, None;
    }

    method Lock() returns (ok: bool)
      modifies this`state
      ensures state == old(state).(locks := old(state).locks + 1)
    {
      state := state.(locks := state.locks + 1);
      ok := *;
    }

    method Locked() returns (answer: Option<bool>)
      modifies this`locked
      ensures answer == locked
    {
      answer := *;
      locked := answer;
    }

    /** A write that fails leaves the setting as it was. */
    method SetIdleDelay(seconds: nat) returns (ok: bool)
      modifies this`state, this`failures
      ensures failures == old(failures) + if ok then 0 else 1
      ensures state == old(state).(
        idleDelay := if ok then seconds else old(state).idleDelay,
        blanks := if seconds == BLANK_IDLE_DELAY then old(state).blanks + 1 else old(state).blanks)
    {
      ok := *;
      state := state.(
        idleDelay := if ok then seconds else state.idleDelay,
        blanks := if seconds == BLANK_IDLE_DELAY then state.blanks + 1 else state.blanks);
      failures := failures + if ok then 0 else 1;
    }

    method RestoreIdleDelay() returns (ok: bool)
      modifies this`state, this`restores
      ensures state == if ok then old(state).(idleDelay := saved) else old(state)
      ensures restores == old(restores) + 1
    {
      ok := *;
      if ok {
        state := state.(idleDelay := saved);
      }
      restores := restores + 1;
    }
  }

  /** The idle-delay that makes gnome-shell blank on its next tick. */
  const BLANK_IDLE_DELAY: nat := 10
}
