/** internal/daemon: the idle state machine as the source has it, state updated in
    place by one event loop. Each method is proved to do what the function of
    the same name in module IdleMachine says, given the answers it got from the
    collaborators; what is promised of those functions then holds of every run
    of the loop. */
module Daemon {
  import opened Wrappers
  import opened Settings
  import opened Schedule
  import opened Collaborators
  import opened IdleMachine
  import Proofs = IdleMachineProofs
  import Theorems = IdleMachineTheorems
  import opened IdleMachineEffects

  class Machine {
    const mon: IdleMonitor
    const session: Session
    const launcher: Launcher
    const savers: Savers

    var cfg: Config
    var stage: Stage
    var gen: nat
    /** The launch the stored cancel function belongs to. */
    var cancel: Option<LaunchId>
    var blanked: bool
    var fatal: bool

    // The remaining fields, in the groups that are set together.
    var table: Table
    var screen: Screen
    var tally: Tally

    ghost var period: Period
    ghost var launch: LaunchId
    ghost var abandoned: set<LaunchId>

    /** The state the fields and the collaborators stand for. */
    ghost function View(): State
      reads this, mon`state, session`state, launcher`state, savers`state
    {
      State(cfg, stage, gen, cancel, blanked, fatal, table, screen, tally, period, launch, abandoned,
        mon.state, launcher.state, savers.state, session.state)
    }

    ghost predicate Linked()
      reads this`screen, this`cfg, mon, launcher, savers
    {
      && mon.Valid() && launcher.Valid() && savers.Valid() && Filtering()
      && (screen.current.Some? ==> screen.current.value in savers.state.stops)
    }

    /** The launcher picks by the config in use. */
    ghost predicate Filtering()
      reads this`cfg, launcher`only, launcher`never
    {
      launcher.only == cfg.only && launcher.never == cfg.never
    }

    /** What the daemon is between two events. */
    ghost predicate Valid()
      reads this, mon, session, launcher, savers
    {
      Linked() && Proofs.Invariant(View())
    }

    constructor (cfg: Config, mon: IdleMonitor, session: Session, launcher: Launcher, savers: Savers)
      requires mon.Valid() && launcher.Valid() && savers.Valid()
      requires launcher.only == cfg.only && launcher.never == cfg.never
      requires launcher.state == LauncherState(launcher.state.selectable, map[], {}, {}, 0)
      requires savers.state == SaversState(map[], map[])
      ensures this.mon == mon && this.session == session && this.launcher == launcher && this.savers == savers
      ensures Linked() && View() == New(cfg, mon.state, launcher.state.selectable, session.state) && this.cfg == cfg
    {
      this.cfg, this.mon, this.session, this.launcher, this.savers := cfg, mon, session, launcher, savers;
      stage, gen, cancel, blanked, fatal := Idle, 0, None, false, false;
      table, screen, tally := Table(map[], false, 0), BARE, NO_TALLY;
      launch, abandoned := 0, {};
      period := Period([], false, 0, 0, session.state.locks, session.state.blanks, map[], {});
    }

    // ----- watches

    method AddIdle(after: int, kind: Kind) returns (id: Option<WatchId>)
      requires Linked() && Wanted(cfg, table.due, kind) == IdleFor(after)
      modifies this`table, mon`next, mon`state, mon`refusals
      ensures Linked() && FreshWatch(old(mon.state), id)
      ensures View() == IdleMachine.AddIdle(old(View()), kind, id)
      ensures mon.refusals == old(mon.refusals) + Refused(true, id)
    {
      id := mon.Add(IdleFor(after));
      if id.Some? {
        table := table.(watches := table.watches[id.value := kind]);
      }
    }

    /** `armed` holds the ids that were handed out, up to the first refusal, which
        is also what makes it return false. */
    method Arm() returns (ok: bool, ghost armed: Armed)
      requires Linked()
      modifies this`table, mon`next, mon`state, mon`refusals
      ensures Linked() && ArmedOk(old(mon.state), armed)
      ensures (View(), ok) == IdleMachine.Arm(old(View()), armed)
      ensures mon.refusals == old(mon.refusals) + if ok then 0 else 1
    {
      table := table.(watches := map[]);
      armed := Armed(None, None, None);
      var id := AddIdle(cfg.saverDelay, KindSaver);
      armed := armed.(saver := id);
      if id.None? {
        return false, armed;
      }
      if cfg.LockEnabled() {
        id := AddIdle(LockAt(cfg), KindLock);
        armed := armed.(lock := id);
        if id.None? {
          return false, armed;
        }
      }
      if cfg.BlankEnabled() {
        id := AddIdle(BlankAt(cfg), KindBlank);
        armed := armed.(blank := id);
        if id.None? {
          return false, armed;
        }
      }
      ok := true;
    }

    /** `gone` holds the ids whose removal worked. What could not be removed stays
        registered, and is not in the table that Arm leaves. */
    method Rearm() returns (ok: bool, ghost gone: set<WatchId>, ghost armed: Armed)
      requires Linked()
      modifies this`table, mon`next, mon`state, mon`refusals
      ensures Linked() && ArmedOk(old(mon.state), armed)
      ensures (View(), ok) == IdleMachine.Arm(Drop(old(View()), gone), armed)
      ensures mon.refusals == old(mon.refusals) + if ok then 0 else 1
    {
      table := table.(activeArmed := false);
      gone := {};
      var todo := table.watches.Keys;
      while todo != {}
        modifies mon`state
        invariant mon.Valid() && todo <= table.watches.Keys && gone <= table.watches.Keys - todo
        invariant mon.state.issued == old(mon.state).issued
        invariant mon.state.registered == old(mon.state).registered - gone
        invariant mon.state.stuck == old(mon.state).stuck + (table.watches.Keys - todo - gone)
      {
        var id :| id in todo;
        var removed := mon.RemoveWatch(id);
        if removed {
          gone := gone + {id};
        }
        todo := todo - {id};
      }
      assert table.watches.Keys * gone == gone;
      assert mon.state == Drop(old(View()), gone).mon;
      ok, armed := Arm();
    }

    /** The monitor is asked only while `activeArmed` does not hold; `id` is its
        answer. */
    method EnsureActiveWatch() returns (ghost id: Option<WatchId>)
      requires Linked()
      modifies this`table, this`fatal, mon`next, mon`state, mon`refusals
      ensures Linked() && FreshWatch(old(mon.state), id)
      ensures View() == EnsureActive(old(View()), id)
      ensures old(table).activeArmed ==> id.None?
      ensures mon.refusals == old(mon.refusals) + Refused(!old(table).activeArmed, id)
    {
      id := None;
      if table.activeArmed {
        return;
      }
      var added := mon.Add(UserActive);
      id := added;
      if added.None? {
        if !cfg.LockEnabled() {
          fatal := true;
        }
        return;
      }
      table := table.(watches := table.watches[added.value := KindActive], activeArmed := true);
    }

    /** `n` is NextSwap of the idle time the monitor gave, if it gave one, and the
        counter ends just below it. */
    method SkipPassed() returns (n: nat, idle: Option<int>)
      requires cfg.CycleEnabled()
      modifies this`tally, mon`idle
      ensures idle == mon.idle && (idle.Some? ==> idle.value >= 0)
      ensures n == NextSwap(cfg, old(tally).cycles, idle) && tally == old(tally).(cycles := n - 1)
    {
      n := tally.cycles + 1;
      idle := mon.Idletime();
      if idle.Some? {
        var k := Quotient(idle.value - cfg.saverDelay, cfg.cycleAfter) + 1;
        if k > n {
          n := k;
          tally := tally.(cycles := k - 1);
        }
      }
    }

    /** The due time moves in any case; `id` is the monitor's answer, asked for only
        ahead of the lock. */
    method ArmCycle() returns (ghost idle: Option<int>, ghost id: Option<WatchId>)
      requires Linked()
      modifies this`table, this`tally, mon`next, mon`state, mon`refusals, mon`idle
      ensures Linked() && FreshWatch(old(mon.state), id)
      ensures View() == IdleMachine.ArmCycle(old(View()), idle, id)
      ensures cfg.CycleEnabled() ==> idle == mon.idle && (idle.Some? ==> idle.value >= 0)
      ensures mon.refusals == old(mon.refusals) + Refused(SwapAsked(cfg, old(tally).cycles, idle), id)
    {
      idle, id := None, None;
      if !cfg.CycleEnabled() {
        return;
      }
      var n, answer := SkipPassed();
      idle := answer;
      var at := SwapAt(cfg, n);
      table := table.(due := at);
      if cfg.LockEnabled() && at >= LockAt(cfg) {
        return;
      }
      var added := AddIdle(at, KindCycle);
      id := added;
    }

    /** What stands for a choice that was not made. */
    ghost function NoChoice(): (c: Choice)
      requires launcher.Valid()
      reads this, mon, session, launcher, savers
      ensures ChoiceOk(View(), c) && c.names.None?
    {
      Choice(None, tally.used, false, launcher.next)
    }

    // ----- choosing modules

    /** Up to four draws, each avoiding less than the one before; one that comes to
        nothing without a fault had nothing to draw from. */
    method Pick(also: seq<string>) returns (name: Option<string>)
      requires launcher.Valid()
      modifies this`tally, launcher`faults
      ensures tally == old(tally).(used := tally.used) && launcher.faults >= old(launcher.faults)
      ensures PickSound(launcher.state.selectable, old(tally).used, screen.names, name, tally.used)
      ensures launcher.faults == old(launcher.faults) ==>
        PickExact(launcher.state.selectable, old(tally).used, screen.names, also, name, tally.used)
    {
      ghost var free := launcher.state.selectable - ToSet(also);
      name := launcher.Pick(tally.used + also);
      if name.Some? || (tally.used == [] && also == []) {
        assert name.Some? ==> name.value in free - ToSet(tally.used);
        return;
      }
      assert launcher.faults == old(launcher.faults) ==> free - ToSet(old(tally).used) == {};
      tally := tally.(used := screen.names);
      name := launcher.Pick(tally.used + also);
      if name.Some? {
        assert launcher.faults == old(launcher.faults) ==> name.value in free - ToSet(screen.names);
        return;
      }
      assert launcher.faults == old(launcher.faults) ==> free - ToSet(screen.names) == {};
      tally := tally.(used := []);
      if also != [] {
        name := launcher.Pick(also);
        if name.Some? {
          return;
        }
      }
      name := launcher.Pick([]);
    }

    /** n draws, each avoiding the names before it; one that comes to nothing loses
        them all. */
    method PickSet(n: nat) returns (names: Option<seq<string>>)
      requires launcher.Valid() && n >= 1
      modifies this`tally, launcher`faults
      ensures tally == old(tally).(used := tally.used) && launcher.faults >= old(launcher.faults)
      ensures names.Some? ==> |names.value| == n
      ensures Sound(launcher.state.selectable, old(tally).used, screen.names, names, tally.used)
      ensures launcher.faults == old(launcher.faults) ==>
        Exact(launcher.state.selectable, old(tally).used, screen.names, names, tally.used)
    {
      var chosen: seq<string> := [];
      for i := 0 to n
        modifies this`tally, launcher`faults
        invariant |chosen| == i && Within(chosen, launcher.state.selectable)
        invariant tally == old(tally).(used := tally.used) && launcher.faults >= old(launcher.faults)
        invariant AvoidList(old(tally).used, screen.names, tally.used)
        invariant |chosen| == 1 ==> chosen[0] !in tally.used
        invariant launcher.faults == old(launcher.faults) ==>
          Drawn(launcher.state.selectable, old(tally).used, screen.names, [], chosen, tally.used)
      {
        ghost var before, faults := tally.used, launcher.faults;
        var name := Pick(chosen);
        if name.None? {
          return None;
        }
        if launcher.faults == old(launcher.faults) {
          Proofs.DrawnOneMore(launcher.state.selectable, old(tally).used, screen.names, [], chosen, before, name.value, tally.used);
        }
        chosen := chosen + [name.value];
      }
      names := Some(chosen);
    }

    /** The launcher is asked only when each monitor has a module of its own. */
    method Monitors() returns (n: nat)
      modifies launcher`counted
      ensures n == ModulesNeeded(cfg, launcher.counted)
      ensures n == if cfg.monitors.Different? && launcher.counted.Some? && launcher.counted.value >= 1 then launcher.counted.value else 1
    {
      if !cfg.DifferentPerMonitor() {
        return 1;
      }
      var counted := launcher.Monitors();
      n := if counted.None? || counted.value < 1 then 1 else counted.value;
    }

    /** `c` is the choice that was made, with the id of the launch when there was
        one to hand over. */
    method StartLaunch() returns (ghost c: Choice)
      requires Linked()
      modifies this`tally, this`cancel, launcher`next, launcher`state, launcher`faults, launcher`counted
      ensures Linked() && ChoiceOk(old(View()), c)
      ensures View() == IdleMachine.StartLaunch(old(View()), c)
      ensures c.names.Some? ==>
        |c.names.value| == if cfg.monitors.Different? && launcher.counted.Some? && launcher.counted.value >= 1 then launcher.counted.value else 1
      ensures launcher.faults >= old(launcher.faults) && (c.faultless <==> launcher.faults == old(launcher.faults))
    {
      ghost var faults := launcher.faults;
      var n := Monitors();
      var names := PickSet(n);
      c := Choice(names, tally.used, launcher.faults == faults, launcher.next);
      if names.None? {
        return;
      }
      if screen.current.Some? && !screen.dead && names.value == screen.names {
        return;
      }
      var l := HandOver(names.value);
      c := c.(launch := l);
    }

    /** The launch is known and in flight from here on, and its id is what `cancel`
        holds. */
    method HandOver(names: seq<string>) returns (l: LaunchId)
      requires Linked()
      modifies this`tally, this`cancel, launcher`next, launcher`state
      ensures Linked() && l !in old(launcher.state).begun
      ensures View() == Begun(old(View()), names, l)
    {
      tally := tally.(used := tally.used + names, attempts := tally.attempts + 1);
      l := launcher.Begin(Launch(gen, names));
      cancel := Some(l);
    }

    // ----- teardown

    /** Only the launch in `cancel` is cancelled, whatever else is in flight; its
        field and the screen's are cleared together. */
    method StopSaver()
      requires Linked()
      modifies this`cancel, this`screen, launcher`state, savers`state
      ensures Linked()
      ensures View() == IdleMachine.StopSaver(old(View()))
    {
      if cancel.Some? {
        launcher.Cancel(cancel.value);
        cancel := None;
      }
      if screen.current.Some? {
        var _ := savers.Stop(screen.current.value);
      }
      screen := BARE;
    }

    /** Every launch known now counts as abandoned: none of them carries the new
        generation. */
    method NextGeneration()
      requires Linked()
      modifies this`gen, this`abandoned, this`cancel, this`screen, launcher`state, savers`state
      ensures Linked()
      ensures View() == Abandon(old(View()))
    {
      gen := gen + 1;
      abandoned := launcher.state.begun.Keys;
      StopSaver();
    }

    /** `written` is the session's answer, asked for only while `blanked` holds. A
        refusal leaves `blanked` for the next reset to try again. */
    method Reset() returns (ghost written: bool)
      requires Linked()
      modifies this`gen, this`abandoned, this`cancel, this`screen, this`blanked, this`stage, this`tally, this`period
      modifies launcher`state, savers`state, session`state, session`failures
      ensures Linked()
      ensures View() == IdleMachine.Reset(old(View()), written)
      ensures session.failures == old(session.failures) + if old(blanked) && !written then 1 else 0
    {
      NextGeneration();
      written := false;
      if blanked {
        var ok := session.SetIdleDelay(0);
        written := ok;
        if ok {
          blanked := false;
        }
      }
      stage := Stage.Idle;
      tally := NO_TALLY;
      period := Period([], false, 0, launcher.state.launches, session.state.locks, session.state.blanks,
        savers.state.replacements, launcher.state.begun.Keys);
    }

    /** One stop and a bare screen, or nothing at all when `dead` does not hold. */
    method CloseDead()
      requires Linked() && (screen.dead ==> screen.current.Some?)
      modifies this`screen, savers`state
      ensures Linked()
      ensures View() == IdleMachine.CloseDead(old(View()))
    {
      if !screen.dead {
        return;
      }
      var _ := savers.Stop(screen.current.value);
      screen := screen.(dead := false, current := None, names := []);
    }

    // ----- events

    /** What the saver signal and a swap have in common: ArmCycle, then StartLaunch,
        with the answers to both. */
    method NextModule() returns (ghost idle: Option<int>, ghost cycle: Option<WatchId>, ghost c: Choice)
      requires Linked()
      modifies this`table, this`tally, this`cancel, mon`next, mon`state, mon`refusals, mon`idle, launcher`next
      modifies launcher`state, launcher`faults, launcher`counted
      ensures Linked() && FreshWatch(old(mon.state), cycle) && ChoiceOk(old(View()), c)
      ensures View() == IdleMachine.StartLaunch(IdleMachine.ArmCycle(old(View()), idle, cycle), c)
      ensures cfg.CycleEnabled() ==> idle == mon.idle
      ensures mon.refusals == old(mon.refusals) + Refused(SwapAsked(cfg, old(tally).cycles, idle), cycle)
      ensures c.faultless <==> launcher.faults == old(launcher.faults)
    {
      idle, cycle := ArmCycle();
      c := StartLaunch();
    }

    method OnSaver()
      returns (ghost active: Option<WatchId>, ghost locked: Option<bool>, ghost idle: Option<int>,
               ghost cycle: Option<WatchId>, ghost c: Choice)
      requires Linked()
      modifies this`period, this`stage, this`table, this`fatal, this`tally, this`cancel
      modifies mon`next, mon`state, mon`refusals, mon`idle, launcher`next, launcher`state, launcher`faults
      modifies launcher`counted, session`locked
      ensures Linked() && SwapWatchOk(old(mon.state), active, cycle) && ChoiceOk(old(View()), c)
      ensures View() == IdleMachine.OnSaver(old(View()), active, locked, idle, cycle, c)
      ensures old(stage) == Stage.Idle ==> locked == session.locked && (locked != Some(true) && cfg.CycleEnabled() ==> idle == mon.idle)
      ensures old(stage) == Stage.Idle && locked != Some(true) ==> (c.faultless <==> launcher.faults == old(launcher.faults))
      ensures mon.refusals == old(mon.refusals)
        + Refused(old(stage) == Stage.Idle && !old(table).activeArmed, active)
        + Refused(old(stage) == Stage.Idle && !IsLocked(locked) && SwapAsked(cfg, old(tally).cycles, idle), cycle)
    {
      active, locked, idle, cycle, c := None, None, None, None, NoChoice();
      period := period.(fires := period.fires + [KindSaver]);
      if stage.Rank() >= Stage.Saver.Rank() {
        return;
      }
      active := BeginSaver();
      locked, idle, cycle, c := FirstModule();
    }

    /** The stage is set before anything is asked for. */
    method BeginSaver() returns (ghost active: Option<WatchId>)
      requires Linked()
      modifies this`stage, this`table, this`fatal, mon`next, mon`state, mon`refusals
      ensures Linked() && FreshWatch(old(mon.state), active)
      ensures View() == EnsureActive(old(View()).(stage := Stage.Saver), active)
      ensures old(table).activeArmed ==> active.None?
      ensures mon.refusals == old(mon.refusals) + Refused(!old(table).activeArmed, active)
    {
      stage := Stage.Saver;
      active := EnsureActiveWatch();
    }

    /** What is left of OnSaver once the stage has begun. */
    method FirstModule()
      returns (ghost locked: Option<bool>, ghost idle: Option<int>, ghost cycle: Option<WatchId>, ghost c: Choice)
      requires Linked()
      modifies this`period, this`table, this`tally, this`cancel
      modifies mon`next, mon`state, mon`refusals, mon`idle, launcher`next, launcher`state, launcher`faults
      modifies launcher`counted, session`locked
      ensures Linked() && FreshWatch(old(mon.state), cycle) && ChoiceOk(old(View()), c)
      ensures View() ==
        if IsLocked(locked) then old(View())
        else IdleMachine.StartLaunch(IdleMachine.ArmCycle(old(View()).(period := old(period).(started := true)), idle, cycle), c)
      ensures locked == session.locked && (locked != Some(true) && cfg.CycleEnabled() ==> idle == mon.idle)
      ensures mon.refusals == old(mon.refusals) + Refused(!IsLocked(locked) && SwapAsked(cfg, old(tally).cycles, idle), cycle)
      ensures locked != Some(true) ==> (c.faultless <==> launcher.faults == old(launcher.faults))
    {
      idle, cycle, c := None, None, NoChoice();
      var answer := session.Locked();
      locked := answer;
      if IsLocked(answer) {
        return;
      }
      period := period.(started := true);
      idle, cycle, c := NextModule();
    }

    /** id leaves the table whether or not the monitor could remove it. */
    method DropFired(id: WatchId) returns (ghost gone: bool)
      requires Linked()
      modifies this`period, this`table, mon`state
      ensures Linked() && View() == DropOne(Deliver(old(View()), KindCycle), id, gone)
    {
      period := period.(fires := period.fires + [KindCycle]);
      var removed := mon.RemoveWatch(id);
      gone := removed;
      table := table.(watches := table.watches - {id});
    }

    method OnCycle(id: WatchId)
      returns (ghost gone: bool, ghost locked: Option<bool>, ghost idle: Option<int>,
               ghost cycle: Option<WatchId>, ghost c: Choice)
      requires Linked()
      modifies this`period, this`table, this`tally, this`cancel
      modifies mon`next, mon`state, mon`refusals, mon`idle, launcher`next, launcher`state, launcher`faults
      modifies launcher`counted, session`locked
      ensures Linked() && FreshWatch(old(mon.state), cycle) && ChoiceOk(old(View()), c)
      ensures View() == IdleMachine.OnCycle(old(View()), id, gone, locked, idle, cycle, c)
      ensures stage == Stage.Saver ==> locked == session.locked && (locked != Some(true) && cfg.CycleEnabled() ==> idle == mon.idle)
      ensures stage == Stage.Saver && locked != Some(true) ==> (c.faultless <==> launcher.faults == old(launcher.faults))
      ensures mon.refusals == old(mon.refusals)
        + Refused(stage == Stage.Saver && !IsLocked(locked) && SwapAsked(cfg, old(tally).cycles + 1, idle), cycle)
    {
      locked, idle, cycle, c := None, None, None, NoChoice();
      gone := DropFired(id);
      if stage != Stage.Saver {
        return;
      }
      var answer := session.Locked();
      locked := answer;
      if IsLocked(answer) {
        return;
      }
      CountSwap();
      idle, cycle, c := NextModule();
    }

    method CountSwap()
      modifies this`tally, this`period
      ensures View() == SwapCounted(old(View()))
    {
      tally := tally.(cycles := tally.cycles + 1, attempts := 0);
      period := period.(swaps := period.swaps + 1);
    }

    /** How the lock and the blank stage begin. */
    method EnterStage(to: Stage) returns (ghost active: Option<WatchId>)
      requires Linked()
      modifies this`stage, this`table, this`fatal, this`cancel, this`screen
      modifies mon`next, mon`state, mon`refusals, launcher`state, savers`state
      ensures Linked() && FreshWatch(old(mon.state), active)
      ensures View() == IdleMachine.StopSaver(EnsureActive(old(View()).(stage := to), active))
      ensures mon.refusals == old(mon.refusals) + Refused(!old(table).activeArmed, active)
    {
      stage := to;
      active := EnsureActiveWatch();
      StopSaver();
    }

    method OnLock() returns (ghost active: Option<WatchId>)
      requires Linked()
      modifies this`period, this`stage, this`table, this`fatal, this`cancel, this`screen
      modifies mon`next, mon`state, mon`refusals, launcher`state, savers`state, session`state
      ensures Linked() && FreshWatch(old(mon.state), active)
      ensures View() == IdleMachine.OnLock(old(View()), active)
      ensures mon.refusals == old(mon.refusals) + Refused(old(stage).Rank() < Stage.Lock.Rank() && !old(table).activeArmed, active)
    {
      period := period.(fires := period.fires + [KindLock]);
      active := None;
      if stage.Rank() >= Stage.Lock.Rank() {
        return;
      }
      active := EnterStage(Stage.Lock);
      var _ := session.Lock();
    }

    method OnBlank() returns (ghost active: Option<WatchId>, ghost written: bool)
      requires Linked()
      modifies this`period, this`stage, this`table, this`fatal, this`cancel, this`screen, this`blanked
      modifies mon`next, mon`state, mon`refusals, launcher`state, savers`state, session`state, session`failures
      ensures Linked() && FreshWatch(old(mon.state), active)
      ensures View() == IdleMachine.OnBlank(old(View()), active, written)
      ensures mon.refusals == old(mon.refusals) + Refused(old(stage).Rank() < Stage.Blank.Rank() && !old(table).activeArmed, active)
      ensures session.failures == old(session.failures) + if old(stage).Rank() < Stage.Blank.Rank() && !written then 1 else 0
    {
      period := period.(fires := period.fires + [KindBlank]);
      active, written := None, false;
      if stage.Rank() >= Stage.Blank.Rank() {
        return;
      }
      active := EnterStage(Stage.Blank);
      var ok := session.SetIdleDelay(BLANK_IDLE_DELAY);
      written := ok;
      if !ok {
        return;
      }
      blanked := true;
    }

    method OnActive() returns (ghost written: bool, ghost gone: set<WatchId>, ghost armed: Armed)
      requires Linked()
      modifies this`gen, this`abandoned, this`cancel, this`screen, this`blanked, this`stage, this`tally, this`period
      modifies this`table, this`fatal
      modifies mon`next, mon`state, mon`refusals, launcher`state, savers`state, session`state, session`failures
      ensures Linked() && ArmedOk(old(mon.state), armed)
      ensures View() == IdleMachine.OnActive(old(View()), written, gone, armed)
      ensures session.failures == old(session.failures) + if old(blanked) && !written then 1 else 0
      ensures fatal <==> old(fatal) || mon.refusals > old(mon.refusals)
    {
      written := Reset();
      var ok: bool;
      ok, gone, armed := Rearm();
      if !ok {
        fatal := true;
      }
    }

    /** loaded is what re-reading the config gave. */
    method Reload(loaded: Option<Config>)
      returns (ghost selectable: set<string>, ghost written: bool, ghost gone: set<WatchId>, ghost armed: Armed)
      requires Linked()
      modifies this`gen, this`abandoned, this`cancel, this`screen, this`blanked, this`stage, this`tally, this`period
      modifies this`table, this`fatal, this`cfg
      modifies mon`next, mon`state, mon`refusals, launcher`only, launcher`never, launcher`state, savers`state
      modifies session`state, session`failures
      ensures Linked() && ArmedOk(old(mon.state), armed)
      ensures View() == IdleMachine.Reload(old(View()), loaded, selectable, written, gone, armed)
      ensures loaded.Some? && loaded.value != old(cfg) ==> cfg == loaded.value
      ensures loaded.None? || loaded.value == old(cfg) ==>
        View() == old(View()) && launcher.only == old(launcher.only) && launcher.never == old(launcher.never)
      ensures cfg != old(cfg) ==> forall n :: n in launcher.state.selectable <==>
        n in launcher.discovered && (loaded.value.only != [] ==> n in loaded.value.only) && n !in loaded.value.never
      ensures cfg == old(cfg) || session.failures == old(session.failures) + if old(blanked) && !written then 1 else 0
      ensures fatal <==> old(fatal) || mon.refusals > old(mon.refusals)
    {
      selectable, written, gone, armed := {}, false, {}, Armed(None, None, None);
      if loaded.None? || loaded.value == cfg {
        return;
      }
      cfg := loaded.value;
      launcher.SetFilters(cfg.only, cfg.never);
      selectable := launcher.state.selectable;
      written, gone, armed := OnActive();
    }

    /** `launch` records where the saver came from; Done is selected on for one name
        and Exits for several. */
    method Adopt(l: LaunchId, names: seq<string>, saver: SaverId)
      requires Linked() && l in launcher.state.begun && names == launcher.state.begun[l].names && saver in savers.state.stops
      modifies this`screen, this`launch, savers`state
      ensures Linked()
      ensures View() == IdleMachine.Adopt(old(View()), l, saver)
    {
      if screen.current.Some? {
        var _ := savers.Stop(screen.current.value);
      }
      screen := if |names| > 1 then Screen(Some(saver), names, None, Some(saver), false)
                else Screen(Some(saver), names, Some(saver), None, false);
      launch := l;
    }

    /** `saver` is the one handed over, or one never used; `c` is the choice of the
        retry, if there was one. */
    method HandleLaunch(l: LaunchId, outcome: Outcome) returns (ghost saver: SaverId, ghost c: Choice)
      requires Linked() && l in launcher.state.begun
      requires screen.dead ==> screen.current.Some?
      modifies this`cancel, this`screen, this`tally, this`launch
      modifies launcher`next, launcher`state, launcher`faults, launcher`counted, savers`next, savers`state
      ensures Linked() && saver !in old(savers.state).stops && ChoiceOk(old(View()), c)
      ensures View() == IdleMachine.HandleLaunch(old(View()), l, outcome, saver, c)
      ensures
        && outcome == Failed(true) && old(launcher.state).begun[l].gen == gen
        && (stage == Stage.Idle || stage == Stage.Saver) && old(tally).attempts < 2
        ==> (c.faultless <==> launcher.faults == old(launcher.faults))
    {
      saver, c := savers.next, NoChoice();
      var result := Release(l);
      if outcome.Up? {
        var x := savers.Receive();
        saver := x;
        if result.gen != gen || stage.Rank() >= Stage.Lock.Rank() {
          var _ := savers.Stop(x);
          return;
        }
        Adopt(l, result.names, x);
        return;
      }
      if result.gen != gen || stage.Rank() >= Stage.Lock.Rank() {
        return;
      }
      c := TryAnother(outcome.retryable);
    }

    /** The context of l is released; the stored cancel function is let go of with a
        result of this generation only. */
    method Release(l: LaunchId) returns (result: Launch)
      requires Linked() && l in launcher.state.begun
      modifies this`cancel, launcher`state
      ensures Linked() && result == old(launcher.state).begun[l]
      ensures View() == IdleMachine.Collect(old(View()), l)
    {
      result := launcher.Collect(l);
      launcher.Cancel(l);
      if result.gen == gen {
        cancel := None;
      }
    }

    /** The retry, or the end of a dead module that was waiting for one. */
    method TryAnother(retryable: bool) returns (ghost c: Choice)
      requires Linked() && (screen.dead ==> screen.current.Some?)
      modifies this`cancel, this`screen, this`tally
      modifies launcher`next, launcher`state, launcher`faults, launcher`counted, savers`state
      ensures Linked() && ChoiceOk(old(View()), c)
      ensures View() == CloseUnlessReplaced(
        if retryable && old(tally).attempts < 2 then IdleMachine.StartLaunch(old(View()), c) else old(View()))
      ensures retryable && old(tally).attempts < 2 ==> (c.faultless <==> launcher.faults == old(launcher.faults))
    {
      c := NoChoice();
      if retryable && tally.attempts < 2 {
        c := StartLaunch();
      }
      if cancel.None? {
        CloseDead();
      }
    }

    method OnLockChange(locked: bool)
      requires Linked()
      modifies this`gen, this`abandoned, this`cancel, this`screen, launcher`state, savers`state
      ensures Linked()
      ensures View() == IdleMachine.OnLockChange(old(View()), locked)
    {
      if !locked || stage != Stage.Saver || (screen.current.None? && cancel.None?) {
        return;
      }
      NextGeneration();
    }

    /** `locked` is the session's answer, asked for only while a replacement is
        still allowed and none is coming. */
    method OnModuleExit() returns (ghost locked: Option<bool>, ghost c: Choice)
      requires Linked() && screen.current.Some?
      modifies this`cancel, this`screen, this`tally
      modifies launcher`next, launcher`state, launcher`faults, launcher`counted, savers`state, session`locked
      ensures Linked() && ChoiceOk(old(View()), c)
      ensures View() == IdleMachine.OnModuleExit(old(View()), locked, c)
      ensures stage == Stage.Saver && old(cancel).None? && old(tally).deaths < 3 ==>
        locked == session.locked && (locked != Some(true) ==> (c.faultless <==> launcher.faults == old(launcher.faults)))
    {
      locked, c := None, NoChoice();
      screen := screen.(done := None, dead := true);
      if stage == Stage.Saver && cancel.Some? {
        return;
      }
      if stage == Stage.Saver && tally.deaths < MAX_RELAUNCHES {
        var answer := session.Locked();
        locked := answer;
        if !IsLocked(answer) {
          tally := tally.(deaths := tally.deaths + 1, attempts := 0);
          c := StartLaunch();
        }
      }
      if cancel.None? {
        CloseDead();
      }
    }

    /** The second half of Attempt: the name goes on the avoid list in any case, and
        on the screen only when it runs. */
    method StartOn(i: nat, name: string, ghost s: State, ghost t: Try) returns (ok: bool)
      requires Linked() && screen.current.Some? && savers.state.stops[screen.current.value] == 0
      requires i < |screen.names| && t.name == Some(name)
      requires View() == s.(tally := s.tally.(
          monitorDeaths := s.tally.monitorDeaths[i := Count(s.tally.monitorDeaths, i) + 1], used := t.used))
      modifies this`screen, this`tally, savers`state, savers`replaced
      ensures Linked()
      ensures View() == if ok then Attempt(s, i, t).(screen := s.screen.(names := s.screen.names[i := name])) else Attempt(s, i, t)
      ensures ok == savers.replaced
    {
      tally := tally.(used := tally.used + [name]);
      ok := savers.Replace(screen.current.value, i, name);
      if ok {
        screen := screen.(names := screen.names[i := name]);
      }
    }

    /** One attempt at putting another module on monitor i; `again` when it could
        not even be started. */
    method ReplaceOn(i: nat, ghost locked: Option<bool>) returns (again: bool, ghost t: Try)
      requires Linked() && screen.current.Some? && savers.state.stops[screen.current.value] == 0
      requires i < |screen.names| && !LeaveBlack(View(), i) && !IsLocked(locked)
      modifies this`screen, this`tally, launcher`faults, savers`state, savers`replaced
      ensures Linked() && TryOk(old(View()), t) && t.locked == locked
      ensures Answered(t, locked, savers.replaced) && (t.faultless <==> launcher.faults == old(launcher.faults))
      ensures again ==> t.name.Some? && !t.runs && View() == Attempt(old(View()), i, t)
      ensures !again ==> (t.name.Some? ==> t.runs) && View() == IdleMachine.OnCopyExit(old(View()), i, [t])
    {
      ghost var s, faults := View(), launcher.faults;
      tally := tally.(monitorDeaths := tally.monitorDeaths[i := Count(tally.monitorDeaths, i) + 1]);
      var name := Pick(screen.names);
      t := Try(locked, name, tally.used, launcher.faults == faults, false);
      assert TryOk(s, t);
      if name.None? {
        return false, t;
      }
      var ok := StartOn(i, name.value, s, t);
      t := t.(runs := ok);
      again := !ok;
    }

    /** One turn of the loop below, after the attempts in `tries` came to nothing. */
    method Retry(i: nat, ghost s: State, ghost tries: seq<Try>) returns (again: bool, ghost more: seq<Try>)
      requires Linked() && screen.current.Some? && savers.state.stops[screen.current.value] == 0
      requires i < |screen.names| && Proofs.FailedSoFar(s, i, tries, View()) && !LeaveBlack(View(), i)
      modifies this`screen, this`tally, launcher`faults, savers`state, savers`replaced, session`locked
      ensures Linked() && |more| == |tries| + 1 && Answered(more[|tries|], session.locked, savers.replaced)
      ensures again ==>
        && screen == old(screen) && savers.state.stops == old(savers.state).stops && Proofs.FailedSoFar(s, i, more, View())
        && Count(tally.monitorDeaths, i) == Count(old(tally).monitorDeaths, i) + 1
      ensures !again ==> TriesOk(s, i, more) && View() == IdleMachine.OnCopyExit(s, i, more)
    {
      ghost var v := View();
      var locked := session.Locked();
      if IsLocked(locked) {
        ghost var last := [Try(locked, None, [], false, false)];
        Proofs.FailedThen(s, i, tries, v, last);
        return false, tries + last;
      }
      ghost var t;
      again, t := ReplaceOn(i, locked);
      if again {
        Proofs.FailedOnceMore(s, i, tries, v, t);
      } else {
        Proofs.FailedThen(s, i, tries, v, [t]);
      }
      more := tries + [t];
    }

    /** Retry, unless the monitor is to be left black. */
    method Guarded(i: nat, ghost s: State, ghost tries: seq<Try>) returns (again: bool, ghost more: seq<Try>)
      requires Linked() && screen.current.Some? && savers.state.stops[screen.current.value] == 0
      requires i < |screen.names| && Proofs.FailedSoFar(s, i, tries, View())
      requires tries != [] ==> Answered(tries[|tries| - 1], session.locked, savers.replaced)
      modifies this`screen, this`tally, launcher`faults, savers`state, savers`replaced, session`locked
      ensures Linked() && (more != [] ==> Answered(more[|more| - 1], session.locked, savers.replaced))
      ensures again ==>
        && screen == old(screen) && savers.state.stops == old(savers.state).stops && Proofs.FailedSoFar(s, i, more, View())
        && old(Count(tally.monitorDeaths, i)) < Count(tally.monitorDeaths, i) <= MAX_RELAUNCHES
      ensures !again ==> TriesOk(s, i, more) && View() == IdleMachine.OnCopyExit(s, i, more)
    {
      if stage != Stage.Saver || cancel.Some? || Count(tally.monitorDeaths, i) >= MAX_RELAUNCHES {
        Proofs.FailedEnough(s, i, tries, View());
        return false, tries;
      }
      again, more := Retry(i, s, tries);
    }

    /** `tries` are the attempts made, the last by the answers last given. The loop
        ends because each turn counts one more death of monitor i. */
    method OnCopyExit(i: nat) returns (ghost tries: seq<Try>)
      requires Linked() && screen.current.Some? && savers.state.stops[screen.current.value] == 0
      requires i < |screen.names|
      modifies this`screen, this`tally, launcher`faults, savers`state, savers`replaced, session`locked
      ensures Linked() && TriesOk(old(View()), i, tries)
      ensures View() == IdleMachine.OnCopyExit(old(View()), i, tries)
      ensures tries != [] ==> Answered(tries[|tries| - 1], session.locked, savers.replaced)
    {
      ghost var s := View();
      tries := [];
      while true
        invariant Linked() && screen == s.screen && savers.state.stops == s.savers.stops
        invariant Proofs.FailedSoFar(s, i, tries, View())
        invariant tries != [] ==> Answered(tries[|tries| - 1], session.locked, savers.replaced)
        decreases MAX_RELAUNCHES - Count(tally.monitorDeaths, i)
      {
        var again;
        again, tries := Guarded(i, s, tries);
        if !again {
          return;
        }
      }
    }

    /** An idle or user-active watch fired. */
    method HandleWatch(id: WatchId) returns (ghost a: Answers)
      requires Valid() && !fatal
      modifies this`gen, this`abandoned, this`cancel, this`screen, this`blanked, this`stage, this`tally, this`period
      modifies this`table, this`fatal
      modifies mon`next, mon`state, mon`refusals, mon`idle, launcher`next, launcher`state, launcher`faults
      modifies launcher`counted, savers`state, session`state, session`failures, session`locked
      ensures Valid() && AnswersOk(old(View()), a)
      ensures View() == IdleMachine.HandleWatch(old(View()), id, a)
    {
      ghost var s := View();
      a := Distribute(id);
      Theorems.SignalKeeps(s, id, a);
    }

    /** Runs the handler of a watch, by its kind. */
    method Distribute(id: WatchId) returns (ghost a: Answers)
      requires Linked()
      modifies this`gen, this`abandoned, this`cancel, this`screen, this`blanked, this`stage, this`tally, this`period
      modifies this`table, this`fatal
      modifies mon`next, mon`state, mon`refusals, mon`idle, launcher`next, launcher`state, launcher`faults
      modifies launcher`counted, savers`state, session`state, session`failures, session`locked
      ensures Linked() && AnswersOk(old(View()), a)
      ensures View() == IdleMachine.HandleWatch(old(View()), id, a)
    {
      a := Answers(None, None, None, None, NoChoice(), false, {}, Armed(None, None, None));
      if id !in table.watches {
        return;
      }
      match table.watches[id] {
        case KindSaver =>
          ghost var active, locked, idle, cycle, c := OnSaver();
          a := a.(active := active, locked := locked, idle := idle, cycle := cycle, choice := c);
        case KindCycle =>
          ghost var gone, locked, idle, cycle, c := OnCycle(id);
          a := a.(gone := if gone then {id} else {}, locked := locked, idle := idle, cycle := cycle, choice := c);
        case KindLock =>
          ghost var active := OnLock();
          a := a.(active := active);
        case KindBlank =>
          ghost var active, written := OnBlank();
          a := a.(active := active, written := written);
        case KindActive =>
          ghost var written, gone, armed := OnActive();
          a := a.(written := written, gone := gone, armed := armed);
      }
    }

    /** `queued` is a result no event has taken. Wherever it is called from, every
        saver received ends with exactly one stop. */
    method Shutdown(queued: Option<(LaunchId, Outcome)>) returns (ghost saver: SaverId)
      requires Linked() && Proofs.Conserved(screen.current, savers.state.stops)
      modifies this`gen, this`abandoned, this`cancel, this`screen
      modifies launcher`state, savers`next, savers`state, session`state, session`restores
      ensures saver !in old(savers.state).stops && View() == Ended(old(View()), queued, saver).(session := session.state)
      ensures forall x :: x in savers.state.stops ==> savers.state.stops[x] == 1
      ensures forall x :: x in old(savers.state).stops ==> x in savers.state.stops
      ensures session.restores == old(session.restores) + 1
    {
      ghost var s := View();
      NextGeneration();
      saver := TakeWaiting(queued);
      EndedStops(s, queued, saver);
      var _ := session.RestoreIdleDelay();
    }

    /** A result that is waiting is taken off the channel, and its saver stopped. */
    method TakeWaiting(queued: Option<(LaunchId, Outcome)>) returns (ghost saver: SaverId)
      requires Linked()
      modifies launcher`state, savers`next, savers`state
      ensures Linked() && saver !in old(savers.state).stops
      ensures queued.None? ==> View() == old(View())
      ensures queued.Some? ==>
        View() == old(View()).(
          launcher := old(launcher.state).(inflight := old(launcher.state).inflight - {queued.value.0}),
          savers := if queued.value.1.Up? then old(savers.state).(stops := old(savers.state).stops[saver := 1]) else old(savers.state))
    {
      saver := savers.next;
      if queued.Some? {
        launcher.Forget(queued.value.0);
        if queued.value.1.Up? {
          var x := savers.Receive();
          saver := x;
          var _ := savers.Stop(x);
        }
      }
    }

    // ----- the event loop

    /** A watch signal is always taken. */
    method TakeSignal(id: WatchId) returns (ghost taken: seq<Event>)
      requires Valid() && !fatal
      modifies this`gen, this`abandoned, this`cancel, this`screen, this`blanked, this`stage, this`tally, this`period
      modifies this`table, this`fatal
      modifies mon`next, mon`state, mon`refusals, mon`idle, launcher`next, launcher`state, launcher`faults
      modifies launcher`counted, savers`state, session`state, session`failures, session`locked
      ensures Linked() && Took(old(View()), Fired(id), taken, View())
    {
      ghost var a := HandleWatch(id);
      taken := [WatchFired(id, a)];
    }

    /** A result is taken once. */
    method TakeResult(l: LaunchId, outcome: Outcome) returns (ghost taken: seq<Event>)
      requires Valid() && !fatal
      modifies this`cancel, this`screen, this`tally, this`launch
      modifies launcher`next, launcher`state, launcher`faults, launcher`counted, savers`next, savers`state
      ensures Linked() && Took(old(View()), Result(l, outcome), taken, View())
    {
      taken := [];
      if l in launcher.state.inflight && l in launcher.state.begun {
        ghost var saver, c := HandleLaunch(l, outcome);
        taken := [LaunchDone(l, outcome, saver, c)];
      }
    }

    /** Done is selected on only while it is set. */
    method TakeModuleExit() returns (ghost taken: seq<Event>)
      requires Valid() && !fatal
      modifies this`cancel, this`screen, this`tally
      modifies launcher`next, launcher`state, launcher`faults, launcher`counted, savers`state, session`locked
      ensures Linked() && Took(old(View()), ModuleExit, taken, View())
    {
      taken := [];
      if screen.done.Some? {
        Theorems.ExitsHaveASaver(View());
        ghost var locked, c := OnModuleExit();
        taken := [ModuleExited(locked, c)];
      }
    }

    /** Exits is selected on only while it is set. */
    method TakeCopyExit(i: nat) returns (ghost taken: seq<Event>)
      requires Valid() && !fatal
      modifies this`screen, this`tally, launcher`faults, savers`state, savers`replaced, session`locked
      ensures Linked() && Took(old(View()), CopyExit(i), taken, View())
    {
      taken := [];
      if screen.exits.Some? && i < |screen.names| {
        Theorems.ExitsHaveASaver(View());
        ghost var tries := OnCopyExit(i);
        taken := [CopyExited(i, tries)];
      }
    }

    /** A lock change, or a config that was read, is always taken. */
    method TakeUpdate(signal: Signal) returns (ghost taken: seq<Event>)
      requires Valid() && !fatal && (signal.LockState? || signal.ConfigRead?)
      modifies this`gen, this`abandoned, this`cancel, this`screen, this`blanked, this`stage, this`tally, this`period
      modifies this`table, this`fatal, this`cfg
      modifies mon`next, mon`state, mon`refusals, launcher`only, launcher`never, launcher`state, savers`state
      modifies session`state, session`failures
      ensures Linked() && Took(old(View()), signal, taken, View())
    {
      match signal {
        case LockState(locked) =>
          OnLockChange(locked);
          taken := [LockChanged(locked)];
        case ConfigRead(loaded) =>
          ghost var selectable, written, gone, armed := Reload(loaded);
          taken := [Reloaded(loaded, selectable, written, gone, armed)];
      }
    }

    /** What comes from a launch or from a module that exited. */
    method TakeReport(signal: Signal) returns (ghost taken: seq<Event>)
      requires Valid() && !fatal && (signal.Result? || signal.ModuleExit? || signal.CopyExit?)
      modifies this`cancel, this`screen, this`tally, this`launch
      modifies launcher`next, launcher`state, launcher`faults, launcher`counted
      modifies savers`next, savers`state, savers`replaced, session`locked
      ensures Linked() && Took(old(View()), signal, taken, View())
    {
      match signal {
        case Result(l, outcome) =>
          taken := TakeResult(l, outcome);
        case ModuleExit =>
          taken := TakeModuleExit();
        case CopyExit(i) =>
          taken := TakeCopyExit(i);
      }
    }

    /** Runs the handler of one signal, if its channel is selected on. */
    method Handle(signal: Signal) returns (ghost taken: seq<Event>)
      requires Valid() && !fatal
      modifies this, mon`next, mon`state, mon`refusals, mon`idle, launcher`only, launcher`never, launcher`next
      modifies launcher`state, launcher`faults, launcher`counted
      modifies savers`next, savers`state, savers`replaced, session`state, session`failures, session`locked
      ensures Linked() && Took(old(View()), signal, taken, View())
    {
      match signal {
        case Fired(id) =>
          taken := TakeSignal(id);
        case LockState(_) =>
          taken := TakeUpdate(signal);
        case ConfigRead(_) =>
          taken := TakeUpdate(signal);
        case _ =>
          taken := TakeReport(signal);
      }
    }

    /** Takes one signal, if the event loop can: a launch reports once, and a
        channel is selected on only while it is set. */
    method Dispatch(signal: Signal) returns (ghost taken: seq<Event>)
      requires Valid() && !fatal
      modifies this, mon`next, mon`state, mon`refusals, mon`idle, launcher`only, launcher`never, launcher`next
      modifies launcher`state, launcher`faults, launcher`counted
      modifies savers`next, savers`state, savers`replaced, session`state, session`failures, session`locked
      ensures Valid() && Took(old(View()), signal, taken, View())
    {
      ghost var s := View();
      taken := Handle(signal);
      TookKeeps(s, signal, taken, View());
    }

    /** One turn of the event loop, which carries the run of those before on. */
    method Turn(signals: seq<Signal>, n: nat, ghost run: seq<State>, ghost events: seq<Event>, ghost first: State)
      returns (ghost longer: seq<State>, ghost more: seq<Event>)
      requires Valid() && !fatal && n < |signals| && Handled(signals[..n], run, events, first, View(), launcher.discovered)
      modifies this, mon`next, mon`state, mon`refusals, mon`idle, launcher`only, launcher`never, launcher`next
      modifies launcher`state, launcher`faults, launcher`counted
      modifies savers`next, savers`state, savers`replaced, session`state, session`failures, session`locked
      ensures Valid() && Handled(signals[..n + 1], longer, more, first, View(), launcher.discovered)
    {
      ghost var taken := Dispatch(signals[n]);
      OneMoreHandled(signals[..n], signals[n], run, events, first, taken, View(), launcher.discovered);
      assert signals[..n + 1] == signals[..n] + [signals[n]];
      longer := if taken == [] then run else run + [View()];
      more := if taken == [] then events else events + [taken[0]];
    }

    /** The event loop, over whatever signals arrive before it is stopped. It
        takes each signal that it can, in order, making a run of the idle machine,
        and leaves early only when a handler could not register its watches. */
    method EventLoop(signals: seq<Signal>) returns (n: nat, ghost run: seq<State>, ghost events: seq<Event>)
      requires Valid() && !fatal
      modifies this, mon`next, mon`state, mon`refusals, mon`idle, launcher`only, launcher`never, launcher`next
      modifies launcher`state, launcher`faults, launcher`counted
      modifies savers`next, savers`state, savers`replaced, session`state, session`failures, session`locked
      ensures Valid() && n <= |signals| && (n < |signals| ==> fatal)
      ensures Handled(signals[..n], run, events, old(View()), View(), launcher.discovered)
    {
      run, events := [View()], [];
      NothingHandled(View(), launcher.discovered);
      n := 0;
      while n < |signals| && !fatal
        invariant n <= |signals| && Valid()
        invariant Handled(signals[..n], run, events, old(View()), View(), launcher.discovered)
      {
        run, events := Turn(signals, n, run, events, old(View()));
        n := n + 1;
      }
    }

    /** From the armed watches to the end: the event loop and the teardown. */
    method Serve(signals: seq<Signal>, queued: Option<(LaunchId, Outcome)>)
      returns (n: nat, ghost run: seq<State>, ghost events: seq<Event>)
      requires Valid() && !fatal
      modifies this, mon`next, mon`state, mon`refusals, mon`idle, launcher`only, launcher`never, launcher`next
      modifies launcher`state, launcher`faults, launcher`counted
      modifies savers`next, savers`state, savers`replaced, session`state, session`failures, session`locked, session`restores
      ensures n <= |signals| && (n < |signals| ==> fatal)
      ensures IsRun(run, events) && Follows(signals[..n], run, events) && run[0] == old(View()) && (fatal <==> run[|events|].fatal)
      ensures forall k :: 0 <= k < |run| ==> AsConfigured(launcher.discovered, run[k])
      ensures forall x :: x in run[|events|].savers.stops ==> x in savers.state.stops
      ensures forall x :: x in savers.state.stops ==> savers.state.stops[x] == 1
      ensures session.restores == old(session.restores) + 1
    {
      n, run, events := EventLoop(signals);
      var _ := Shutdown(queued);
    }
  }

  /** The attempt goes by what the session and the saver answered. */
  predicate Answered(t: Try, locked: Option<bool>, replaced: bool) {
    t.locked == locked && (locked != Some(true) && t.name.Some? ==> t.runs == replaced)
  }

  /** The state after the teardown, with the result that was waiting. */
  function Ended(s: State, queued: Option<(LaunchId, Outcome)>, saver: SaverId): State {
    match queued
    case None => IdleMachine.Shutdown(s, None, Up, saver)
    case Some((l, outcome)) => IdleMachine.Shutdown(s, Some(l), outcome, saver)
  }

  lemma EndedStops(s: State, queued: Option<(LaunchId, Outcome)>, saver: SaverId)
    requires Proofs.Conserved(s.screen.current, s.savers.stops) && saver !in s.savers.stops
    ensures var t := Ended(s, queued, saver);
      && (forall x :: x in t.savers.stops ==> t.savers.stops[x] == 1)
      && (forall x :: x in s.savers.stops ==> x in t.savers.stops)
  {
    Theorems.ShutdownStops(s, if queued.Some? then Some(queued.value.0) else None, if queued.Some? then queued.value.1 else Up, saver);
  }

  /** What the event loop waits for. */
  datatype Signal =
    | Fired(id: WatchId)
    | Result(l: LaunchId, outcome: Outcome)
    | ModuleExit
    | CopyExit(monitor: nat)
    | LockState(locked: bool)
    | ConfigRead(loaded: Option<Config>)

  /** The event loop cannot take the signal: a launch reports once, and a channel is
      selected on only while it is set. */
  predicate Ignored(s: State, signal: Signal) {
    match signal
    case Result(l, _) => l !in s.launcher.inflight || l !in s.launcher.begun
    case ModuleExit => s.screen.done.None?
    case CopyExit(i) => s.screen.exits.None? || i >= |s.screen.names|
    case _ => false
  }

  /** The event is this signal with the collaborators' answers to it. */
  ghost predicate Carries(signal: Signal, e: Event) {
    match signal
    case Fired(id) => e.WatchFired? && e.id == id
    case Result(l, outcome) => e.LaunchDone? && e.l == l && e.outcome == outcome
    case ModuleExit => e.ModuleExited?
    case CopyExit(i) => e.CopyExited? && e.monitor == i
    case LockState(locked) => e.LockChanged? && e.lockedNow == locked
    case ConfigRead(loaded) => e.Reloaded? && e.cfg == loaded
  }

  /** From s to t by the event of this signal, or by nothing when it is ignored. */
  ghost predicate Took(s: State, signal: Signal, taken: seq<Event>, t: State) {
    && |taken| <= 1
    && (taken == [] <==> Ignored(s, signal))
    && if taken == [] then t == s
       else Carries(signal, taken[0]) && Possible(s, taken[0]) && t == Step(s, taken[0])
  }

  lemma TookKeeps(s: State, signal: Signal, taken: seq<Event>, t: State)
    requires Proofs.Invariant(s) && Took(s, signal, taken, t)
    ensures Proofs.Invariant(t)
  {
    if taken != [] {
      Theorems.StepKeeps(s, taken[0]);
    }
  }

  /** The events are the signals, in order, without those that could not be taken
      when they came. */
  ghost predicate Follows(signals: seq<Signal>, run: seq<State>, events: seq<Event>) {
    && |run| == |events| + 1
    && if signals == [] then events == []
       else
         var init, last := signals[..|signals| - 1], signals[|signals| - 1];
         || (Ignored(run[|events|], last) && Follows(init, run, events))
         || (events != [] && Carries(last, events[|events| - 1]) && !Ignored(run[|events| - 1], last)
             && Follows(init, run[..|events|], events[..|events| - 1]))
  }

  /** From first to last, a run of the idle machine made of these signals. */
  ghost predicate Handled(signals: seq<Signal>, run: seq<State>, events: seq<Event>, first: State, last: State,
                          discovered: seq<string>) {
    && IsRun(run, events) && Follows(signals, run, events) && run[0] == first && run[|events|] == last
    && forall k :: 0 <= k < |run| ==> AsConfigured(discovered, run[k])
  }

  lemma NothingHandled(s: State, discovered: seq<string>)
    requires AsConfigured(discovered, s)
    ensures Handled([], [s], [], s, s, discovered)
  {
  }

  lemma OneMoreHandled(signals: seq<Signal>, signal: Signal, run: seq<State>, events: seq<Event>, first: State,
                       taken: seq<Event>, next: State, discovered: seq<string>)
    requires |run| == |events| + 1 && Handled(signals, run, events, first, run[|events|], discovered)
    requires Took(run[|events|], signal, taken, next) && AsConfigured(discovered, next)
    ensures if taken == [] then Handled(signals + [signal], run, events, first, next, discovered)
            else Handled(signals + [signal], run + [next], events + [taken[0]], first, next, discovered)
  {
    assert (signals + [signal])[..|signals|] == signals;
    if taken != [] {
      Theorems.RunExtends(run, events, taken[0]);
      assert (run + [next])[..|events| + 1] == run && (events + [taken[0]])[..|events|] == events;
    }
  }

  datatype Exit = NotConnected | NotOwned | NotArmed | Fatal | Stopped

  /** A machine that has just registered its first watches, or could not. */
  method Started(cfg: Config, mon: IdleMonitor, session: Session, launcher: Launcher, savers: Savers)
    returns (m: Machine, ok: bool)
    requires mon.Valid() && mon.state.registered == {} && launcher.Valid() && savers.Valid()
    requires launcher.state == LauncherState(launcher.state.selectable, map[], {}, {}, 0)
    requires savers.state == SaversState(map[], map[]) && session.state.idleDelay == 0
    requires launcher.only == cfg.only && launcher.never == cfg.never
    modifies mon`next, mon`state, mon`refusals
    ensures fresh(m) && m.mon == mon && m.session == session && m.launcher == launcher && m.savers == savers
    ensures m.Linked() && Proofs.Conserved(m.screen.current, savers.state.stops)
    ensures ok ==> m.Valid() && !m.fatal && Initial(m.View()) && m.cfg == cfg
    ensures mon.refusals == old(mon.refusals) + if ok then 0 else 1
  {
    m := new Machine(cfg, mon, session, launcher, savers);
    ghost var s0 := m.View();
    ghost var armed;
    ok, armed := m.Arm();
    if ok {
      Theorems.InitialFrom(s0, armed);
    }
  }

  /** The daemon, from connecting to the teardown, over whatever signals arrive
      before it is stopped or loses the session bus. What it does between arming
      and the teardown is a run of the idle machine; every way out past taking
      idle-delay over gives it back once, with every saver it was handed stopped
      exactly once. */
  method Run(cfg: Config, connected: bool, mon: IdleMonitor, session: Session, launcher: Launcher, savers: Savers,
             signals: seq<Signal>, queued: Option<(LaunchId, Outcome)>)
    returns (exit: Exit, n: nat, ghost run: seq<State>, ghost events: seq<Event>)
    requires mon.Valid() && mon.state.registered == {} && launcher.Valid() && savers.Valid()
    requires launcher.state == LauncherState(launcher.state.selectable, map[], {}, {}, 0)
    requires savers.state == SaversState(map[], map[])
    requires launcher.only == cfg.only && launcher.never == cfg.never
    modifies mon`next, mon`state, mon`refusals, mon`idle, launcher`only, launcher`never, launcher`next, launcher`state
    modifies launcher`faults, launcher`counted
    modifies savers`next, savers`state, savers`replaced, session`state, session`failures, session`locked, session`restores
    ensures exit.NotConnected? <==> !connected
    ensures exit.NotOwned? ==> session.failures == old(session.failures) + 1
    ensures exit.NotArmed? ==> mon.refusals == old(mon.refusals) + 1
    ensures session.restores == old(session.restores) + if exit.NotConnected? || exit.NotOwned? then 0 else 1
    ensures forall x :: x in savers.state.stops ==> savers.state.stops[x] == 1
    ensures exit.Fatal? || exit.Stopped? ==>
      && n <= |signals| && Follows(signals[..n], run, events) && (exit.Stopped? ==> n == |signals|)
      && IsRun(run, events) && Initial(run[0])
      && (exit.Fatal? <==> run[|events|].fatal)
      && (forall k :: 0 <= k < |run| ==> AsConfigured(launcher.discovered, run[k]))
      && (forall x :: x in run[|events|].savers.stops ==> x in savers.state.stops)
  {
    n, run, events := 0, [], [];
    if !connected {
      return NotConnected, n, run, events;
    }
    var owned := session.SetIdleDelay(0);
    if !owned {
      return NotOwned, n, run, events;
    }
    var m, ok := Started(cfg, mon, session, launcher, savers);
    if !ok {
      var _ := m.Shutdown(queued);
      return NotArmed, n, run, events;
    }
    n, run, events := m.Serve(signals, queued);
    exit := if m.fatal then Fatal else Stopped;
  }
}
