/** What the idle machine promises over every run: any number of events, in any
    order, with any answers from the collaborators. */
module IdleMachineTheorems {
  import opened Wrappers
  import opened Settings
  import opened Schedule
  import opened Collaborators
  import opened IdleMachine
  import opened IdleMachineProofs

  // ----- the invariant, over runs

  lemma InitialHolds(s: State)
    requires Initial(s)
    ensures Invariant(s)
  {
    var cfg: Config, mon: MonitorState, selectable: set<string>, session: SessionState, a: Armed :|
      && mon.registered == {} && session.idleDelay == 0 && ArmedOk(mon, a)
      && Arm(New(cfg, mon, selectable, session), a) == (s, true);
    ArmKeeps(New(cfg, mon, selectable, session), a);
  }

  lemma InitialFrom(s: State, a: Armed)
    requires s == New(s.cfg, s.mon, s.launcher.selectable, s.session)
    requires s.mon.registered == {} && s.session.idleDelay == 0 && ArmedOk(s.mon, a) && Arm(s, a).1
    ensures Initial(Arm(s, a).0) && Invariant(Arm(s, a).0) && !Arm(s, a).0.fatal
  {
    ArmKeeps(s, a);
    assert Arm(New(s.cfg, s.mon, s.launcher.selectable, s.session), a) == (Arm(s, a).0, true);
    InitialHolds(Arm(s, a).0);
  }

  lemma RunExtends(run: seq<State>, events: seq<Event>, e: Event)
    requires IsRun(run, events) && Possible(run[|events|], e)
    ensures IsRun(run + [Step(run[|events|], e)], events + [e])
  {
  }

  lemma SignalKeeps(s: State, id: WatchId, a: Answers)
    requires Invariant(s) && !s.fatal && AnswersOk(s, a)
    ensures Invariant(HandleWatch(s, id, a))
  {
    if id in s.table.watches {
      match s.table.watches[id]
      case KindSaver => OnSaverKeeps(s, a.active, a.locked, a.idle, a.cycle, a.choice);
      case KindCycle => OnCycleKeeps(s, id, id in a.gone, a.locked, a.idle, a.cycle, a.choice);
      case KindLock => OnLockKeeps(s, a.active);
      case KindBlank => OnBlankKeeps(s, a.active, a.written);
      case KindActive => StartOver(s, a.written, a.gone, a.armed);
    }
  }

  lemma StepKeeps(s: State, e: Event)
    requires Invariant(s) && Possible(s, e)
    ensures Invariant(Step(s, e))
  {
    match e
    case WatchFired(id, a) => SignalKeeps(s, id, a);
    case LaunchDone(l, outcome, saver, c) => HandleLaunchKeeps(s, l, outcome, saver, c);
    case ModuleExited(locked, c) => OnModuleExitKeeps(s, locked, c);
    case CopyExited(i, tries) => OnCopyExitKeeps(s, i, tries);
    case LockChanged(locked) => OnLockChangeKeeps(s, locked);
    case Reloaded(cfg, selectable, written, gone, armed) => ReloadKeeps(s, cfg, selectable, written, gone, armed);
  }

  /** The invariant holds in every state of every run. */
  lemma {:induction false} EveryReachableState(run: seq<State>, events: seq<Event>, k: nat)
    requires IsRun(run, events) && Initial(run[0]) && k < |run|
    ensures Invariant(run[k])
  {
    if k == 0 {
      InitialHolds(run[0]);
    } else {
      EveryReachableState(run, events, k - 1);
      StepKeeps(run[k - 1], events[k - 1]);
    }
  }

  // ----- a module that died on screen

  /** In every reachable state a dead module is on screen by itself, unlistened
      to, and a launch of the current generation, not cancelled, is in flight to
      replace it. */
  lemma NeverStranded(run: seq<State>, events: seq<Event>, k: nat)
    requires IsRun(run, events) && Initial(run[0]) && k < |run| && run[k].screen.dead
    ensures var s := run[k];
      && s.screen.current.Some? && s.screen.done.None? && s.screen.exits.None?
      && s.cancel.Some?
      && s.cancel.value in s.launcher.inflight - s.launcher.cancelled
      && s.cancel.value in s.launcher.begun
      && s.launcher.begun[s.cancel.value].gen == s.gen
  {
    EveryReachableState(run, events, k);
  }

  /** Whatever that launch reports settles the matter: the dead module gives way
      to the saver that came up, or its windows are closed, or one more launch,
      after which no third is tried, takes over. Either way it is stopped once. */
  lemma ReplacementSettles(s: State, outcome: Outcome, saver: SaverId, c: Choice)
    requires Invariant(s) && s.screen.dead && Possible(s, LaunchDone(s.cancel.value, outcome, saver, c))
    ensures var t := HandleLaunch(s, s.cancel.value, outcome, saver, c);
      && (outcome.Up? ==> t.screen.current == Some(saver) && !t.screen.dead)
      && (outcome.Failed? ==>
            || t.screen == BARE
            || (t.screen == s.screen && s.tally.attempts < 2 && t.tally.attempts == s.tally.attempts + 1
                && t.cancel == Some(c.launch) && c.launch in t.launcher.inflight && s.cancel.value !in t.launcher.inflight))
      && (t.screen != s.screen ==> t.savers.stops[s.screen.current.value] == 1)
      && (outcome == Failed(false) || (outcome.Failed? && (s.tally.attempts == 2 || c.names.None?)) ==> t.screen == BARE)
  {
  }

  // ----- conservation of savers

  /** In every reachable state the saver on screen has not been stopped and every
      other one received so far has been stopped exactly once. */
  lemma SaversConserved(run: seq<State>, events: seq<Event>, k: nat, x: SaverId)
    requires IsRun(run, events) && Initial(run[0]) && k < |run| && x in run[k].savers.stops
    ensures run[k].savers.stops[x] == if run[k].screen.current == Some(x) then 0 else 1
  {
    EveryReachableState(run, events, k);
  }

  /** Whatever state the machine is in, arming included, the teardown stops what
      is on screen and what is still on its way in. */
  lemma ShutdownStops(s: State, queued: Option<LaunchId>, outcome: Outcome, saver: SaverId)
    requires Conserved(s.screen.current, s.savers.stops) && saver !in s.savers.stops
    ensures var t := Shutdown(s, queued, outcome, saver);
      && t.screen == BARE
      && (forall x :: x in t.savers.stops ==> t.savers.stops[x] == 1)
      && (forall x :: x in s.savers.stops ==> x in t.savers.stops)
      && (queued.Some? && outcome.Up? ==> saver in t.savers.stops)
  {
  }

  /** After the teardown every saver received has been stopped exactly once,
      wherever the run ended and whatever result was waiting. */
  lemma ShutdownStopsEverySaver(run: seq<State>, events: seq<Event>, queued: Option<LaunchId>, outcome: Outcome, saver: SaverId)
    requires IsRun(run, events) && Initial(run[0])
    requires saver !in run[|events|].savers.stops
    ensures var t := Shutdown(run[|events|], queued, outcome, saver);
      && t.screen == BARE
      && (forall x :: x in t.savers.stops ==> t.savers.stops[x] == 1)
      && (forall x :: x in run[|events|].savers.stops ==> x in t.savers.stops)
      && (queued.Some? && outcome.Up? ==> saver in t.savers.stops)
  {
    EveryReachableState(run, events, |events|);
    ShutdownStops(run[|events|], queued, outcome, saver);
  }

  // ----- generations

  /** The events that start a new generation: the user is back, the config changed,
      or a lock finds a saver up or a cancel function stored. */
  predicate Abandons(s: State, e: Event) {
    match e
    case WatchFired(id, _) => id in s.table.watches && s.table.watches[id] == KindActive
    case Reloaded(cfg, _, _, _, _) => cfg.Some? && cfg.value != s.cfg
    case LockChanged(locked) => locked && s.stage == Saver && (s.screen.current.Some? || s.cancel.Some?)
    case _ => false
  }

  /** t knows every launch that s knew. */
  ghost predicate Remembers(s: State, t: State) {
    forall l :: l in s.launcher.begun ==> l in t.launcher.begun && t.launcher.begun[l] == s.launcher.begun[l]
  }

  lemma OnSaverRemembers(s: State, active: Option<WatchId>, locked: Option<bool>, idle: Option<int>,
                         cycle: Option<WatchId>, c: Choice)
    requires c.launch !in s.launcher.begun
    ensures var t := OnSaver(s, active, locked, idle, cycle, c); Remembers(s, t) && t.gen == s.gen
  {
    var s0 := Deliver(s, KindSaver).(stage := Saver);
    var s1 := EnsureActive(s0, active);
    WatchesLeave(s0, None, active);
    WatchesLeave(s1.(period := s1.period.(started := true)), idle, cycle);
  }

  lemma OnCycleRemembers(s: State, id: WatchId, gone: bool, locked: Option<bool>, idle: Option<int>,
                         cycle: Option<WatchId>, c: Choice)
    requires c.launch !in s.launcher.begun
    ensures var t := OnCycle(s, id, gone, locked, idle, cycle, c); Remembers(s, t) && t.gen == s.gen
  {
    WatchesLeave(SwapBegun(s, id, gone), idle, cycle);
  }

  lemma SignalRemembers(s: State, id: WatchId, a: Answers)
    requires a.choice.launch !in s.launcher.begun
    requires id in s.table.watches ==> s.table.watches[id] != KindActive
    ensures Remembers(s, HandleWatch(s, id, a)) && HandleWatch(s, id, a).gen == s.gen
  {
    OnSaverRemembers(s, a.active, a.locked, a.idle, a.cycle, a.choice);
    OnCycleRemembers(s, id, id in a.gone, a.locked, a.idle, a.cycle, a.choice);
    WatchesLeave(Deliver(s, KindLock).(stage := Lock), None, a.active);
    WatchesLeave(Deliver(s, KindBlank).(stage := Blank), None, a.active);
  }

  lemma StartingOverRemembers(s: State, written: bool, gone: set<WatchId>, a: Armed)
    ensures var t := Rearm(Reset(s, written), gone, a);
      Remembers(s, t) && t.gen == s.gen + 1
  {
    RearmLeaves(Reset(s, written), gone, a);
  }

  lemma ResultRemembers(s: State, l: LaunchId, outcome: Outcome, saver: SaverId, c: Choice)
    requires l in s.launcher.begun && c.launch !in s.launcher.begun
    ensures var t := HandleLaunch(s, l, outcome, saver, c); Remembers(s, t) && t.gen == s.gen
  {
  }

  lemma ExitRemembers(s: State, locked: Option<bool>, c: Choice)
    requires c.launch !in s.launcher.begun
    ensures var t := OnModuleExit(s, locked, c); Remembers(s, t) && t.gen == s.gen
  {
  }

  /** Launches are never forgotten nor relabelled, the generation never goes
      back, and it moves on exactly when what was begun is abandoned. */
  lemma StepRemembers(s: State, e: Event)
    requires Possible(s, e)
    ensures Remembers(s, Step(s, e)) && Step(s, e).gen == s.gen + (if Abandons(s, e) then 1 else 0)
  {
    match e
    case WatchFired(id, a) =>
      if id in s.table.watches && s.table.watches[id] == KindActive {
        StartingOverRemembers(s, a.written, a.gone, a.armed);
      } else {
        SignalRemembers(s, id, a);
      }
    case Reloaded(cfg, selectable, written, gone, armed) =>
      if cfg.Some? && cfg.value != s.cfg {
        StartingOverRemembers(s.(cfg := cfg.value, launcher := s.launcher.(selectable := selectable)), written, gone, armed);
      }
    case LaunchDone(l, outcome, saver, c) => ResultRemembers(s, l, outcome, saver, c);
    case ModuleExited(locked, c) => ExitRemembers(s, locked, c);
    case CopyExited(i, tries) => OnCopyExitFrame(s, i, tries);
    case LockChanged(_) =>
  }

  lemma RunRemembers(run: seq<State>, events: seq<Event>, j: nat, k: nat)
    requires IsRun(run, events) && j <= k < |run|
    ensures Remembers(run[j], run[k])
    ensures run[j].gen <= run[k].gen
  {
    forall i | 0 <= i < |run| - 1 ensures Remembers(run[i], run[i + 1]) && run[i].gen <= run[i + 1].gen {
      StepRemembers(run[i], events[i]);
    }
    RememberedOn(run, j, k);
  }

  lemma {:induction false} RememberedOn(run: seq<State>, j: nat, k: nat)
    requires forall i :: 0 <= i < |run| - 1 ==> Remembers(run[i], run[i + 1]) && run[i].gen <= run[i + 1].gen
    requires j <= k < |run|
    ensures Remembers(run[j], run[k])
    ensures run[j].gen <= run[k].gen
    decreases k
  {
    if j < k {
      RememberedOn(run, j, k - 1);
      RemembersOn(run[j], run[k - 1], run[k]);
    }
  }

  lemma RemembersOn(a: State, b: State, c: State)
    requires Remembers(a, b) && Remembers(b, c)
    ensures Remembers(a, c)
  {
  }

  /** A launch begun before a new generation started is never what is on screen at
      any later time. A lock does not always start one: module IdleMachineLocks
      says when a launch gets past it. */
  lemma AbandonedLaunchNeverShows(run: seq<State>, events: seq<Event>, j: nat, k: nat, l: LaunchId)
    requires IsRun(run, events) && Initial(run[0]) && j < k < |run|
    requires l in run[j].launcher.begun && Abandons(run[j], events[j])
    ensures run[k].screen.current.Some? ==> run[k].launch != l
  {
    EveryReachableState(run, events, j);
    EveryReachableState(run, events, k);
    StepRemembers(run[j], events[j]);
    RunRemembers(run, events, j, k);
    RunRemembers(run, events, j + 1, k);
  }

  /** A module is only ever seen to exit during the saver stage, so neither exit
      handler needs its guard against a later one. */
  lemma ExitsBelongToTheSaverStage(s: State, e: Event)
    requires Invariant(s) && Possible(s, e) && (e.ModuleExited? || e.CopyExited?)
    ensures s.stage == Saver && s.screen.current.Some? && s.savers.stops[s.screen.current.value] == 0
  {
    ExitsHaveASaver(s);
  }

  lemma ExitsHaveASaver(s: State)
    requires Invariant(s) && (s.screen.done.Some? || s.screen.exits.Some?)
    ensures s.stage == Saver && s.screen.current.Some? && s.screen.current.value in s.savers.stops
    ensures s.savers.stops[s.screen.current.value] == 0
  {
  }

  // ----- launch budget

  /** Launches since the last reset: two for the start, for each swap and for
      each of at most three deaths; every swap came before the lock; and Replace
      was called at most three times for any one monitor. */
  lemma LaunchBudget(run: seq<State>, events: seq<Event>, k: nat, monitor: nat)
    requires IsRun(run, events) && Initial(run[0]) && k < |run|
    ensures var s := run[k];
      && s.launcher.launches - s.period.launches <= 2 * (1 + s.period.swaps + s.tally.deaths)
      && s.tally.deaths <= 3
      && (!s.fatal && s.cfg.lockAfter > 0 ==> s.period.swaps * s.cfg.cycleAfter < s.cfg.lockAfter)
      && Count(s.savers.replacements, monitor) <= Count(s.period.replacements, monitor) + 3
  {
    EveryReachableState(run, events, k);
  }

  // ----- the swap schedule

  /** The signal is handled by scheduling a swap: the saver stage begins, or goes
      on to another module. */
  predicate Schedules(s: State, id: WatchId, a: Answers) {
    && id in s.table.watches && s.cfg.CycleEnabled() && !IsLocked(a.locked)
    && match s.table.watches[id]
       case KindSaver => s.stage == Idle
       case KindCycle => s.stage == Saver
       case _ => false
  }

  /** How many swaps are behind the one that is scheduled then. */
  function Behind(s: State, id: WatchId): nat
    requires id in s.table.watches
  {
    if s.table.watches[id] == KindCycle then s.tally.cycles + 1 else s.tally.cycles
  }

  /** Every swap a run schedules is computed in int64 without wrapping around, when
      the config leaves room for one interval past the lock and the idle time, if it
      is known, for one interval past itself. Without a lock it is the due time
      of the swap that fired, which an idle time read then has reached, that must
      leave such room. */
  lemma SwapsNeverWrap(run: seq<State>, events: seq<Event>, k: nat, id: WatchId, a: Answers)
    requires IsRun(run, events) && Initial(run[0]) && k < |events|
    requires events[k] == WatchFired(id, a) && Schedules(run[k], id, a)
    requires InRange(run[k].cfg) && LockAt(run[k].cfg) + run[k].cfg.cycleAfter <= MAX_INT64
    requires a.idle.Some? ==> 0 <= a.idle.value && a.idle.value + run[k].cfg.cycleAfter <= MAX_INT64
    requires !run[k].cfg.LockEnabled() && run[k].table.watches[id] == KindCycle ==> run[k].table.due + run[k].cfg.cycleAfter <= MAX_INT64
    ensures var cfg, n := run[k].cfg, NextSwap(run[k].cfg, Behind(run[k], id), a.idle);
      && run[k + 1].table.due == SwapAt(cfg, n) == SwapAt64(cfg, n)
      && n == NextSwap64(cfg, Behind(run[k], id), a.idle)
      && (BeforeLock(cfg, n) <==> BeforeLock64(cfg, n))
  {
    var s := run[k];
    EveryReachableState(run, events, k);
    if s.table.watches[id] == KindCycle {
      assert Has(s.table.watches, KindCycle);
      RoomAfter(s.cfg, s.tally.cycles + 1);
    } else {
      assert s.tally.cycles == 0;
    }
    SwapScheduleFits(s.cfg, Behind(s, id), a.idle);
    DueAfter(s, id, a);
  }

  lemma DueAfter(s: State, id: WatchId, a: Answers)
    requires Schedules(s, id, a)
    ensures HandleWatch(s, id, a).table.due == SwapAt(s.cfg, NextSwap(s.cfg, Behind(s, id), a.idle))
  {
    if s.table.watches[id] == KindCycle {
      ArmedDue(SwapBegun(s, id, id in a.gone), a.idle, a.cycle, a.choice);
    } else {
      var begun := EnsureActive(Deliver(s, KindSaver).(stage := Saver), a.active);
      ArmedDue(begun.(period := begun.period.(started := true)), a.idle, a.cycle, a.choice);
    }
  }

  lemma ArmedDue(s: State, idle: Option<int>, w: Option<WatchId>, c: Choice)
    requires s.cfg.CycleEnabled()
    ensures StartLaunch(ArmCycle(s, idle, w), c).table.due == SwapAt(s.cfg, NextSwap(s.cfg, s.tally.cycles, idle))
  {
  }

  // ----- watches

  /** The table never holds more than one watch of a kind, five in all. */
  lemma {:induction false} KindsBound(watches: map<WatchId, Kind>, kinds: set<Kind>)
    requires forall i, j :: i in watches && j in watches && watches[i] == watches[j] ==> i == j
    requires forall id :: id in watches ==> watches[id] in kinds
    ensures |watches| <= |kinds|
    decreases |kinds|
  {
    if id :| id in watches {
      var one: set<WatchId> := {id};
      var rest := watches - one;
      KindsBound(rest, kinds - {watches[id]});
      assert rest.Keys == watches.Keys - {id};
    } else {
      assert watches == map[];
    }
  }

  /** What a watch of each kind waits for. */
  function Threshold(s: State, kind: Kind): Watch {
    match kind
    case KindSaver => IdleFor(s.cfg.saverDelay)
    case KindCycle => IdleFor(s.cfg.saverDelay + (s.tally.cycles + 1) * s.cfg.cycleAfter)
    case KindLock => IdleFor(s.cfg.saverDelay + s.cfg.lockAfter)
    case KindBlank => IdleFor(s.cfg.saverDelay + s.cfg.lockAfter + s.cfg.blankAfter)
    case KindActive => UserActive
  }

  /** While the daemon runs, its table holds the saver watch, the lock and blank
      watches exactly when they are enabled, the user-active watch exactly when
      it is armed, a swap watch only while a saver was started, all at their own
      thresholds and never more than five. */
  lemma TableAsConfigured(run: seq<State>, events: seq<Event>, k: nat)
    requires IsRun(run, events) && Initial(run[0]) && k < |run| && !run[k].fatal
    ensures var s := run[k];
      && |s.table.watches| <= 5
      && Has(s.table.watches, KindSaver)
      && (Has(s.table.watches, KindLock) <==> s.cfg.lockAfter > 0)
      && (Has(s.table.watches, KindBlank) <==> s.cfg.lockAfter > 0 && s.cfg.blankAfter > 0)
      && (Has(s.table.watches, KindActive) <==> s.table.activeArmed)
      && (Has(s.table.watches, KindCycle) ==> s.stage != Idle && s.cfg.cycleAfter > 0)
      && (forall i, j :: i in s.table.watches && j in s.table.watches && s.table.watches[i] == s.table.watches[j] ==> i == j)
      && (forall id :: id in s.table.watches ==> id in s.mon.issued && s.mon.issued[id] == Threshold(s, s.table.watches[id]))
      && s.mon.registered <= s.table.watches.Keys + s.mon.stuck
  {
    EveryReachableState(run, events, k);
    TableSize(run[k]);
    TableThresholds(run[k]);
  }

  lemma TableThresholds(s: State)
    requires Tabled(s) && SwapDue(s.cfg, s.table, s.tally.cycles, s.period.swaps)
    ensures forall id :: id in s.table.watches ==> id in s.mon.issued && s.mon.issued[id] == Threshold(s, s.table.watches[id])
  {
    forall id | id in s.table.watches && s.table.watches[id] == KindCycle
      ensures s.table.due == SwapAt(s.cfg, s.tally.cycles + 1)
    {
      assert Has(s.table.watches, KindCycle);
    }
  }

  lemma TableSize(s: State)
    requires Tabled(s)
    ensures |s.table.watches| <= 5
  {
    KindsBound(s.table.watches, {KindSaver, KindCycle, KindLock, KindBlank, KindActive});
  }

  /** id was issued before t, and is in its table only if it was in that of s. */
  ghost predicate NoOldId(s: State, t: State, id: WatchId) {
    id in t.mon.issued && (id in t.table.watches ==> id in s.table.watches)
  }

  lemma OneWatchMore(s: State, idle: Option<int>, w: Option<WatchId>, id: WatchId)
    requires FreshWatch(s.mon, w) && id in s.mon.issued
    ensures NoOldId(s, EnsureActive(s, w), id) && NoOldId(s, ArmCycle(s, idle, w), id)
    ensures forall x :: x in EnsureActive(s, w).mon.issued ==> x in s.mon.issued || w == Some(x)
  {
  }

  lemma OnSaverIssuesNewIds(s: State, active: Option<WatchId>, locked: Option<bool>, idle: Option<int>,
                          cycle: Option<WatchId>, c: Choice, id: WatchId)
    requires SwapWatchOk(s.mon, active, cycle) && id in s.mon.issued
    ensures NoOldId(s, OnSaver(s, active, locked, idle, cycle, c), id)
  {
    var s0 := Deliver(s, KindSaver).(stage := Saver);
    var s1 := EnsureActive(s0, active);
    OneWatchMore(s0, None, active, id);
    OneWatchMore(s1.(period := s1.period.(started := true)), idle, cycle, id);
  }

  lemma OnCycleIssuesNewIds(s: State, w: WatchId, gone: bool, locked: Option<bool>, idle: Option<int>,
                          cycle: Option<WatchId>, c: Choice, id: WatchId)
    requires FreshWatch(s.mon, cycle) && id in s.mon.issued
    ensures NoOldId(s, OnCycle(s, w, gone, locked, idle, cycle, c), id)
  {
    OneWatchMore(SwapBegun(s, w, gone), idle, cycle, id);
  }

  lemma StageIssuesNewIds(s: State, active: Option<WatchId>, written: bool, id: WatchId)
    requires FreshWatch(s.mon, active) && id in s.mon.issued
    ensures NoOldId(s, OnLock(s, active), id) && NoOldId(s, OnBlank(s, active, written), id)
  {
    OneWatchMore(Deliver(s, KindLock).(stage := Lock), None, active, id);
    OneWatchMore(Deliver(s, KindBlank).(stage := Blank), None, active, id);
  }

  lemma SignalIssuesNewIds(s: State, w: WatchId, a: Answers, id: WatchId)
    requires SwapWatchOk(s.mon, a.active, a.cycle) && id in s.mon.issued
    requires w in s.table.watches ==> s.table.watches[w] != KindActive
    ensures NoOldId(s, HandleWatch(s, w, a), id)
  {
    OnSaverIssuesNewIds(s, a.active, a.locked, a.idle, a.cycle, a.choice, id);
    OnCycleIssuesNewIds(s, w, w in a.gone, a.locked, a.idle, a.cycle, a.choice, id);
    StageIssuesNewIds(s, a.active, a.written, id);
  }

  lemma StartingOverIssuesNewIds(s: State, written: bool, gone: set<WatchId>, a: Armed, id: WatchId)
    requires ArmedOk(s.mon, a) && id in s.mon.issued
    ensures var t := Rearm(Reset(s, written), gone, a);
      id in t.mon.issued && id !in t.table.watches
  {
  }

  /** No event brings an old id into the table, and starting over leaves none. */
  lemma StepIssuesNewIds(s: State, e: Event, id: WatchId)
    requires Possible(s, e) && id in s.mon.issued
    ensures NoOldId(s, Step(s, e), id)
    ensures Abandons(s, e) && !e.LockChanged? ==> id !in Step(s, e).table.watches
  {
    match e
    case WatchFired(w, a) =>
      if w in s.table.watches && s.table.watches[w] == KindActive {
        StartingOverIssuesNewIds(s, a.written, a.gone, a.armed, id);
      } else {
        SignalIssuesNewIds(s, w, a, id);
      }
    case Reloaded(cfg, selectable, written, gone, armed) =>
      if cfg.Some? && cfg.value != s.cfg {
        StartingOverIssuesNewIds(s.(cfg := cfg.value, launcher := s.launcher.(selectable := selectable)), written, gone, armed, id);
      }
    case CopyExited(i, tries) => OnCopyExitFrame(s, i, tries);
    case _ =>
  }

  /** After the watches were registered anew, a signal for an id handed out
      before is ignored for the rest of the run. */
  lemma {:induction false} StaleIdsStayUnknown(run: seq<State>, events: seq<Event>, j: nat, k: nat, id: WatchId)
    requires IsRun(run, events) && j < k < |run|
    requires id in run[j].mon.issued && Abandons(run[j], events[j]) && !events[j].LockChanged?
    ensures id in run[k].mon.issued && id !in run[k].table.watches
    ensures forall a: Answers :: HandleWatch(run[k], id, a) == run[k]
  {
    if k - 1 == j {
      StepIssuesNewIds(run[j], events[j], id);
    } else {
      StaleIdsStayUnknown(run, events, j, k - 1, id);
      StepIssuesNewIds(run[k - 1], events[k - 1], id);
    }
  }

  // ----- one idle period's effects

  /** Since the last reset: the stage is the furthest signal delivered, the
      session was locked once exactly when some lock signal had no blank signal
      before it, and blanking was asked for once exactly when a blank signal
      came; whatever failed, idle-delay is the blank value exactly when the
      daemon remembers having set it. */
  lemma IdlePeriodEffects(run: seq<State>, events: seq<Event>, k: nat)
    requires IsRun(run, events) && Initial(run[0]) && k < |run|
    ensures var s := run[k];
      && s.stage == (if KindBlank in s.period.fires then Blank else if KindLock in s.period.fires then Lock
                     else if KindSaver in s.period.fires then Saver else Idle)
      && s.session.locks - s.period.locks ==
           (if exists i :: 0 <= i < |s.period.fires| && s.period.fires[i] == KindLock && KindBlank !in s.period.fires[..i] then 1 else 0)
      && s.session.blanks - s.period.blanks == (if KindBlank in s.period.fires then 1 else 0)
      && s.session.idleDelay == (if s.blanked then 10 else 0)
  {
    EveryReachableState(run, events, k);
    var fires := run[k].period.fires;
    LockCameFirstMeans(fires);
    forall kind | kind in fires ensures StageOf(kind).Rank() <= run[k].stage.Rank() {
      FurthestIsTheMaximum(fires, kind);
    }
    FurthestIsDelivered(fires);
  }

  // ----- choosing modules

  /** A module drawn beside others is a new one while there is one. */
  lemma OneMoreDrawn(selectable: set<string>, used: seq<string>, shown: seq<string>, also: seq<string>, name: string)
    requires ToSet(also) <= selectable && name in Draw(selectable, used, shown, also).0
    ensures ToSet(also + [name]) <= selectable
    ensures |ToSet(also + [name])| == if |ToSet(also)| < |selectable| then |ToSet(also)| + 1 else |selectable|
  {
    Cardinality(ToSet(also), selectable);
    DistinctCount(also, name);
    if name in also {
      assert selectable - ToSet(also) == {};
      assert ToSet(also) == selectable;
    } else {
      Cardinality(ToSet(also) + {name}, selectable);
    }
  }

  /** Names drawn one after another repeat only once everything selectable is
      among them. */
  lemma {:induction false} DrawnAreDistinct(selectable: set<string>, used: seq<string>, shown: seq<string>,
                          also: seq<string>, rest: seq<string>, left: seq<string>)
    requires Drawn(selectable, used, shown, also, rest, left) && ToSet(also) <= selectable
    ensures ToSet(also + rest) <= selectable
    ensures |ToSet(also + rest)| == if |ToSet(also)| + |rest| <= |selectable| then |ToSet(also)| + |rest| else |selectable|
    decreases |rest|
  {
    Cardinality(ToSet(also), selectable);
    if rest == [] {
      assert also + rest == also;
    } else {
      var more := also + [rest[0]];
      OneMoreDrawn(selectable, used, shown, also, rest[0]);
      assert more + rest[1..] == also + rest;
      DrawnAreDistinct(selectable, Draw(selectable, used, shown, also).1, shown, more, rest[1..], left);
    }
  }

  /** A launch for n monitors picks something exactly when something can be
      selected, and as many different modules as there are monitors, or as can
      be selected if those are fewer. */
  lemma PickedSetIsVaried(s: State, c: Choice)
    requires ChoiceOk(s, c) && c.faultless
    ensures c.names.Some? <==> s.launcher.selectable != {}
    ensures c.names.Some? ==>
      |ToSet(c.names.value)| == if |c.names.value| <= |s.launcher.selectable| then |c.names.value| else |s.launcher.selectable|
  {
    if c.names.Some? {
      assert c.names.value[0] in s.launcher.selectable;
      DrawnAreDistinct(s.launcher.selectable, s.tally.used, s.screen.names, [], c.names.value, c.used);
      assert [] + c.names.value == c.names.value;
      assert ToSet([]) == {};
    }
  }

  /** With one module for all monitors the avoid list holds no module twice and
      never outgrows what can be selected, however long the session stays idle. */
  lemma AvoidListIsBounded(run: seq<State>, events: seq<Event>, k: nat)
    requires IsRun(run, events) && Initial(run[0]) && k < |run| && !run[k].cfg.DifferentPerMonitor()
    ensures NoDuplicates(run[k].tally.used) && |run[k].tally.used| <= |run[k].launcher.selectable|
  {
    EveryReachableState(run, events, k);
    NoDuplicatesFit(run[k].tally.used, run[k].launcher.selectable);
  }
}
