/** What an event does, over every run, by the answers to it written out: when
    exactly a launch begins, a saver comes on screen or goes, a watch is armed, and
    when the daemon gives up. */
module IdleMachineEffects {
  import opened Wrappers
  import opened Settings
  import opened Schedule
  import opened Collaborators
  import opened IdleMachine
  import opened IdleMachineProofs
  import opened IdleMachineTheorems

  // ----- when a launch begins

  /** Modules were chosen, and not the very ones that are alive on screen. */
  predicate Worthwhile(screen: Screen, c: Choice) {
    c.names.Some? && !(screen.current.Some? && !screen.dead && c.names.value == screen.names)
  }

  /** The choice an event brings, and whether it begins a launch: the saver signal
      that starts a stage, a swap, a retry, or the exit of the module on screen.
      Nothing but a lock that is known to be on holds the session back. */
  function Begins(s: State, e: Event): Option<Choice> {
    match e
    case WatchFired(id, a) =>
      if && id in s.table.watches && a.locked != Some(true) && Worthwhile(s.screen, a.choice)
         && ((s.table.watches[id] == KindSaver && s.stage == Idle) || (s.table.watches[id] == KindCycle && s.stage == Saver))
      then Some(a.choice) else None
    case LaunchDone(l, outcome, _, c) =>
      if && outcome == Failed(true) && l in s.launcher.begun && s.launcher.begun[l].gen == s.gen
         && (s.stage == Idle || s.stage == Saver) && s.tally.attempts < 2 && Worthwhile(s.screen, c)
      then Some(c) else None
    case ModuleExited(locked, c) =>
      if s.stage == Saver && s.cancel.None? && s.tally.deaths < 3 && locked != Some(true) && c.names.Some? then Some(c) else None
    case _ => None
  }

  /** Launch c and nothing else was begun between s and t, if there is a choice c. */
  ghost predicate LaunchNoted(s: State, t: State, c: Option<Choice>, attempts: nat) {
    if c.Some? && c.value.names.Some? then
      && t.launcher.begun == s.launcher.begun[c.value.launch := Launch(s.gen, c.value.names.value)]
      && t.launcher.launches == s.launcher.launches + 1
      && c.value.launch in t.launcher.inflight && t.cancel == Some(c.value.launch)
      && t.tally.used == c.value.used + c.value.names.value && t.tally.attempts == attempts
    else t.launcher.begun == s.launcher.begun && t.launcher.launches == s.launcher.launches
  }

  lemma LaunchBegins(s: State, c: Choice)
    ensures LaunchNoted(s, StartLaunch(s, c), if Worthwhile(s.screen, c) then Some(c) else None, s.tally.attempts + 1)
    ensures var t := StartLaunch(s, c);
      t == s.(tally := t.tally, cancel := t.cancel, launcher := t.launcher)
  {
  }

  lemma OnSaverBegins(s: State, a: Answers)
    requires s.stage == Idle && s.tally.attempts == 0
    ensures LaunchNoted(s, OnSaver(s, a.active, a.locked, a.idle, a.cycle, a.choice),
              if a.locked != Some(true) && Worthwhile(s.screen, a.choice) then Some(a.choice) else None, 1)
  {
    var s0 := Deliver(s, KindSaver).(stage := Saver);
    var s1 := EnsureActive(s0, a.active);
    var s2 := s1.(period := s1.period.(started := true));
    WatchesLeave(s0, None, a.active);
    WatchesLeave(s2, a.idle, a.cycle);
    LaunchBegins(ArmCycle(s2, a.idle, a.cycle), a.choice);
  }

  lemma OnCycleBegins(s: State, id: WatchId, a: Answers)
    requires s.stage == Saver
    ensures LaunchNoted(s, OnCycle(s, id, id in a.gone, a.locked, a.idle, a.cycle, a.choice),
              if a.locked != Some(true) && Worthwhile(s.screen, a.choice) then Some(a.choice) else None, 1)
  {
    var s0 := SwapBegun(s, id, id in a.gone);
    WatchesLeave(s0, a.idle, a.cycle);
    LaunchBegins(ArmCycle(s0, a.idle, a.cycle), a.choice);
  }

  lemma OthersBegin(s: State, id: WatchId, a: Answers)
    requires id in s.table.watches
    requires match s.table.watches[id]
             case KindSaver => s.stage != Idle
             case KindCycle => s.stage != Saver
             case _ => true
    ensures LaunchNoted(s, HandleWatch(s, id, a), None, 1)
  {
    match s.table.watches[id]
    case KindSaver =>
    case KindCycle =>
    case KindLock => WatchesLeave(Deliver(s, KindLock).(stage := Lock), None, a.active);
    case KindBlank => WatchesLeave(Deliver(s, KindBlank).(stage := Blank), None, a.active);
    case KindActive => RearmLeaves(Reset(s, a.written), a.gone, a.armed);
  }

  lemma SignalBegins(s: State, id: WatchId, a: Answers)
    requires Invariant(s)
    ensures LaunchNoted(s, HandleWatch(s, id, a), Begins(s, WatchFired(id, a)), 1)
  {
    if id in s.table.watches {
      if s.table.watches[id] == KindSaver && s.stage == Idle {
        OnSaverBegins(s, a);
      } else if s.table.watches[id] == KindCycle && s.stage == Saver {
        OnCycleBegins(s, id, a);
      } else {
        OthersBegin(s, id, a);
      }
    }
  }

  lemma ResultBegins(s: State, l: LaunchId, outcome: Outcome, saver: SaverId, c: Choice)
    requires l in s.launcher.begun
    ensures LaunchNoted(s, HandleLaunch(s, l, outcome, saver, c), Begins(s, LaunchDone(l, outcome, saver, c)), s.tally.attempts + 1)
  {
    LaunchBegins(Collect(s, l), c);
  }

  lemma ExitBegins(s: State, locked: Option<bool>, c: Choice)
    ensures LaunchNoted(s, OnModuleExit(s, locked, c), Begins(s, ModuleExited(locked, c)), 1)
  {
    LaunchBegins(DeathSpent(Died(s)), c);
  }

  lemma ReloadBegins(s: State, cfg: Option<Config>, selectable: set<string>, written: bool, gone: set<WatchId>, a: Armed)
    ensures LaunchNoted(s, Reload(s, cfg, selectable, written, gone, a), None, 1)
  {
    if cfg.Some? && cfg.value != s.cfg {
      RearmLeaves(Reset(s.(cfg := cfg.value, launcher := s.launcher.(selectable := selectable)), written), gone, a);
    }
  }

  lemma StepBegins(s: State, e: Event)
    requires Invariant(s) && Possible(s, e)
    ensures LaunchNoted(s, Step(s, e), Begins(s, e), if e.LaunchDone? then s.tally.attempts + 1 else 1)
  {
    match e
    case WatchFired(id, a) => SignalBegins(s, id, a);
    case LaunchDone(l, outcome, saver, c) => ResultBegins(s, l, outcome, saver, c);
    case ModuleExited(locked, c) => ExitBegins(s, locked, c);
    case CopyExited(i, tries) => OnCopyExitFrame(s, i, tries);
    case LockChanged(_) =>
    case Reloaded(cfg, selectable, written, gone, armed) => ReloadBegins(s, cfg, selectable, written, gone, armed);
  }

  /** In every run a launch begins exactly at these events, of exactly what was
      chosen, and is then the one that is stored; the first attempt of a stage, a
      swap or a death counts as one, a retry as one more. */
  lemma LaunchesExactlyWhen(run: seq<State>, events: seq<Event>, k: nat)
    requires IsRun(run, events) && Initial(run[0]) && k < |events|
    ensures run[k + 1].launcher.launches == run[k].launcher.launches + if Begins(run[k], events[k]).Some? then 1 else 0
    ensures LaunchNoted(run[k], run[k + 1], Begins(run[k], events[k]), if events[k].LaunchDone? then run[k].tally.attempts + 1 else 1)
  {
    EveryReachableState(run, events, k);
    StepBegins(run[k], events[k]);
  }

  /** So the screensaver starts, and goes on, for as long as the session is not known
      to be locked, the modules can be discovered and one of them can be selected
      that is not on screen already. */
  lemma OnlyALockHoldsItBack(run: seq<State>, events: seq<Event>, k: nat, id: WatchId, a: Answers)
    requires IsRun(run, events) && Initial(run[0]) && k < |events| && events[k] == WatchFired(id, a)
    requires id in run[k].table.watches && a.choice.faultless && run[k].launcher.selectable != {}
    requires || (run[k].table.watches[id] == KindSaver && run[k].stage == Idle)
             || (&& run[k].table.watches[id] == KindCycle && run[k].stage == Saver
                 && (run[k].screen.current.Some? ==> a.choice.names != Some(run[k].screen.names)))
    ensures run[k + 1].launcher.launches == run[k].launcher.launches + if a.locked == Some(true) then 0 else 1
  {
    EveryReachableState(run, events, k);
    LaunchesExactlyWhen(run, events, k);
    PickedSetIsVaried(run[k], a.choice);
  }

  // ----- when the screen changes

  /** A launch of the current generation comes up before the lock stage. */
  predicate ComesUp(s: State, e: Event) {
    && e.LaunchDone? && e.outcome.Up? && e.l in s.launcher.begun && s.launcher.begun[e.l].gen == s.gen
    && (s.stage == Idle || s.stage == Saver)
  }

  /** What is on screen is stopped: the user came back, the lock or the blank stage
      began, another saver came up, the config changed, the session was locked, or
      a module that died has nothing coming to replace it. */
  predicate GoesDown(s: State, e: Event) {
    match e
    case WatchFired(id, _) =>
      id in s.table.watches && (s.table.watches[id] == KindActive || s.table.watches[id] == KindLock || s.table.watches[id] == KindBlank)
    case LaunchDone(l, outcome, _, _) =>
      l in s.launcher.begun && s.launcher.begun[l].gen == s.gen && (outcome.Up? || (s.screen.dead && Begins(s, e).None?))
    case ModuleExited(_, _) => s.cancel.None? && Begins(s, e).None?
    case CopyExited(_, _) => false
    case LockChanged(locked) => locked
    case Reloaded(cfg, _, _, _, _) => cfg.Some? && cfg.value != s.cfg
  }

  /** The screen of s after e, when it is neither taken nor cleared: a death of the
      only module shows, and the names may change on one monitor. */
  ghost predicate StaysUp(s: State, e: Event, t: State) {
    && t.screen.current == s.screen.current && t.launch == s.launch
    && (e.ModuleExited? ==> t.screen == Screen(s.screen.current, s.screen.names, None, s.screen.exits, true))
    && (!e.ModuleExited? && !e.CopyExited? ==> t.screen == s.screen)
  }

  ghost predicate Screens(s: State, e: Event, t: State) {
    if ComesUp(s, e) then
      var names := s.launcher.begun[e.l].names;
      && t.screen.current == Some(e.saver) && t.screen.names == names && t.launch == e.l && !t.screen.dead
      && t.screen.done == (if |names| > 1 then None else Some(e.saver))
      && t.screen.exits == (if |names| > 1 then Some(e.saver) else None)
      && e.saver in t.savers.stops && t.savers.stops[e.saver] == 0
      && (s.screen.current.Some? ==> s.screen.current.value in t.savers.stops && t.savers.stops[s.screen.current.value] == 1)
    else if s.screen.current.Some? && GoesDown(s, e) then
      && t.screen == Screen(None, [], None, None, false)
      && s.screen.current.value in t.savers.stops && t.savers.stops[s.screen.current.value] == 1
    else StaysUp(s, e, t)
  }

  lemma OnSaverScreens(s: State, a: Answers)
    ensures var t := OnSaver(s, a.active, a.locked, a.idle, a.cycle, a.choice); t.screen == s.screen && t.launch == s.launch
  {
    var s0 := Deliver(s, KindSaver).(stage := Saver);
    var s1 := EnsureActive(s0, a.active);
    var s2 := s1.(period := s1.period.(started := true));
    WatchesLeave(s0, None, a.active);
    WatchesLeave(s2, a.idle, a.cycle);
    LaunchBegins(ArmCycle(s2, a.idle, a.cycle), a.choice);
  }

  lemma OnCycleScreens(s: State, id: WatchId, a: Answers)
    ensures var t := OnCycle(s, id, id in a.gone, a.locked, a.idle, a.cycle, a.choice); t.screen == s.screen && t.launch == s.launch
  {
    var s0 := SwapBegun(s, id, id in a.gone);
    WatchesLeave(s0, a.idle, a.cycle);
    LaunchBegins(ArmCycle(s0, a.idle, a.cycle), a.choice);
  }

  lemma SignalScreens(s: State, id: WatchId, a: Answers)
    requires Invariant(s)
    ensures Screens(s, WatchFired(id, a), HandleWatch(s, id, a))
  {
    if id in s.table.watches {
      match s.table.watches[id]
      case KindSaver => OnSaverScreens(s, a);
      case KindCycle => OnCycleScreens(s, id, a);
      case KindLock => LateStageScreens(s, a.active, a.written);
      case KindBlank => LateStageScreens(s, a.active, a.written);
      case KindActive => RearmLeaves(Reset(s, a.written), a.gone, a.armed);
    }
  }

  /** The late stages leave a bare screen, and the saver with one stop. */
  lemma LateStageScreens(s: State, active: Option<WatchId>, written: bool)
    requires Invariant(s)
    ensures Cleared(s, OnLock(s, active)) && Cleared(s, OnBlank(s, active, written))
  {
    WatchesLeave(Deliver(s, KindLock).(stage := Lock), None, active);
    WatchesLeave(Deliver(s, KindBlank).(stage := Blank), None, active);
  }

  ghost predicate Cleared(s: State, t: State) {
    && t.screen == Screen(None, [], None, None, false) && t.launch == s.launch
    && (s.screen.current.Some? ==> s.screen.current.value in t.savers.stops && t.savers.stops[s.screen.current.value] == 1)
  }

  lemma ResultScreens(s: State, l: LaunchId, outcome: Outcome, saver: SaverId, c: Choice)
    requires Invariant(s) && l in s.launcher.begun && saver !in s.savers.stops && c.launch !in s.launcher.begun
    ensures Screens(s, LaunchDone(l, outcome, saver, c), HandleLaunch(s, l, outcome, saver, c))
  {
    if outcome.Up? {
      UpScreens(s, l, saver, c);
    } else {
      FailureScreens(s, l, outcome, saver, c);
    }
  }

  lemma UpScreens(s: State, l: LaunchId, saver: SaverId, c: Choice)
    requires Invariant(s) && l in s.launcher.begun && saver !in s.savers.stops
    ensures Screens(s, LaunchDone(l, Up, saver, c), HandleLaunch(s, l, Up, saver, c))
  {
  }

  lemma FailureScreens(s: State, l: LaunchId, outcome: Outcome, saver: SaverId, c: Choice)
    requires Invariant(s) && l in s.launcher.begun && outcome.Failed?
    ensures Screens(s, LaunchDone(l, outcome, saver, c), HandleLaunch(s, l, outcome, saver, c))
  {
    LaunchBegins(Collect(s, l), c);
  }

  lemma ExitScreens(s: State, locked: Option<bool>, c: Choice)
    requires Invariant(s) && s.screen.done.Some?
    ensures Screens(s, ModuleExited(locked, c), OnModuleExit(s, locked, c))
  {
    LaunchBegins(DeathSpent(Died(s)), c);
  }

  lemma ReloadScreens(s: State, e: Event)
    requires Invariant(s) && e.Reloaded?
    ensures Screens(s, e, Reload(s, e.cfg, e.selectable, e.written, e.gone, e.armed))
  {
    if e.cfg.Some? && e.cfg.value != s.cfg {
      RearmLeaves(Reset(s.(cfg := e.cfg.value, launcher := s.launcher.(selectable := e.selectable)), e.written), e.gone, e.armed);
    }
  }

  lemma StepScreens(s: State, e: Event)
    requires Invariant(s) && Possible(s, e)
    ensures Screens(s, e, Step(s, e))
  {
    match e
    case WatchFired(id, a) => SignalScreens(s, id, a);
    case LaunchDone(l, outcome, saver, c) => ResultScreens(s, l, outcome, saver, c);
    case ModuleExited(locked, c) => ExitScreens(s, locked, c);
    case CopyExited(i, tries) => OnCopyExitFrame(s, i, tries);
    case LockChanged(_) =>
    case Reloaded(_, _, _, _, _) => ReloadScreens(s, e);
  }

  /** In every run a saver comes on screen exactly when a launch of the current
      generation comes up before the lock stage, with the modules that launch was
      of; it goes exactly at the events above, stopped once; and otherwise it stays,
      dead or alive. */
  lemma ScreenChangesExactlyWhen(run: seq<State>, events: seq<Event>, k: nat)
    requires IsRun(run, events) && Initial(run[0]) && k < |events|
    ensures Screens(run[k], events[k], run[k + 1])
  {
    EveryReachableState(run, events, k);
    StepScreens(run[k], events[k]);
  }

  // ----- stages, watches and giving up

  /** The signal is the first of its stage or of a later one. */
  predicate BeginsStage(s: State, e: Event) {
    && e.WatchFired? && e.id in s.table.watches
    && match s.table.watches[e.id]
       case KindSaver => s.stage == Idle
       case KindLock => s.stage == Idle || s.stage == Saver
       case KindBlank => s.stage != Blank
       case _ => false
  }

  /** The user came back, or the config changed. */
  predicate Restarts(s: State, e: Event) {
    || (e.WatchFired? && e.id in s.table.watches && s.table.watches[e.id] == KindActive)
    || (e.Reloaded? && e.cfg.Some? && e.cfg.value != s.cfg)
  }

  /** Some watch that this config wants was refused while arming. */
  predicate RefusedOne(cfg: Config, a: Armed) {
    || a.saver.None? || (cfg.lockAfter > 0 && a.lock.None?)
    || (cfg.lockAfter > 0 && cfg.blankAfter > 0 && a.blank.None?)
  }

  ghost predicate Watches(s: State, e: Event, t: State) {
    if BeginsStage(s, e) then
      var active := e.answers.active;
      && (t.table.activeArmed <==> s.table.activeArmed || active.Some?)
      && (!s.table.activeArmed && active.Some? ==> active.value in t.table.watches && t.table.watches[active.value] == KindActive)
      && (t.fatal <==> !s.table.activeArmed && active.None? && s.cfg.lockAfter <= 0)
    else if Restarts(s, e) then
      && !t.table.activeArmed
      && (t.fatal <==> RefusedOne(t.cfg, if e.WatchFired? then e.answers.armed else e.armed))
    else t.table.activeArmed == s.table.activeArmed && !t.fatal
  }

  lemma EnsureActiveWatches(s: State, active: Option<WatchId>)
    ensures var t := EnsureActive(s, active);
      && (t.table.activeArmed <==> s.table.activeArmed || active.Some?)
      && (!s.table.activeArmed && active.Some? ==> active.value in t.table.watches && t.table.watches[active.value] == KindActive)
      && (t.fatal <==> s.fatal || (!s.table.activeArmed && active.None? && s.cfg.lockAfter <= 0))
  {
  }

  lemma ArmCycleWatches(s: State, idle: Option<int>, cycle: Option<WatchId>)
    requires cycle.Some? ==> cycle.value !in s.table.watches
    ensures var t := ArmCycle(s, idle, cycle);
      && t.table.activeArmed == s.table.activeArmed && t.fatal == s.fatal
      && forall id :: id in s.table.watches ==> id in t.table.watches && t.table.watches[id] == s.table.watches[id]
  {
  }

  lemma OnSaverWatchesExactly(s: State, a: Answers)
    requires Tracked(s.table, s.mon) && SwapWatchOk(s.mon, a.active, a.cycle) && s.stage == Idle && !s.fatal
    ensures var t := OnSaver(s, a.active, a.locked, a.idle, a.cycle, a.choice);
      && (t.table.activeArmed <==> s.table.activeArmed || a.active.Some?)
      && (!s.table.activeArmed && a.active.Some? ==> a.active.value in t.table.watches && t.table.watches[a.active.value] == KindActive)
      && (t.fatal <==> !s.table.activeArmed && a.active.None? && s.cfg.lockAfter <= 0)
  {
    var s0 := Deliver(s, KindSaver).(stage := Saver);
    var s1 := EnsureActive(s0, a.active);
    var s2 := s1.(period := s1.period.(started := true));
    EnsureActiveWatches(s0, a.active);
    ArmCycleWatches(s2, a.idle, a.cycle);
    LaunchBegins(ArmCycle(s2, a.idle, a.cycle), a.choice);
  }

  lemma OnCycleWatchesExactly(s: State, id: WatchId, a: Answers)
    requires Tracked(s.table, s.mon) && FreshWatch(s.mon, a.cycle)
    ensures var t := OnCycle(s, id, id in a.gone, a.locked, a.idle, a.cycle, a.choice);
      t.table.activeArmed == s.table.activeArmed && t.fatal == s.fatal
  {
    var s0 := SwapBegun(s, id, id in a.gone);
    ArmCycleWatches(s0, a.idle, a.cycle);
    LaunchBegins(ArmCycle(s0, a.idle, a.cycle), a.choice);
  }

  lemma RestartWatches(s: State, written: bool, gone: set<WatchId>, a: Armed)
    requires !s.fatal
    ensures var t := Rearm(Reset(s, written), gone, a);
      !t.table.activeArmed && t.cfg == s.cfg && (t.fatal <==> RefusedOne(s.cfg, a))
  {
    RearmLeaves(Reset(s, written), gone, a);
  }

  lemma SignalWatches(s: State, id: WatchId, a: Answers)
    requires Tracked(s.table, s.mon) && !s.fatal && SwapWatchOk(s.mon, a.active, a.cycle)
    ensures Watches(s, WatchFired(id, a), HandleWatch(s, id, a))
  {
    if id in s.table.watches {
      match s.table.watches[id]
      case KindSaver =>
        if s.stage == Idle {
          OnSaverWatchesExactly(s, a);
        }
      case KindCycle => OnCycleWatchesExactly(s, id, a);
      case KindLock => EnsureActiveWatches(Deliver(s, KindLock).(stage := Lock), a.active);
      case KindBlank => EnsureActiveWatches(Deliver(s, KindBlank).(stage := Blank), a.active);
      case KindActive => RestartWatches(s, a.written, a.gone, a.armed);
    }
  }

  lemma ResultLeaves(s: State, l: LaunchId, outcome: Outcome, saver: SaverId, c: Choice)
    requires l in s.launcher.begun
    ensures var t := HandleLaunch(s, l, outcome, saver, c);
      t == s.(cancel := t.cancel, launcher := t.launcher, savers := t.savers, screen := t.screen, launch := t.launch,
              tally := s.tally.(used := t.tally.used, attempts := t.tally.attempts))
  {
    LaunchBegins(Collect(s, l), c);
  }

  lemma StepWatches(s: State, e: Event)
    requires Invariant(s) && Possible(s, e)
    ensures Watches(s, e, Step(s, e))
  {
    match e
    case WatchFired(id, a) => SignalWatches(s, id, a);
    case LaunchDone(l, outcome, saver, c) => ResultLeaves(s, l, outcome, saver, c);
    case ModuleExited(locked, c) => OnModuleExitLeaves(s, locked, c);
    case CopyExited(i, tries) => OnCopyExitFrame(s, i, tries);
    case LockChanged(_) =>
    case Reloaded(cfg, selectable, written, gone, armed) =>
      if cfg.Some? && cfg.value != s.cfg {
        RestartWatches(s.(cfg := cfg.value, launcher := s.launcher.(selectable := selectable)), written, gone, armed);
      }
  }

  /** In every run the user-active watch is armed from the first stage on that could
      register it, and the daemon gives up exactly when it could not and there is
      no lock stage to try again, or when arming anew was refused a watch. */
  lemma GivesUpExactlyWhen(run: seq<State>, events: seq<Event>, k: nat)
    requires IsRun(run, events) && Initial(run[0]) && k < |events|
    ensures Watches(run[k], events[k], run[k + 1])
  {
    EveryReachableState(run, events, k);
    StepWatches(run[k], events[k]);
  }

  // ----- the swap schedule

  /** Swap n is the next after `done` of them: the least one that is due later than
      the session has been idle. */
  predicate NextIs(cfg: Config, done: nat, idle: Option<int>, n: int) {
    && n > done
    && (idle.None? ==> n == done + 1)
    && (idle.Some? ==>
          && cfg.saverDelay + n * cfg.cycleAfter > idle.value
          && (n == done + 1 || cfg.saverDelay + (n - 1) * cfg.cycleAfter <= idle.value))
  }

  lemma NextSwapIs(cfg: Config, done: nat, idle: Option<int>)
    requires cfg.CycleEnabled() && (idle.Some? ==> idle.value >= 0)
    ensures NextIs(cfg, done, idle, NextSwap(cfg, done, idle))
  {
    if idle.Some? {
      var n := NextSwap(cfg, done, idle);
      NextSwapIsTheLeastAhead(cfg, done, idle.value, n);
      NextSwapIsTheLeastAhead(cfg, done, idle.value, n - 1);
    }
  }

  /** A saver stage that begins, or a swap in it, with swaps enabled and the session
      not known to be locked. */
  predicate SwapsOn(s: State, e: Event) {
    && e.WatchFired? && e.id in s.table.watches && e.answers.locked != Some(true) && s.cfg.cycleAfter > 0
    && ((s.table.watches[e.id] == KindSaver && s.stage == Idle) || (s.table.watches[e.id] == KindCycle && s.stage == Saver))
  }

  /** Swap n is scheduled: its watch is there at its time, if it was handed out and
      the lock does not come first. */
  ghost predicate Scheduled(s: State, a: Answers, n: int, t: State) {
    && t.table.due == s.cfg.saverDelay + n * s.cfg.cycleAfter && t.tally.cycles == n - 1
    && (if a.cycle.Some? && (s.cfg.lockAfter > 0 ==> n * s.cfg.cycleAfter < s.cfg.lockAfter)
        then && a.cycle.value in t.table.watches && t.table.watches[a.cycle.value] == KindCycle
             && a.cycle.value in t.mon.issued && t.mon.issued[a.cycle.value] == IdleFor(s.cfg.saverDelay + n * s.cfg.cycleAfter)
        else !Has(t.table.watches, KindCycle))
  }

  lemma ArmCycleSchedules(s: State, a: Answers)
    requires s.cfg.CycleEnabled() && !Has(s.table.watches, KindCycle) && (a.idle.Some? ==> a.idle.value >= 0)
    ensures var n := NextSwap(s.cfg, s.tally.cycles, a.idle);
      && NextIs(s.cfg, s.tally.cycles, a.idle, n)
      && Scheduled(s, a, n, ArmCycle(s, a.idle, a.cycle))
  {
    NextSwapIs(s.cfg, s.tally.cycles, a.idle);
  }

  lemma LaunchScheduled(s: State, a: Answers, n: int, t: State)
    requires Scheduled(s, a, n, t)
    ensures Scheduled(s, a, n, StartLaunch(t, a.choice))
  {
    LaunchBegins(t, a.choice);
  }

  lemma OnSaverSchedules(s: State, a: Answers)
    requires WatchesInv(s) && !s.fatal && !s.period.started && SwapWatchOk(s.mon, a.active, a.cycle)
    requires s.cfg.CycleEnabled() && s.stage == Idle && a.locked != Some(true) && (a.idle.Some? ==> a.idle.value >= 0)
    ensures var n := NextSwap(s.cfg, s.tally.cycles, a.idle);
      && NextIs(s.cfg, s.tally.cycles, a.idle, n)
      && Scheduled(s, a, n, OnSaver(s, a.active, a.locked, a.idle, a.cycle, a.choice))
  {
    var s0 := Deliver(s, KindSaver).(stage := Saver);
    EnsureActiveKeeps(s0, a.active);
    WatchesLeave(s0, None, a.active);
    var s1 := EnsureActive(s0, a.active);
    var s2 := s1.(period := s1.period.(started := true));
    ArmCycleSchedules(s2, a);
    LaunchScheduled(s, a, NextSwap(s.cfg, s.tally.cycles, a.idle), ArmCycle(s2, a.idle, a.cycle));
  }

  lemma NoSwapPending(s: State, id: WatchId, gone: bool)
    requires WatchesInv(s) && !s.fatal && id in s.table.watches && s.table.watches[id] == KindCycle
    ensures var t := SwapBegun(s, id, gone);
      && !Has(t.table.watches, KindCycle) && t.cfg == s.cfg && t.tally.cycles == s.tally.cycles + 1
  {
    DropOneKeeps(s, id, gone);
  }

  lemma OnCycleSchedules(s: State, id: WatchId, a: Answers)
    requires WatchesInv(s) && CountsInv(s) && !s.fatal && id in s.table.watches && s.table.watches[id] == KindCycle
    requires s.cfg.CycleEnabled() && s.stage == Saver && a.locked != Some(true) && (a.idle.Some? ==> a.idle.value >= 0)
    ensures var n := NextSwap(s.cfg, s.tally.cycles + 1, a.idle);
      && NextIs(s.cfg, s.tally.cycles + 1, a.idle, n)
      && Scheduled(s, a, n, OnCycle(s, id, id in a.gone, a.locked, a.idle, a.cycle, a.choice))
  {
    NoSwapPending(s, id, id in a.gone);
    var s1 := SwapBegun(s, id, id in a.gone);
    ArmCycleSchedules(s1, a);
    LaunchScheduled(s, a, NextSwap(s.cfg, s.tally.cycles + 1, a.idle), ArmCycle(s1, a.idle, a.cycle));
  }

  /** In every run a stage that begins and a swap schedule the next swap, the least
      one still ahead, exactly when that falls due before the lock; and the swap
      that fired is behind it. */
  lemma SwapsExactlyWhen(run: seq<State>, events: seq<Event>, k: nat) returns (n: int)
    requires IsRun(run, events) && Initial(run[0]) && k < |events| && SwapsOn(run[k], events[k])
    requires events[k].answers.idle.Some? ==> events[k].answers.idle.value >= 0
    ensures var s := run[k];
      && NextIs(s.cfg, if s.table.watches[events[k].id] == KindCycle then s.tally.cycles + 1 else s.tally.cycles, events[k].answers.idle, n)
      && Scheduled(s, events[k].answers, n, run[k + 1])
  {
    var s, a := run[k], events[k].answers;
    EveryReachableState(run, events, k);
    if s.table.watches[events[k].id] == KindSaver {
      OnSaverSchedules(s, a);
      n := NextSwap(s.cfg, s.tally.cycles, a.idle);
    } else {
      OnCycleSchedules(s, events[k].id, a);
      n := NextSwap(s.cfg, s.tally.cycles + 1, a.idle);
    }
  }

  ghost predicate NoSwap(s: State, e: Event, t: State) {
    && (t.tally.cycles == s.tally.cycles || Restarts(s, e))
    && (t.period.swaps == s.period.swaps || Restarts(s, e))
    && forall id :: id in t.table.watches && t.table.watches[id] == KindCycle ==>
         id in s.table.watches && s.table.watches[id] == KindCycle && !(e.WatchFired? && e.id == id)
  }

  lemma OnSaverNoSwap(s: State, id: WatchId, a: Answers)
    requires id in s.table.watches && s.table.watches[id] == KindSaver && !SwapsOn(s, WatchFired(id, a))
    ensures NoSwap(s, WatchFired(id, a), HandleWatch(s, id, a))
  {
    var s0 := Deliver(s, KindSaver).(stage := Saver);
    WatchesLeave(s0, None, a.active);
    var s1 := EnsureActive(s0, a.active);
    var s2 := s1.(period := s1.period.(started := true));
    LaunchBegins(ArmCycle(s2, a.idle, a.cycle), a.choice);
  }

  lemma OnCycleNoSwap(s: State, id: WatchId, a: Answers)
    requires id in s.table.watches && s.table.watches[id] == KindCycle && s.cfg.cycleAfter > 0 && !SwapsOn(s, WatchFired(id, a))
    ensures NoSwap(s, WatchFired(id, a), HandleWatch(s, id, a))
  {
  }

  lemma LateStageNoSwap(s: State, id: WatchId, a: Answers)
    requires id in s.table.watches && (s.table.watches[id] == KindLock || s.table.watches[id] == KindBlank)
    ensures NoSwap(s, WatchFired(id, a), HandleWatch(s, id, a))
  {
    WatchesLeave(Deliver(s, KindLock).(stage := Lock), None, a.active);
    WatchesLeave(Deliver(s, KindBlank).(stage := Blank), None, a.active);
  }

  lemma ArmNoSwap(s: State, a: Armed)
    ensures forall id :: id in Arm(s, a).0.table.watches ==> Arm(s, a).0.table.watches[id] != KindCycle
  {
    var s0 := s.(table := s.table.(watches := map[]));
    var s1 := AddIdle(s0, KindSaver, a.saver);
    var s2 := if s.cfg.LockEnabled() then AddIdle(s1, KindLock, a.lock) else s1;
    AddIdleNoSwap(s0, KindSaver, a.saver);
    AddIdleNoSwap(s1, KindLock, a.lock);
    AddIdleNoSwap(s2, KindBlank, a.blank);
  }

  lemma AddIdleNoSwap(s: State, kind: Kind, id: Option<WatchId>)
    requires kind != KindCycle && forall x :: x in s.table.watches ==> s.table.watches[x] != KindCycle
    ensures forall x :: x in AddIdle(s, kind, id).table.watches ==> AddIdle(s, kind, id).table.watches[x] != KindCycle
  {
  }

  lemma RestartNoSwap(s: State, written: bool, gone: set<WatchId>, a: Armed)
    ensures var t := Rearm(Reset(s, written), gone, a);
      forall id :: id in t.table.watches ==> t.table.watches[id] != KindCycle
  {
    ArmNoSwap(Drop(Reset(s, written), gone), a);
  }

  lemma StepNoSwap(s: State, e: Event)
    requires Invariant(s) && Possible(s, e) && !SwapsOn(s, e)
    ensures NoSwap(s, e, Step(s, e))
  {
    match e
    case WatchFired(id, a) =>
      if id in s.table.watches {
        assert s.table.watches[id] == KindCycle ==> Has(s.table.watches, KindCycle);
        match s.table.watches[id]
        case KindSaver => OnSaverNoSwap(s, id, a);
        case KindCycle => OnCycleNoSwap(s, id, a);
        case KindLock => LateStageNoSwap(s, id, a);
        case KindBlank => LateStageNoSwap(s, id, a);
        case KindActive => RestartNoSwap(s, a.written, a.gone, a.armed);
      }
    case LaunchDone(l, outcome, saver, c) => ResultLeaves(s, l, outcome, saver, c);
    case ModuleExited(locked, c) => OnModuleExitLeaves(s, locked, c);
    case CopyExited(i, tries) => OnCopyExitFrame(s, i, tries);
    case LockChanged(_) =>
    case Reloaded(cfg, selectable, written, gone, armed) =>
      if cfg.Some? && cfg.value != s.cfg {
        RestartNoSwap(s.(cfg := cfg.value, launcher := s.launcher.(selectable := selectable)), written, gone, armed);
      }
  }

  /** And no other event schedules or counts one; a swap watch that fired is gone. */
  lemma SwapsAtNoOtherTime(run: seq<State>, events: seq<Event>, k: nat)
    requires IsRun(run, events) && Initial(run[0]) && k < |events| && !SwapsOn(run[k], events[k])
    ensures NoSwap(run[k], events[k], run[k + 1])
  {
    EveryReachableState(run, events, k);
    StepNoSwap(run[k], events[k]);
  }

  // ----- starting over

  /** Everything is as it was before the idle period, but for what could not be
      undone: the collaborators' records stay, and so does a blanked screen that
      could not be set back. */
  ghost predicate StartsOver(s: State, e: Event, t: State)
    requires Restarts(s, e)
  {
    var written := if e.WatchFired? then e.answers.written else e.written;
    && t.stage == Idle && t.gen == s.gen + 1 && t.cancel == None
    && t.tally == Tally([], 0, 0, 0, map[])
    && t.screen == Screen(None, [], None, None, false)
    && (t.blanked <==> s.blanked && !written)
    && t.session == s.session.(idleDelay := if s.blanked && written then 0 else s.session.idleDelay)
    && t.period == Period([], false, 0, s.launcher.launches, s.session.locks, s.session.blanks, s.savers.replacements, s.launcher.begun.Keys)
    && (e.Reloaded? ==> t.cfg == e.cfg.value && t.launcher.selectable == e.selectable)
    && (e.WatchFired? ==> t.cfg == s.cfg && t.launcher.selectable == s.launcher.selectable)
    && (s.cancel.Some? ==> s.cancel.value in t.launcher.cancelled)
  }

  /** The period goes on, in the same config; the session hears of the first lock
      and the first blank signal, and of nothing else. */
  ghost predicate GoesOn(s: State, e: Event, t: State) {
    && t.cfg == s.cfg && t.launcher.selectable == s.launcher.selectable
    && t.period.locks == s.period.locks && t.period.blanks == s.period.blanks && t.period.launches == s.period.launches
    && t.period.replacements == s.period.replacements && t.period.known == s.period.known
    && t.period.fires == (if e.WatchFired? && e.id in s.table.watches then s.period.fires + [s.table.watches[e.id]] else s.period.fires)
    && t.stage == (if !BeginsStage(s, e) then s.stage
                   else match s.table.watches[e.id] case KindSaver => Saver case KindLock => Lock case _ => Blank)
    && t.session.locks == (if BeginsStage(s, e) && t.stage == Lock then s.session.locks + 1 else s.session.locks)
    && t.session.blanks == (if BeginsStage(s, e) && t.stage == Blank then s.session.blanks + 1 else s.session.blanks)
    && t.session.idleDelay == (if BeginsStage(s, e) && t.stage == Blank && e.answers.written then 10 else s.session.idleDelay)
    && (t.blanked <==> s.blanked || (BeginsStage(s, e) && t.stage == Blank && e.answers.written))
    && t.tally.deaths == (if e.ModuleExited? && s.cancel.None? && s.tally.deaths < 3 && e.locked != Some(true)
                          then s.tally.deaths + 1 else s.tally.deaths)
    && (!e.CopyExited? ==> t.tally.monitorDeaths == s.tally.monitorDeaths && t.savers.replacements == s.savers.replacements)
  }

  lemma OnSaverGoesOn(s: State, id: WatchId, a: Answers)
    requires id in s.table.watches && s.table.watches[id] == KindSaver
    ensures GoesOn(s, WatchFired(id, a), HandleWatch(s, id, a))
  {
    var s0 := Deliver(s, KindSaver).(stage := Saver);
    var s1 := EnsureActive(s0, a.active);
    var s2 := s1.(period := s1.period.(started := true));
    WatchesLeave(s0, None, a.active);
    WatchesLeave(s2, a.idle, a.cycle);
    LaunchLeaves(ArmCycle(s2, a.idle, a.cycle), a.choice);
    LaunchBegins(ArmCycle(s2, a.idle, a.cycle), a.choice);
  }

  lemma OnCycleGoesOn(s: State, id: WatchId, a: Answers)
    requires id in s.table.watches && s.table.watches[id] == KindCycle
    ensures GoesOn(s, WatchFired(id, a), HandleWatch(s, id, a))
  {
    var s0 := SwapBegun(s, id, id in a.gone);
    WatchesLeave(s0, a.idle, a.cycle);
    LaunchLeaves(ArmCycle(s0, a.idle, a.cycle), a.choice);
    LaunchBegins(ArmCycle(s0, a.idle, a.cycle), a.choice);
  }

  lemma LateStageGoesOn(s: State, id: WatchId, a: Answers)
    requires id in s.table.watches && (s.table.watches[id] == KindLock || s.table.watches[id] == KindBlank)
    ensures GoesOn(s, WatchFired(id, a), HandleWatch(s, id, a))
  {
    WatchesLeave(Deliver(s, KindLock).(stage := Lock), None, a.active);
    WatchesLeave(Deliver(s, KindBlank).(stage := Blank), None, a.active);
  }

  lemma ResultGoesOn(s: State, e: Event)
    requires e.LaunchDone? && e.l in s.launcher.begun
    ensures GoesOn(s, e, HandleLaunch(s, e.l, e.outcome, e.saver, e.choice))
  {
    ResultLeaves(s, e.l, e.outcome, e.saver, e.choice);
    LaunchLeaves(Collect(s, e.l), e.choice);
    LaunchBegins(Collect(s, e.l), e.choice);
  }

  lemma ExitGoesOn(s: State, locked: Option<bool>, c: Choice)
    requires s.stage == Saver
    ensures GoesOn(s, ModuleExited(locked, c), OnModuleExit(s, locked, c))
  {
    OnModuleExitLeaves(s, locked, c);
    LaunchBegins(DeathSpent(Died(s)), c);
  }

  lemma RestartsOver(s: State, written: bool, gone: set<WatchId>, a: Armed)
    ensures var t := Rearm(Reset(s, written), gone, a);
      t == Reset(s, written).(table := t.table, mon := t.mon, fatal := t.fatal)
  {
    RearmLeaves(Reset(s, written), gone, a);
  }

  lemma StepPeriod(s: State, e: Event)
    requires Invariant(s) && Possible(s, e)
    ensures if Restarts(s, e) then StartsOver(s, e, Step(s, e)) else GoesOn(s, e, Step(s, e))
  {
    match e
    case WatchFired(id, a) =>
      if id in s.table.watches {
        match s.table.watches[id]
        case KindSaver => OnSaverGoesOn(s, id, a);
        case KindCycle => OnCycleGoesOn(s, id, a);
        case KindLock => LateStageGoesOn(s, id, a);
        case KindBlank => LateStageGoesOn(s, id, a);
        case KindActive => RestartsOver(s, a.written, a.gone, a.armed);
      }
    case LaunchDone(_, _, _, _) => ResultGoesOn(s, e);
    case ModuleExited(locked, c) => ExitGoesOn(s, locked, c);
    case CopyExited(i, tries) => OnCopyExitFrame(s, i, tries);
    case LockChanged(_) =>
    case Reloaded(cfg, selectable, written, gone, armed) =>
      if cfg.Some? && cfg.value != s.cfg {
        RestartsOver(s.(cfg := cfg.value, launcher := s.launcher.(selectable := selectable)), written, gone, armed);
      }
  }

  /** In every run an idle period ends exactly when the user comes back or the config
      changes, and nothing of it is left then; until then every signal for a watch
      of the table is on record, and the stage, the session and the deaths follow
      from the events. */
  lemma PeriodsEndExactlyWhen(run: seq<State>, events: seq<Event>, k: nat)
    requires IsRun(run, events) && Initial(run[0]) && k < |events|
    ensures if Restarts(run[k], events[k]) then StartsOver(run[k], events[k], run[k + 1]) else GoesOn(run[k], events[k], run[k + 1])
  {
    EveryReachableState(run, events, k);
    StepPeriod(run[k], events[k]);
  }

  // ----- one monitor at a time

  /** How many of these attempts are made with `room` left for that monitor: up to
      the one that finds the session locked, or nothing to pick, or that runs. */
  function Made(tries: seq<Try>, room: nat): nat
    decreases room
  {
    if room == 0 || tries == [] || tries[0].locked == Some(true) then 0
    else if tries[0].name.None? || tries[0].runs then 1
    else 1 + Made(tries[1..], room - 1)
  }

  /** How many more times the module on monitor i may be replaced. */
  function Room(s: State, i: nat): nat {
    var died := if i in s.tally.monitorDeaths then s.tally.monitorDeaths[i] else 0;
    if s.stage != Saver || s.cancel.Some? || died >= 3 then 0 else 3 - died
  }

  /** The attempts made are counted one by one; those that had a module called
      Replace; and the last one's module is on monitor i if it runs. */
  ghost predicate Attempts(s: State, i: nat, tries: seq<Try>, t: State) {
    var n := Made(tries, Room(s, i));
    && n <= |tries|
    && Count(t.tally.monitorDeaths, i) == Count(s.tally.monitorDeaths, i) + n
    && (n == 0 ==> t == s)
    && (n > 0 && tries[n - 1].name.None? ==>
          t.screen == s.screen && t.tally.used == tries[n - 1].used && Count(t.savers.replacements, i) == Count(s.savers.replacements, i) + n - 1)
    && (n > 0 && tries[n - 1].name.Some? ==>
          && t.tally.used == tries[n - 1].used + [tries[n - 1].name.value]
          && Count(t.savers.replacements, i) == Count(s.savers.replacements, i) + n
          && t.screen == (if tries[n - 1].runs && i < |s.screen.names|
                          then s.screen.(names := s.screen.names[i := tries[n - 1].name.value]) else s.screen))
  }

  lemma {:induction false} OnCopyExitAttempts(s: State, i: nat, tries: seq<Try>)
    requires TriesOk(s, i, tries)
    ensures Attempts(s, i, tries, OnCopyExit(s, i, tries))
    decreases |tries|
  {
    if Room(s, i) > 0 && tries[0].locked != Some(true) && tries[0].name.Some? && !tries[0].runs {
      OnCopyExitAttempts(Attempt(s, i, tries[0]), i, tries[1..]);
    }
  }

  /** In every run the exit of one monitor's module makes exactly these attempts. */
  lemma AttemptsExactly(run: seq<State>, events: seq<Event>, k: nat, i: nat, tries: seq<Try>)
    requires IsRun(run, events) && k < |events| && events[k] == CopyExited(i, tries)
    ensures Attempts(run[k], i, tries, run[k + 1])
  {
    OnCopyExitAttempts(run[k], i, tries);
  }

  // ----- what is stored and on its way

  /** The event leaves no cancel function behind, unless it begins a launch. */
  predicate Forgets(s: State, e: Event) {
    || Restarts(s, e)
    || (BeginsStage(s, e) && s.table.watches[e.id] != KindSaver)
    || (e.LaunchDone? && e.l in s.launcher.begun && s.launcher.begun[e.l].gen == s.gen)
    || (e == LockChanged(true) && s.stage == Saver)
  }

  ghost predicate OnTheWay(s: State, e: Event, t: State) {
    var begun: set<LaunchId> := if Begins(s, e).Some? then {Begins(s, e).value.launch} else {};
    var done: set<LaunchId> := if e.LaunchDone? then {e.l} else {};
    && t.launcher.inflight == s.launcher.inflight - done + begun
    && t.cancel == (if Begins(s, e).Some? then Some(Begins(s, e).value.launch) else if Forgets(s, e) then None else s.cancel)
    && (e.LaunchDone? ==> e.l in t.launcher.cancelled)
  }

  lemma OnSaverOnTheWay(s: State, id: WatchId, a: Answers)
    requires id in s.table.watches && s.table.watches[id] == KindSaver
    ensures OnTheWay(s, WatchFired(id, a), HandleWatch(s, id, a))
  {
    var s0 := Deliver(s, KindSaver).(stage := Saver);
    var s1 := EnsureActive(s0, a.active);
    var s2 := s1.(period := s1.period.(started := true));
    WatchesLeave(s0, None, a.active);
    WatchesLeave(s2, a.idle, a.cycle);
  }

  lemma OnCycleOnTheWay(s: State, id: WatchId, a: Answers)
    requires id in s.table.watches && s.table.watches[id] == KindCycle
    ensures OnTheWay(s, WatchFired(id, a), HandleWatch(s, id, a))
  {
    WatchesLeave(SwapBegun(s, id, id in a.gone), a.idle, a.cycle);
  }

  lemma LateStageOnTheWay(s: State, id: WatchId, a: Answers)
    requires id in s.table.watches && (s.table.watches[id] == KindLock || s.table.watches[id] == KindBlank)
    ensures OnTheWay(s, WatchFired(id, a), HandleWatch(s, id, a))
  {
    WatchesLeave(Deliver(s, KindLock).(stage := Lock), None, a.active);
    WatchesLeave(Deliver(s, KindBlank).(stage := Blank), None, a.active);
  }

  lemma ResultOnTheWay(s: State, e: Event)
    requires e.LaunchDone? && e.l in s.launcher.begun && e.choice.launch !in s.launcher.begun
    ensures OnTheWay(s, e, HandleLaunch(s, e.l, e.outcome, e.saver, e.choice))
  {
  }

  lemma ExitOnTheWay(s: State, locked: Option<bool>, c: Choice)
    ensures OnTheWay(s, ModuleExited(locked, c), OnModuleExit(s, locked, c))
  {
  }

  lemma SignalOnTheWay(s: State, id: WatchId, a: Answers)
    ensures OnTheWay(s, WatchFired(id, a), HandleWatch(s, id, a))
  {
    if id in s.table.watches {
      match s.table.watches[id]
      case KindSaver => OnSaverOnTheWay(s, id, a);
      case KindCycle => OnCycleOnTheWay(s, id, a);
      case KindLock => LateStageOnTheWay(s, id, a);
      case KindBlank => LateStageOnTheWay(s, id, a);
      case KindActive => RestartsOver(s, a.written, a.gone, a.armed);
    }
  }

  lemma ReloadOnTheWay(s: State, e: Event)
    requires e.Reloaded?
    ensures OnTheWay(s, e, Reload(s, e.cfg, e.selectable, e.written, e.gone, e.armed))
  {
    if e.cfg.Some? && e.cfg.value != s.cfg {
      RestartsOver(s.(cfg := e.cfg.value, launcher := s.launcher.(selectable := e.selectable)), e.written, e.gone, e.armed);
    }
  }

  lemma StepOnTheWay(s: State, e: Event)
    requires Invariant(s) && Possible(s, e)
    ensures OnTheWay(s, e, Step(s, e))
  {
    match e
    case WatchFired(id, a) => SignalOnTheWay(s, id, a);
    case LaunchDone(_, _, _, _) => ResultOnTheWay(s, e);
    case ModuleExited(locked, c) => ExitOnTheWay(s, locked, c);
    case CopyExited(i, tries) => OnCopyExitFrame(s, i, tries);
    case LockChanged(_) =>
    case Reloaded(_, _, _, _, _) => ReloadOnTheWay(s, e);
  }

  /** In every run a launch is on its way from where it begins to where it reports,
      its own context is released then, and the stored cancel function is that of
      the last one begun, unless something has cleared it since. */
  lemma StoredExactlyWhen(run: seq<State>, events: seq<Event>, k: nat)
    requires IsRun(run, events) && Initial(run[0]) && k < |events|
    ensures OnTheWay(run[k], events[k], run[k + 1])
  {
    EveryReachableState(run, events, k);
    StepOnTheWay(run[k], events[k]);
  }

  // ----- which modules

  /** A module is drawn by the first of these that any module meets: not shown yet
      and not taken, not on screen and not taken, not taken, selectable. The avoid
      list is kept, cut back to what is on screen, or emptied. */
  lemma DrawnByPriority(selectable: set<string>, used: seq<string>, shown: seq<string>, also: seq<string>, name: string)
    requires name in Draw(selectable, used, shown, also).0
    ensures var left := Draw(selectable, used, shown, also).1;
      && name in selectable
      && if exists n :: n in selectable && n !in also && n !in used then name !in also && name !in used && left == used
         else if exists n :: n in selectable && n !in also && n !in shown then name !in also && name !in shown && left == shown
         else left == [] && (name in also ==> forall n :: n in selectable ==> n in also)
  {
    var free := selectable - ToSet(also);
    assert forall n :: n in selectable && n !in also ==> n in free;
    assert forall n :: n in selectable && n !in also && n !in used ==> n in free - ToSet(used);
    assert forall n :: n in selectable && n !in also && n !in shown ==> n in free - ToSet(shown);
  }

  /** And something is drawn whenever anything can be selected. */
  lemma SomethingIsDrawn(selectable: set<string>, used: seq<string>, shown: seq<string>, also: seq<string>)
    ensures Draw(selectable, used, shown, also).0 != {} <==> selectable != {}
  {
  }

  /** What the filters of the config leave of the modules discovered. */
  ghost predicate AsConfigured(discovered: seq<string>, s: State) {
    forall n :: n in s.launcher.selectable <==> n in discovered && (s.cfg.only != [] ==> n in s.cfg.only) && n !in s.cfg.never
  }

  /** After any number of reloads, with the launcher following the config: what is
      on screen, on the avoid list or on its way in this generation was discovered,
      is in INCLUDE unless that is empty, and is not in EXCLUDE, as those are now. */
  lemma OnlyAllowedModules(run: seq<State>, events: seq<Event>, k: nat, discovered: seq<string>, name: string)
    requires IsRun(run, events) && Initial(run[0]) && k < |run| && AsConfigured(discovered, run[k])
    requires var s := run[k];
      || name in s.screen.names || name in s.tally.used
      || exists l :: l in s.launcher.inflight && l in s.launcher.begun && s.launcher.begun[l].gen == s.gen && name in s.launcher.begun[l].names
    ensures name in discovered && (run[k].cfg.only != [] ==> name in run[k].cfg.only) && name !in run[k].cfg.never
  {
    EveryReachableState(run, events, k);
    assert name in run[k].launcher.selectable;
  }
}
