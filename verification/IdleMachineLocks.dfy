/** What a lock, and a teardown, leave behind. The cancel function that is stored
    belongs to the last launch begun, and the result of any launch of its
    generation clears it; so with two launches on their way one can be left that
    neither knows of. */
module IdleMachineLocks {
  import opened Wrappers
  import opened Collaborators
  import opened IdleMachine
  import opened IdleMachineProofs
  import opened IdleMachineTheorems

  /** Some further events put launch l on screen. */
  ghost predicate CanShow(s: State, l: LaunchId) {
    exists path, events :: IsRun(path, events) && path[0] == s && Showing(path[|events|], l)
  }

  predicate Showing(s: State, l: LaunchId) {
    s.screen.current.Some? && s.launch == l
  }

  lemma {:induction false} PathKeeps(path: seq<State>, events: seq<Event>, k: nat)
    requires IsRun(path, events) && Invariant(path[0]) && k < |path|
    ensures Invariant(path[k])
  {
    if k > 0 {
      PathKeeps(path, events, k - 1);
      StepKeeps(path[k - 1], events[k - 1]);
    }
  }

  // ----- launches that can never show

  /** Nothing that was known is back in flight, and what is on screen was there. */
  ghost predicate Settled(s: State, t: State) {
    && (forall l :: l in s.launcher.begun && l in t.launcher.inflight ==> l in s.launcher.inflight)
    && (t.screen.current.Some? ==> s.screen.current.Some? && t.launch == s.launch)
  }

  lemma LaunchSettles(s: State, c: Choice)
    requires c.launch !in s.launcher.begun
    ensures Settled(s, StartLaunch(s, c))
  {
  }

  lemma OnSaverSettles(s: State, active: Option<WatchId>, locked: Option<bool>, idle: Option<int>,
                       cycle: Option<WatchId>, c: Choice)
    requires c.launch !in s.launcher.begun
    ensures Settled(s, OnSaver(s, active, locked, idle, cycle, c))
  {
    var s0 := Deliver(s, KindSaver).(stage := Saver);
    var s1 := EnsureActive(s0, active);
    var s2 := s1.(period := s1.period.(started := true));
    WatchesLeave(s0, None, active);
    WatchesLeave(s2, idle, cycle);
    LaunchSettles(ArmCycle(s2, idle, cycle), c);
  }

  lemma OnCycleSettles(s: State, id: WatchId, gone: bool, locked: Option<bool>, idle: Option<int>,
                       cycle: Option<WatchId>, c: Choice)
    requires c.launch !in s.launcher.begun
    ensures Settled(s, OnCycle(s, id, gone, locked, idle, cycle, c))
  {
    WatchesLeave(SwapBegun(s, id, gone), idle, cycle);
    LaunchSettles(ArmCycle(SwapBegun(s, id, gone), idle, cycle), c);
  }

  lemma StageSettles(s: State, active: Option<WatchId>, written: bool)
    ensures Settled(s, OnLock(s, active)) && Settled(s, OnBlank(s, active, written))
  {
    WatchesLeave(Deliver(s, KindLock).(stage := Lock), None, active);
    WatchesLeave(Deliver(s, KindBlank).(stage := Blank), None, active);
  }

  lemma StartingOverSettles(s: State, written: bool, gone: set<WatchId>, a: Armed)
    ensures Settled(s, Rearm(Reset(s, written), gone, a))
  {
    RearmLeaves(Reset(s, written), gone, a);
  }

  lemma SignalSettles(s: State, id: WatchId, a: Answers)
    requires a.choice.launch !in s.launcher.begun
    ensures Settled(s, HandleWatch(s, id, a))
  {
    if id in s.table.watches {
      match s.table.watches[id]
      case KindSaver => OnSaverSettles(s, a.active, a.locked, a.idle, a.cycle, a.choice);
      case KindCycle => OnCycleSettles(s, id, id in a.gone, a.locked, a.idle, a.cycle, a.choice);
      case KindLock => StageSettles(s, a.active, a.written);
      case KindBlank => StageSettles(s, a.active, a.written);
      case KindActive => StartingOverSettles(s, a.written, a.gone, a.armed);
    }
  }

  /** The result of l brings it on screen. */
  predicate Adopts(s: State, e: Event, l: LaunchId) {
    && e.LaunchDone? && e.l == l && e.outcome.Up?
    && l in s.launcher.begun && s.launcher.begun[l].gen == s.gen && s.stage.Rank() < Lock.Rank()
  }

  lemma ResultSettles(s: State, l: LaunchId, outcome: Outcome, saver: SaverId, c: Choice)
    requires l in s.launcher.begun && c.launch !in s.launcher.begun
    ensures var t := HandleLaunch(s, l, outcome, saver, c);
      Settled(s, t) || (Adopts(s, LaunchDone(l, outcome, saver, c), l) && t.launch == l && t.launcher.inflight <= s.launcher.inflight)
  {
    LaunchSettles(Collect(s, l), c);
  }

  lemma ExitSettles(s: State, locked: Option<bool>, c: Choice)
    requires c.launch !in s.launcher.begun
    ensures Settled(s, OnModuleExit(s, locked, c))
  {
    LaunchSettles(DeathSpent(Died(s)), c);
  }

  /** In any step, what comes on screen was adopted in it. */
  lemma StepSettles(s: State, e: Event)
    requires Possible(s, e)
    ensures var t := Step(s, e);
      Settled(s, t) || (e.LaunchDone? && Adopts(s, e, e.l) && t.launch == e.l && t.launcher.inflight <= s.launcher.inflight)
  {
    match e
    case WatchFired(id, a) => SignalSettles(s, id, a);
    case LaunchDone(l, outcome, saver, c) => ResultSettles(s, l, outcome, saver, c);
    case ModuleExited(locked, c) => ExitSettles(s, locked, c);
    case CopyExited(i, tries) => OnCopyExitFrame(s, i, tries);
    case LockChanged(locked) =>
    case Reloaded(cfg, selectable, written, gone, armed) =>
      if cfg.Some? && cfg.value != s.cfg {
        StartingOverSettles(s.(cfg := cfg.value, launcher := s.launcher.(selectable := selectable)), written, gone, armed);
      }
  }

  /** Launch l is known, is not on screen, and is not on its way in the current
      generation. */
  ghost predicate Spent(s: State, l: LaunchId) {
    && l in s.launcher.begun && !Showing(s, l)
    && (l in s.launcher.inflight ==> s.launcher.begun[l].gen < s.gen)
  }

  lemma {:induction false} SpentStands(path: seq<State>, events: seq<Event>, k: nat, l: LaunchId)
    requires IsRun(path, events) && k < |path| && Spent(path[0], l)
    ensures Spent(path[k], l)
  {
    if k > 0 {
      SpentStands(path, events, k - 1, l);
      StepSettles(path[k - 1], events[k - 1]);
      StepRemembers(path[k - 1], events[k - 1]);
    }
  }

  /** What is spent can never show. */
  lemma SpentNeverShows(s: State, l: LaunchId)
    requires Spent(s, l)
    ensures !CanShow(s, l)
  {
    forall path, events | IsRun(path, events) && path[0] == s
      ensures !Showing(path[|events|], l)
    {
      SpentStands(path, events, |events|, l);
    }
  }

  /** What is on its way in the saver stage can. */
  lemma OnItsWayShows(s: State, l: LaunchId)
    requires !s.fatal && s.stage == Saver
    requires l in s.launcher.inflight && l in s.launcher.begun && s.launcher.begun[l].gen == s.gen
    ensures CanShow(s, l)
  {
    var saver := Above(s.savers.stops.Keys);
    var launch := Above(s.launcher.begun.Keys);
    var c := Choice(None, s.tally.used, false, launch);
    var e := LaunchDone(l, Up, saver, c);
    assert Possible(s, e);
    assert IsRun([s, Step(s, e)], [e]) && Showing(Step(s, e), l);
  }

  // ----- the lock

  /** In the saver stage, a lock leaves no launch begun before it able to show
      exactly when a saver is up or a cancel function stored, or no launch of this
      generation is on its way. */
  lemma LockStopsExactlyWhen(run: seq<State>, events: seq<Event>, k: nat)
    requires IsRun(run, events) && Initial(run[0]) && k < |run| && !run[k].fatal && run[k].stage == Saver
    ensures var s := run[k];
      (forall l :: l in s.launcher.begun ==> !CanShow(OnLockChange(s, true), l)) <==>
      || s.screen.current.Some? || s.cancel.Some?
      || forall l :: l in s.launcher.inflight && l in s.launcher.begun ==> s.launcher.begun[l].gen != s.gen
  {
    var s := run[k];
    EveryReachableState(run, events, k);
    if s.screen.current.Some? || s.cancel.Some? {
      forall l | l in s.launcher.begun ensures !CanShow(OnLockChange(s, true), l) {
        SpentNeverShows(OnLockChange(s, true), l);
      }
    } else {
      forall l | l in s.launcher.begun
        ensures CanShow(s, l) <==> l in s.launcher.inflight && s.launcher.begun[l].gen == s.gen
      {
        if l in s.launcher.inflight && s.launcher.begun[l].gen == s.gen {
          OnItsWayShows(s, l);
        } else {
          SpentNeverShows(s, l);
        }
      }
    }
  }

  // ----- the teardown

  /** The events whose handler stops the saver: those that start a new generation,
      and the first lock or blank signal of its stage. */
  predicate TearsDown(s: State, e: Event) {
    || Abandons(s, e)
    || (e.WatchFired? && e.id in s.table.watches && Advances(s.stage, s.table.watches[e.id]))
  }

  predicate Advances(stage: Stage, kind: Kind) {
    StageOf(kind).Rank() >= Lock.Rank() && StageOf(kind).Rank() > stage.Rank()
  }

  /** Of what is on its way in t, the stored launch of s was cancelled if the saver
      was stopped, and no other. */
  ghost predicate CancelsOnly(s: State, t: State, torn: bool) {
    forall l :: l in t.launcher.inflight ==>
      (l in t.launcher.cancelled <==> l in s.launcher.cancelled || (torn && s.cancel == Some(l)))
  }

  lemma LaunchCancelsNothing(s: State, c: Choice)
    requires s.launcher.cancelled <= s.launcher.begun.Keys && c.launch !in s.launcher.begun
    ensures CancelsOnly(s, StartLaunch(s, c), false)
  {
  }

  lemma SaverStageCancels(s: State, id: WatchId, a: Answers)
    requires s.launcher.cancelled <= s.launcher.begun.Keys && a.choice.launch !in s.launcher.begun
    ensures CancelsOnly(s, OnSaver(s, a.active, a.locked, a.idle, a.cycle, a.choice), false)
    ensures CancelsOnly(s, OnCycle(s, id, id in a.gone, a.locked, a.idle, a.cycle, a.choice), false)
  {
    var s0 := Deliver(s, KindSaver).(stage := Saver);
    var s1 := EnsureActive(s0, a.active);
    var s2 := s1.(period := s1.period.(started := true));
    var c := SwapBegun(s, id, id in a.gone);
    WatchesLeave(s0, None, a.active);
    WatchesLeave(s2, a.idle, a.cycle);
    WatchesLeave(c, a.idle, a.cycle);
    LaunchCancelsNothing(ArmCycle(s2, a.idle, a.cycle), a.choice);
    LaunchCancelsNothing(ArmCycle(c, a.idle, a.cycle), a.choice);
  }

  lemma LateStageCancels(s: State, active: Option<WatchId>, written: bool)
    ensures CancelsOnly(s, OnLock(s, active), s.stage.Rank() < Lock.Rank())
    ensures CancelsOnly(s, OnBlank(s, active, written), s.stage.Rank() < Blank.Rank())
  {
    WatchesLeave(Deliver(s, KindLock).(stage := Lock), None, active);
    WatchesLeave(Deliver(s, KindBlank).(stage := Blank), None, active);
  }

  lemma StartingOverCancels(s: State, written: bool, gone: set<WatchId>, a: Armed)
    ensures CancelsOnly(s, Rearm(Reset(s, written), gone, a), true)
  {
    RearmLeaves(Reset(s, written), gone, a);
  }

  lemma SignalCancels(s: State, id: WatchId, a: Answers)
    requires s.launcher.cancelled <= s.launcher.begun.Keys && a.choice.launch !in s.launcher.begun
    ensures CancelsOnly(s, HandleWatch(s, id, a), TearsDown(s, WatchFired(id, a)))
  {
    if id in s.table.watches {
      match s.table.watches[id]
      case KindSaver => SaverStageCancels(s, id, a);
      case KindCycle => SaverStageCancels(s, id, a);
      case KindLock => LateStageCancels(s, a.active, a.written);
      case KindBlank => LateStageCancels(s, a.active, a.written);
      case KindActive => StartingOverCancels(s, a.written, a.gone, a.armed);
    }
  }

  lemma ResultCancels(s: State, l: LaunchId, outcome: Outcome, saver: SaverId, c: Choice)
    requires s.launcher.cancelled <= s.launcher.begun.Keys && l in s.launcher.begun && c.launch !in s.launcher.begun
    ensures CancelsOnly(s, HandleLaunch(s, l, outcome, saver, c), false)
  {
    LaunchCancelsNothing(Collect(s, l), c);
  }

  lemma ExitCancels(s: State, locked: Option<bool>, c: Choice)
    requires s.launcher.cancelled <= s.launcher.begun.Keys && c.launch !in s.launcher.begun
    ensures CancelsOnly(s, OnModuleExit(s, locked, c), false)
  {
    LaunchCancelsNothing(DeathSpent(Died(s)), c);
  }

  lemma StepCancels(s: State, e: Event)
    requires Invariant(s) && Possible(s, e)
    ensures CancelsOnly(s, Step(s, e), TearsDown(s, e))
  {
    match e
    case WatchFired(id, a) => SignalCancels(s, id, a);
    case LaunchDone(l, outcome, saver, c) => ResultCancels(s, l, outcome, saver, c);
    case ModuleExited(locked, c) => ExitCancels(s, locked, c);
    case CopyExited(i, tries) => OnCopyExitFrame(s, i, tries);
    case LockChanged(locked) =>
    case Reloaded(cfg, selectable, written, gone, armed) =>
      if cfg.Some? && cfg.value != s.cfg {
        StartingOverCancels(s.(cfg := cfg.value, launcher := s.launcher.(selectable := selectable)), written, gone, armed);
      }
  }

  /** Some event before state k stopped the saver while the stored cancel function
      was that of l. */
  ghost predicate TornDown(run: seq<State>, events: seq<Event>, k: nat, l: LaunchId)
    requires k <= |events| < |run|
  {
    exists j :: 0 <= j < k && TearsDown(run[j], events[j]) && run[j].cancel == Some(l)
  }

  /** What one event may do to launch l while it is on its way. */
  ghost predicate OneStep(s: State, e: Event, t: State, l: LaunchId) {
    l in t.launcher.inflight ==>
      && (l in s.launcher.begun ==> l in s.launcher.inflight)
      && (l in t.launcher.cancelled <==> l in s.launcher.cancelled || (TearsDown(s, e) && s.cancel == Some(l)))
  }

  /** A launch that is not known is neither cancelled nor stored, now or before. */
  ghost predicate Unknown(run: seq<State>, k: nat, l: LaunchId)
    requires k < |run|
  {
    l !in run[k].launcher.cancelled && forall j :: 0 <= j <= k ==> run[j].cancel != Some(l)
  }

  /** A launch on its way has been cancelled exactly when the saver was stopped
      while the stored cancel function was that launch's own. */
  lemma CancelledExactlyWhen(run: seq<State>, events: seq<Event>, k: nat, l: LaunchId)
    requires IsRun(run, events) && Initial(run[0]) && k < |run| && l in run[k].launcher.inflight
    ensures l in run[k].launcher.cancelled <==> TornDown(run, events, k, l)
  {
    forall i | 0 <= i < |events| ensures OneStep(run[i], events[i], run[i + 1], l) {
      EveryReachableState(run, events, i);
      StepCancels(run[i], events[i]);
      StepSettles(run[i], events[i]);
    }
    forall i | 0 <= i < |run| && l !in run[i].launcher.begun ensures Unknown(run, i, l) {
      NotYetStored(run, events, i, l);
    }
    CancelledSoFar(run, events, k, l);
  }

  lemma {:induction false} CancelledSoFar(run: seq<State>, events: seq<Event>, k: nat, l: LaunchId)
    requires |run| == |events| + 1 && k < |run| && l in run[k].launcher.inflight && l !in run[0].launcher.inflight
    requires forall i :: 0 <= i < |events| ==> OneStep(run[i], events[i], run[i + 1], l)
    requires forall i :: 0 <= i < |run| && l !in run[i].launcher.begun ==> Unknown(run, i, l)
    ensures l in run[k].launcher.cancelled <==> TornDown(run, events, k, l)
    decreases k
  {
    assert OneStep(run[k - 1], events[k - 1], run[k], l);
    if l in run[k - 1].launcher.begun {
      CancelledSoFar(run, events, k - 1, l);
    } else {
      assert Unknown(run, k - 1, l);
    }
  }

  lemma NotYetStored(run: seq<State>, events: seq<Event>, k: nat, l: LaunchId)
    requires IsRun(run, events) && Initial(run[0]) && k < |run| && l !in run[k].launcher.begun
    ensures forall j :: 0 <= j <= k ==> run[j].cancel != Some(l)
    ensures l !in run[k].launcher.cancelled
  {
    forall j | 0 <= j <= k ensures run[j].cancel != Some(l) {
      EveryReachableState(run, events, j);
      RunRemembers(run, events, j, k);
    }
    EveryReachableState(run, events, k);
  }

  /** What the teardown at the end of a run leaves running: what is on its way and
      is neither the stored launch nor was it when the saver was last stopped. */
  lemma ShutdownLeavesRunning(run: seq<State>, events: seq<Event>, queued: Option<LaunchId>, outcome: Outcome,
                              saver: SaverId, l: LaunchId)
    requires IsRun(run, events) && Initial(run[0])
    requires l in Shutdown(run[|events|], queued, outcome, saver).launcher.inflight
    ensures l !in Shutdown(run[|events|], queued, outcome, saver).launcher.cancelled <==>
      run[|events|].cancel != Some(l) && !TornDown(run, events, |events|, l)
  {
    CancelledExactlyWhen(run, events, |events|, l);
  }

  /** Before the lock stage nothing on its way in this generation was cancelled. */
  ghost predicate Uncancelled(s: State) {
    s.stage.Rank() < Lock.Rank() ==>
      forall l :: l in s.launcher.inflight && l in s.launcher.begun && s.launcher.begun[l].gen == s.gen ==> l !in s.launcher.cancelled
  }

  /** The stage goes back only when what was begun is abandoned, and past the saver
      stage when the saver is stopped. */
  lemma StageGoesOn(s: State, e: Event)
    requires Possible(s, e)
    ensures !Abandons(s, e) ==> s.stage.Rank() <= Step(s, e).stage.Rank()
    ensures TearsDown(s, e) && !Abandons(s, e) ==> Step(s, e).stage.Rank() >= Lock.Rank()
  {
    match e
    case WatchFired(id, a) =>
      if id in s.table.watches && s.table.watches[id] != KindActive {
        SignalGoesOn(s, id, a);
      }
    case CopyExited(i, tries) => OnCopyExitFrame(s, i, tries);
    case _ =>
  }

  lemma SignalGoesOn(s: State, id: WatchId, a: Answers)
    requires id in s.table.watches && s.table.watches[id] != KindActive
    ensures HandleWatch(s, id, a).stage == Further(s.stage, s.table.watches[id])
  {
    match s.table.watches[id]
    case KindSaver => OnSaverGoesOn(s, a);
    case KindCycle => OnCycleGoesOn(s, id, a);
    case KindLock =>
    case KindBlank =>
  }

  function Further(stage: Stage, kind: Kind): Stage {
    if StageOf(kind).Rank() > stage.Rank() then StageOf(kind) else stage
  }

  lemma OnSaverGoesOn(s: State, a: Answers)
    ensures OnSaver(s, a.active, a.locked, a.idle, a.cycle, a.choice).stage == Further(s.stage, KindSaver)
  {
  }

  lemma OnCycleGoesOn(s: State, id: WatchId, a: Answers)
    ensures OnCycle(s, id, id in a.gone, a.locked, a.idle, a.cycle, a.choice).stage == s.stage
  {
  }

  lemma StepUncancelled(s: State, e: Event)
    requires Invariant(s) && Possible(s, e) && Uncancelled(s)
    ensures Uncancelled(Step(s, e))
  {
    StageGoesOn(s, e);
    StepCancels(s, e);
    StepSettles(s, e);
    StepRemembers(s, e);
  }

  lemma {:induction false} NothingCancelledEarly(run: seq<State>, events: seq<Event>, k: nat)
    requires IsRun(run, events) && Initial(run[0]) && k < |run|
    ensures Uncancelled(run[k])
  {
    if k > 0 {
      NothingCancelledEarly(run, events, k - 1);
      EveryReachableState(run, events, k - 1);
      StepUncancelled(run[k - 1], events[k - 1]);
    }
  }

  /** Stopping the saver before the lock stage cancels everything on its way in
      this generation exactly when that is the stored launch and nothing else. */
  lemma StoppingCancelsAllExactlyWhen(run: seq<State>, events: seq<Event>, k: nat)
    requires IsRun(run, events) && Initial(run[0]) && k < |run| && run[k].stage.Rank() < Lock.Rank()
    ensures var s := run[k];
      (forall l :: l in s.launcher.inflight && l in s.launcher.begun && s.launcher.begun[l].gen == s.gen ==>
                     l in StopSaver(s).launcher.cancelled) <==>
      (forall l :: l in s.launcher.inflight && l in s.launcher.begun && s.launcher.begun[l].gen == s.gen ==> s.cancel == Some(l))
  {
    NothingCancelledEarly(run, events, k);
  }
}
