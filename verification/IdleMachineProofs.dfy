/** What every run of the idle machine keeps: the invariant, one lemma per event,
    and the promises that follow from it. */
module IdleMachineProofs {
  import opened Wrappers
  import opened Settings
  import opened Schedule
  import opened Collaborators
  import opened IdleMachine

  lemma FurthestAfter(fires: seq<Kind>, kind: Kind)
    ensures Furthest(fires + [kind]) == if StageOf(kind).Rank() > Furthest(fires).Rank() then StageOf(kind) else Furthest(fires)
  {
    assert (fires + [kind])[..|fires|] == fires;
  }

  lemma LockCameFirstAfter(fires: seq<Kind>, kind: Kind)
    ensures LockCameFirst(fires + [kind]) <==> LockCameFirst(fires) || (kind == KindLock && KindBlank !in fires)
  {
    assert (fires + [kind])[..|fires|] == fires;
  }

  /** Some lock signal has no blank signal before it. */
  lemma {:induction false} LockCameFirstMeans(fires: seq<Kind>)
    ensures LockCameFirst(fires) <==> exists i :: 0 <= i < |fires| && fires[i] == KindLock && KindBlank !in fires[..i]
  {
    if fires != [] {
      var n := |fires| - 1;
      var init := fires[..n];
      LockCameFirstMeans(init);
      if i :| 0 <= i < |init| && init[i] == KindLock && KindBlank !in init[..i] {
        assert fires[..i] == init[..i] && fires[i] == KindLock;
      }
      if i :| 0 <= i < |fires| && fires[i] == KindLock && KindBlank !in fires[..i] {
        if i < n {
          assert init[..i] == fires[..i] && init[i] == KindLock;
        }
      }
    }
  }

  /** The stage is the furthest one delivered, whatever the order: each signal
      delivered is at or below it, and it is itself delivered or Idle. */
  lemma {:induction false} FurthestIsTheMaximum(fires: seq<Kind>, kind: Kind)
    requires kind in fires
    ensures StageOf(kind).Rank() <= Furthest(fires).Rank()
    ensures Furthest(fires) == Idle || exists k :: k in fires && StageOf(k) == Furthest(fires)
  {
    var init, last := fires[..|fires| - 1], fires[|fires| - 1];
    assert fires == init + [last];
    FurthestAfter(init, last);
    FurthestIsDelivered(fires);
    if kind in init {
      FurthestIsTheMaximum(init, kind);
    } else {
      assert kind == last;
    }
  }

  lemma {:induction false} FurthestIsDelivered(fires: seq<Kind>)
    ensures Furthest(fires) == Idle || exists k :: k in fires && StageOf(k) == Furthest(fires)
  {
    if fires != [] {
      var init, last := fires[..|fires| - 1], fires[|fires| - 1];
      FurthestIsDelivered(init);
      assert last in fires;
      assert forall k :: k in init ==> k in fires;
    }
  }

  /** Past the lock stage without a blank signal, the lock signal came first. */
  lemma {:induction false} LockStageMeansLocked(fires: seq<Kind>)
    requires Furthest(fires) == Lock
    ensures LockCameFirst(fires) && KindBlank !in fires
  {
    var init, last := fires[..|fires| - 1], fires[|fires| - 1];
    assert fires == init + [last];
    FurthestAfter(init, last);
    LockCameFirstAfter(init, last);
    if KindBlank in fires {
      FurthestIsTheMaximum(fires, KindBlank);
    }
    if Furthest(init) == Lock {
      LockStageMeansLocked(init);
    }
  }

  lemma DistinctCount(names: seq<string>, name: string)
    ensures ToSet(names + [name]) == ToSet(names) + {name}
    ensures |ToSet(names + [name])| == if name in names then |ToSet(names)| else |ToSet(names)| + 1
  {
    assert ToSet(names + [name]) == ToSet(names) + {name};
    if name in names {
      assert ToSet(names) + {name} == ToSet(names);
    }
  }

  /** The avoid list never outgrows what can be selected. */
  lemma {:induction false} NoDuplicatesFit(names: seq<string>, pool: set<string>)
    requires NoDuplicates(names) && ToSet(names) <= pool
    ensures |names| == |ToSet(names)| <= |pool|
  {
    Cardinality(ToSet(names), pool);
    if names != [] {
      var init, last := names[..|names| - 1], names[|names| - 1];
      assert names == init + [last];
      DistinctCount(init, last);
      assert ToSet(init) <= ToSet(names);
      NoDuplicatesFit(init, pool);
    } else {
      assert ToSet(names) == {};
    }
  }

  lemma {:induction false} Cardinality(a: set<string>, b: set<string>)
    requires a <= b
    ensures |a| <= |b|
    ensures |a| == |b| ==> a == b
    decreases a
  {
    if a != {} {
      var x :| x in a;
      Cardinality(a - {x}, b - {x});
      assert a == (a - {x}) + {x} && b == (b - {x}) + {x};
    } else if |b| == 0 {
      assert b == {};
    }
  }

  lemma Added(watches: map<WatchId, Kind>, id: WatchId, kind: Kind)
    requires id !in watches
    ensures forall k :: Has(watches[id := kind], k) <==> Has(watches, k) || k == kind
  {
    var all := watches[id := kind];
    assert all[id] == kind;
    forall k ensures Has(all, k) <==> Has(watches, k) || k == kind {
      if Has(watches, k) {
        var w :| w in watches && watches[w] == k;
        assert all[w] == k;
      }
      if Has(all, k) {
        var w :| w in all && all[w] == k;
        assert w == id || watches[w] == k;
      }
    }
  }

  /** Drawing one name more, avoiding all those before it. */
  lemma {:induction false} DrawnOneMore(selectable: set<string>, used: seq<string>, shown: seq<string>, also: seq<string>,
                                        names: seq<string>, left: seq<string>, name: string, after: seq<string>)
    requires Drawn(selectable, used, shown, also, names, left)
    requires Draw(selectable, left, shown, also + names).1 == after && name in Draw(selectable, left, shown, also + names).0
    ensures Drawn(selectable, used, shown, also, names + [name], after)
    decreases |names|
  {
    if names == [] {
      assert also + names == also;
      assert (names + [name])[1..] == [];
    } else {
      assert also + [names[0]] + names[1..] == also + names;
      DrawnOneMore(selectable, Draw(selectable, used, shown, also).1, shown, also + [names[0]], names[1..], left, name, after);
      assert (names + [name])[1..] == names[1..] + [name];
    }
  }

  // ----- the invariant

  /** Every watch is one the monitor issued, and none is registered that the
      table does not hold, unless removing it failed. */
  ghost predicate Tracked(t: Table, mon: MonitorState) {
    && t.watches.Keys <= mon.issued.Keys
    && mon.registered <= t.watches.Keys + mon.stuck
  }

  /** A stored cancel function belongs to a launch of this generation that is
      still in flight and has not been cancelled. */
  ghost predicate InFlight(gen: nat, stage: Stage, started: bool, cancel: Option<LaunchId>,
                          abandoned: set<LaunchId>, x: LauncherState) {
    && x.inflight <= x.begun.Keys
    && (forall l :: l in x.begun ==> x.begun[l].gen <= gen && x.begun[l].names != [])
    && (forall l :: l in x.inflight && x.begun[l].gen == gen ==> started)
    && (cancel.Some? ==>
          && stage == Saver
          && cancel.value in x.inflight - x.cancelled
          && x.begun[cancel.value].gen == gen)
    && x.cancelled <= x.begun.Keys
    && abandoned <= x.begun.Keys
    && (forall l :: l in abandoned ==> x.begun[l].gen < gen)
  }

  /** What is on screen belongs to the saver stage and to this generation, and
      the event loop listens to nothing else. */
  ghost predicate OnScreen(screen: Screen, gen: nat, stage: Stage, started: bool, launch: LaunchId,
                          abandoned: set<LaunchId>, begun: map<LaunchId, Launch>) {
    && (screen.current.Some? ==>
          && stage == Saver
          && started
          && screen.names != []
          && launch in begun
          && begun[launch].gen == gen
          && launch !in abandoned)
    && (screen.current.None? ==> screen == BARE)
    && screen.done == (if |screen.names| == 1 && !screen.dead then screen.current else None)
    && screen.exits == (if |screen.names| > 1 then screen.current else None)
  }

  /** A module that died on screen is never stranded: a replacement of this
      generation is on its way. */
  ghost predicate NotStranded(screen: Screen, cancel: Option<LaunchId>) {
    screen.dead ==> screen.current.Some? && |screen.names| == 1 && cancel.Some?
  }

  /** The saver on screen has not been stopped; every other saver ever received
      has been stopped exactly once. */
  ghost predicate Conserved(current: Option<SaverId>, stops: map<SaverId, nat>) {
    && (current.Some? ==> current.value in stops)
    && forall x :: x in stops ==> stops[x] == if current == Some(x) then 0 else 1
  }

  /** idle-delay holds the blank value exactly when the machine says so. */
  ghost predicate Owned(blanked: bool, idleDelay: int) {
    idleDelay == if blanked then BLANK_IDLE_DELAY else 0
  }

  /** Each kind has at most one watch, at its own threshold; the saver, lock and
      blank watches are all there when enabled. */
  ghost predicate WatchTable(cfg: Config, t: Table, issued: map<WatchId, Watch>, started: bool) {
    && (forall id :: id in t.watches ==> id in issued && issued[id] == Wanted(cfg, t.due, t.watches[id]))
    && (forall i, j :: i in t.watches && j in t.watches && t.watches[i] == t.watches[j] ==> i == j)
    && Has(t.watches, KindSaver)
    && (Has(t.watches, KindLock) <==> cfg.LockEnabled())
    && (Has(t.watches, KindBlank) <==> cfg.BlankEnabled())
    && (Has(t.watches, KindActive) <==> t.activeArmed)
    && (Has(t.watches, KindCycle) ==> started && cfg.CycleEnabled())
  }

  /** Nothing is shown that cannot be selected, and with one module for all
      monitors none is avoided twice. */
  ghost predicate Fair(cfg: Config, used: seq<string>, names: seq<string>, gen: nat, x: LauncherState) {
    && Within(used, x.selectable)
    && Within(names, x.selectable)
    && (forall l :: l in x.inflight && l in x.begun && x.begun[l].gen == gen ==>
          && Within(x.begun[l].names, x.selectable)
          && (!cfg.DifferentPerMonitor() ==> |x.begun[l].names| == 1))
    && (!cfg.DifferentPerMonitor() ==> NoDuplicates(used) && |names| <= 1)
  }

  /** How much launching this idle period may still do: two launches for the
      start, for each swap and for each death, less what is spent. */
  ghost predicate Budget(stage: Stage, t: Tally, p: Period, launches: nat) {
    && p.launches <= launches
    && t.attempts <= 2
    && t.deaths <= MAX_RELAUNCHES
    && p.swaps <= t.cycles
    && (if p.started then launches - p.launches + 2 <= 2 * (1 + p.swaps + t.deaths) + t.attempts
        else launches == p.launches && t.attempts == p.swaps == t.deaths == t.cycles == 0)
    && (p.started ==> stage != Idle)
  }

  /** Replacing the module on one monitor is capped for each by itself. */
  ghost predicate Capped(monitorDeaths: map<nat, nat>, before: map<nat, nat>, replacements: map<nat, nat>) {
    && (forall i: nat :: Count(monitorDeaths, i) <= MAX_RELAUNCHES)
    && (forall i: nat :: Count(replacements, i) <= Count(before, i) + Count(monitorDeaths, i))
  }

  /** The swap watch is at the threshold of the next swap, which comes before the
      lock, as all the swaps made did. */
  ghost predicate SwapDue(cfg: Config, t: Table, cycles: nat, swaps: nat) {
    && (Has(t.watches, KindCycle) ==> t.due == SwapAt(cfg, cycles + 1) && BeforeLock(cfg, cycles + 1))
    && (cfg.LockEnabled() ==> swaps * cfg.cycleAfter < cfg.lockAfter)
  }

  /** The stage and what was done to the session follow from the signals
      delivered since the last reset, and from nothing else. */
  ghost predicate Effects(stage: Stage, fires: seq<Kind>, locks: int, blanks: int) {
    && stage == Furthest(fires)
    && locks == (if LockCameFirst(fires) then 1 else 0)
    && blanks == (if KindBlank in fires then 1 else 0)
  }

  ghost predicate Launches(s: State) {
    InFlight(s.gen, s.stage, s.period.started, s.cancel, s.abandoned, s.launcher)
  }

  ghost predicate Shows(s: State) {
    && OnScreen(s.screen, s.gen, s.stage, s.period.started, s.launch, s.abandoned, s.launcher.begun)
    && NotStranded(s.screen, s.cancel)
  }

  ghost predicate Picks(s: State) {
    Fair(s.cfg, s.tally.used, s.screen.names, s.gen, s.launcher)
  }

  ghost predicate Spends(s: State) {
    Budget(s.stage, s.tally, s.period, s.launcher.launches)
  }

  ghost predicate Tabled(s: State) {
    WatchTable(s.cfg, s.table, s.mon.issued, s.period.started)
  }

  // The invariant in four groups: the watches, the launches and the screen, the
  // counts, and the session.

  ghost predicate WatchesInv(s: State) {
    && Tracked(s.table, s.mon)
    && (s.fatal || (Tabled(s) && SwapDue(s.cfg, s.table, s.tally.cycles, s.period.swaps)))
  }

  ghost predicate ScreenInv(s: State) {
    Launches(s) && Shows(s) && Conserved(s.screen.current, s.savers.stops)
  }

  ghost predicate CountsInv(s: State) {
    Picks(s) && Spends(s) && Capped(s.tally.monitorDeaths, s.period.replacements, s.savers.replacements)
  }

  ghost predicate SessionInv(s: State) {
    && Owned(s.blanked, s.session.idleDelay)
    && Effects(s.stage, s.period.fires, s.session.locks - s.period.locks, s.session.blanks - s.period.blanks)
  }

  ghost predicate Invariant(s: State) {
    WatchesInv(s) && ScreenInv(s) && CountsInv(s) && SessionInv(s)
  }

  // ----- what one more signal does to the history

  /** What the stage says about the signals delivered so far. */
  lemma StageTells(fires: seq<Kind>)
    ensures KindBlank in fires <==> Furthest(fires) == Blank
    ensures Furthest(fires).Rank() < Lock.Rank() ==> !LockCameFirst(fires)
    ensures Furthest(fires) == Lock ==> LockCameFirst(fires)
  {
    if KindBlank in fires {
      FurthestIsTheMaximum(fires, KindBlank);
    }
    if KindLock in fires {
      FurthestIsTheMaximum(fires, KindLock);
    }
    if fires != [] {
      FurthestIsTheMaximum(fires, fires[0]);
    }
    if Furthest(fires) == Lock {
      LockStageMeansLocked(fires);
    }
  }

  /** What one more signal calls for: at most a later stage, one lock when that
      stage is the lock, one blanking when it is the blank. */
  lemma DeliverKeeps(stage: Stage, fires: seq<Kind>, locks: int, blanks: int, kind: Kind)
    requires Effects(stage, fires, locks, blanks)
    ensures
      var later := StageOf(kind).Rank() > stage.Rank();
      Effects(if later then StageOf(kind) else stage, fires + [kind],
        if later && kind == KindLock then locks + 1 else locks,
        if later && kind == KindBlank then blanks + 1 else blanks)
  {
    FurthestAfter(fires, kind);
    LockCameFirstAfter(fires, kind);
    StageTells(fires);
  }

  /** The session was told what the signal calls for, and nothing else. */
  lemma SessionKeeps(s: State, t: State, kind: Kind)
    requires SessionInv(s)
    requires t.period.fires == s.period.fires + [kind]
    requires t.period.locks == s.period.locks && t.period.blanks == s.period.blanks
    requires Owned(t.blanked, t.session.idleDelay)
    requires var later := StageOf(kind).Rank() > s.stage.Rank();
      && t.stage == (if later then StageOf(kind) else s.stage)
      && t.session.locks == s.session.locks + (if later && kind == KindLock then 1 else 0)
      && t.session.blanks == s.session.blanks + (if later && kind == KindBlank then 1 else 0)
    ensures SessionInv(t)
  {
    DeliverKeeps(s.stage, s.period.fires, s.session.locks - s.period.locks, s.session.blanks - s.period.blanks, kind);
  }

  // ----- what the steps of an event keep

  lemma AddIdleKeeps(s: State, kind: Kind, id: Option<WatchId>)
    requires Tracked(s.table, s.mon) && FreshWatch(s.mon, id)
    ensures Tracked(AddIdle(s, kind, id).table, AddIdle(s, kind, id).mon)
    ensures id.Some? ==> forall k :: Has(AddIdle(s, kind, id).table.watches, k) <==> Has(s.table.watches, k) || k == kind
  {
    if id.Some? {
      Added(s.table.watches, id.value, kind);
    }
  }

  lemma EnsureActiveKeeps(s: State, id: Option<WatchId>)
    requires Tracked(s.table, s.mon) && Tabled(s) && FreshWatch(s.mon, id)
    ensures Tracked(EnsureActive(s, id).table, EnsureActive(s, id).mon) && Tabled(EnsureActive(s, id))
    ensures forall k :: k != KindActive ==> (Has(EnsureActive(s, id).table.watches, k) <==> Has(s.table.watches, k))
  {
    if id.Some? {
      Added(s.table.watches, id.value, KindActive);
    }
  }

  lemma TableGainsSwap(cfg: Config, t: Table, mon: MonitorState, started: bool, id: Option<WatchId>, due: int)
    requires Tracked(t, mon) && WatchTable(cfg, t, mon.issued, started) && !Has(t.watches, KindCycle)
    requires id.Some? ==> id.value !in mon.issued && started && cfg.CycleEnabled()
    ensures id.None? ==> WatchTable(cfg, t.(due := due), mon.issued, started)
    ensures id.Some? ==>
      && Tracked(t.(watches := t.watches[id.value := KindCycle], due := due),
           mon.(issued := mon.issued[id.value := IdleFor(due)], registered := mon.registered + {id.value}))
      && WatchTable(cfg, t.(watches := t.watches[id.value := KindCycle], due := due), mon.issued[id.value := IdleFor(due)], started)
  {
    if id.Some? {
      Added(t.watches, id.value, KindCycle);
    }
  }

  /** No swap watch is pending when the next swap is scheduled. */
  lemma ArmCycleKeeps(s: State, idle: Option<int>, id: Option<WatchId>)
    requires Tracked(s.table, s.mon) && Tabled(s) && s.period.started && !Has(s.table.watches, KindCycle) && FreshWatch(s.mon, id)
    ensures var t := ArmCycle(s, idle, id);
      Tracked(t.table, t.mon) && Tabled(t) && t == s.(table := t.table, mon := t.mon, tally := s.tally.(cycles := t.tally.cycles))
  {
    if s.cfg.CycleEnabled() {
      var n := NextSwap(s.cfg, s.tally.cycles, idle);
      TableGainsSwap(s.cfg, s.table, s.mon, s.period.started, if BeforeLock(s.cfg, n) then id else None, SwapAt(s.cfg, n));
    }
  }

  lemma ArmCycleDue(s: State, idle: Option<int>, id: Option<WatchId>)
    requires !Has(s.table.watches, KindCycle)
    requires s.cfg.LockEnabled() ==> s.period.swaps * s.cfg.cycleAfter < s.cfg.lockAfter
    ensures var t := ArmCycle(s, idle, id);
      && SwapDue(s.cfg, t.table, t.tally.cycles, s.period.swaps)
      && t.tally.cycles >= s.tally.cycles
  {
  }

  /** A launch is started on the saver stage, while one more is allowed for. */
  lemma StartLaunchFlies(s: State, c: Choice)
    requires Launches(s) && s.stage == Saver && s.period.started && ChoiceSound(s, c)
    requires OnScreen(s.screen, s.gen, s.stage, s.period.started, s.launch, s.abandoned, s.launcher.begun)
    ensures var t := StartLaunch(s, c);
      && Launches(t)
      && OnScreen(t.screen, t.gen, t.stage, t.period.started, t.launch, t.abandoned, t.launcher.begun)
  {
  }

  lemma StartLaunchPicks(s: State, c: Choice)
    requires Launches(s) && Picks(s) && ChoiceSound(s, c)
    ensures Picks(StartLaunch(s, c))
  {
  }

  lemma StartLaunchSpends(s: State, c: Choice)
    requires Spends(s) && s.period.started && s.tally.attempts < 2
    ensures Spends(StartLaunch(s, c))
  {
  }

  /** The windows of a dead module are closed when no launch is stored. */
  lemma CloseDeadKeeps(s: State)
    requires Launches(s) && Picks(s) && Spends(s) && Conserved(s.screen.current, s.savers.stops)
    requires OnScreen(s.screen, s.gen, s.stage, s.period.started, s.launch, s.abandoned, s.launcher.begun)
    requires s.screen.dead ==> s.screen.current.Some? && |s.screen.names| == 1
    ensures var t := CloseDead(s);
      Launches(t) && Shows(t) && Conserved(t.screen.current, t.savers.stops) && Picks(t) && Spends(t) && !t.screen.dead
  {
  }

  /** The launch that reports was one of those in flight; the rest still are. */
  lemma CollectKeeps(s: State, l: LaunchId)
    requires Launches(s) && Picks(s) && l in s.launcher.inflight
    ensures var t := Collect(s, l);
      && Launches(t) && Picks(t)
      && t.screen == s.screen && t.launcher.begun == s.launcher.begun
  {
  }

  /** Registering a watch touches the table and the monitor, and what is counted or
      noted with it. */
  lemma WatchesLeave(s: State, idle: Option<int>, id: Option<WatchId>)
    ensures var t := ArmCycle(s, idle, id);
      t == s.(table := t.table, mon := t.mon, tally := s.tally.(cycles := t.tally.cycles))
    ensures var t := EnsureActive(s, id); t == s.(table := t.table, mon := t.mon, fatal := t.fatal)
  {
  }

  // ----- each event keeps the invariant

  /** What OnSaver has to hand when it comes to launching. */
  function SaverBegun(s: State, active: Option<WatchId>, idle: Option<int>, cycle: Option<WatchId>): State {
    var s1 := EnsureActive(Deliver(s, KindSaver).(stage := Saver), active);
    ArmCycle(s1.(period := s1.period.(started := true)), idle, cycle)
  }

  lemma OnSaverWatches(s: State, active: Option<WatchId>, idle: Option<int>, cycle: Option<WatchId>)
    requires WatchesInv(s) && !s.fatal && !s.period.started && SwapWatchOk(s.mon, active, cycle)
    ensures WatchesInv(EnsureActive(Deliver(s, KindSaver).(stage := Saver), active))
    ensures WatchesInv(SaverBegun(s, active, idle, cycle))
    ensures var t := SaverBegun(s, active, idle, cycle);
      t == s.(stage := Saver, period := s.period.(fires := s.period.fires + [KindSaver], started := true),
              table := t.table, mon := t.mon, fatal := t.fatal, tally := s.tally.(cycles := t.tally.cycles))
  {
    var s0 := Deliver(s, KindSaver).(stage := Saver);
    EnsureActiveKeeps(s0, active);
    var s1 := EnsureActive(s0, active);
    var s2 := s1.(period := s1.period.(started := true));
    ArmCycleKeeps(s2, idle, cycle);
    ArmCycleDue(s2, idle, cycle);
  }

  /** Nothing is on screen or on its way when the saver stage begins. */
  lemma SaverStageBegins(s: State, b: State)
    requires ScreenInv(s) && CountsInv(s) && s.stage == Idle
    requires b == s.(stage := Saver, period := s.period.(fires := b.period.fires, started := b.period.started),
                     table := b.table, mon := b.mon, fatal := b.fatal, tally := s.tally.(cycles := b.tally.cycles))
    requires b.tally.cycles >= s.tally.cycles && (!b.period.started ==> b.tally.cycles == s.tally.cycles)
    ensures ScreenInv(b) && CountsInv(b)
    ensures b.period.started ==> b.tally.attempts == 0
  {
  }

  lemma LaunchKeeps(s: State, c: Choice)
    requires ScreenInv(s) && CountsInv(s) && s.stage == Saver && s.period.started && s.tally.attempts < 2
    requires ChoiceSound(s, c)
    ensures ScreenInv(StartLaunch(s, c)) && CountsInv(StartLaunch(s, c))
  {
    StartLaunchFlies(s, c);
    StartLaunchPicks(s, c);
    StartLaunchSpends(s, c);
  }

  /** Starting a launch touches the launcher, the cancel function and the tally. */
  lemma LaunchLeaves(s: State, c: Choice)
    ensures var t := StartLaunch(s, c);
      t == s.(launcher := t.launcher, cancel := t.cancel, tally := s.tally.(used := t.tally.used, attempts := t.tally.attempts))
    ensures WatchesInv(s) ==> WatchesInv(StartLaunch(s, c))
  {
  }

  /** An event that leaves everything but the history of signals alone. */
  lemma DeliveredOnly(s: State, kind: Kind)
    requires Invariant(s) && StageOf(kind).Rank() <= s.stage.Rank()
    ensures Invariant(Deliver(s, kind))
  {
    SessionKeeps(s, Deliver(s, kind), kind);
  }

  lemma OnSaverLaunches(s: State, active: Option<WatchId>, idle: Option<int>, cycle: Option<WatchId>, c: Choice)
    requires WatchesInv(s) && ScreenInv(s) && CountsInv(s) && !s.fatal && s.stage == Idle
    requires SwapWatchOk(s.mon, active, cycle) && ChoiceSound(s, c)
    ensures var t := StartLaunch(SaverBegun(s, active, idle, cycle), c);
      && WatchesInv(t) && ScreenInv(t) && CountsInv(t)
      && t.session == s.session && t.blanked == s.blanked && t.stage == Saver
      && t.period == s.period.(fires := s.period.fires + [KindSaver], started := true)
  {
    OnSaverWatches(s, active, idle, cycle);
    var b := SaverBegun(s, active, idle, cycle);
    SaverStageBegins(s, b);
    LaunchLeaves(b, c);
    LaunchKeeps(b, c);
  }

  lemma OnSaverKeeps(s: State, active: Option<WatchId>, locked: Option<bool>, idle: Option<int>,
                     cycle: Option<WatchId>, c: Choice)
    requires Invariant(s) && !s.fatal && SwapWatchOk(s.mon, active, cycle) && ChoiceSound(s, c)
    ensures Invariant(OnSaver(s, active, locked, idle, cycle, c))
  {
    if s.stage != Idle {
      DeliveredOnly(s, KindSaver);
    } else if IsLocked(locked) {
      var t := EnsureActive(Deliver(s, KindSaver).(stage := Saver), active);
      OnSaverWatches(s, active, idle, cycle);
      SaverStageBegins(s, t);
      SessionKeeps(s, t, KindSaver);
    } else {
      OnSaverLaunches(s, active, idle, cycle, c);
      SessionKeeps(s, OnSaver(s, active, locked, idle, cycle, c), KindSaver);
    }
  }

  /** Dropping the swap watch that fired. */
  lemma DropOneKeeps(s: State, id: WatchId, gone: bool)
    requires WatchesInv(s) && !s.fatal && id in s.table.watches && s.table.watches[id] == KindCycle
    ensures var t := DropOne(s, id, gone);
      WatchesInv(t) && !Has(t.table.watches, KindCycle)
  {
    var w := s.table.watches;
    var left := DropOne(s, id, gone).table.watches;
    forall k | k != KindCycle ensures Has(left, k) <==> Has(w, k) {
      if Has(w, k) {
        var x :| x in w && w[x] == k;
        assert left[x] == k;
      }
      if Has(left, k) {
        var x :| x in left && left[x] == k;
        assert w[x] == k;
      }
    }
  }

  /** A swap that fell due is one more swap before the lock. */
  function SwapBegun(s: State, id: WatchId, gone: bool): State {
    SwapCounted(DropOne(Deliver(s, KindCycle), id, gone))
  }

  lemma SwapBegunKeeps(s: State, id: WatchId, gone: bool)
    requires WatchesInv(s) && CountsInv(s) && !s.fatal && id in s.table.watches && s.table.watches[id] == KindCycle
    ensures var t := SwapBegun(s, id, gone);
      && WatchesInv(t) && CountsInv(t) && s.period.started && !Has(t.table.watches, KindCycle)
  {
    DropOneKeeps(s, id, gone);
    assert Has(s.table.watches, KindCycle);
    SwapsBeforeLock(s.cfg, s.tally.cycles, s.period.swaps);
  }

  /** The swap that is due next comes before the lock, and so do no more swaps. */
  lemma SwapsBeforeLock(cfg: Config, cycles: nat, swaps: nat)
    requires cfg.CycleEnabled() && BeforeLock(cfg, cycles + 1) && swaps <= cycles
    ensures cfg.LockEnabled() ==> (swaps + 1) * cfg.cycleAfter < cfg.lockAfter
  {
    if cfg.LockEnabled() && swaps < cycles {
      MulLess(swaps + 1, cycles + 1, cfg.cycleAfter);
    }
  }

  lemma OnCycleSwaps(s: State, id: WatchId, gone: bool, idle: Option<int>, cycle: Option<WatchId>, c: Choice)
    requires WatchesInv(s) && ScreenInv(s) && CountsInv(s) && !s.fatal
    requires s.stage == Saver && id in s.table.watches && s.table.watches[id] == KindCycle
    requires FreshWatch(s.mon, cycle) && ChoiceSound(s, c)
    ensures var t := StartLaunch(ArmCycle(SwapBegun(s, id, gone), idle, cycle), c);
      && WatchesInv(t) && ScreenInv(t) && CountsInv(t)
      && t.session == s.session && t.blanked == s.blanked && t.stage == s.stage
      && t.period == s.period.(fires := s.period.fires + [KindCycle], swaps := s.period.swaps + 1)
  {
    SwapBegunKeeps(s, id, gone);
    var s1 := SwapBegun(s, id, gone);
    assert ScreenInv(s1);
    ArmCycleKeeps(s1, idle, cycle);
    ArmCycleDue(s1, idle, cycle);
    LaunchLeaves(ArmCycle(s1, idle, cycle), c);
    LaunchKeeps(ArmCycle(s1, idle, cycle), c);
  }

  lemma OnCycleKeeps(s: State, id: WatchId, gone: bool, locked: Option<bool>, idle: Option<int>,
                     cycle: Option<WatchId>, c: Choice)
    requires Invariant(s) && !s.fatal && id in s.table.watches && s.table.watches[id] == KindCycle
    requires FreshWatch(s.mon, cycle) && ChoiceSound(s, c)
    ensures Invariant(OnCycle(s, id, gone, locked, idle, cycle, c))
  {
    var t := OnCycle(s, id, gone, locked, idle, cycle, c);
    if s.stage != Saver || IsLocked(locked) {
      DropOneKeeps(s, id, gone);
      SessionKeeps(s, t, KindCycle);
    } else {
      OnCycleSwaps(s, id, gone, idle, cycle, c);
      SessionKeeps(s, t, KindCycle);
    }
  }

  /** A saver stage that ends, with whatever is on screen or on its way torn
      down, leaves nothing behind. */
  lemma StageEnds(s: State, t: State, active: Option<WatchId>)
    requires WatchesInv(s) && ScreenInv(s) && CountsInv(s) && !s.fatal && FreshWatch(s.mon, active)
    requires t.stage != Idle
    requires var e := EnsureActive(s, active);
      t == StopSaver(s).(stage := t.stage, period := s.period.(fires := t.period.fires), session := t.session, blanked := t.blanked,
             table := e.table, mon := e.mon, fatal := e.fatal)
    ensures WatchesInv(t) && ScreenInv(t) && CountsInv(t)
  {
    EnsureActiveKeeps(s, active);
  }

  lemma OnLockKeeps(s: State, active: Option<WatchId>)
    requires Invariant(s) && !s.fatal && FreshWatch(s.mon, active)
    ensures Invariant(OnLock(s, active))
  {
    if s.stage.Rank() < Lock.Rank() {
      StageEnds(s, OnLock(s, active), active);
      SessionKeeps(s, OnLock(s, active), KindLock);
    } else {
      DeliveredOnly(s, KindLock);
    }
  }

  lemma OnBlankKeeps(s: State, active: Option<WatchId>, written: bool)
    requires Invariant(s) && !s.fatal && FreshWatch(s.mon, active)
    ensures Invariant(OnBlank(s, active, written))
  {
    if s.stage.Rank() < Blank.Rank() {
      StageEnds(s, OnBlank(s, active, written), active);
      SessionKeeps(s, OnBlank(s, active, written), KindBlank);
    } else {
      DeliveredOnly(s, KindBlank);
    }
  }

  /** A reset undoes everything the stages did, whatever the config is now. */
  lemma ResetKeeps(s: State, written: bool)
    requires Tracked(s.table, s.mon) && ScreenInv(s) && Owned(s.blanked, s.session.idleDelay)
    ensures var t := Reset(s, written);
      && ScreenInv(t) && CountsInv(t) && SessionInv(t)
      && t.table == s.table && t.mon == s.mon && t.cfg == s.cfg && t.fatal == s.fatal
      && t.stage == Idle && !t.period.started && t.period.swaps == 0
  {
  }

  /** The table holds one watch, at its threshold and issued since `before`, for
      each of these kinds. */
  ghost predicate Holds(s: State, kinds: set<Kind>, before: map<WatchId, Watch>) {
    && Tracked(s.table, s.mon)
    && (forall id :: id in s.table.watches ==>
          id in s.mon.issued && id !in before && s.mon.issued[id] == Wanted(s.cfg, s.table.due, s.table.watches[id]))
    && (forall i, j :: i in s.table.watches && j in s.table.watches && s.table.watches[i] == s.table.watches[j] ==> i == j)
    && (forall k :: Has(s.table.watches, k) <==> k in kinds)
  }

  lemma HoldsOneMore(s: State, kinds: set<Kind>, before: map<WatchId, Watch>, kind: Kind, id: Option<WatchId>)
    requires Holds(s, kinds, before) && kind !in kinds
    requires id.Some? ==> id.value !in s.mon.issued && id.value !in before
    ensures id.Some? ==> Holds(AddIdle(s, kind, id), kinds + {kind}, before)
    ensures var t := AddIdle(s, kind, id); t == s.(table := s.table.(watches := t.table.watches), mon := t.mon)
  {
    AddIdleKeeps(s, kind, id);
  }

  /** After the saver watch, the lock and blank watches the config asks for. */
  lemma ArmRestHolds(s: State, a: Armed, before: map<WatchId, Watch>)
    requires Holds(s, {KindSaver}, before) && s.cfg.LockEnabled()
    requires ArmedOk(s.mon, a.(saver := None))
    requires (a.lock.Some? ==> a.lock.value !in before) && (a.blank.Some? ==> a.blank.value !in before)
    ensures a.lock.Some? ==>
      && Holds(AddIdle(s, KindLock, a.lock), {KindSaver, KindLock}, before)
      && (a.blank.Some? ==> Holds(AddIdle(AddIdle(s, KindLock, a.lock), KindBlank, a.blank), {KindSaver, KindLock, KindBlank}, before))
  {
    HoldsOneMore(s, {KindSaver}, before, KindLock, a.lock);
    assert {KindSaver} + {KindLock} == {KindSaver, KindLock};
    if a.lock.Some? {
      HoldsOneMore(AddIdle(s, KindLock, a.lock), {KindSaver, KindLock}, before, KindBlank, a.blank);
      assert {KindSaver, KindLock} + {KindBlank} == {KindSaver, KindLock, KindBlank};
    }
  }

  /** The kinds that are enabled. */
  function Enabled(cfg: Config): set<Kind> {
    if cfg.BlankEnabled() then {KindSaver, KindLock, KindBlank}
    else if cfg.LockEnabled() then {KindSaver, KindLock}
    else {KindSaver}
  }

  /** Arming touches the watches of the table and the monitor only. */
  lemma ArmLeaves(s: State, a: Armed)
    ensures var t := Arm(s, a).0; t == s.(table := s.table.(watches := t.table.watches), mon := t.mon)
  {
  }

  lemma RearmLeaves(s: State, gone: set<WatchId>, a: Armed)
    ensures var t := Rearm(s, gone, a); t == s.(table := t.table, mon := t.mon, fatal := t.fatal)
  {
    ArmLeaves(Drop(s, gone), a);
  }

  /** The first watch, in an empty table. */
  lemma SaverHolds(s: State, a: Armed)
    requires ArmedOk(s.mon, a) && s.mon.registered <= s.mon.stuck
    ensures var s0 := s.(table := s.table.(watches := map[]));
      && Holds(s0, {}, s.mon.issued)
      && (a.saver.Some? ==> Holds(AddIdle(s0, KindSaver, a.saver), {KindSaver}, s.mon.issued))
  {
    var s0 := s.(table := s.table.(watches := map[]));
    assert Holds(s0, {}, s.mon.issued);
    HoldsOneMore(s0, {}, s.mon.issued, KindSaver, a.saver);
    assert {} + {KindSaver} == {KindSaver};
  }

  lemma ArmHolds(s: State, a: Armed) returns (kinds: set<Kind>)
    requires ArmedOk(s.mon, a) && s.mon.registered <= s.mon.stuck
    ensures var (t, ok) := Arm(s, a);
      Holds(t, kinds, s.mon.issued) && (ok ==> kinds == Enabled(s.cfg))
  {
    var before := s.mon.issued;
    var s0 := s.(table := s.table.(watches := map[]));
    SaverHolds(s, a);
    if a.saver.None? {
      return {};
    }
    kinds := {KindSaver};
    if s.cfg.LockEnabled() && a.lock.Some? {
      ArmRestHolds(AddIdle(s0, KindSaver, a.saver), a, before);
      kinds := if s.cfg.BlankEnabled() && a.blank.Some? then {KindSaver, KindLock, KindBlank} else {KindSaver, KindLock};
    }
  }

  /** A table that holds the enabled kinds is the one the config asks for. */
  lemma EveryKindHeld(s: State, before: map<WatchId, Watch>)
    requires Holds(s, Enabled(s.cfg), before) && !s.table.activeArmed
    ensures Tabled(s) && !Has(s.table.watches, KindCycle)
  {
  }

  /** Arming fills an empty table with the watches the config asks for. */
  lemma ArmKeeps(s: State, a: Armed)
    requires ArmedOk(s.mon, a) && s.mon.registered <= s.mon.stuck && !s.table.activeArmed
    ensures var (t, ok) := Arm(s, a);
      && Tracked(t.table, t.mon)
      && (ok ==> Tabled(t) && !Has(t.table.watches, KindCycle))
      && (forall id :: id in t.table.watches ==> id !in s.mon.issued)
      && t == s.(table := t.table, mon := t.mon)
  {
    var _ := ArmHolds(s, a);
    ArmLeaves(s, a);
    var (t, ok) := Arm(s, a);
    if ok {
      EveryKindHeld(t, s.mon.issued);
    }
  }

  lemma RearmKeeps(s: State, gone: set<WatchId>, a: Armed)
    requires Tracked(s.table, s.mon) && ArmedOk(s.mon, a) && s.period.swaps == 0
    ensures var t := Rearm(s, gone, a);
      && WatchesInv(t)
      && (forall id :: id in t.table.watches ==> id !in s.mon.issued)
      && t == s.(table := t.table, mon := t.mon, fatal := t.fatal)
  {
    ArmKeeps(Drop(s, gone), a);
  }

  /** The user came back, or the config changed: everything is torn down and the
      watches are registered anew. */
  lemma StartOver(s: State, written: bool, gone: set<WatchId>, a: Armed)
    requires Tracked(s.table, s.mon) && ScreenInv(s) && Owned(s.blanked, s.session.idleDelay) && ArmedOk(s.mon, a)
    ensures Invariant(Rearm(Reset(s, written), gone, a))
  {
    ResetKeeps(s, written);
    RearmKeeps(Reset(s, written), gone, a);
  }

  lemma ReloadKeeps(s: State, cfg: Option<Config>, selectable: set<string>, written: bool, gone: set<WatchId>, a: Armed)
    requires Invariant(s) && ArmedOk(s.mon, a)
    ensures Invariant(Reload(s, cfg, selectable, written, gone, a))
  {
    if cfg.Some? && cfg.value != s.cfg {
      StartOver(s.(cfg := cfg.value, launcher := s.launcher.(selectable := selectable)), written, gone, a);
    }
  }

  /** A result nobody wants any more: the saver it brings is stopped at once. */
  lemma DiscardKeeps(s: State, l: LaunchId, outcome: Outcome, saver: SaverId, c: Choice)
    requires ScreenInv(s) && CountsInv(s) && l in s.launcher.inflight && saver !in s.savers.stops
    requires s.launcher.begun[l].gen != s.gen || s.stage.Rank() >= Lock.Rank()
    ensures var t := HandleLaunch(s, l, outcome, saver, c);
      && ScreenInv(t) && CountsInv(t)
      && t == s.(cancel := t.cancel, launcher := t.launcher, savers := t.savers)
  {
    CollectKeeps(s, l);
  }

  /** A launch that came up in its own generation. */
  lemma AdoptKeeps(s: State, l: LaunchId, saver: SaverId, c: Choice)
    requires ScreenInv(s) && CountsInv(s) && l in s.launcher.inflight && saver !in s.savers.stops
    requires s.launcher.begun[l].gen == s.gen && s.stage.Rank() < Lock.Rank()
    ensures var t := HandleLaunch(s, l, Up, saver, c);
      && ScreenInv(t) && CountsInv(t)
      && t == s.(cancel := None, launcher := t.launcher, savers := t.savers, screen := t.screen, launch := l)
      && t.screen.current == Some(saver) && l !in s.abandoned
  {
    CollectKeeps(s, l);
  }

  /** Another module is tried. */
  lemma OnceMoreKeeps(s: State, c: Choice)
    requires Launches(s) && Picks(s) && Spends(s) && Conserved(s.screen.current, s.savers.stops) && ChoiceSound(s, c)
    requires OnScreen(s.screen, s.gen, s.stage, s.period.started, s.launch, s.abandoned, s.launcher.begun)
    requires s.screen.dead ==> s.screen.current.Some? && |s.screen.names| == 1
    requires s.stage == Saver && s.period.started && s.tally.attempts < 2
    requires Capped(s.tally.monitorDeaths, s.period.replacements, s.savers.replacements)
    ensures ScreenInv(CloseUnlessReplaced(StartLaunch(s, c))) && CountsInv(CloseUnlessReplaced(StartLaunch(s, c)))
  {
    StartLaunchFlies(s, c);
    StartLaunchPicks(s, c);
    StartLaunchSpends(s, c);
    CloseDeadKeeps(StartLaunch(s, c));
  }

  /** A launch that failed in its own generation: another module is tried, or a
      dead one's windows are closed. */
  lemma RetryKeeps(s: State, l: LaunchId, retryable: bool, saver: SaverId, c: Choice)
    requires ScreenInv(s) && CountsInv(s) && l in s.launcher.inflight
    requires s.launcher.begun[l].gen == s.gen && s.stage.Rank() < Lock.Rank() && ChoiceSound(s, c)
    ensures var t := HandleLaunch(s, l, Failed(retryable), saver, c);
      && ScreenInv(t) && CountsInv(t)
      && t == s.(cancel := t.cancel, launcher := t.launcher, savers := t.savers, screen := t.screen,
                 tally := s.tally.(used := t.tally.used, attempts := t.tally.attempts))
  {
    CollectKeeps(s, l);
    var s0 := Collect(s, l);
    if retryable && s.tally.attempts < 2 {
      OnceMoreKeeps(s0, c);
    } else {
      CloseDeadKeeps(s0);
    }
  }

  lemma HandleLaunchKeeps(s: State, l: LaunchId, outcome: Outcome, saver: SaverId, c: Choice)
    requires Invariant(s) && l in s.launcher.inflight && saver !in s.savers.stops && ChoiceSound(s, c)
    ensures Invariant(HandleLaunch(s, l, outcome, saver, c))
  {
    if s.launcher.begun[l].gen != s.gen || s.stage.Rank() >= Lock.Rank() {
      DiscardKeeps(s, l, outcome, saver, c);
    } else if outcome.Up? {
      AdoptKeeps(s, l, saver, c);
    } else {
      RetryKeeps(s, l, outcome.retryable, saver, c);
    }
  }

  /** A module died on screen, the first launch that may replace it begins. */
  lemma ExitRelaunches(s: State, c: Choice)
    requires ScreenInv(s) && CountsInv(s) && s.screen.done.Some? && s.cancel.None?
             && s.tally.deaths < MAX_RELAUNCHES && ChoiceSound(s, c)
    ensures var t := StartLaunch(DeathSpent(Died(s)), c);
      && Launches(t) && Picks(t) && Spends(t)
      && OnScreen(t.screen, t.gen, t.stage, t.period.started, t.launch, t.abandoned, t.launcher.begun)
  {
    var s1 := DeathSpent(Died(s));
    StartLaunchFlies(s1, c);
    StartLaunchPicks(s1, c);
    StartLaunchSpends(s1, c);
  }

  /** A module died on screen and nothing replaces it. */
  lemma ExitCloses(s: State)
    requires ScreenInv(s) && CountsInv(s) && s.screen.done.Some? && s.cancel.None?
    ensures ScreenInv(CloseUnlessReplaced(Died(s))) && CountsInv(CloseUnlessReplaced(Died(s)))
  {
    CloseDeadKeeps(Died(s));
  }

  /** The exit of a module that may be replaced. */
  lemma ExitReplaces(s: State, c: Choice)
    requires ScreenInv(s) && CountsInv(s) && s.screen.done.Some? && s.cancel.None? && ChoiceSound(s, c)
    requires s.tally.deaths < MAX_RELAUNCHES
    ensures var t := CloseUnlessReplaced(StartLaunch(DeathSpent(Died(s)), c));
      ScreenInv(t) && CountsInv(t)
  {
    ExitRelaunches(s, c);
    CloseDeadKeeps(StartLaunch(DeathSpent(Died(s)), c));
  }

  /** What the exit of a module leaves alone. */
  lemma OnModuleExitLeaves(s: State, locked: Option<bool>, c: Choice)
    ensures var t := OnModuleExit(s, locked, c);
      t == s.(cancel := t.cancel, launcher := t.launcher, savers := t.savers, screen := t.screen,
              tally := s.tally.(used := t.tally.used, attempts := t.tally.attempts, deaths := t.tally.deaths))
  {
  }

  lemma OnModuleExitScreens(s: State, locked: Option<bool>, c: Choice)
    requires ScreenInv(s) && CountsInv(s) && s.screen.done.Some? && ChoiceSound(s, c)
    ensures ScreenInv(OnModuleExit(s, locked, c)) && CountsInv(OnModuleExit(s, locked, c))
  {
    if s.cancel.Some? {
    } else if s.tally.deaths >= MAX_RELAUNCHES || IsLocked(locked) {
      ExitCloses(s);
    } else {
      ExitReplaces(s, c);
    }
  }

  lemma OnModuleExitKeeps(s: State, locked: Option<bool>, c: Choice)
    requires Invariant(s) && s.screen.done.Some? && ChoiceSound(s, c)
    ensures Invariant(OnModuleExit(s, locked, c))
  {
    OnModuleExitScreens(s, locked, c);
    OnModuleExitLeaves(s, locked, c);
  }

  lemma CountOne(m: map<nat, nat>, k: nat, v: nat, i: nat)
    ensures Count(m[k := v], i) == (if i == k then v else Count(m, i))
  {
  }

  /** A monitor below the cap may have one more death, and one more replacement
      with it. */
  lemma CappedKeeps(monitorDeaths: map<nat, nat>, before: map<nat, nat>, replacements: map<nat, nat>, k: nat)
    requires Capped(monitorDeaths, before, replacements) && Count(monitorDeaths, k) < MAX_RELAUNCHES
    ensures var deaths := monitorDeaths[k := Count(monitorDeaths, k) + 1];
      && Capped(deaths, before, replacements)
      && Capped(deaths, before, replacements[k := Count(replacements, k) + 1])
  {
    var deaths := monitorDeaths[k := Count(monitorDeaths, k) + 1];
    var more := replacements[k := Count(replacements, k) + 1];
    forall i: nat
      ensures Count(deaths, i) <= MAX_RELAUNCHES
      ensures Count(replacements, i) <= Count(before, i) + Count(deaths, i)
      ensures Count(more, i) <= Count(before, i) + Count(deaths, i)
    {
      CountOne(monitorDeaths, k, Count(monitorDeaths, k) + 1, i);
      CountOne(replacements, k, Count(replacements, k) + 1, i);
    }
  }

  /** One attempt on one monitor is one more death of it, below the cap. */
  lemma AttemptKeeps(s: State, i: nat, t: Try)
    requires CountsInv(s) && s.cfg.DifferentPerMonitor() && !LeaveBlack(s, i)
    requires PickSound(s.launcher.selectable, s.tally.used, s.screen.names, t.name, t.used) && t.name.Some?
    ensures CountsInv(Attempt(s, i, t))
  {
    CappedKeeps(s.tally.monitorDeaths, s.period.replacements, s.savers.replacements, i);
  }

  /** Replacing one monitor's module touches the avoid list, its counts and that
      name only. */
  lemma {:induction false} OnCopyExitFrame(s: State, i: nat, tries: seq<Try>)
    ensures var t := OnCopyExit(s, i, tries);
      && |t.screen.names| == |s.screen.names|
      && t == s.(tally := s.tally.(used := t.tally.used, monitorDeaths := t.tally.monitorDeaths),
                 savers := s.savers.(replacements := t.savers.replacements),
                 screen := s.screen.(names := t.screen.names))
    decreases |tries|
  {
    if !LeaveBlack(s, i) && tries != [] && !IsLocked(tries[0].locked) && tries[0].name.Some? && !tries[0].runs {
      OnCopyExitFrame(Attempt(s, i, tries[0]), i, tries[1..]);
    }
  }

  lemma {:induction false} OnCopyExitCounts(s: State, i: nat, tries: seq<Try>)
    requires CountsInv(s) && s.cfg.DifferentPerMonitor() && TriesOk(s, i, tries)
    ensures CountsInv(OnCopyExit(s, i, tries))
    decreases |tries|
  {
    if LeaveBlack(s, i) || IsLocked(tries[0].locked) {
    } else if tries[0].name.None? {
      CappedKeeps(s.tally.monitorDeaths, s.period.replacements, s.savers.replacements, i);
    } else {
      AttemptKeeps(s, i, tries[0]);
      if !tries[0].runs {
        OnCopyExitCounts(Attempt(s, i, tries[0]), i, tries[1..]);
      }
    }
  }

  /** Every attempt so far was at a module that could not even be started, and
      together they led from s to v. */
  ghost predicate FailedSoFar(s: State, i: nat, tries: seq<Try>, v: State)
    decreases |tries|
  {
    if tries == [] then v == s
    else
      && !LeaveBlack(s, i) && !IsLocked(tries[0].locked) && TryOk(s, tries[0])
      && tries[0].name.Some? && !tries[0].runs
      && FailedSoFar(Attempt(s, i, tries[0]), i, tries[1..], v)
  }

  lemma {:induction false} FailedOnceMore(s: State, i: nat, tries: seq<Try>, v: State, t: Try)
    requires FailedSoFar(s, i, tries, v)
    requires t.name.Some? && FailedSoFar(v, i, [t], Attempt(v, i, t))
    ensures FailedSoFar(s, i, tries + [t], Attempt(v, i, t))
    decreases |tries|
  {
    if tries == [] {
      assert tries + [t] == [t];
    } else {
      FailedOnceMore(Attempt(s, i, tries[0]), i, tries[1..], v, t);
      assert (tries + [t])[1..] == tries[1..] + [t];
    }
  }

  lemma {:induction false} FailedThen(s: State, i: nat, tries: seq<Try>, v: State, rest: seq<Try>)
    requires FailedSoFar(s, i, tries, v) && TriesOk(v, i, rest)
    ensures OnCopyExit(s, i, tries + rest) == OnCopyExit(v, i, rest)
    ensures TriesOk(s, i, tries + rest)
    decreases |tries|
  {
    if tries == [] {
      assert tries + rest == rest;
    } else {
      FailedThen(Attempt(s, i, tries[0]), i, tries[1..], v, rest);
      assert (tries + rest)[1..] == tries[1..] + rest;
    }
  }

  /** No more attempts may be made. */
  lemma FailedEnough(s: State, i: nat, tries: seq<Try>, v: State)
    requires FailedSoFar(s, i, tries, v) && LeaveBlack(v, i)
    ensures OnCopyExit(s, i, tries) == v && TriesOk(s, i, tries)
  {
    FailedThen(s, i, tries, v, []);
    assert tries + [] == tries;
  }

  lemma OnCopyExitKeeps(s: State, i: nat, tries: seq<Try>)
    requires Invariant(s) && s.screen.exits.Some? && i < |s.screen.names| && TriesOk(s, i, tries)
    ensures Invariant(OnCopyExit(s, i, tries))
  {
    OnCopyExitCounts(s, i, tries);
    OnCopyExitFrame(s, i, tries);
  }

  lemma OnLockChangeKeeps(s: State, locked: bool)
    requires Invariant(s)
    ensures Invariant(OnLockChange(s, locked))
  {
  }
}
