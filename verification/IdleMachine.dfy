/** internal/daemon as a state machine over values: the state of `machine` and of
    its collaborators, and what each event makes of it, given the answers the
    collaborators gave. Module Daemon has the same machine as the class whose
    methods update it in place, each proved to do what the function here says. */
module IdleMachine {
  import opened Wrappers
  import opened Settings
  import opened Schedule
  import opened Collaborators

  /** How many modules that died on screen one idle period replaces: in all when
      every monitor shows the same one, and per monitor otherwise. */
  const MAX_RELAUNCHES: nat := 3

  datatype Stage = Idle | Saver | Lock | Blank {
    function Rank(): nat {
      match this
      case Idle => 0
      case Saver => 1
      case Lock => 2
      case Blank => 3
    }
  }

  datatype Kind = KindSaver | KindCycle | KindLock | KindBlank | KindActive

  /** What a finished launch reports: a saver, or a failure that is the module's
      own fault (and worth another module) or a cancellation. */
  datatype Outcome = Up | Failed(retryable: bool)

  // ----- what the signals delivered since the last reset call for

  function StageOf(kind: Kind): Stage {
    match kind
    case KindSaver => Saver
    case KindLock => Lock
    case KindBlank => Blank
    case KindCycle => Idle
    case KindActive => Idle
  }

  /** The furthest stage among the signals delivered. */
  function Furthest(fires: seq<Kind>): Stage {
    if fires == [] then Idle
    else
      var before := Furthest(fires[..|fires| - 1]);
      var last := StageOf(fires[|fires| - 1]);
      if last.Rank() > before.Rank() then last else before
  }

  /** The lock signal arrived before any blank signal did. */
  predicate LockCameFirst(fires: seq<Kind>) {
    if fires == [] then false
    else
      var before := fires[..|fires| - 1];
      LockCameFirst(before) || (fires[|fires| - 1] == KindLock && KindBlank !in before)
  }

  // ----- choosing modules

  function ToSet(names: seq<string>): (s: set<string>)
    ensures forall n :: n in s <==> n in names
  {
    set n | n in names
  }

  ghost predicate NoDuplicates(names: seq<string>) {
    forall i, j :: 0 <= i < j < |names| ==> names[i] != names[j]
  }

  /** What pick draws from, and what it leaves of the avoid list: the modules
      not shown yet, else those not on screen, else any not already taken, else
      any at all. */
  ghost function Draw(selectable: set<string>, used: seq<string>, shown: seq<string>,
                      also: seq<string>): (set<string>, seq<string>) {
    var free := selectable - ToSet(also);
    if free - ToSet(used) != {} then (free - ToSet(used), used)
    else if free - ToSet(shown) != {} then (free - ToSet(shown), shown)
    else if free != {} then (free, [])
    else (selectable, [])
  }

  // ----- the history of one idle period

  /** The signals delivered, whether a launch was started at all, the swaps, and
      how the collaborators' counters stood, and which launches were known, when
      the period began. */
  datatype Period = Period(
    fires: seq<Kind>,
    started: bool,
    swaps: nat,
    launches: nat,
    locks: nat,
    blanks: nat,
    replacements: map<nat, nat>,
    known: set<LaunchId>)

  // ----- the watch table

  /** Some watch of the table is of this kind. */
  ghost predicate Has(watches: map<WatchId, Kind>, kind: Kind) {
    exists id :: id in watches && watches[id] == kind
  }

  // ----- the state

  /** The watches by id, whether one of them is the user-active watch, and the
      idle time the next swap is due at. */
  datatype Table = Table(watches: map<WatchId, Kind>, activeArmed: bool, due: int)

  /** What is on screen: the saver, the module on each monitor (one name when all
      run the same one), the saver whose Done or Exits channel the event loop
      selects on, and whether it exited and waits for a replacement to land. */
  datatype Screen = Screen(
    current: Option<SaverId>,
    names: seq<string>,
    done: Option<SaverId>,
    exits: Option<SaverId>,
    dead: bool)

  const BARE := Screen(None, [], None, None, false)

  /** The avoid list and the counts of one idle period. */
  datatype Tally = Tally(used: seq<string>, attempts: nat, cycles: nat, deaths: nat, monitorDeaths: map<nat, nat>)

  const NO_TALLY := Tally([], 0, 0, 0, map[])

  /** The fields of machine, its history, and its collaborators. `launch` is the
      launch the saver on screen came from; `abandoned` holds the launches begun
      before the user came back, the config changed or a lock stopped the saver. */
  datatype State = State(
    cfg: Config,
    stage: Stage,
    gen: nat,
    cancel: Option<LaunchId>,
    blanked: bool,
    fatal: bool,
    table: Table,
    screen: Screen,
    tally: Tally,
    period: Period,
    launch: LaunchId,
    abandoned: set<LaunchId>,
    mon: MonitorState,
    launcher: LauncherState,
    savers: SaversState,
    session: SessionState)

  /** The watch each kind is registered as. */
  function Wanted(cfg: Config, due: int, kind: Kind): Watch {
    match kind
    case KindSaver => IdleFor(cfg.saverDelay)
    case KindCycle => IdleFor(due)
    case KindLock => IdleFor(LockAt(cfg))
    case KindBlank => IdleFor(BlankAt(cfg))
    case KindActive => UserActive
  }

  // ----- the collaborators' answers

  /** The ids AddIdleWatch returned while arming, when it worked. */
  datatype Armed = Armed(saver: Option<WatchId>, lock: Option<WatchId>, blank: Option<WatchId>)

  /** What choosing modules came to, the avoid list it left, whether discovery
      worked throughout, and the id of the launch if there is one. */
  datatype Choice = Choice(names: Option<seq<string>>, used: seq<string>, faultless: bool, launch: LaunchId)

  /** One attempt at replacing the module on one monitor. */
  datatype Try = Try(locked: Option<bool>, name: Option<string>, used: seq<string>, faultless: bool, runs: bool)

  predicate IsLocked(answer: Option<bool>) { answer == Some(true) }

  /** One refusal, when a watch was asked for and none was handed out. */
  function Refused(asked: bool, id: Option<WatchId>): nat {
    if asked && id.None? then 1 else 0
  }

  /** A watch for the next swap is asked for. */
  predicate SwapAsked(cfg: Config, cycles: nat, idle: Option<int>) {
    cfg.CycleEnabled() && BeforeLock(cfg, NextSwap(cfg, cycles, idle))
  }

  /** The length of a choice, given the answer of Monitors: never less than one. */
  function ModulesNeeded(cfg: Config, counted: Option<int>): nat {
    if !cfg.DifferentPerMonitor() || counted.None? || counted.value < 1 then 1 else counted.value
  }

  ghost predicate FreshWatch(mon: MonitorState, id: Option<WatchId>) {
    id.Some? ==> id.value !in mon.issued
  }

  /** The names rest were drawn one after another, each avoiding those before. */
  ghost predicate Drawn(selectable: set<string>, used: seq<string>, shown: seq<string>, also: seq<string>,
                        rest: seq<string>, left: seq<string>)
    decreases |rest|
  {
    if rest == [] then left == used
    else
      var (pool, after) := Draw(selectable, used, shown, also);
      rest[0] in pool && Drawn(selectable, after, shown, also + [rest[0]], rest[1..], left)
  }

  /** The avoid list is only ever kept, cut back to what is on screen, or
      emptied. */
  predicate AvoidList(used: seq<string>, shown: seq<string>, left: seq<string>) {
    left == used || left == shown || left == []
  }

  ghost predicate Within(names: seq<string>, pool: set<string>) {
    forall i :: 0 <= i < |names| ==> names[i] in pool
  }

  /** What pickSet always gives: names that can be selected, and an avoid list
      that does not hold the only one. */
  ghost predicate Sound(selectable: set<string>, used: seq<string>, shown: seq<string>,
                        names: Option<seq<string>>, left: seq<string>) {
    && AvoidList(used, shown, left)
    && (names.Some? ==>
          && names.value != []
          && Within(names.value, selectable)
          && (|names.value| == 1 ==> names.value[0] !in left))
  }

  /** What pickSet gives while the modules can be discovered. */
  ghost predicate Exact(selectable: set<string>, used: seq<string>, shown: seq<string>,
                        names: Option<seq<string>>, left: seq<string>) {
    if names.Some? then Drawn(selectable, used, shown, [], names.value, left) else selectable == {}
  }

  /** The choice made for a launch: one name unless each monitor has its own. */
  ghost predicate SoundChoice(cfg: Config, x: LauncherState, used: seq<string>, shown: seq<string>, c: Choice) {
    && c.launch !in x.begun
    && Sound(x.selectable, used, shown, c.names, c.used)
    && (c.names.Some? && !cfg.DifferentPerMonitor() ==> |c.names.value| == 1)
  }

  ghost predicate ExactChoice(selectable: set<string>, used: seq<string>, shown: seq<string>, c: Choice) {
    c.faultless ==> Exact(selectable, used, shown, c.names, c.used)
  }

  ghost predicate ChoiceSound(s: State, c: Choice) {
    SoundChoice(s.cfg, s.launcher, s.tally.used, s.screen.names, c)
  }

  ghost predicate ChoiceOk(s: State, c: Choice) {
    ChoiceSound(s, c) && ExactChoice(s.launcher.selectable, s.tally.used, s.screen.names, c)
  }

  /** What pick always gives. */
  ghost predicate PickSound(selectable: set<string>, used: seq<string>, shown: seq<string>, name: Option<string>,
                          left: seq<string>) {
    && AvoidList(used, shown, left)
    && (name.Some? ==> name.value in selectable && name.value !in left)
  }

  /** What pick gives while the modules can be discovered. */
  ghost predicate PickExact(selectable: set<string>, used: seq<string>, shown: seq<string>, also: seq<string>,
                          name: Option<string>, left: seq<string>) {
    var (pool, after) := Draw(selectable, used, shown, also);
    && left == after
    && (name.Some? <==> selectable != {})
    && (name.Some? ==> name.value in pool)
  }

  ghost predicate TryOk(s: State, t: Try) {
    && PickSound(s.launcher.selectable, s.tally.used, s.screen.names, t.name, t.used)
    && (t.faultless ==> PickExact(s.launcher.selectable, s.tally.used, s.screen.names, s.screen.names, t.name, t.used))
  }

  // ----- watches

  /** The table and the monitor after AddIdleWatch. */
  function AddIdle(s: State, kind: Kind, id: Option<WatchId>): State {
    match id
    case None => s
    case Some(i) => s.(
      table := s.table.(watches := s.table.watches[i := kind]),
      mon := s.mon.(
        issued := s.mon.issued[i := Wanted(s.cfg, s.table.due, kind)],
        registered := s.mon.registered + {i}))
  }

  /** The state after arm, and whether every watch could be registered. */
  function Arm(s: State, a: Armed): (State, bool) {
    var s0 := s.(table := s.table.(watches := map[]));
    if a.saver.None? then (s0, false) else
    var s1 := AddIdle(s0, KindSaver, a.saver);
    if s.cfg.LockEnabled() && a.lock.None? then (s1, false) else
    var s2 := if s.cfg.LockEnabled() then AddIdle(s1, KindLock, a.lock) else s1;
    if s.cfg.BlankEnabled() && a.blank.None? then (s2, false) else
    (if s.cfg.BlankEnabled() then AddIdle(s2, KindBlank, a.blank) else s2, true)
  }

  ghost predicate ArmedOk(mon: MonitorState, a: Armed) {
    && FreshWatch(mon, a.saver) && FreshWatch(mon, a.lock) && FreshWatch(mon, a.blank)
    && (a.lock.Some? ==> a.lock != a.saver)
    && (a.blank.Some? ==> a.blank != a.saver && a.blank != a.lock)
  }

  /** Asks for every watch to be removed; it works for those in `gone`. */
  function Drop(s: State, gone: set<WatchId>): State {
    s.(
      table := s.table.(activeArmed := false),
      mon := s.mon.(
        registered := s.mon.registered - (s.table.watches.Keys * gone),
        stuck := s.mon.stuck + (s.table.watches.Keys - gone)))
  }

  /** Drop and then Arm, whose failure is noted as fatal. */
  function Rearm(s: State, gone: set<WatchId>, a: Armed): State {
    var (armed, ok) := Arm(Drop(s, gone), a);
    armed.(fatal := s.fatal || !ok)
  }

  /** Nothing while `activeArmed` holds; otherwise the watch is added, or its
      refusal is fatal in a config without a lock stage. */
  function EnsureActive(s: State, id: Option<WatchId>): State {
    if s.table.activeArmed then s
    else match id
      case None => s.(fatal := s.fatal || !s.cfg.LockEnabled())
      case Some(i) => s.(
        table := s.table.(watches := s.table.watches[i := KindActive], activeArmed := true),
        mon := s.mon.(issued := s.mon.issued[i := UserActive], registered := s.mon.registered + {i}))
  }

  /** The counter and the due time move to swap n; a watch is added for it only
      ahead of the lock. */
  function ArmCycle(s: State, idle: Option<int>, id: Option<WatchId>): State {
    if !s.cfg.CycleEnabled() then s else
    var n := NextSwap(s.cfg, s.tally.cycles, idle);
    var counted := s.(tally := s.tally.(cycles := n - 1), table := s.table.(due := SwapAt(s.cfg, n)));
    if BeforeLock(s.cfg, n) then AddIdle(counted, KindCycle, id) else counted
  }

  // ----- launching and teardown

  /** The launch of these modules is in flight, and it is the one a teardown would
      cancel. */
  function Begun(s: State, names: seq<string>, l: LaunchId): State {
    s.(
      tally := s.tally.(used := s.tally.used + names, attempts := s.tally.attempts + 1),
      cancel := Some(l),
      launcher := s.launcher.(
        begun := s.launcher.begun[l := Launch(s.gen, names)],
        inflight := s.launcher.inflight + {l},
        launches := s.launcher.launches + 1))
  }

  function StartLaunch(s: State, c: Choice): State {
    var chosen := s.(tally := s.tally.(used := c.used));
    if c.names.None? || (s.screen.current.Some? && !s.screen.dead && c.names.value == s.screen.names) then chosen
    else Begun(chosen, c.names.value, c.launch)
  }

  function Stopped(stops: map<SaverId, nat>, saver: Option<SaverId>): map<SaverId, nat> {
    if saver.Some? then stops[saver.value := Count(stops, saver.value) + 1] else stops
  }

  /** The stored launch is marked as cancelled, the saver on screen has one stop
      more, and neither is referred to any longer. */
  function StopSaver(s: State): State {
    s.(
      launcher := s.launcher.(cancelled := if s.cancel.Some? then s.launcher.cancelled + {s.cancel.value} else s.launcher.cancelled),
      savers := s.savers.(stops := Stopped(s.savers.stops, s.screen.current)),
      cancel := None,
      screen := BARE)
  }

  /** Nothing begun before may reach the screen any more. */
  function Abandon(s: State): State {
    StopSaver(s).(gen := s.gen + 1, abandoned := s.launcher.begun.Keys)
  }

  /** Stage, tally and period start afresh over the collaborators as they stand;
      `written` says whether idle-delay could be set back. */
  function Reset(s: State, written: bool): State {
    var unblank := s.blanked && written;
    Abandon(s).(
      session := s.session.(idleDelay := if unblank then 0 else s.session.idleDelay),
      blanked := s.blanked && !unblank,
      stage := Idle,
      tally := NO_TALLY,
      period := Period([], false, 0, s.launcher.launches, s.session.locks, s.session.blanks, s.savers.replacements,
        s.launcher.begun.Keys))
  }

  /** A screen marked dead becomes bare but for its channels, at the price of one
      stop; any other is left as it is. */
  function CloseDead(s: State): State {
    if !s.screen.dead then s
    else s.(
      screen := s.screen.(dead := false, current := None, names := []),
      savers := s.savers.(stops := Stopped(s.savers.stops, s.screen.current)))
  }

  function CloseUnlessReplaced(s: State): State {
    if s.cancel.None? then CloseDead(s) else s
  }

  function Deliver(s: State, kind: Kind): State {
    s.(period := s.period.(fires := s.period.fires + [kind]))
  }

  // ----- one function per event

  function OnSaver(s: State, active: Option<WatchId>, locked: Option<bool>, idle: Option<int>,
                   cycle: Option<WatchId>, c: Choice): State {
    var s0 := Deliver(s, KindSaver);
    if s.stage.Rank() >= Saver.Rank() then s0 else
    var s1 := EnsureActive(s0.(stage := Saver), active);
    if IsLocked(locked) then s1 else
    var s2 := s1.(period := s1.period.(started := true));
    StartLaunch(ArmCycle(s2, idle, cycle), c)
  }

  /** The swap watch that fired is dropped before its successor is armed. */
  function DropOne(s: State, id: WatchId, gone: bool): State {
    s.(
      table := s.table.(watches := s.table.watches - {id}),
      mon := if gone then s.mon.(registered := s.mon.registered - {id}) else s.mon.(stuck := s.mon.stuck + {id}))
  }

  /** One swap more, with a fresh pair of launches to spend. */
  function SwapCounted(s: State): State {
    s.(tally := s.tally.(cycles := s.tally.cycles + 1, attempts := 0), period := s.period.(swaps := s.period.swaps + 1))
  }

  function OnCycle(s: State, id: WatchId, gone: bool, locked: Option<bool>, idle: Option<int>,
                   cycle: Option<WatchId>, c: Choice): State {
    var s0 := DropOne(Deliver(s, KindCycle), id, gone);
    if s.stage != Saver || IsLocked(locked) then s0 else
    StartLaunch(ArmCycle(SwapCounted(s0), idle, cycle), c)
  }

  function OnLock(s: State, active: Option<WatchId>): State {
    var s0 := Deliver(s, KindLock);
    if s.stage.Rank() >= Lock.Rank() then s0 else
    StopSaver(EnsureActive(s0.(stage := Lock), active)).(session := s.session.(locks := s.session.locks + 1))
  }

  function OnBlank(s: State, active: Option<WatchId>, written: bool): State {
    var s0 := Deliver(s, KindBlank);
    if s.stage.Rank() >= Blank.Rank() then s0 else
    StopSaver(EnsureActive(s0.(stage := Blank), active)).(
      session := s.session.(
        blanks := s.session.blanks + 1,
        idleDelay := if written then BLANK_IDLE_DELAY else s.session.idleDelay),
      blanked := s.blanked || written)
  }

  function OnActive(s: State, written: bool, gone: set<WatchId>, a: Armed): State {
    Rearm(Reset(s, written), gone, a)
  }

  /** The state itself unless there is a config and it differs from the one held. */
  function Reload(s: State, cfg: Option<Config>, selectable: set<string>, written: bool, gone: set<WatchId>, a: Armed): State {
    if cfg.None? || cfg.value == s.cfg then s
    else Rearm(Reset(s.(cfg := cfg.value, launcher := s.launcher.(selectable := selectable)), written), gone, a)
  }

  /** The result of launch l has arrived: its own context is released, and it is
      no longer the one a teardown would cancel. */
  function Collect(s: State, l: LaunchId): State
    requires l in s.launcher.begun
  {
    s.(
      launcher := s.launcher.(inflight := s.launcher.inflight - {l}, cancelled := s.launcher.cancelled + {l}),
      cancel := if s.launcher.begun[l].gen == s.gen then None else s.cancel)
  }

  /** The saver of launch l is on screen, and the one before it has one stop more. */
  function Adopt(s: State, l: LaunchId, saver: SaverId): State
    requires l in s.launcher.begun
  {
    var names := s.launcher.begun[l].names;
    s.(
      savers := s.savers.(stops := Stopped(s.savers.stops, s.screen.current)),
      screen := Screen(Some(saver), names,
        if |names| > 1 then None else Some(saver),
        if |names| > 1 then Some(saver) else None, false),
      launch := l)
  }

  /** `wanted` is decided before anything changes: l is of this generation and the
      stage is before the lock. */
  function HandleLaunch(s: State, l: LaunchId, outcome: Outcome, saver: SaverId, c: Choice): State
    requires l in s.launcher.begun
  {
    var s0 := Collect(s, l);
    var wanted := s.launcher.begun[l].gen == s.gen && s.stage.Rank() < Lock.Rank();
    match outcome
    case Up =>
      var s1 := s0.(savers := s.savers.(stops := s.savers.stops[saver := 0]));
      if wanted then Adopt(s1, l, saver)
      else s1.(savers := s1.savers.(stops := Stopped(s1.savers.stops, Some(saver))))
    case Failed(retryable) =>
      if !wanted then s0 else
      var s1 := if retryable && s.tally.attempts < 2 then StartLaunch(s0, c) else s0;
      CloseUnlessReplaced(s1)
  }

  /** The saver is kept, marked dead, and its Done channel is let go of. */
  function Died(s: State): State {
    s.(screen := s.screen.(done := None, dead := true))
  }

  /** One of the replacements an idle period allows is used up. */
  function DeathSpent(s: State): State {
    s.(tally := s.tally.(deaths := s.tally.deaths + 1, attempts := 0))
  }

  function OnModuleExit(s: State, locked: Option<bool>, c: Choice): State {
    if s.stage == Saver && s.cancel.Some? then Died(s)
    else if s.stage != Saver || s.tally.deaths >= MAX_RELAUNCHES || IsLocked(locked) then CloseUnlessReplaced(Died(s))
    else CloseUnlessReplaced(StartLaunch(DeathSpent(Died(s)), c))
  }

  /** No replacement is made on monitor i. */
  predicate LeaveBlack(s: State, i: nat) {
    s.stage != Saver || s.cancel.Some? || Count(s.tally.monitorDeaths, i) >= MAX_RELAUNCHES
  }

  /** A replacement was picked for monitor i and Replace was called. */
  function Attempt(s: State, i: nat, t: Try): State
    requires t.name.Some?
  {
    s.(
      tally := s.tally.(
        monitorDeaths := s.tally.monitorDeaths[i := Count(s.tally.monitorDeaths, i) + 1],
        used := t.used + [t.name.value]),
      savers := s.savers.(replacements := s.savers.replacements[i := Count(s.savers.replacements, i) + 1]))
  }

  /** The attempts in turn, until one runs, one may not be made or none is left. */
  function OnCopyExit(s: State, i: nat, tries: seq<Try>): State
    decreases |tries|
  {
    if LeaveBlack(s, i) || tries == [] || IsLocked(tries[0].locked) then s
    else
      var t := tries[0];
      if t.name.None? then
        s.(tally := s.tally.(
          monitorDeaths := s.tally.monitorDeaths[i := Count(s.tally.monitorDeaths, i) + 1],
          used := t.used))
      else if !t.runs then OnCopyExit(Attempt(s, i, t), i, tries[1..])
      else if i < |s.screen.names| then
        Attempt(s, i, t).(screen := s.screen.(names := s.screen.names[i := t.name.value]))
      else Attempt(s, i, t)
  }

  function OnLockChange(s: State, locked: bool): State {
    if !locked || s.stage != Saver || (s.screen.current.None? && s.cancel.None?) then s
    else Abandon(s)
  }

  /** The teardown when Run returns. At most one launch has its result waiting. */
  function Shutdown(s: State, queued: Option<LaunchId>, outcome: Outcome, saver: SaverId): State {
    var s0 := Abandon(s);
    if queued.None? then s0
    else s0.(
      launcher := s0.launcher.(inflight := s0.launcher.inflight - {queued.value}),
      savers := if outcome.Up? then s0.savers.(stops := s0.savers.stops[saver := 1]) else s0.savers)
  }

  // ----- runs

  /** Everything the collaborators may be asked while a watch signal is handled. */
  datatype Answers = Answers(
    active: Option<WatchId>,
    locked: Option<bool>,
    idle: Option<int>,
    cycle: Option<WatchId>,
    choice: Choice,
    written: bool,
    gone: set<WatchId>,
    armed: Armed)

  datatype Event =
    | WatchFired(id: WatchId, answers: Answers)
    | LaunchDone(l: LaunchId, outcome: Outcome, saver: SaverId, choice: Choice)
    | ModuleExited(locked: Option<bool>, choice: Choice)
    | CopyExited(monitor: nat, tries: seq<Try>)
    | LockChanged(lockedNow: bool)
    | Reloaded(cfg: Option<Config>, selectable: set<string>, written: bool, gone: set<WatchId>, armed: Armed)

  /** A signal for an id the table does not hold is ignored. */
  function HandleWatch(s: State, id: WatchId, a: Answers): State {
    if id !in s.table.watches then s
    else match s.table.watches[id]
      case KindSaver => OnSaver(s, a.active, a.locked, a.idle, a.cycle, a.choice)
      case KindCycle => OnCycle(s, id, id in a.gone, a.locked, a.idle, a.cycle, a.choice)
      case KindLock => OnLock(s, a.active)
      case KindBlank => OnBlank(s, a.active, a.written)
      case KindActive => OnActive(s, a.written, a.gone, a.armed)
  }

  function Step(s: State, e: Event): State
    requires e.LaunchDone? ==> e.l in s.launcher.begun
  {
    match e
    case WatchFired(id, a) => HandleWatch(s, id, a)
    case LaunchDone(l, outcome, saver, c) => HandleLaunch(s, l, outcome, saver, c)
    case ModuleExited(locked, c) => OnModuleExit(s, locked, c)
    case CopyExited(i, tries) => OnCopyExit(s, i, tries)
    case LockChanged(locked) => OnLockChange(s, locked)
    case Reloaded(cfg, selectable, written, gone, armed) => Reload(s, cfg, selectable, written, gone, armed)
  }

  ghost predicate SwapWatchOk(mon: MonitorState, active: Option<WatchId>, cycle: Option<WatchId>) {
    && FreshWatch(mon, active) && FreshWatch(mon, cycle)
    && (cycle.Some? ==> cycle != active)
  }

  ghost predicate AnswersOk(s: State, a: Answers) {
    && SwapWatchOk(s.mon, a.active, a.cycle)
    && ChoiceOk(s, a.choice)
    && ArmedOk(s.mon, a.armed)
  }

  /** One answer per attempt, for as many attempts as are made. */
  ghost predicate TriesOk(s: State, i: nat, tries: seq<Try>)
    decreases |tries|
  {
    LeaveBlack(s, i) || (
      && tries != []
      && (IsLocked(tries[0].locked) || (
            && TryOk(s, tries[0])
            && (tries[0].name.Some? && !tries[0].runs ==> TriesOk(Attempt(s, i, tries[0]), i, tries[1..])))))
  }

  /** The event loop can take e now: it is still running, a launch reports once,
      a channel is selected on only while it is set, and an exit names one of
      the monitors that have a module. */
  ghost predicate Possible(s: State, e: Event) {
    && !s.fatal
    && match e
       case WatchFired(_, a) => AnswersOk(s, a)
       case LaunchDone(l, _, saver, c) =>
         l in s.launcher.inflight && l in s.launcher.begun && saver !in s.savers.stops && ChoiceOk(s, c)
       case ModuleExited(_, c) => s.screen.done.Some? && ChoiceOk(s, c)
       case CopyExited(i, tries) => s.screen.exits.Some? && i < |s.screen.names| && TriesOk(s, i, tries)
       case LockChanged(_) => true
       case Reloaded(_, _, _, _, armed) => ArmedOk(s.mon, armed)
  }

  /** run is a run of the machine: each state follows from the one before by a
      possible event. */
  ghost predicate IsRun(run: seq<State>, events: seq<Event>) {
    && |run| == |events| + 1
    && forall k :: 0 <= k < |events| ==> Possible(run[k], events[k]) && run[k + 1] == Step(run[k], events[k])
  }

  /** A new machine over collaborators of which nothing has been asked but to set
      idle-delay to 0. */
  function New(cfg: Config, mon: MonitorState, selectable: set<string>, session: SessionState): State {
    State(cfg, Idle, 0, None, false, false, Table(map[], false, 0), BARE, NO_TALLY,
      Period([], false, 0, 0, session.locks, session.blanks, map[], {}), 0, {},
      mon, LauncherState(selectable, map[], {}, {}, 0), SaversState(map[], map[]), session)
  }

  /** s is a machine that has just armed its first watches. */
  ghost predicate Initial(s: State) {
    exists cfg: Config, mon: MonitorState, selectable: set<string>, session: SessionState, a: Armed ::
      && mon.registered == {} && session.idleDelay == 0 && ArmedOk(mon, a)
      && Arm(New(cfg, mon, selectable, session), a) == (s, true)
  }
}
