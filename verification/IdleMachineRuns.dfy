/** Runs of the idle machine that show what it does not promise. */
module IdleMachineRuns {
  import opened Wrappers
  import opened Settings
  import opened Collaborators
  import opened IdleMachine
  import opened IdleMachineProofs
  import opened IdleMachineFairness

  /** A machine with the default delays that has armed its first watches. */
  const FIRST: State := State(Defaults(), Idle, 0, None, false, false,
    Table(map[0 := KindSaver, 1 := KindLock, 2 := KindBlank], false, 0), BARE, NO_TALLY,
    Period([], false, 0, 0, 0, 0, map[], {}), 0, {},
    MonitorState(map[0 := IdleFor(300 * SECOND), 1 := IdleFor(1200 * SECOND), 2 := IdleFor(1320 * SECOND)], {0, 1, 2}, {}),
    LauncherState({"a", "b"}, map[], {}, {}, 0), SaversState(map[], map[]), SessionState(0, 0, 0))

  lemma FirstIsInitial()
    ensures Initial(FIRST)
  {
    var mon, session, a := MonitorState(map[], {}, {}), SessionState(0, 0, 0), Armed(Some(0), Some(1), Some(2));
    var (s, ok) := Arm(New(Defaults(), mon, {"a", "b"}, session), a);
    assert s.table.watches == FIRST.table.watches;
    assert s.mon.issued == FIRST.mon.issued;
    assert s.mon.registered == FIRST.mon.registered;
    assert ArmedOk(mon, a) && (s, ok) == (FIRST, true);
  }

  /** The answers to a signal that begins a launch, of this module after those
      shown before. */
  function Launching(active: Option<WatchId>, cycle: WatchId, gone: set<WatchId>, name: string, used: seq<string>, l: LaunchId): Answers {
    Answers(active, Some(false), None, Some(cycle), Choice(Some([name]), used, true, l), false, gone, Armed(None, None, None))
  }

  lemma OneChoice(s: State, name: string, l: LaunchId)
    requires s.launcher.selectable == {"a", "b"} && name in {"a", "b"} && name !in s.tally.used && l !in s.launcher.begun
    ensures ChoiceOk(s, Choice(Some([name]), s.tally.used, true, l))
  {
    var free := s.launcher.selectable - ToSet([]);
    assert free == s.launcher.selectable;
    assert name in free - ToSet(s.tally.used);
    assert [name][1..] == [];
    assert Drawn(s.launcher.selectable, s.tally.used, s.screen.names, [], [name], s.tally.used);
  }

  const ONE: map<LaunchId, Launch> := map[1 := Launch(0, ["a"])]
  const TWO: map<LaunchId, Launch> := map[1 := Launch(0, ["a"]), 2 := Launch(0, ["b"])]

  /** The saver stage, with these launches, what is stored and shown, and the next
      swap at watch w, the last id handed out. */
  ghost predicate Slideshow(s: State, launcher: LauncherState, cancel: Option<LaunchId>, used: seq<string>, w: WatchId) {
    && s.cfg == Defaults() && !s.fatal && s.stage == Saver && s.gen == 0
    && s.launcher == launcher && s.cancel == cancel && s.tally.used == used && s.tally.deaths == 0
    && s.tally.cycles == w - 4
    && w in s.table.watches && s.table.watches[w] == KindCycle && (forall x :: x in s.mon.issued ==> x <= w)
    && s.table.activeArmed
  }

  lemma SwapArmed(s: State, w: WatchId)
    requires s.cfg == Defaults() && 0 <= s.tally.cycles <= 1
    ensures ArmCycle(s, None, Some(w)) ==
      AddIdle(s.(table := s.table.(due := (600 + s.tally.cycles * 300) * SECOND)), KindCycle, Some(w))
  {
  }

  lemma ActiveArmed(s: State)
    requires s == FIRST
    ensures var t := EnsureActive(Deliver(s, KindSaver).(stage := Saver), Some(3));
      && t == s.(stage := Saver, period := s.period.(fires := [KindSaver]), table := t.table, mon := t.mon)
      && t.table == Table(s.table.watches[3 := KindActive], true, 0)
      && t.mon.issued.Keys == {0, 1, 2, 3}
  {
  }

  lemma FirstSwapArmed() returns (t: State)
    ensures t == SaverBegun(FIRST, Some(3), None, Some(4))
    ensures Slideshow(t, LauncherState({"a", "b"}, map[], {}, {}, 0), None, [], 4)
    ensures t.screen == BARE && t.savers.stops == map[]
  {
    ActiveArmed(FIRST);
    var s1 := EnsureActive(Deliver(FIRST, KindSaver).(stage := Saver), Some(3));
    SwapArmed(s1.(period := s1.period.(started := true)), 4);
    t := SaverBegun(FIRST, Some(3), None, Some(4));
  }

  lemma FirstPossible(a: Answers)
    requires a == Launching(Some(3), 4, {}, "a", [], 1)
    ensures Possible(FIRST, WatchFired(0, a))
    ensures Step(FIRST, WatchFired(0, a)) == StartLaunch(SaverBegun(FIRST, Some(3), None, Some(4)), a.choice)
  {
    OneChoice(FIRST, "a", 1);
  }

  /** s goes on to t by e. */
  ghost predicate Leads(s: State, e: Event, t: State) {
    Possible(s, e) && t == Step(s, e)
  }

  lemma FirstLaunch() returns (e: Event, t: State)
    ensures Leads(FIRST, e, t)
    ensures Slideshow(t, LauncherState({"a", "b"}, ONE, {1}, {}, 1), Some(1), ["a"], 4)
    ensures t.screen == BARE && t.savers.stops == map[]
  {
    var a := Launching(Some(3), 4, {}, "a", [], 1);
    FirstPossible(a);
    var s := FirstSwapArmed();
    e, t := WatchFired(0, a), StartLaunch(s, a.choice);
    assert [] + ["a"] == ["a"];
  }

  /** A swap begins launch 2 while launch 1 is on its way. */
  lemma SecondLaunch(s: State) returns (e: Event, t: State)
    requires Slideshow(s, LauncherState({"a", "b"}, ONE, {1}, {}, 1), Some(1), ["a"], 4) && s.screen == BARE && s.savers.stops == map[]
    ensures Leads(s, e, t)
    ensures Slideshow(t, LauncherState({"a", "b"}, TWO, {1, 2}, {}, 2), Some(2), ["a", "b"], 5)
    ensures t.screen == BARE && t.savers.stops == map[]
  {
    OneChoice(s, "b", 2);
    e := WatchFired(4, Launching(None, 5, {4}, "b", ["a"], 2));
    t := Step(s, e);
    SwapArmed(SwapBegun(s, 4, true), 5);
    assert ["a"] + ["b"] == ["a", "b"];
  }

  /** Launch 1 comes up, and its result clears the cancel function of launch 2. */
  lemma FirstUp(s: State) returns (e: Event, t: State)
    requires Slideshow(s, LauncherState({"a", "b"}, TWO, {1, 2}, {}, 2), Some(2), ["a", "b"], 5) && s.screen == BARE && s.savers.stops == map[]
    ensures Leads(s, e, t)
    ensures Slideshow(t, LauncherState({"a", "b"}, TWO, {2}, {1}, 2), None, ["a", "b"], 5)
    ensures t.screen == Screen(Some(0), ["a"], Some(0), None, false) && t.savers.stops == map[0 := 0]
  {
    e := LaunchDone(1, Up, 0, Choice(None, ["a", "b"], false, 3));
    t := Step(s, e);
  }

  /** Its module exits, which nothing replaces behind a lock. */
  lemma FirstExits(s: State) returns (e: Event, t: State)
    requires Slideshow(s, LauncherState({"a", "b"}, TWO, {2}, {1}, 2), None, ["a", "b"], 5)
    requires s.screen == Screen(Some(0), ["a"], Some(0), None, false) && s.savers.stops == map[0 := 0]
    ensures Leads(s, e, t)
    ensures Slideshow(t, LauncherState({"a", "b"}, TWO, {2}, {1}, 2), None, ["a", "b"], 5)
    ensures t.screen == BARE && t.savers.stops == map[0 := 1]
  {
    e := ModuleExited(Some(true), Choice(None, ["a", "b"], false, 3));
    t := Step(s, e);
  }

  /** A lock then finds nothing to stop, and launch 2 comes on screen behind it. */
  lemma SecondShows(s: State) returns (e: Event, t: State)
    requires Slideshow(s, LauncherState({"a", "b"}, TWO, {2}, {1}, 2), None, ["a", "b"], 5)
    requires s.screen == BARE && s.savers.stops == map[0 := 1]
    ensures Leads(s, LockChanged(true), s) && Leads(s, e, t)
    ensures t.screen.current.Some? && t.launch == 2
  {
    e := LaunchDone(2, Up, 1, Choice(None, ["a", "b"], false, 3));
    t := Step(s, e);
  }

  lemma {:induction false} LeadsOn(run: seq<State>, events: seq<Event>, e: Event, t: State)
    requires IsRun(run, events) && Leads(run[|events|], e, t)
    ensures IsRun(run + [t], events + [e])
  {
  }

  lemma TwoLaunches() returns (run: seq<State>, events: seq<Event>)
    ensures IsRun(run, events) && run[0] == FIRST && |events| == 2
    ensures var s := run[2];
      && Slideshow(s, LauncherState({"a", "b"}, TWO, {1, 2}, {}, 2), Some(2), ["a", "b"], 5)
      && s.screen == BARE && s.savers.stops == map[]
  {
    var e0, s1 := FirstLaunch();
    var e1, s2 := SecondLaunch(s1);
    LeadsOn([FIRST], [], e0, s1);
    LeadsOn([FIRST, s1], [e0], e1, s2);
    run, events := [FIRST, s1, s2], [e0, e1];
  }

  /** Up to where one launch is left that nothing can stop. */
  lemma Overtaken() returns (run: seq<State>, events: seq<Event>)
    ensures IsRun(run, events) && run[0] == FIRST && |events| == 4
    ensures var s := run[4];
      && Slideshow(s, LauncherState({"a", "b"}, TWO, {2}, {1}, 2), None, ["a", "b"], 5)
      && s.screen == BARE && s.savers.stops == map[0 := 1]
  {
    run, events := TwoLaunches();
    var e2, s3 := FirstUp(run[2]);
    var e3, s4 := FirstExits(s3);
    LeadsOn(run, events, e2, s3);
    LeadsOn(run + [s3], events + [e2], e3, s4);
    run, events := run + [s3] + [s4], events + [e2] + [e3];
  }

  /** In this run a launch begun before a lock is shown behind it, neither stopped
      nor cancelled, in the generation the lock found. */
  lemma ALockCanMissALaunch() returns (run: seq<State>, events: seq<Event>)
    ensures IsRun(run, events) && Initial(run[0]) && |events| == 6
    ensures run[4].stage == Saver && run[4].launcher.inflight == {2} && 2 !in run[4].launcher.cancelled
    ensures events[4] == LockChanged(true) && run[5] == run[4]
    ensures run[6].screen.current.Some? && run[6].launch == 2
  {
    FirstIsInitial();
    run, events := Overtaken();
    var s := run[4];
    var e, t := SecondShows(s);
    LeadsOn(run, events, LockChanged(true), s);
    LeadsOn(run + [s], events + [LockChanged(true)], e, t);
    run, events := run + [s] + [t], events + [LockChanged(true)] + [e];
  }

  lemma BlanksFirst() returns (e: Event, t: State)
    ensures Leads(FIRST, e, t)
    ensures t.stage == Blank && t.period.fires == [KindBlank] && t.session.locks == t.period.locks == 0
    ensures t.cfg == Defaults() && !t.fatal && 1 in t.table.watches && t.table.watches[1] == KindLock
    ensures t.launcher.begun == map[] && t.tally.used == []
  {
    e := WatchFired(2, Answers(Some(3), None, None, None, Choice(None, [], false, 0), true, {}, Armed(None, None, None)));
    t := Step(FIRST, e);
  }

  lemma ThenLocks(s: State) returns (e: Event, t: State)
    requires s.stage == Blank && !s.fatal && 1 in s.table.watches && s.table.watches[1] == KindLock
    requires s.launcher.begun == map[] && s.tally.used == []
    ensures Leads(s, e, t) && t == Deliver(s, KindLock)
  {
    e := WatchFired(1, Answers(None, None, None, None, Choice(None, [], false, 0), true, {}, Armed(None, None, None)));
    t := Step(s, e);
  }

  /** In this run the blank signal comes before the lock signal, and the session
      is never locked. */
  lemma BlankingFirstSkipsTheLock() returns (run: seq<State>, events: seq<Event>)
    ensures IsRun(run, events) && Initial(run[0]) && |events| == 2
    ensures run[2].cfg.LockEnabled() && run[2].period.fires == [KindBlank, KindLock]
    ensures run[2].session.locks == run[2].period.locks == 0 && run[2].stage == Blank
  {
    FirstIsInitial();
    var e0, s1 := BlanksFirst();
    var e1, s2 := ThenLocks(s1);
    LeadsOn([FIRST], [], e0, s1);
    LeadsOn([FIRST, s1], [e0], e1, s2);
    run, events := [FIRST, s1, s2], [e0, e1];
  }

  // ----- more monitors than names

  /** A module for each monitor, and neither locking nor swaps. */
  const APART: Config := Config(300 * SECOND, 0, 0, 0, Different, [], [])

  const FIRST_APART: State := State(APART, Idle, 0, None, false, false,
    Table(map[0 := KindSaver], false, 0), BARE, NO_TALLY, Period([], false, 0, 0, 0, 0, map[], {}), 0, {},
    MonitorState(map[0 := IdleFor(300 * SECOND)], {0}, {}),
    LauncherState({"a", "b"}, map[], {}, {}, 0), SaversState(map[], map[]), SessionState(0, 0, 0))

  lemma FirstApartIsInitial()
    ensures Initial(FIRST_APART)
  {
    var mon, session, a := MonitorState(map[], {}, {}), SessionState(0, 0, 0), Armed(Some(0), None, None);
    var (s, ok) := Arm(New(APART, mon, {"a", "b"}, session), a);
    assert s.mon.issued == FIRST_APART.mon.issued && s.mon.registered == FIRST_APART.mon.registered;
    assert ArmedOk(mon, a) && (s, ok) == (FIRST_APART, true);
  }

  lemma TwoDrawn()
    ensures Drawn({"a", "b"}, [], [], [], ["a", "b"], [])
  {
    var all := {"a", "b"};
    assert all - ToSet([]) - ToSet([]) == all;
    assert ToSet(["a"]) == {"a"} && all - {"a"} - ToSet([]) == {"b"};
    assert [] + ["a"] == ["a"] && ["a", "b"][1..] == ["b"] && ["b"][1..] == [];
    assert Drawn(all, [], [], ["a"] + ["b"], [], []);
    assert Drawn(all, [], [], ["a"], ["b"], []);
  }

  lemma LaunchesApart() returns (e: Event, t: State)
    ensures Leads(FIRST_APART, e, t)
    ensures t.stage == Saver && t.gen == 0 && !t.fatal && t.cancel == Some(0) && t.screen == BARE && t.tally.used == ["a", "b"]
    ensures t.tally.monitorDeaths == map[] && t.savers.stops == map[]
    ensures t.launcher == LauncherState({"a", "b"}, map[0 := Launch(0, ["a", "b"])], {0}, {}, 1)
  {
    TwoDrawn();
    var c := Choice(Some(["a", "b"]), [], true, 0);
    e := WatchFired(0, Answers(Some(1), Some(false), None, None, c, false, {}, Armed(None, None, None)));
    t := Step(FIRST_APART, e);
    assert [] + ["a", "b"] == ["a", "b"];
  }

  lemma UpApart(s: State) returns (e: Event, t: State)
    requires s.stage == Saver && s.gen == 0 && !s.fatal && s.screen == BARE && s.savers.stops == map[] && s.tally.monitorDeaths == map[]
    requires s.launcher == LauncherState({"a", "b"}, map[0 := Launch(0, ["a", "b"])], {0}, {}, 1)
    ensures Leads(s, e, t)
    ensures t.screen == Screen(Some(0), ["a", "b"], None, Some(0), false) && t.stage == Saver && t.cancel == None
    ensures t.tally.monitorDeaths == map[] && t.launcher.selectable == {"a", "b"}
  {
    e := LaunchDone(0, Up, 0, Choice(None, s.tally.used, false, 1));
    t := Step(s, e);
  }

  /** In this run a saver with two names comes up, and an exit that then names a third
      monitor, one that came up with the launch, would be noted down past them. */
  lemma AnExitCanBePastTheNames() returns (run: seq<State>, events: seq<Event>)
    ensures IsRun(run, events) && Initial(run[0]) && |events| == 2
    ensures run[2].screen.exits.Some? && |run[2].screen.names| == 2 && !NotesWithinTheNames(run[2], 2)
  {
    FirstApartIsInitial();
    var e0, s1 := LaunchesApart();
    var e1, s2 := UpApart(s1);
    LeadsOn([FIRST_APART], [], e0, s1);
    LeadsOn([FIRST_APART, s1], [e0], e1, s2);
    run, events := [FIRST_APART, s1, s2], [e0, e1];
    NotesWithinTheNamesExactlyWhen(s2, 2);
  }
}
