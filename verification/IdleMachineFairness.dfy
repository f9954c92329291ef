/** What the slideshow shows next, over every run: modules come back only once
    everything has been launched in the idle period. */
module IdleMachineFairness {
  import opened Wrappers
  import opened Collaborators
  import opened IdleMachine
  import opened IdleMachineProofs
  import opened IdleMachineTheorems

  // ----- one choice

  /** A single module was shown before, or the avoid list cut back, only when
      everything that can be selected is on it. */
  lemma ChoiceIsFair(selectable: set<string>, used: seq<string>, shown: seq<string>, names: seq<string>, left: seq<string>)
    requires Drawn(selectable, used, shown, [], names, left) && |names| == 1
    requires names[0] in used || left != used
    ensures forall n :: n in selectable ==> n in used
  {
    var name := names[0];
    assert names[1..] == [];
    assert ToSet([]) == {};
    var free := selectable - ToSet([]);
    assert free == selectable;
    var (pool, after) := Draw(selectable, used, shown, []);
    assert Drawn(selectable, after, shown, [] + [name], [], left);
    assert free - ToSet(used) != {} ==> name in free - ToSet(used) && after == used;
    assert forall n :: n in selectable && n !in used ==> n in free - ToSet(used);
  }

  // ----- what an event makes of a choice

  /** The event ends the idle period. */
  predicate Resets(s: State, e: Event) {
    Abandons(s, e) && !e.LockChanged?
  }

  /** The choice the event may have made. */
  function Chosen(e: Event): Option<Choice> {
    match e
    case WatchFired(_, a) => Some(a.choice)
    case LaunchDone(_, _, _, c) => Some(c)
    case ModuleExited(_, c) => Some(c)
    case _ => None
  }

  /** The launches and the avoid list are as they were, but for what the choice
      added. */
  ghost predicate Chooses(s: State, t: State, c: Option<Choice>) {
    && t.cfg == s.cfg && t.launcher.selectable == s.launcher.selectable && t.period.known == s.period.known
    && (|| (t.tally.used == s.tally.used && t.launcher.begun == s.launcher.begun)
        || (c.Some? && t.tally.used == c.value.used && t.launcher.begun == s.launcher.begun)
        || (&& c.Some? && c.value.names.Some?
            && t.tally.used == c.value.used + c.value.names.value
            && t.launcher.begun == s.launcher.begun[c.value.launch := Launch(s.gen, c.value.names.value)]))
  }

  /** What is on screen was there, or came from a launch of this generation. */
  ghost predicate ShowsLaunched(s: State, t: State) {
    || t.screen.names == s.screen.names || t.screen.names == []
    || exists l :: l in s.launcher.begun && s.launcher.begun[l].gen == s.gen && t.screen.names == s.launcher.begun[l].names
  }

  ghost predicate Goes(s: State, t: State, c: Option<Choice>) {
    Chooses(s, t, c) && ShowsLaunched(s, t)
  }

  lemma LaunchChooses(s: State, c: Choice)
    ensures Goes(s, StartLaunch(s, c), Some(c))
  {
  }

  lemma OnSaverChooses(s: State, a: Answers)
    ensures Goes(s, OnSaver(s, a.active, a.locked, a.idle, a.cycle, a.choice), Some(a.choice))
  {
    var s0 := Deliver(s, KindSaver).(stage := Saver);
    var s1 := EnsureActive(s0, a.active);
    var s2 := s1.(period := s1.period.(started := true));
    WatchesLeave(s0, None, a.active);
    WatchesLeave(s2, a.idle, a.cycle);
    LaunchChooses(ArmCycle(s2, a.idle, a.cycle), a.choice);
  }

  lemma OnCycleChooses(s: State, id: WatchId, a: Answers)
    ensures Goes(s, OnCycle(s, id, id in a.gone, a.locked, a.idle, a.cycle, a.choice), Some(a.choice))
  {
    var s0 := SwapBegun(s, id, id in a.gone);
    WatchesLeave(s0, a.idle, a.cycle);
    LaunchChooses(ArmCycle(s0, a.idle, a.cycle), a.choice);
  }

  lemma LateStageChooses(s: State, active: Option<WatchId>, written: bool)
    ensures Goes(s, OnLock(s, active), None) && Goes(s, OnBlank(s, active, written), None)
  {
    WatchesLeave(Deliver(s, KindLock).(stage := Lock), None, active);
    WatchesLeave(Deliver(s, KindBlank).(stage := Blank), None, active);
  }

  lemma ResultChooses(s: State, l: LaunchId, outcome: Outcome, saver: SaverId, c: Choice)
    requires l in s.launcher.begun
    ensures Goes(s, HandleLaunch(s, l, outcome, saver, c), Some(c))
  {
    LaunchChooses(Collect(s, l), c);
  }

  lemma ExitChooses(s: State, locked: Option<bool>, c: Choice)
    ensures Goes(s, OnModuleExit(s, locked, c), Some(c))
  {
    LaunchChooses(DeathSpent(Died(s)), c);
  }

  lemma StepChooses(s: State, e: Event)
    requires Possible(s, e) && !Resets(s, e) && !e.CopyExited?
    ensures Goes(s, Step(s, e), Chosen(e))
  {
    match e
    case WatchFired(id, a) =>
      if id in s.table.watches {
        match s.table.watches[id]
        case KindSaver => OnSaverChooses(s, a);
        case KindCycle => OnCycleChooses(s, id, a);
        case KindLock => LateStageChooses(s, a.active, a.written);
        case KindBlank => LateStageChooses(s, a.active, a.written);
      }
    case LaunchDone(l, outcome, saver, c) => ResultChooses(s, l, outcome, saver, c);
    case ModuleExited(locked, c) => ExitChooses(s, locked, c);
    case LockChanged(locked) =>
    case Reloaded(_, _, _, _, _) =>
  }

  /** With one module for all monitors none exits alone. */
  lemma NoCopiesExit(s: State, e: Event)
    requires Invariant(s) && Possible(s, e) && !s.cfg.DifferentPerMonitor()
    ensures !e.CopyExited?
  {
  }

  // ----- what was launched in the idle period

  /** A launch of this module was begun since the idle period began. */
  ghost predicate WasLaunched(s: State, name: string) {
    exists l :: l in s.launcher.begun && l !in s.period.known && name in s.launcher.begun[l].names
  }

  /** The launches of earlier periods are of earlier generations; what is avoided
      and what is on screen was launched in this period. */
  ghost predicate Accounted(s: State) {
    && s.period.known <= s.launcher.begun.Keys
    && (forall l :: l in s.period.known ==> s.launcher.begun[l].gen < s.gen)
    && (!s.cfg.DifferentPerMonitor() ==>
          && (forall n :: n in s.tally.used ==> WasLaunched(s, n))
          && (forall n :: n in s.screen.names ==> WasLaunched(s, n)))
  }

  lemma StartingOverAccounts(s: State, written: bool, gone: set<WatchId>, a: Armed)
    requires forall l :: l in s.launcher.begun ==> s.launcher.begun[l].gen <= s.gen
    ensures Accounted(Rearm(Reset(s, written), gone, a))
  {
    RearmLeaves(Reset(s, written), gone, a);
  }

  lemma WasLaunchedStands(s: State, t: State, name: string)
    requires Remembers(s, t) && t.period.known == s.period.known && WasLaunched(s, name)
    ensures WasLaunched(t, name)
  {
    var l :| l in s.launcher.begun && l !in s.period.known && name in s.launcher.begun[l].names;
    assert l in t.launcher.begun && l !in t.period.known && name in t.launcher.begun[l].names;
  }

  /** The choice keeps what it avoids to what was launched, itself included. */
  lemma UsedStaysAccounted(s: State, t: State, c: Choice, name: string)
    requires Accounted(s) && Chooses(s, t, Some(c)) && Remembers(s, t) && !s.cfg.DifferentPerMonitor()
    requires c.launch !in s.launcher.begun && AvoidList(s.tally.used, s.screen.names, c.used)
    requires name in t.tally.used
    ensures WasLaunched(t, name)
  {
    if name in s.tally.used || name in s.screen.names {
      WasLaunchedStands(s, t, name);
    } else {
      assert name in t.launcher.begun[c.launch].names && c.launch !in t.period.known;
    }
  }

  lemma ShownStaysAccounted(s: State, t: State, name: string)
    requires Accounted(s) && ShowsLaunched(s, t) && Remembers(s, t) && t.period.known == s.period.known
    requires !s.cfg.DifferentPerMonitor() && name in t.screen.names
    ensures WasLaunched(t, name)
  {
    if name in s.screen.names {
      WasLaunchedStands(s, t, name);
    } else {
      var l :| l in s.launcher.begun && s.launcher.begun[l].gen == s.gen && t.screen.names == s.launcher.begun[l].names;
      assert l in t.launcher.begun && l !in t.period.known && name in t.launcher.begun[l].names;
    }
  }

  lemma NothingChosenStaysAccounted(s: State, t: State, name: string)
    requires Accounted(s) && Chooses(s, t, None) && Remembers(s, t) && !s.cfg.DifferentPerMonitor() && name in t.tally.used
    ensures WasLaunched(t, name)
  {
    WasLaunchedStands(s, t, name);
  }

  lemma StepKnows(s: State, e: Event)
    requires Possible(s, e) && !Resets(s, e)
    ensures Step(s, e).period.known == s.period.known && Step(s, e).cfg == s.cfg
  {
    if e.CopyExited? {
      OnCopyExitFrame(s, e.monitor, e.tries);
    } else {
      StepChooses(s, e);
    }
  }

  lemma StepStaysAccounted(s: State, e: Event)
    requires Invariant(s) && Possible(s, e) && !Resets(s, e) && Accounted(s) && !s.cfg.DifferentPerMonitor()
    ensures forall n :: n in Step(s, e).tally.used ==> WasLaunched(Step(s, e), n)
    ensures forall n :: n in Step(s, e).screen.names ==> WasLaunched(Step(s, e), n)
  {
    var t := Step(s, e);
    NoCopiesExit(s, e);
    StepChooses(s, e);
    StepRemembers(s, e);
    forall n | n in t.tally.used ensures WasLaunched(t, n) {
      if Chosen(e).Some? {
        UsedStaysAccounted(s, t, Chosen(e).value, n);
      } else {
        NothingChosenStaysAccounted(s, t, n);
      }
    }
    forall n | n in t.screen.names ensures WasLaunched(t, n) {
      ShownStaysAccounted(s, t, n);
    }
  }

  lemma StepAccounts(s: State, e: Event)
    requires Invariant(s) && Possible(s, e) && Accounted(s)
    ensures Accounted(Step(s, e))
  {
    if Resets(s, e) {
      match e
      case WatchFired(id, a) => StartingOverAccounts(s, a.written, a.gone, a.armed);
      case Reloaded(cfg, selectable, written, gone, armed) =>
        StartingOverAccounts(s.(cfg := cfg.value, launcher := s.launcher.(selectable := selectable)), written, gone, armed);
    } else {
      StepKnows(s, e);
      StepRemembers(s, e);
      if !s.cfg.DifferentPerMonitor() {
        StepStaysAccounted(s, e);
      }
    }
  }

  lemma {:induction false} AlwaysAccounted(run: seq<State>, events: seq<Event>, k: nat)
    requires IsRun(run, events) && Initial(run[0]) && k < |run|
    ensures Accounted(run[k])
  {
    if k > 0 {
      EveryReachableState(run, events, k - 1);
      AlwaysAccounted(run, events, k - 1);
      StepAccounts(run[k - 1], events[k - 1]);
    }
  }

  // ----- the slideshow, over runs

  /** The event begins a launch of a module that is on the avoid list. */
  ghost predicate Repeats(s: State, t: State) {
    exists l, n :: l in t.launcher.begun && l !in s.launcher.begun && n in t.launcher.begun[l].names && n in s.tally.used
  }

  lemma ChosenIsFair(s: State, t: State, c: Choice, name: string)
    requires ChoiceOk(s, c) && c.faultless && !s.cfg.DifferentPerMonitor() && Chooses(s, t, Some(c))
    requires Repeats(s, t) || !(s.tally.used <= t.tally.used)
    requires name in s.launcher.selectable
    ensures name in s.tally.used
  {
    ChoiceIsFair(s.launcher.selectable, s.tally.used, s.screen.names, c.names.value, c.used);
  }

  lemma ChosenIsOk(s: State, e: Event)
    requires Possible(s, e) && Chosen(e).Some?
    ensures ChoiceOk(s, Chosen(e).value)
  {
  }

  /** With one module for all monitors, and while the modules can be discovered: an
      event that launches a module on the avoid list, or takes one off the list
      while the period lasts, comes only after every module that can be selected
      is on that list: once in every round, however long the period lasts. Each of
      them was launched in this period. */
  lemma SlideshowIsFair(run: seq<State>, events: seq<Event>, k: nat, name: string)
    requires IsRun(run, events) && Initial(run[0]) && k < |events|
    requires !run[k].cfg.DifferentPerMonitor() && !Resets(run[k], events[k])
    requires Chosen(events[k]).Some? ==> Chosen(events[k]).value.faultless
    requires Repeats(run[k], run[k + 1]) || !(run[k].tally.used <= run[k + 1].tally.used)
    requires name in run[k].launcher.selectable
    ensures name in run[k].tally.used && WasLaunched(run[k], name)
  {
    var s, t, c := run[k], run[k + 1], Chosen(events[k]);
    EveryReachableState(run, events, k);
    AlwaysAccounted(run, events, k);
    NoCopiesExit(s, events[k]);
    StepChooses(s, events[k]);
    ChosenIsOk(s, events[k]);
    ChosenIsFair(s, t, c.value, name);
  }

  // ----- replacements, over runs

  /** When the module on one monitor exited and another is put there, it is one
      that was on no monitor, as long as there is such a module. */
  lemma ReplacementDiffers(run: seq<State>, events: seq<Event>, k: nat, i: nat, tries: seq<Try>, other: string)
    requires IsRun(run, events) && k < |events| && events[k] == CopyExited(i, tries)
    requires forall j :: 0 <= j < |tries| ==> tries[j].faultless
    requires other in run[k].launcher.selectable && other !in run[k].screen.names
    ensures var s, t := run[k], run[k + 1];
      || t.screen == s.screen
      || exists name :: name in s.launcher.selectable && name !in s.screen.names
                        && t.screen == s.screen.(names := s.screen.names[i := name])
  {
    TriesDiffer(run[k], i, tries, other);
  }

  lemma {:induction false} TriesDiffer(s: State, i: nat, tries: seq<Try>, other: string)
    requires TriesOk(s, i, tries) && (forall j :: 0 <= j < |tries| ==> tries[j].faultless)
    requires other in s.launcher.selectable && other !in s.screen.names && i < |s.screen.names|
    ensures var t := OnCopyExit(s, i, tries);
      || t.screen == s.screen
      || exists name :: name in s.launcher.selectable && name !in s.screen.names
                        && t.screen == s.screen.(names := s.screen.names[i := name])
    decreases |tries|
  {
    if LeaveBlack(s, i) || IsLocked(tries[0].locked) {
    } else {
      OneTryDiffers(s, tries[0], other);
      if !tries[0].runs {
        TriesDiffer(Attempt(s, i, tries[0]), i, tries[1..], other);
      }
    }
  }

  lemma OneTryDiffers(s: State, t: Try, other: string)
    requires TryOk(s, t) && t.faultless
    requires other in s.launcher.selectable && other !in s.screen.names
    ensures t.name.Some? && t.name.value in s.launcher.selectable && t.name.value !in s.screen.names
  {
    assert other in s.launcher.selectable - ToSet(s.screen.names);
  }

  /** The attempts end at one whose module runs, which is then noted down as the
      one on monitor i. */
  ghost predicate Notes(s: State, i: nat, tries: seq<Try>)
    decreases |tries|
  {
    && !LeaveBlack(s, i) && tries != [] && !IsLocked(tries[0].locked) && tries[0].name.Some?
    && (tries[0].runs || Notes(Attempt(s, i, tries[0]), i, tries[1..]))
  }

  /** Wherever the handler gets to for monitor i, that monitor has a name. */
  ghost predicate NotesWithinTheNames(s: State, i: nat) {
    forall tries :: TriesOk(s, i, tries) && Notes(s, i, tries) ==> i < |s.screen.names|
  }

  /** Whatever the collaborators answer, the module is noted down within the names
      that are there exactly when monitor i has one, is left black, or nothing can
      be selected. A launch gives monitors beyond the names it was given one of
      those names again, so an exit may name a monitor that has none of its own. */
  lemma NotesWithinTheNamesExactlyWhen(s: State, i: nat)
    ensures NotesWithinTheNames(s, i) <==> i < |s.screen.names| || LeaveBlack(s, i) || s.launcher.selectable == {}
  {
    if NotesWithinTheNames(s, i) && !LeaveBlack(s, i) && s.launcher.selectable != {} {
      var t := AnyTry(s);
      assert TriesOk(s, i, [t]) && Notes(s, i, [t]);
    }
  }

  lemma AnyTry(s: State) returns (t: Try)
    requires s.launcher.selectable != {}
    ensures TryOk(s, t) && t.faultless && t.runs && !IsLocked(t.locked) && t.name.Some?
  {
    var (pool, left) := Draw(s.launcher.selectable, s.tally.used, s.screen.names, s.screen.names);
    var name :| name in pool;
    t := Try(Some(false), Some(name), left, true, true);
  }
}
