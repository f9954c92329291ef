/** internal/window: how a saver reports the modules that die. One goroutine per
    process watches it; Stop and Replace run beside them. Each step below is one
    atomic action of one goroutine, and a run takes them in any order. */
module ExitReports {
  import opened Wrappers

  type ProcId = nat

  /** How far the goroutine that watches a process has come. */
  datatype Watcher =
    | Waiting    // for the process to be reaped
    | Marked     // done is closed
    | Unretired  // the process had not been retired
    | Offering   // the saver was not stopping: a send on exits, or stopping
    | Ended(reported: bool)

  /** One module process. `retiredFirst` and `stoppedFirst` remember whether it
      had been retired, or the saver stopped, by the time it was reaped. */
  datatype Process = Process(
    monitor: nat,
    reaped: bool,
    retired: bool,
    watcher: Watcher,
    retiredFirst: bool,
    stoppedFirst: bool)

  /** The saver's fields: its processes past and present, the one on each monitor,
      whether stopping is closed, whether doneOnce has run and how often done was
      closed, what was received from exits, and the monitor Replace is at. */
  datatype State = State(
    procs: map<ProcId, Process>,
    children: seq<ProcId>,
    stopping: bool,
    once: bool,
    closes: nat,
    reports: seq<ProcId>,
    replacing: Option<nat>)

  datatype Event =
    | Reaped(p: ProcId)
    | Mark(p: ProcId)
    | TestRetired(p: ProcId)
    | TestStopping(p: ProcId)
    | Report(p: ProcId)
    | GiveUp(p: ProcId)
    | StopBegins
    | Retire(monitor: nat)
    | Start(p: ProcId)
    | StartFails

  /** The steps the watcher of a process takes itself. */
  predicate OwnStep(e: Event, p: ProcId) {
    (e.Mark? || e.TestRetired? || e.TestStopping? || e.Report? || e.GiveUp?) && e.p == p
  }

  /** The step can be taken now. A report needs a reader, which this cannot
      promise; Replace does not race Stop, and the daemon makes one at a time. */
  predicate Possible(s: State, e: Event) {
    match e
    case Reaped(p) => p in s.procs && !s.procs[p].reaped
    case Mark(p) => p in s.procs && s.procs[p].watcher == Waiting && s.procs[p].reaped
    case TestRetired(p) => p in s.procs && s.procs[p].watcher == Marked
    case TestStopping(p) => p in s.procs && s.procs[p].watcher == Unretired
    case Report(p) => p in s.procs && s.procs[p].watcher == Offering
    case GiveUp(p) => p in s.procs && s.procs[p].watcher == Offering && s.stopping
    case StopBegins => s.replacing.None?
    case Retire(i) => i < |s.children| && s.children[i] in s.procs && !s.stopping && s.replacing.None?
    case Start(p) => s.replacing.Some? && s.replacing.value < |s.children| && p !in s.procs
    case StartFails => s.replacing.Some?
  }

  function At(s: State, p: ProcId, watcher: Watcher): State
    requires p in s.procs
  {
    s.(procs := s.procs[p := s.procs[p].(watcher := watcher)])
  }

  function Step(s: State, e: Event): State
    requires Possible(s, e)
  {
    match e
    case Reaped(p) =>
      var c := s.procs[p];
      s.(procs := s.procs[p := c.(reaped := true, retiredFirst := c.retired, stoppedFirst := s.stopping)])
    case Mark(p) =>
      At(s, p, Marked).(once := true, closes := if s.once then s.closes else s.closes + 1)
    case TestRetired(p) => At(s, p, if s.procs[p].retired then Ended(false) else Unretired)
    case TestStopping(p) => At(s, p, if s.stopping then Ended(false) else Offering)
    case Report(p) => At(s, p, Ended(true)).(reports := s.reports + [p])
    case GiveUp(p) => At(s, p, Ended(false))
    case StopBegins => s.(stopping := true)
    case Retire(i) =>
      var former := s.children[i];
      s.(procs := s.procs[former := s.procs[former].(retired := true)], replacing := Some(i))
    case Start(p) =>
      s.(
        procs := s.procs[p := Process(s.replacing.value, false, false, Waiting, false, false)],
        children := s.children[s.replacing.value := p],
        replacing := None)
    case StartFails => s.(replacing := None)
  }

  /** A saver just launched: one process per monitor, each watched. */
  ghost predicate Initial(s: State) {
    && s == State(s.procs, s.children, false, false, 0, [], None)
    && s.procs.Keys == (set p | p in s.children)
    && (forall i, j :: 0 <= i < j < |s.children| ==> s.children[i] != s.children[j])
    && (forall i :: 0 <= i < |s.children| ==>
          s.procs[s.children[i]] == Process(i, s.procs[s.children[i]].reaped, false, Waiting, false, false))
  }

  ghost predicate IsRun(run: seq<State>, events: seq<Event>) {
    && |run| == |events| + 1 && Initial(run[0])
    && forall k :: 0 <= k < |events| ==> Possible(run[k], events[k]) && run[k + 1] == Step(run[k], events[k])
  }

  // ----- the invariant

  /** What a process's history says about its watcher. */
  predicate Consistent(c: Process, stopping: bool) {
    && (c.watcher != Waiting ==> c.reaped)
    && (c.retiredFirst ==> c.reaped && c.retired)
    && (c.stoppedFirst ==> c.reaped && stopping)
    && (c.watcher == Unretired || c.watcher == Offering || c.watcher == Ended(true) ==> !c.retiredFirst)
    && (c.watcher == Offering || c.watcher == Ended(true) ==> !c.stoppedFirst)
    && (c.watcher == Ended(false) ==> c.retired || stopping)
  }

  ghost predicate Processes(procs: map<ProcId, Process>, stopping: bool) {
    forall p :: p in procs ==> Consistent(procs[p], stopping)
  }

  /** Exactly the processes whose watcher says so were reported, each once. */
  ghost predicate Reports(procs: map<ProcId, Process>, reports: seq<ProcId>) {
    && (forall p :: p in reports <==> p in procs && procs[p].watcher == Ended(true))
    && (forall i, j :: 0 <= i < j < |reports| ==> reports[i] != reports[j])
  }

  /** done is closed once, by the first watcher past the wait. */
  ghost predicate DoneClosed(procs: map<ProcId, Process>, once: bool, closes: nat) {
    && closes == (if once then 1 else 0)
    && (once <==> exists p :: p in procs && procs[p].watcher != Waiting)
  }

  /** The processes on screen are known, one per monitor. */
  ghost predicate OnMonitors(s: State) {
    && (forall i :: 0 <= i < |s.children| ==> s.children[i] in s.procs && s.procs[s.children[i]].monitor == i)
    && (s.replacing.Some? ==> s.replacing.value < |s.children| && s.procs[s.children[s.replacing.value]].retired && !s.stopping)
  }

  ghost predicate Invariant(s: State) {
    Processes(s.procs, s.stopping) && Reports(s.procs, s.reports) && DoneClosed(s.procs, s.once, s.closes) && OnMonitors(s)
  }

  lemma ProcessesKept(s: State, e: Event)
    requires Processes(s.procs, s.stopping) && Possible(s, e)
    ensures Processes(Step(s, e).procs, Step(s, e).stopping)
  {
  }

  lemma ReportsKept(s: State, e: Event)
    requires Reports(s.procs, s.reports) && Possible(s, e)
    ensures Reports(Step(s, e).procs, Step(s, e).reports)
  {
  }

  lemma DoneKept(s: State, e: Event)
    requires DoneClosed(s.procs, s.once, s.closes) && Possible(s, e)
    ensures var t := Step(s, e); DoneClosed(t.procs, t.once, t.closes)
  {
    var t := Step(s, e);
    if e.Mark? {
      assert t.procs[e.p].watcher != Waiting;
    }
    if s.once {
      var p :| p in s.procs && s.procs[p].watcher != Waiting;
      assert p in t.procs && t.procs[p].watcher != Waiting;
    }
  }

  lemma MonitorsKept(s: State, e: Event)
    requires OnMonitors(s) && Possible(s, e)
    ensures OnMonitors(Step(s, e))
  {
  }

  lemma StepKeeps(s: State, e: Event)
    requires Invariant(s) && Possible(s, e)
    ensures Invariant(Step(s, e))
  {
    ProcessesKept(s, e);
    ReportsKept(s, e);
    DoneKept(s, e);
    MonitorsKept(s, e);
  }

  lemma {:induction false} EveryReachableState(run: seq<State>, events: seq<Event>, k: nat)
    requires IsRun(run, events) && k < |run|
    ensures Invariant(run[k])
  {
    if k > 0 {
      EveryReachableState(run, events, k - 1);
      StepKeeps(run[k - 1], events[k - 1]);
    }
  }

  // ----- what is reported

  /** Each process is reported at most once, and only if it exited before it was
      retired and before Stop began. */
  lemma ReportedOnceAndInTime(run: seq<State>, events: seq<Event>, k: nat, p: ProcId)
    requires IsRun(run, events) && k < |run|
    ensures forall i, j :: 0 <= i < j < |run[k].reports| ==> run[k].reports[i] != run[k].reports[j]
    ensures p in run[k].reports ==>
      p in run[k].procs && run[k].procs[p].reaped && !run[k].procs[p].retiredFirst && !run[k].procs[p].stoppedFirst
  {
    EveryReachableState(run, events, k);
    assert p in run[k].procs ==> Consistent(run[k].procs[p], run[k].stopping);
  }

  /** What a process went through is not forgotten. */
  predicate Remembered(before: Process, after: Process) {
    && (before.retired ==> after.retired)
    && (before.reaped ==>
          after.reaped && after.retiredFirst == before.retiredFirst && after.stoppedFirst == before.stoppedFirst)
  }

  ghost predicate HistoryKept(s: State, t: State, p: ProcId) {
    p in s.procs ==> p in t.procs && Remembered(s.procs[p], t.procs[p]) && (s.stopping ==> t.stopping)
  }

  lemma HistoryStep(s: State, e: Event, p: ProcId)
    requires Possible(s, e)
    ensures HistoryKept(s, Step(s, e), p)
  {
  }

  lemma HistoryAt(run: seq<State>, events: seq<Event>, k: nat, p: ProcId)
    requires IsRun(run, events) && k < |events|
    ensures HistoryKept(run[k], run[k + 1], p)
  {
    HistoryStep(run[k], events[k], p);
  }

  /** A process never forgets how it exited, nor its retirement. */
  lemma HistoryStands(run: seq<State>, events: seq<Event>, j: nat, k: nat, p: ProcId)
    requires IsRun(run, events) && j <= k < |run|
    ensures HistoryKept(run[j], run[k], p)
  {
    forall i | 0 <= i < |run| - 1 ensures HistoryKept(run[i], run[i + 1], p) {
      HistoryAt(run, events, i, p);
    }
    HistoryPasses(run, j, k, p);
  }

  lemma {:induction false} HistoryPasses(run: seq<State>, j: nat, k: nat, p: ProcId)
    requires forall i :: 0 <= i < |run| - 1 ==> HistoryKept(run[i], run[i + 1], p)
    requires j <= k < |run|
    ensures HistoryKept(run[j], run[k], p)
    decreases k
  {
    if j < k {
      HistoryPasses(run, j, k - 1, p);
      HistoryOn(run[j], run[k - 1], run[k], p);
    }
  }

  lemma HistoryOn(a: State, b: State, c: State, p: ProcId)
    requires HistoryKept(a, b, p) && HistoryKept(b, c, p)
    ensures HistoryKept(a, c, p)
  {
  }

  /** A process that exits after Stop closed stopping, or after Replace retired
      it, is never reported, however the goroutines interleave from then on. */
  lemma LateExitsAreNeverReported(run: seq<State>, events: seq<Event>, j: nat, k: nat, p: ProcId)
    requires IsRun(run, events) && j < k < |run| && events[j] == Reaped(p)
    requires run[j].stopping || (p in run[j].procs && run[j].procs[p].retired)
    ensures p !in run[k].reports
  {
    assert Possible(run[j], events[j]) && run[j + 1] == Step(run[j], events[j]);
    HistoryStands(run, events, j + 1, k, p);
    ReportedOnceAndInTime(run, events, k, p);
  }

  /** And nothing else is dropped: a watcher that is done without having reported
      belongs to a process that was retired, or to a saver that is stopping. */
  lemma NothingElseIsDropped(run: seq<State>, events: seq<Event>, k: nat, p: ProcId)
    requires IsRun(run, events) && k < |run| && p in run[k].procs && run[k].procs[p].watcher.Ended?
    ensures p in run[k].reports || run[k].procs[p].retired || run[k].stopping
  {
    EveryReachableState(run, events, k);
    assert Consistent(run[k].procs[p], run[k].stopping);
  }

  /** done is closed at most once, never before a process was reaped, and as soon
      as one watcher has moved. */
  lemma DoneMeansAnExit(run: seq<State>, events: seq<Event>, k: nat)
    requires IsRun(run, events) && k < |run|
    ensures run[k].closes <= 1
    ensures run[k].closes == 1 ==> exists p :: p in run[k].procs && run[k].procs[p].reaped
    ensures forall p :: p in run[k].procs && run[k].procs[p].watcher != Waiting ==> run[k].closes == 1
  {
    EveryReachableState(run, events, k);
    if run[k].once {
      var p :| p in run[k].procs && run[k].procs[p].watcher != Waiting;
      assert Consistent(run[k].procs[p], run[k].stopping);
    }
  }

  /** A report names the monitor its process was started on, and the processes on
      screen are the ones Replace last put there. */
  lemma OneProcessPerMonitor(run: seq<State>, events: seq<Event>, k: nat, i: nat)
    requires IsRun(run, events) && k < |run| && i < |run[k].children|
    ensures run[k].children[i] in run[k].procs && run[k].procs[run[k].children[i]].monitor == i
    ensures |run[k].children| == |run[0].children|
  {
    EveryReachableState(run, events, k);
    MonitorsStay(run, events, k);
  }

  lemma {:induction false} MonitorsStay(run: seq<State>, events: seq<Event>, k: nat)
    requires IsRun(run, events) && k < |run|
    ensures |run[k].children| == |run[0].children|
  {
    if k > 0 {
      MonitorsStay(run, events, k - 1);
      assert run[k] == Step(run[k - 1], events[k - 1]);
    }
  }

  // ----- no goroutine is left behind

  /** How many steps a watcher has left at most. */
  function StepsLeft(w: Watcher): nat {
    match w
    case Waiting => 4
    case Marked => 3
    case Unretired => 2
    case Offering => 1
    case Ended(_) => 0
  }

  /** The step a watcher takes next without anyone reading its report. */
  function NextStep(p: ProcId, w: Watcher): Event {
    match w
    case Waiting => Mark(p)
    case Marked => TestRetired(p)
    case Unretired => TestStopping(p)
    case _ => GiveUp(p)
  }

  /** Once Stop has begun, the watcher of a reaped process is never blocked: it
      has a step to take that needs no reader, that no one else can take from it,
      and that brings it nearer its end. */
  lemma NoWatcherBlocksOnceStopping(s: State, p: ProcId, other: Event)
    requires s.stopping && p in s.procs && s.procs[p].reaped && !s.procs[p].watcher.Ended?
    requires Possible(s, other)
    ensures Possible(s, NextStep(p, s.procs[p].watcher)) && OwnStep(NextStep(p, s.procs[p].watcher), p)
    ensures !OwnStep(other, p) ==>
      && p in Step(s, other).procs && Step(s, other).procs[p].watcher == s.procs[p].watcher
      && Possible(Step(s, other), NextStep(p, s.procs[p].watcher))
    ensures OwnStep(other, p) ==> StepsLeft(Step(s, other).procs[p].watcher) < StepsLeft(s.procs[p].watcher)
  {
  }

  /** How many of these steps a watcher took. */
  function OwnSteps(events: seq<Event>, p: ProcId): nat {
    if events == [] then 0
    else OwnSteps(events[..|events| - 1], p) + if OwnStep(events[|events| - 1], p) then 1 else 0
  }

  /** In any run, whatever else happens, a watcher takes at most four steps. */
  lemma {:induction false} AtMostFourSteps(run: seq<State>, events: seq<Event>, k: nat, p: ProcId)
    requires IsRun(run, events) && k < |run|
    ensures OwnSteps(events[..k], p) + (if p in run[k].procs then StepsLeft(run[k].procs[p].watcher) else 4) <= 4
  {
    if k > 0 {
      AtMostFourSteps(run, events, k - 1, p);
      var e := events[k - 1];
      assert events[..k][..k - 1] == events[..k - 1];
      assert Possible(run[k - 1], e) && run[k] == Step(run[k - 1], e);
    }
  }

  /** Hence, however long a run goes on: a watcher that has taken four steps has
      ended, and with it every wait on exits. */
  lemma FourStepsEndIt(run: seq<State>, events: seq<Event>, p: ProcId)
    requires IsRun(run, events) && p in run[|events|].procs && OwnSteps(events, p) >= 4
    ensures run[|events|].procs[p].watcher.Ended?
  {
    AtMostFourSteps(run, events, |events|, p);
    assert events[..|events|] == events;
  }

  // ----- the code that takes these steps

  lemma RunExtends(run: seq<State>, events: seq<Event>, e: Event)
    requires IsRun(run, events) && Possible(run[|events|], e)
    ensures IsRun(run + [Step(run[|events|], e)], events + [e])
  {
  }

  /** The steps of the watchers and of the kernel touch nothing but the processes
      and what is reported. */
  predicate Aside(e: Event) {
    e.Reaped? || e.Mark? || e.TestRetired? || e.TestStopping? || e.Report? || e.GiveUp?
  }

  lemma AsideSteps(s: State, e: Event)
    requires Possible(s, e) && Aside(e)
    ensures var t := Step(s, e);
      t.children == s.children && t.replacing == s.replacing && t.stopping == s.stopping && t.procs.Keys == s.procs.Keys
  {
  }

  /** The saver, with the run its goroutines have made of it so far. */
  class Saver {
    var state: State
    ghost var run: seq<State>
    ghost var events: seq<Event>

    ghost predicate Valid()
      reads this
    {
      IsRun(run, events) && run[|events|] == state
    }

    /** watchChildren: nothing has been reported of the processes launched. */
    constructor (launched: State)
      requires Initial(launched)
      ensures Valid() && state == launched && events == []
    {
      state, run, events := launched, [launched], [];
    }

    method Take(e: Event)
      requires Valid() && Possible(state, e)
      modifies this
      ensures Valid() && state == Step(old(state), e) && events == old(events) + [e]
    {
      RunExtends(run, events, e);
      state := Step(state, e);
      run, events := run + [state], events + [e];
    }

    /** What the other goroutines do meanwhile, as far as the watcher of p is
        concerned. */
    method Meanwhile(p: ProcId)
      requires Valid() && p in state.procs
      modifies this
      ensures Valid() && old(events) <= events
      ensures p in state.procs && state.procs[p].watcher == old(state).procs[p].watcher
      ensures old(state).procs[p].reaped ==> state.procs[p].reaped
    {
      var n: nat := *;
      while n > 0
        invariant Valid() && old(events) <= events
        invariant p in state.procs && state.procs[p].watcher == old(state).procs[p].watcher
        invariant old(state).procs[p].reaped ==> state.procs[p].reaped
      {
        var e: Event := *;
        if Possible(state, e) && !OwnStep(e, p) {
          Take(e);
        }
        n := n - 1;
      }
    }

    /** The goroutine that watches p. It stays behind only while its process runs,
        or while nobody reads and nobody stops the saver. */
    method Watch(p: ProcId)
      requires Valid() && p in state.procs && state.procs[p].watcher == Waiting
      modifies this
      ensures Valid() && old(events) <= events && p in state.procs
      ensures state.procs[p].watcher.Ended? || (state.procs[p].watcher == Waiting && !state.procs[p].reaped)
              || (state.procs[p].watcher == Offering && !state.stopping)
    {
      Meanwhile(p);
      if !state.procs[p].reaped {
        return;
      }
      Take(Mark(p));
      Meanwhile(p);
      Take(TestRetired(p));
      if !state.procs[p].watcher.Ended? {
        Offer(p);
      }
    }

    /** The second half of Watch, for a process that was not retired. */
    method Offer(p: ProcId)
      requires Valid() && p in state.procs && state.procs[p].watcher == Unretired && state.procs[p].reaped
      modifies this
      ensures Valid() && old(events) <= events && p in state.procs
      ensures state.procs[p].watcher.Ended? || (state.procs[p].watcher == Offering && !state.stopping)
    {
      Meanwhile(p);
      Take(TestStopping(p));
      if state.procs[p].watcher.Ended? {
        return;
      }
      Meanwhile(p);
      var read: bool := *;
      if read {
        Take(Report(p));
      } else if state.stopping {
        Take(GiveUp(p));
      }
    }

    /** What the watchers do and the kernel reaps while the daemon's goroutine is
        inside Stop or Replace. */
    method Around()
      requires Valid()
      modifies this
      ensures Valid() && old(events) <= events
      ensures state.children == old(state).children && state.replacing == old(state).replacing
      ensures state.stopping == old(state).stopping && state.procs.Keys == old(state).procs.Keys
    {
      var n: nat := *;
      while n > 0
        invariant Valid() && old(events) <= events
        invariant state.children == old(state).children && state.replacing == old(state).replacing
        invariant state.stopping == old(state).stopping && state.procs.Keys == old(state).procs.Keys
      {
        var e: Event := *;
        if Possible(state, e) && Aside(e) {
          AsideSteps(state, e);
          Take(e);
        }
        n := n - 1;
      }
    }

    /** The step Stop takes the first time; a later call takes none. */
    method Stop()
      requires Valid() && state.replacing.None?
      modifies this
      ensures Valid() && old(events) <= events && state.stopping
      ensures old(state).stopping ==> state == old(state)
      ensures state.children == old(state).children
    {
      if state.stopping {
        return;
      }
      Take(StopBegins);
      Around();
    }

    /** Replace retires the process before it stops it; if the new one cannot be
        started the retired one keeps its place. */
    method Replace(i: int, starts: bool) returns (ok: bool)
      requires Valid() && state.replacing.None?
      modifies this
      ensures Valid() && old(events) <= events && state.replacing.None?
      ensures ok <==> 0 <= i < |old(state).children| && !old(state).stopping && starts
      ensures |state.children| == |old(state).children|
      ensures ok ==> state.children == old(state).children[i := state.children[i]]
      ensures ok ==> state.children[i] in state.procs && state.children[i] !in old(state).procs
      ensures ok ==> state.procs[state.children[i]] == Process(i, false, false, Waiting, false, false)
      ensures !ok ==> state.children == old(state).children
      ensures state.stopping == old(state).stopping
    {
      if i < 0 || i >= |state.children| || state.stopping {
        return false;
      }
      EveryReachableState(run, events, |events|);
      Take(Retire(i));
      Around();
      if !starts {
        Take(StartFails);
        return false;
      }
      ghost var unused := Above(state.procs.Keys);
      assert unused !in state.procs;
      var pid: ProcId :| pid !in state.procs;
      Take(Start(pid));
      return true;
    }
  }
}
