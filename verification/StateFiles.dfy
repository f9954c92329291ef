/** internal/window: the files that tell `retrosaver stop` what is running, and
    which saver may rewrite or remove them. */
module StateFiles {
  import opened Wrappers
  import opened Text

  // ----- a PID file

  /** A line that is a plausible PID. */
  function PidOf(line: string): (pid: Option<int>)
    ensures pid.Some? ==> pid.value > 1
  {
    match Atoi(Trim(line))
    case None => None
    case Some(n) => if n <= 1 then None else Some(n)
  }

  /** The PIDs of the lines, unless some line is not one. */
  function PidsOf(lines: seq<string>): (pids: Option<seq<int>>)
    ensures pids.Some? ==> forall i :: 0 <= i < |pids.value| ==> pids.value[i] > 1
  {
    if lines == [] then Some([])
    else
      match PidsOf(lines[..|lines| - 1])
      case None => None
      case Some(pids) =>
        match PidOf(lines[|lines| - 1])
        case None => None
        case Some(pid) => Some(pids + [pid])
  }

  /** The PIDs of a file in which every line is one; of any other, and of none,
      nothing. */
  function Pids(file: Option<string>): (pids: seq<int>)
    ensures forall i :: 0 <= i < |pids| ==> pids[i] > 1
  {
    if file.None? then []
    else
      var pids := PidsOf(Split(Trim(file.value), '\n'));
      if pids.Some? then pids.value else []
  }

  function Decimals(pids: seq<nat>): (lines: seq<string>)
    ensures |lines| == |pids| && forall i :: 0 <= i < |pids| ==> lines[i] == Decimal(pids[i])
  {
    seq(|pids|, i requires 0 <= i < |pids| => Decimal(pids[i]))
  }

  function PidText(pids: seq<nat>): string {
    Join(Decimals(pids), '\n') + "\n"
  }

  /** PIDs as the kernel gives them to processes other than init. */
  ghost predicate Plausible(pids: seq<nat>) {
    forall i :: 0 <= i < |pids| ==> 1 < pids[i] <= MAX_INT64
  }

  /** readPIDs. */
  method ReadPIDs(file: Option<string>) returns (pids: seq<int>)
    ensures pids == Pids(file)
  {
    if file.None? {
      return [];
    }
    var lines := Split(Trim(file.value), '\n');
    pids := [];
    for i := 0 to |lines|
      invariant PidsOf(lines[..i]) == Some(pids)
    {
      OneLineMore(lines, i);
      var pid := PidOf(lines[i]);
      if pid.None? {
        OneBadLine(lines, i + 1);
        return [];
      }
      pids := pids + [pid.value];
    }
    assert lines[..|lines|] == lines;
  }

  lemma OneLineMore(lines: seq<string>, i: nat)
    requires i < |lines|
    ensures PidsOf(lines[..i + 1]) ==
      if PidsOf(lines[..i]).None? || PidOf(lines[i]).None? then None
      else Some(PidsOf(lines[..i]).value + [PidOf(lines[i]).value])
  {
    assert lines[..i + 1][..i] == lines[..i];
  }

  lemma {:induction false} OneBadLine(lines: seq<string>, n: nat)
    requires n <= |lines| && PidsOf(lines[..n]).None?
    ensures PidsOf(lines).None?
  {
    if n < |lines| {
      assert lines[..|lines| - 1][..n] == lines[..n];
      OneBadLine(lines[..|lines| - 1], n);
    } else {
      assert lines[..n] == lines;
    }
  }

  /** A file is believed whole or not at all: what is read has one plausible PID
      for every line, or nothing. */
  lemma WholeOrNothing(lines: seq<string>)
    ensures PidsOf(lines).Some? <==> forall i :: 0 <= i < |lines| ==> PidOf(lines[i]).Some?
    ensures PidsOf(lines).Some? ==>
      && |PidsOf(lines).value| == |lines|
      && forall i :: 0 <= i < |lines| ==> PidOf(lines[i]) == Some(PidsOf(lines).value[i])
  {
    if PidsOf(lines).Some? {
      Whole(lines);
    } else {
      var i := BadLine(lines);
    }
  }

  lemma {:induction false} Whole(lines: seq<string>)
    requires PidsOf(lines).Some?
    ensures |PidsOf(lines).value| == |lines|
    ensures forall i :: 0 <= i < |lines| ==> PidOf(lines[i]) == Some(PidsOf(lines).value[i])
  {
    if lines != [] {
      var init := lines[..|lines| - 1];
      Whole(init);
      forall i | 0 <= i < |lines| ensures PidOf(lines[i]) == Some(PidsOf(lines).value[i]) {
        if i < |init| {
          assert lines[i] == init[i] && PidsOf(lines).value[i] == PidsOf(init).value[i];
        }
      }
    }
  }

  lemma {:induction false} BadLine(lines: seq<string>) returns (i: nat)
    requires PidsOf(lines).None?
    ensures i < |lines| && PidOf(lines[i]).None?
  {
    i := |lines| - 1;
    if PidOf(lines[i]).Some? {
      var init := lines[..i];
      i := BadLine(init);
      assert lines[i] == init[i];
    }
  }

  /** A line is a PID when it is a number above 1, white space around it aside. */
  lemma PidOfExactly(line: string, n: int)
    ensures PidOf(line) == Some(n) <==> Atoi(Trim(line)) == Some(n) && n > 1
  {
  }

  lemma {:induction false} JoinedLinesAreBare(lines: seq<string>)
    requires lines != [] && forall i :: 0 <= i < |lines| ==> lines[i] != "" && Spaceless(lines[i])
    ensures Join(lines, '\n') != "" && Bare(Join(lines, '\n'))
  {
    if |lines| > 1 {
      JoinedLinesAreBare(lines[1..]);
    }
  }

  /** Reading undoes writing, for every list of PIDs above 1, the empty one
      included. */
  lemma WriteThenRead(pids: seq<nat>)
    requires Plausible(pids)
    ensures Pids(Some(PidText(pids))) == pids
  {
    var lines := Decimals(pids);
    forall i | 0 <= i < |pids|
      ensures Spaceless(lines[i]) && '\n' !in lines[i] && PidOf(lines[i]) == Some(pids[i])
    {
      DecimalIsBare(pids[i]);
      AtoiDecimal(pids[i]);
      BareStays(lines[i]);
    }
    TrimIgnoresTail(Join(lines, '\n'), '\n');
    if pids == [] {
      assert Split("", '\n') == [""] && PidOf("").None?;
      WholeOrNothing([""]);
      assert [""][0] == "";
    } else {
      JoinedLinesAreBare(lines);
      BareStays(Join(lines, '\n'));
      SplitJoin(lines, '\n');
      WholeOrNothing(lines);
    }
  }

  lemma BareStays(s: string)
    requires Bare(s)
    ensures Trim(s) == s
  {
  }

  // ----- the files

  /** The PIDs and the module on each monitor, and the pointer hider's PID. */
  datatype Files = Files(pid: Option<string>, names: Option<string>, unclutter: Option<string>)

  /** Which of the three the file system lets through. */
  datatype Allowed = Allowed(pid: bool, names: bool, unclutter: bool)

  function Written(files: Files, pids: seq<nat>, modules: seq<string>, unclutter: nat, allowed: Allowed): Files {
    Files(
      if allowed.pid then Some(PidText(pids)) else files.pid,
      if allowed.names then Some(Join(modules, '\n') + "\n") else files.names,
      if unclutter > 0 && allowed.unclutter then Some(Decimal(unclutter) + "\n") else files.unclutter)
  }

  function Removed(files: Files, allowed: Allowed): Files {
    Files(
      if allowed.pid then None else files.pid,
      if allowed.names then None else files.names,
      if allowed.unclutter then None else files.unclutter)
  }

  /** Each of the three is gone exactly when its removal was allowed or there was none
      before, and is what it was otherwise. */
  predicate Cleared(before: Files, allowed: Allowed, after: Files) {
    && (after.pid.None? <==> allowed.pid || before.pid.None?) && (after.pid.Some? ==> after.pid == before.pid)
    && (after.names.None? <==> allowed.names || before.names.None?) && (after.names.Some? ==> after.names == before.names)
    && (after.unclutter.None? <==> allowed.unclutter || before.unclutter.None?)
    && (after.unclutter.Some? ==> after.unclutter == before.unclutter)
  }

  function First(pids: seq<int>): int {
    if pids == [] then 0 else pids[0]
  }

  /** The files describe the saver whose first PID this is. */
  predicate Describe(files: Files, pid: int) {
    Pids(files.pid) != [] && Pids(files.pid)[0] == pid
  }

  /** The files after a saver that ran `former` now runs `pids`. */
  function AfterReplace(files: Files, former: seq<nat>, pids: seq<nat>, modules: seq<string>, unclutter: nat,
                        allowed: Allowed): Files {
    if Describe(files, First(former)) then Written(files, pids, modules, unclutter, allowed) else files
  }

  /** The files after the saver that ran `pids` was stopped. */
  function AfterStop(files: Files, pids: seq<nat>, allowed: Allowed): Files {
    if Describe(files, First(pids)) then Removed(files, allowed) else files
  }

  /** The runtime directory. Each operation says which files it could change. */
  class Runtime {
    var files: Files

    constructor (files: Files)
      ensures this.files == files
    {
      this.files := files;
    }

    /** writeState: each file is written or, on a failure, left as it was. */
    method WriteState(pids: seq<nat>, modules: seq<string>, unclutter: nat, allowed: Allowed)
      modifies this
      ensures files == Written(old(files), pids, modules, unclutter, allowed)
      ensures files.pid == if allowed.pid then Some(Join(Decimals(pids), '\n') + "\n") else old(files).pid
      ensures files.names == if allowed.names then Some(Join(modules, '\n') + "\n") else old(files).names
      ensures files.unclutter == if unclutter > 0 && allowed.unclutter then Some(Decimal(unclutter) + "\n") else old(files).unclutter
    {
      var lines := [];
      for i := 0 to |pids|
        invariant lines == Decimals(pids[..i])
        invariant files == old(files)
      {
        lines := lines + [Decimal(pids[i])];
        assert Decimals(pids[..i + 1]) == Decimals(pids[..i]) + [Decimal(pids[i])];
      }
      assert pids[..|pids|] == pids;
      if allowed.pid {
        files := files.(pid := Some(Join(lines, '\n') + "\n"));
      }
      if allowed.names {
        files := files.(names := Some(Join(modules, '\n') + "\n"));
      }
      if unclutter > 0 && allowed.unclutter {
        files := files.(unclutter := Some(Decimal(unclutter) + "\n"));
      }
    }

    /** ClearState, guarded by the first PID of the file there is. */
    method ClearStateFor(pid: int, allowed: Allowed)
      modifies this
      ensures files == if Describe(old(files), pid) then Removed(old(files), allowed) else old(files)
      ensures Pids(old(files).pid) != [] && Pids(old(files).pid)[0] == pid ==> Cleared(old(files), allowed, files)
      ensures Pids(old(files).pid) == [] || Pids(old(files).pid)[0] != pid ==> files == old(files)
    {
      var got := ReadPIDs(files.pid);
      if |got| == 0 || got[0] != pid {
        return;
      }
      ClearState(allowed);
    }

    /** clearState: each removal may fail. */
    method ClearState(allowed: Allowed)
      modifies this
      ensures files == Removed(old(files), allowed) && Cleared(old(files), allowed, files)
    {
      if allowed.pid {
        files := files.(pid := None);
      }
      if allowed.names {
        files := files.(names := None);
      }
      if allowed.unclutter {
        files := files.(unclutter := None);
      }
    }
  }

  /** One saver: its module processes, primary monitor first, and what they run. */
  class Saver {
    var pids: seq<nat>
    var modules: seq<string>
    var unclutter: nat
    var stopped: bool

    constructor (pids: seq<nat>, modules: seq<string>, unclutter: nat)
      requires |pids| == |modules|
      ensures this.pids == pids && this.modules == modules && this.unclutter == unclutter && !stopped
    {
      this.pids, this.modules, this.unclutter, stopped := pids, modules, unclutter, false;
    }

    /** Replace, given the process that could be started on monitor i, if one could:
        the files are rewritten while they still describe this saver by the PID it
        had before. */
    method Replace(i: int, pid: nat, name: string, starts: bool, runtime: Runtime, allowed: Allowed) returns (ok: bool)
      requires |pids| == |modules|
      modifies this`pids, this`modules, runtime
      ensures ok <==> 0 <= i < |old(pids)| && !stopped && starts
      ensures !ok ==> pids == old(pids) && modules == old(modules) && runtime.files == old(runtime.files)
      ensures ok ==>
        && pids == old(pids)[i := pid] && modules == old(modules)[i := name]
        && runtime.files == AfterReplace(old(runtime.files), old(pids), pids, modules, unclutter, allowed)
    {
      if i < 0 || i >= |pids| || stopped {
        return false;
      }
      var first := First(pids);
      if !starts {
        return false;
      }
      pids, modules := pids[i := pid], modules[i := name];
      var got := ReadPIDs(runtime.files.pid);
      if |got| > 0 && got[0] == first {
        runtime.WriteState(pids, modules, unclutter, allowed);
      }
      return true;
    }

    /** Stop, once every process is gone; a second Stop does nothing. */
    method Stop(runtime: Runtime, allowed: Allowed)
      modifies this`stopped, runtime
      ensures stopped
      ensures runtime.files == if old(stopped) then old(runtime.files) else AfterStop(old(runtime.files), pids, allowed)
      ensures var described := Pids(old(runtime.files).pid);
        if !old(stopped) && described != [] && described[0] == First(pids) then Cleared(old(runtime.files), allowed, runtime.files)
        else runtime.files == old(runtime.files)
    {
      if stopped {
        return;
      }
      stopped := true;
      runtime.ClearStateFor(First(pids), allowed);
    }
  }

  // ----- savers that share the files

  type SaverId = nat

  datatype Running = Running(pids: seq<nat>, modules: seq<string>, unclutter: nat)

  /** The files, the savers not stopped yet, and every PID seen so far. A failure
      of the file system on the way is remembered. */
  datatype State = State(files: Files, savers: map<SaverId, Running>, used: set<int>, failed: bool)

  datatype Event =
    | Launched(s: SaverId, running: Running, allowed: Allowed)
    | Replaced(s: SaverId, i: nat, pid: nat, name: string, allowed: Allowed)
    | Stopped(s: SaverId, allowed: Allowed)
    | Scrapped(s: SaverId, running: Running, allowed: Allowed)

  const ALL := Allowed(true, true, true)

  /** Processes with PIDs that nothing has had before. */
  ghost predicate Fresh(running: Running, used: set<int>) {
    && |running.pids| == |running.modules| && Plausible(running.pids)
    && (forall i :: 0 <= i < |running.pids| ==> running.pids[i] !in used)
    && (forall i, j :: 0 <= i < j < |running.pids| ==> running.pids[i] != running.pids[j])
  }

  /** What may happen next: a launch writes the files, or is stopped again before it
      comes to that; a saver's module is replaced; a saver is stopped. PIDs are not
      reused while files or savers name them. */
  ghost predicate Possible(st: State, e: Event) {
    match e
    case Launched(s, running, _) => s !in st.savers && Fresh(running, st.used)
    case Scrapped(s, running, _) => s !in st.savers && Fresh(running, st.used)
    case Replaced(s, i, pid, _, _) =>
      s in st.savers && i < |st.savers[s].pids| == |st.savers[s].modules| && 1 < pid <= MAX_INT64 && pid !in st.used
    case Stopped(s, _) => s in st.savers
  }

  function After(former: Running, e: Event): Running
    requires e.Replaced? && e.i < |former.pids| == |former.modules|
  {
    former.(pids := former.pids[e.i := e.pid], modules := former.modules[e.i := e.name])
  }

  ghost function Step(st: State, e: Event): State
    requires Possible(st, e)
  {
    var failed := st.failed || (e.allowed != ALL && !e.Scrapped?);
    match e
    case Launched(s, running, allowed) =>
      State(Written(st.files, running.pids, running.modules, running.unclutter, allowed), st.savers[s := running],
            st.used + (set pid | pid in running.pids), failed)
    case Replaced(s, i, pid, name, allowed) =>
      var former, now := st.savers[s], After(st.savers[s], e);
      State(AfterReplace(st.files, former.pids, now.pids, now.modules, now.unclutter, allowed), st.savers[s := now],
            st.used + {pid}, failed)
    case Stopped(s, allowed) =>
      State(AfterStop(st.files, st.savers[s].pids, allowed), st.savers - {s}, st.used, failed)
    case Scrapped(s, running, allowed) =>
      State(AfterStop(st.files, running.pids, allowed), st.savers, st.used + (set pid | pid in running.pids), failed)
  }

  /** No saver yet, and whatever a crash left in the files. */
  ghost predicate Initial(st: State) {
    st.savers == map[] && !st.failed && forall pid :: pid in Pids(st.files.pid) ==> pid in st.used
  }

  ghost predicate IsRun(run: seq<State>, events: seq<Event>) {
    && |run| == |events| + 1 && Initial(run[0])
    && forall k :: 0 <= k < |events| ==> Possible(run[k], events[k]) && run[k + 1] == Step(run[k], events[k])
  }

  ghost predicate Names(files: Files, r: Running) {
    Describe(files, First(r.pids))
  }

  /** Every PID a saver runs is its own. */
  ghost predicate Distinct(savers: map<SaverId, Running>, used: set<int>) {
    && (forall s :: s in savers ==>
          |savers[s].pids| == |savers[s].modules| && Plausible(savers[s].pids) && forall i :: 0 <= i < |savers[s].pids| ==> savers[s].pids[i] in used)
    && (forall s, o, i, j :: s in savers && o in savers && s != o && 0 <= i < |savers[s].pids| && 0 <= j < |savers[o].pids| ==>
          savers[s].pids[i] != savers[o].pids[j])
  }

  ghost predicate FileUsed(files: Files, used: set<int>) {
    forall pid :: pid in Pids(files.pid) ==> pid in used
  }

  /** The files say of the saver they describe exactly what it runs. */
  ghost predicate Listed(files: Files, r: Running) {
    Pids(files.pid) == r.pids && files.names == Some(Join(r.modules, '\n') + "\n")
  }

  ghost predicate Invariant(st: State) {
    && Distinct(st.savers, st.used) && FileUsed(st.files, st.used)
    && (!st.failed ==> forall s :: s in st.savers && Names(st.files, st.savers[s]) ==> Listed(st.files, st.savers[s]))
  }

  lemma DistinctKept(st: State, e: Event)
    requires Distinct(st.savers, st.used) && Possible(st, e)
    ensures Distinct(Step(st, e).savers, Step(st, e).used)
  {
    match e {
      case Launched(s, running, _) =>
      case Replaced(s, i, pid, _, _) => ReplacedDistinct(st, e);
      case Stopped(s, _) =>
      case Scrapped(_, _, _) =>
    }
  }

  lemma ReplacedDistinct(st: State, e: Event)
    requires Distinct(st.savers, st.used) && Possible(st, e) && e.Replaced?
    ensures Distinct(st.savers[e.s := After(st.savers[e.s], e)], st.used + {e.pid})
  {
    var now := After(st.savers[e.s], e);
    assert forall i :: 0 <= i < |now.pids| ==> now.pids[i] == if i == e.i then e.pid else st.savers[e.s].pids[i];
  }

  lemma FileUsedKept(st: State, e: Event)
    requires Distinct(st.savers, st.used) && FileUsed(st.files, st.used) && Possible(st, e)
    ensures FileUsed(Step(st, e).files, Step(st, e).used)
  {
    match e {
      case Launched(s, running, _) => WriteThenRead(running.pids);
      case Replaced(s, i, pid, _, _) => WriteThenRead(After(st.savers[s], e).pids);
      case Stopped(_, _) =>
      case Scrapped(_, _, _) => ScrappedNamesNothing(st, e);
    }
  }

  /** A launch that is stopped before it wrote the files finds them describing
      someone else, or no one. */
  lemma ScrappedNamesNothing(st: State, e: Event)
    requires FileUsed(st.files, st.used) && Possible(st, e) && e.Scrapped?
    ensures !Names(st.files, e.running) && Step(st, e).files == st.files
  {
    if Pids(st.files.pid) != [] {
      assert Pids(st.files.pid)[0] in Pids(st.files.pid);
    }
  }

  /** Two savers are never described at once. */
  lemma OneIsNamed(st: State, s: SaverId, o: SaverId)
    requires Distinct(st.savers, st.used) && s in st.savers && o in st.savers && s != o
    requires Names(st.files, st.savers[o])
    ensures !Names(st.files, st.savers[s])
  {
    if st.savers[s].pids != [] && st.savers[o].pids != [] {
      assert st.savers[s].pids[0] != st.savers[o].pids[0];
    }
  }

  /** What the files say of the saver an event is about. */
  lemma ListedAfter(st: State, e: Event)
    requires Invariant(st) && Possible(st, e) && !st.failed && e.allowed == ALL && (e.Launched? || e.Replaced?)
    ensures var t := Step(st, e); Names(t.files, t.savers[e.s]) ==> Listed(t.files, t.savers[e.s])
  {
    match e {
      case Launched(s, running, _) =>
        WriteThenRead(running.pids);
      case Replaced(s, i, pid, _, _) =>
        var now := After(st.savers[s], e);
        WriteThenRead(now.pids);
        if !Names(st.files, st.savers[s]) {
          assert Pids(st.files.pid) != [] ==> Pids(st.files.pid)[0] in Pids(st.files.pid);
          if i == 0 {
            assert now.pids[0] == pid;
          } else {
            assert now.pids[0] == st.savers[s].pids[0];
          }
        }
    }
  }

  lemma StepKeeps(st: State, e: Event)
    requires Invariant(st) && Possible(st, e)
    ensures Invariant(Step(st, e))
  {
    var t := Step(st, e);
    DistinctKept(st, e);
    FileUsedKept(st, e);
    if !t.failed {
      if e.Scrapped? {
        ScrappedNamesNothing(st, e);
      }
      forall o | o in t.savers && Names(t.files, t.savers[o])
        ensures Listed(t.files, t.savers[o])
      {
        if e.Scrapped? {
        } else if o == e.s {
          ListedAfter(st, e);
        } else {
          OthersListed(st, e, o);
        }
      }
    }
  }

  /** A saver the event is not about is described after it only if it was before,
      and then the files are the same. */
  lemma OthersListed(st: State, e: Event, o: SaverId)
    requires Invariant(st) && Possible(st, e) && !e.Scrapped? && o in Step(st, e).savers && o != e.s
    requires Names(Step(st, e).files, st.savers[o]) && e.allowed == ALL
    ensures Step(st, e).files == st.files
  {
    var t := Step(st, e);
    DistinctKept(st, e);
    match e {
      case Launched(s, running, _) =>
        WriteThenRead(running.pids);
        OneIsNamed(t, s, o);
      case Replaced(s, _, _, _, _) =>
        if Names(st.files, st.savers[s]) {
          WriteThenRead(After(st.savers[s], e).pids);
          OneIsNamed(t, s, o);
        }
      case Stopped(s, _) =>
    }
  }

  lemma {:induction false} EveryReachableState(run: seq<State>, events: seq<Event>, k: nat)
    requires IsRun(run, events) && k < |run|
    ensures Invariant(run[k])
  {
    if k > 0 {
      EveryReachableState(run, events, k - 1);
      StepKeeps(run[k - 1], events[k - 1]);
    }
  }

  /** No Stop or Replace touches files that describe another saver. */
  lemma OnlyItsOwnFiles(run: seq<State>, events: seq<Event>, k: nat, o: SaverId)
    requires IsRun(run, events) && k < |events| && !events[k].Launched?
    requires o in run[k].savers && o != events[k].s && Names(run[k].files, run[k].savers[o])
    ensures run[k + 1].files == run[k].files
  {
    EveryReachableState(run, events, k);
    assert Possible(run[k], events[k]);
    if events[k].Scrapped? {
      ScrappedNamesNothing(run[k], events[k]);
    } else {
      OneIsNamed(run[k], events[k].s, o);
    }
  }

  /** And its own are cleared by the Stop of the saver they describe: with every
      removal allowed nothing is left of them. */
  lemma StopClears(run: seq<State>, events: seq<Event>, k: nat)
    requires IsRun(run, events) && k < |events| && events[k].Stopped? && events[k].s in run[k].savers
    requires var pids := run[k].savers[events[k].s].pids;
      pids != [] && Pids(run[k].files.pid) != [] && Pids(run[k].files.pid)[0] == pids[0]
    ensures Cleared(run[k].files, events[k].allowed, run[k + 1].files)
    ensures events[k].allowed == Allowed(true, true, true) ==> run[k + 1].files == Files(None, None, None)
    ensures events[k].s !in run[k + 1].savers
  {
    assert Possible(run[k], events[k]);
  }

  /** The whole life of a saver that nothing interferes with: its launch writes the
      files, and its Stop leaves none. */
  lemma LaunchThenStop(launched: Running, files: Files) returns (run: seq<State>, events: seq<Event>)
    requires launched.pids != [] && Fresh(launched, set pid | pid in Pids(files.pid))
    ensures IsRun(run, events) && events == [Launched(0, launched, ALL), Stopped(0, ALL)] && run[0].files == files
    ensures Listed(run[1].files, launched) && run[2].files == Files(None, None, None) && run[2].savers == map[]
  {
    var s0 := State(files, map[], set pid | pid in Pids(files.pid), false);
    var s1 := Step(s0, Launched(0, launched, ALL));
    WriteThenRead(launched.pids);
    run, events := [s0, s1, Step(s1, Stopped(0, ALL))], [Launched(0, launched, ALL), Stopped(0, ALL)];
  }

  /** The swap: once a saver's launch has written the files, they go on describing
      it, untouched, however many of the others are stopped or replaced. */
  lemma {:induction false} TheNewSaverKeepsTheFiles(run: seq<State>, events: seq<Event>, j: nat, k: nat, o: SaverId)
    requires IsRun(run, events) && j <= k < |run| && o in run[j].savers && Names(run[j].files, run[j].savers[o])
    requires forall i :: j <= i < k ==> !events[i].Launched? && events[i].s != o
    ensures run[k].files == run[j].files && o in run[k].savers && run[k].savers[o] == run[j].savers[o]
  {
    if j < k {
      TheNewSaverKeepsTheFiles(run, events, j, k - 1, o);
      OnlyItsOwnFiles(run, events, k - 1, o);
    }
  }

  /** Replace carries the ownership on: the files describe the saver afterwards
      exactly when they could be written or another monitor than the first, whose
      PID stands for the saver, was replaced. */
  lemma ReplaceCarriesOwnership(run: seq<State>, events: seq<Event>, k: nat)
    requires IsRun(run, events) && k < |events| && events[k].Replaced?
    requires events[k].s in run[k].savers && Names(run[k].files, run[k].savers[events[k].s])
    ensures Names(run[k + 1].files, run[k + 1].savers[events[k].s]) <==> events[k].allowed.pid || events[k].i != 0
  {
    EveryReachableState(run, events, k);
    var st, e := run[k], events[k];
    assert Possible(st, e);
    var former, now := st.savers[e.s], After(st.savers[e.s], e);
    WriteThenRead(now.pids);
    assert Pids(st.files.pid)[0] == First(former.pids) && former.pids[0] in st.used;
  }

  /** The files describe no saver there is. */
  ghost predicate Orphaned(st: State) {
    forall s :: s in st.savers ==> !Names(st.files, st.savers[s])
  }

  lemma OrphanedStands(st: State, e: Event)
    requires Invariant(st) && Orphaned(st) && Possible(st, e) && !e.Launched?
    ensures Orphaned(Step(st, e)) && Step(st, e).files == st.files
  {
    match e {
      case Scrapped(_, _, _) =>
        ScrappedNamesNothing(st, e);
      case Replaced(s, i, pid, _, _) =>
        if Pids(st.files.pid) != [] {
          assert Pids(st.files.pid)[0] in Pids(st.files.pid);
        }
        assert First(After(st.savers[s], e).pids) == if i == 0 then pid else First(st.savers[s].pids);
      case Stopped(_, _) =>
    }
  }

  /** When the PID file could not be written as the module on the first monitor was
      replaced, the files describe no saver any more, and no Stop or Replace, of
      whichever saver, touches them until another launch. */
  lemma {:induction false} OrphanedFilesStay(run: seq<State>, events: seq<Event>, j: nat, k: nat)
    requires IsRun(run, events) && j < k < |run| && events[j].Replaced? && events[j].i == 0 && !events[j].allowed.pid
    requires events[j].s in run[j].savers && Names(run[j].files, run[j].savers[events[j].s])
    requires forall n :: j < n < k ==> !events[n].Launched?
    ensures Orphaned(run[k]) && run[k].files == run[j + 1].files
    decreases k
  {
    if k == j + 1 {
      EveryReachableState(run, events, k);
      EveryReachableState(run, events, j);
      ReplaceCarriesOwnership(run, events, j);
      assert Possible(run[j], events[j]);
      forall o | o in run[k].savers && o != events[j].s ensures !Names(run[k].files, run[k].savers[o]) {
        OneIsNamed(run[j], o, events[j].s);
      }
    } else {
      OrphanedFilesStay(run, events, j, k - 1);
      EveryReachableState(run, events, k - 1);
      assert Possible(run[k - 1], events[k - 1]);
      OrphanedStands(run[k - 1], events[k - 1]);
    }
  }

  /** Any launch can come to that, with one such Replace. */
  lemma FilesCanBeOrphaned(launched: Running, pid: nat, name: string) returns (run: seq<State>, events: seq<Event>)
    requires Fresh(launched, {pid}) && launched.pids != [] && 1 < pid <= MAX_INT64
    ensures IsRun(run, events) && |events| == 2 && events[1] == Replaced(0, 0, pid, name, Allowed(false, true, true))
    ensures 0 in run[1].savers && Names(run[1].files, run[1].savers[0])
    ensures Orphaned(run[2]) && Pids(run[2].files.pid) == launched.pids
  {
    var s0 := State(Files(None, None, None), map[], {}, false);
    var e0, e1 := Launched(0, launched, ALL), Replaced(0, 0, pid, name, Allowed(false, true, true));
    var s1 := Step(s0, e0);
    WriteThenRead(launched.pids);
    assert s1.savers[0] == launched && s1.files.pid == Some(PidText(launched.pids));
    assert pid !in s1.used;
    run, events := [s0, s1, Step(s1, e1)], [e0, e1];
    assert After(launched, e1).pids[0] == pid && launched.pids[0] != pid;
  }

  /** Without a failed write or removal, files that describe a saver list exactly
      its processes and its modules: what `retrosaver stop` signals and what
      `retrosaver run` names is what is on screen. */
  lemma FilesTellTheTruth(run: seq<State>, events: seq<Event>, k: nat, s: SaverId)
    requires IsRun(run, events) && k < |run| && !run[k].failed
    requires s in run[k].savers && Names(run[k].files, run[k].savers[s])
    ensures Listed(run[k].files, run[k].savers[s])
  {
    EveryReachableState(run, events, k);
  }

  // ----- the pointer hider's file

  /** What the third file says when it is true of this saver. */
  function HiderFile(r: Running): Option<string> {
    if r.unclutter > 0 then Some(Decimal(r.unclutter) + "\n") else None
  }

  /** A replacement finds its saver described, if it leaves it described. */
  lemma DescribedBefore(st: State, e: Event)
    requires Invariant(st) && Possible(st, e) && e.Replaced? && e.allowed == ALL
    requires Names(Step(st, e).files, Step(st, e).savers[e.s])
    ensures Names(st.files, st.savers[e.s])
  {
    var now := After(st.savers[e.s], e);
    assert First(now.pids) == if e.i == 0 then e.pid else First(st.savers[e.s].pids);
    assert Pids(st.files.pid) != [] ==> Pids(st.files.pid)[0] in Pids(st.files.pid);
  }

  /** How saver s comes to be described after e: by its own launch, or because it was
      before, with the same third file unless the saver has a hider of its own. */
  ghost predicate HiderKept(st: State, e: Event, t: State, s: SaverId)
    requires s in t.savers
  {
    HiderNext(st, e, t, s) && (!e.Launched? ==> s in st.savers && Names(st.files, st.savers[s]))
  }

  predicate HiderNext(st: State, e: Event, t: State, s: SaverId) {
    && s in t.savers
    && var r := t.savers[s];
       if e.Launched? then
         e.s == s && t.files.unclutter == if r.unclutter > 0 then HiderFile(r) else st.files.unclutter
       else
         && s in st.savers && r.unclutter == st.savers[s].unclutter
         && (t.files.unclutter == st.files.unclutter || (r.unclutter > 0 && t.files.unclutter == HiderFile(r)))
  }

  lemma HiderStep(st: State, e: Event, s: SaverId)
    requires Invariant(st) && Possible(st, e) && (e.Scrapped? || e.allowed == ALL)
    requires s in Step(st, e).savers && Names(Step(st, e).files, Step(st, e).savers[s])
    ensures HiderKept(st, e, Step(st, e), s)
  {
    if e.Scrapped? {
      ScrappedNamesNothing(st, e);
    } else if e.s != s {
      OthersListed(st, e, s);
      if e.Launched? {
        LaunchIsDescribed(st, e, s);
      }
    } else if e.Replaced? {
      DescribedBefore(st, e);
    }
  }

  lemma HiderAt(run: seq<State>, events: seq<Event>, k: nat, s: SaverId)
    requires IsRun(run, events) && 0 < k < |run| && !run[k].failed
    requires s in run[k].savers && Names(run[k].files, run[k].savers[s])
    ensures HiderKept(run[k - 1], events[k - 1], run[k], s) && !run[k - 1].failed
  {
    EveryReachableState(run, events, k - 1);
    HiderStep(run[k - 1], events[k - 1], s);
  }

  /** After a launch that wrote its files no other saver is described. */
  lemma LaunchIsDescribed(st: State, e: Event, o: SaverId)
    requires Invariant(st) && Possible(st, e) && e.Launched? && e.allowed == ALL && o in st.savers && o != e.s
    ensures !Names(Step(st, e).files, st.savers[o])
  {
    DistinctKept(st, e);
    WriteThenRead(e.running.pids);
    if e.running.pids != [] {
      OneIsNamed(Step(st, e), o, e.s);
    }
  }

  /** The last launch before k is that of s, and the third file is its own hider's or
      what there was then. */
  ghost predicate HiderSince(run: seq<State>, events: seq<Event>, j: nat, k: nat, s: SaverId)
    requires j < k < |run| == |events| + 1 && s in run[k].savers
  {
    && events[j].Launched? && events[j].s == s && (forall n :: j < n < k ==> !events[n].Launched?)
    && run[k].files.unclutter == if run[k].savers[s].unclutter > 0 then HiderFile(run[k].savers[s]) else run[j].files.unclutter
  }

  /** Back to that launch, through the states in which s is described. */
  lemma {:induction false} HiderFrom(run: seq<State>, events: seq<Event>, k: nat, s: SaverId, at: set<nat>) returns (j: nat)
    requires |run| == |events| + 1 && k < |run| && k in at && 0 !in at
    requires forall n :: n in at ==> 0 < n < |run| && HiderNext(run[n - 1], events[n - 1], run[n], s)
    requires forall n :: n in at ==> events[n - 1].Launched? || n - 1 in at
    ensures j < k && s in run[k].savers && HiderSince(run, events, j, k, s)
    decreases k
  {
    assert HiderNext(run[k - 1], events[k - 1], run[k], s);
    if events[k - 1].Launched? {
      j := k - 1;
    } else {
      j := HiderFrom(run, events, k - 1, s, at);
    }
  }

  /** Without a failure, the third file of a saver that is described is its own if
      it has a pointer hider, and what was there when it was launched if not: it is
      true exactly when the saver has one or there was no such file. */
  lemma HiderFileIsTrueExactlyWhen(run: seq<State>, events: seq<Event>, k: nat, s: SaverId) returns (j: nat)
    requires IsRun(run, events) && k < |run| && !run[k].failed
    requires s in run[k].savers && Names(run[k].files, run[k].savers[s])
    ensures j < k && HiderSince(run, events, j, k, s)
    ensures run[k].files.unclutter == HiderFile(run[k].savers[s]) <==>
      run[k].savers[s].unclutter > 0 || run[j].files.unclutter == None
  {
    var at := set n: nat | n < |run| && s in run[n].savers && Names(run[n].files, run[n].savers[s]) && !run[n].failed;
    forall n | n in at ensures 0 < n && HiderNext(run[n - 1], events[n - 1], run[n], s) && (events[n - 1].Launched? || n - 1 in at) {
      HiderAt(run, events, n, s);
    }
    j := HiderFrom(run, events, k, s, at);
  }

  lemma Swapped(before: Running, now: Running) returns (run: seq<State>, events: seq<Event>)
    requires Fresh(before, {}) && before.unclutter > 0
    requires Fresh(now, set pid | pid in before.pids) && now.unclutter == 0
    ensures IsRun(run, events) && events == [Launched(0, before, ALL), Launched(1, now, ALL)] && !run[2].failed
    ensures run[2].files == Files(Some(PidText(now.pids)), Some(Join(now.modules, '\n') + "\n"), HiderFile(before))
    ensures run[2].savers == map[0 := before, 1 := now]
  {
    var s0 := State(Files(None, None, None), map[], {}, false);
    var s1 := Step(s0, Launched(0, before, ALL));
    run, events := [s0, s1, Step(s1, Launched(1, now, ALL))], [Launched(0, before, ALL), Launched(1, now, ALL)];
  }

  /** A swap to a saver without a pointer hider leaves the third file naming that of
      the saver before it. */
  lemma SwapLeavesTheHider(before: Running, now: Running) returns (run: seq<State>, events: seq<Event>)
    requires Fresh(before, {}) && before.unclutter > 0
    requires Fresh(now, set pid | pid in before.pids) && now.pids != [] && now.unclutter == 0
    ensures IsRun(run, events) && events == [Launched(0, before, ALL), Launched(1, now, ALL), Stopped(0, ALL)] && !run[3].failed
    ensures 1 in run[3].savers && Names(run[3].files, run[3].savers[1])
    ensures run[3].files.unclutter == HiderFile(before) != HiderFile(run[3].savers[1])
  {
    run, events := Swapped(before, now);
    EveryReachableState(run, events, 2);
    WriteThenRead(now.pids);
    assert Names(run[2].files, now);
    OneIsNamed(run[2], 0, 1);
    run, events := run + [Step(run[2], Stopped(0, ALL))], events + [Stopped(0, ALL)];
  }
}
