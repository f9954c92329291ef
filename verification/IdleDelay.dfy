/** internal/session and cmd/retrosaver: who owns the session's idle-delay. The
    user's own value is saved to a file that only one setup can create, and is put
    back from it. */
module IdleDelay {
  import opened Wrappers

  /** What is restored when nothing was saved. */
  const DEFAULT: nat := 300

  /** The file setup saves to. It is empty between its creation and its writing. */
  datatype SavedFile = Absent | Empty | Holds(value: nat)

  /** What a restore reads off the file. */
  function Original(file: SavedFile): nat {
    if file.Holds? then file.value else DEFAULT
  }

  // ----- the operations, one at a time

  /** What teardown leaves of the setting and the file. */
  function Torn(setting: nat, file: SavedFile, restored: bool, cleared: bool): (nat, SavedFile) {
    (if restored then Original(file) else setting, if cleared then Absent else file)
  }

  /** Which of the calls of SaveIdleDelay work: reading the setting, creating the
      file, writing it, and removing it again after a failed write. */
  datatype Calls = Calls(read: bool, created: bool, written: bool, removed: bool)

  /** The file after SaveIdleDelay, and whether it worked. */
  function AfterSave(setting: nat, file: SavedFile, calls: Calls): (SavedFile, bool) {
    if !calls.read then (file, false)
    else if file != Absent then (file, true)
    else if !calls.created then (Absent, false)
    else if calls.written then (Holds(setting), true)
    else (if calls.removed then Absent else Empty, false)
  }

  /** The session's setting and the saved value. Parameters say which of the calls
      to the outside work. */
  class Desktop {
    var setting: nat
    var saved: SavedFile

    constructor (setting: nat)
      ensures this.setting == setting && saved == Absent
    {
      this.setting, saved := setting, Absent;
    }

    method SetIdleDelay(seconds: int, works: bool) returns (ok: bool)
      modifies this`setting
      ensures ok <==> seconds >= 0 && works
      ensures setting == if ok then seconds else old(setting)
    {
      if seconds < 0 || !works {
        return false;
      }
      setting := seconds;
      return true;
    }

    /** SaveIdleDelay: reads first, creates the file only where there is none, and
        leaves no empty file behind unless it cannot be removed either. */
    method SaveIdleDelay(calls: Calls) returns (ok: bool)
      modifies this`saved
      ensures (saved, ok) == AfterSave(setting, old(saved), calls)
      ensures ok <==> calls.read && (old(saved) != Absent || (calls.created && calls.written))
      ensures old(saved) != Absent ==> saved == old(saved)
      ensures old(saved) == Absent ==>
        saved == if !calls.read || !calls.created then Absent else if calls.written then Holds(setting)
                 else if calls.removed then Absent else Empty
    {
      if !calls.read {
        return false;
      }
      var current := setting;
      if saved != Absent {
        return true;
      }
      if !calls.created {
        return false;
      }
      saved := Empty;
      if !calls.written {
        if calls.removed {
          saved := Absent;
        }
        return false;
      }
      saved := Holds(current);
      return true;
    }

    /** RestoreIdleDelay: a file without a value gives the default. */
    method RestoreIdleDelay(works: bool) returns (ok: bool)
      modifies this`setting
      ensures ok == works && (!ok ==> setting == old(setting))
      ensures ok ==> setting == if saved.Holds? then saved.value else 300
    {
      var seconds := DEFAULT;
      var read := saved;
      if read.Holds? {
        seconds := read.value;
      }
      ok := SetIdleDelay(seconds, works);
    }

    method ClearSavedIdleDelay(works: bool) returns (ok: bool)
      modifies this`saved
      ensures ok == works && saved == if ok then Absent else old(saved)
    {
      if works {
        saved := Absent;
      }
      return works;
    }

    /** cmdSetup: saves before it sets, and starts the daemon last. */
    method Setup(calls: Calls, settable: bool, started: bool) returns (ok: bool)
      modifies this
      ensures saved == AfterSave(old(setting), old(saved), calls).0
      ensures var passes := calls.read && (old(saved) != Absent || (calls.created && calls.written));
        && (ok <==> passes && settable && started)
        && setting == (if passes && settable then 0 else old(setting))
        && (old(saved) != Absent ==> saved == old(saved))
        && (old(saved) == Absent && passes ==> saved == Holds(old(setting)))
    {
      ok := SaveIdleDelay(calls);
      if !ok {
        return;
      }
      ok := SetIdleDelay(0, settable);
      if !ok {
        return;
      }
      ok := started;
    }

    /** What the daemon and its unit do to the setting from being started to being
        disabled: it is 0, 10 while blanked, and restored when the daemon stops. */
    method RunDaemon()
      modifies this`setting
      ensures setting in {0, 10, old(setting), Original(saved)}
    {
      var n: nat := *;
      while n > 0
        invariant setting in {0, 10, old(setting), Original(saved)}
      {
        var blank: bool := *;
        var stops: bool := *;
        var works: bool := *;
        if stops {
          var _ := RestoreIdleDelay(works);
        } else {
          var _ := SetIdleDelay(if blank then 10 else 0, works);
        }
        n := n - 1;
      }
    }

    /** cmdTeardown, once the unit is disabled: each part is tried whatever became
        of the one before; the saved value is cleared even when it could not be
        restored. */
    method Teardown(modulesGone: bool, restored: bool, cleared: bool) returns (ok: bool)
      modifies this
      ensures ok <==> modulesGone && restored && cleared
      ensures (setting, saved) == Torn(old(setting), old(saved), restored, cleared)
      ensures setting == if !restored then old(setting) else if old(saved).Holds? then old(saved).value else 300
      ensures saved == if cleared then Absent else old(saved)
    {
      var first := RestoreIdleDelay(restored);
      var second := ClearSavedIdleDelay(cleared);
      return modulesGone && first && second;
    }
  }

  /** The whole cycle: after a setup and a teardown that reported no error, with
      any number of setups and daemon runs in between, the session has the
      idle-delay it had, and nothing is saved any more. */
  method SetupAndTeardown(d: Desktop, first: Calls, others: seq<Calls>)
    requires d.saved == Absent && first.read && first.created && first.written
    modifies d
    ensures d.setting == old(d.setting) && d.saved == Absent
  {
    var _ := d.Setup(first, true, true);
    for i := 0 to |others|
      invariant d.saved == Holds(old(d.setting))
    {
      d.RunDaemon();
      var settable: bool := *;
      var started: bool := *;
      var _ := d.Setup(others[i], settable, started);
    }
    d.RunDaemon();
    var _ := d.Teardown(true, true, true);
  }

  // ----- any number of setups at once, beside the daemons they start

  type SetupId = nat
  type RestoreId = nat

  /** How far one setup has come. `Read` and `Created` carry the value it read. An
      `Unlinked` one is about to write a file that a teardown has removed, and that
      no name leads to any more. */
  datatype Setup = Begun | Read(value: nat) | Created(value: nat) | Unlinked | Saved | Zeroed | Finished | Failed

  /** The setting, the saved file, the setups, the restores that have read the
      file and not written the setting yet, and whether the daemon was started. */
  datatype State = State(
    setting: nat,
    file: SavedFile,
    setups: map<SetupId, Setup>,
    restores: map<RestoreId, nat>,
    started: bool)

  datatype Event =
    | Begin(i: SetupId)
    | ReadSetting(i: SetupId)
    | Create(i: SetupId)
    | Write(i: SetupId)
    | WriteFails(i: SetupId, removed: bool)
    | SetZero(i: SetupId)
    | Start(i: SetupId)
    | GiveUp(i: SetupId)
    | DaemonSets(value: nat)
    | RestoreRead(r: RestoreId)
    | RestoreWrite(r: RestoreId)

  predicate Is(s: State, i: SetupId, at: Setup) {
    i in s.setups && s.setups[i] == at
  }

  /** Each step is one system call of one process. A setup whose call fails gives
      up there. */
  predicate Possible(s: State, e: Event) {
    match e
    case Begin(i) => i !in s.setups
    case ReadSetting(i) => Is(s, i, Begun)
    case Create(i) => i in s.setups && s.setups[i].Read?
    case Write(i) => i in s.setups && (s.setups[i].Created? || s.setups[i].Unlinked?)
    case WriteFails(i, _) => i in s.setups && (s.setups[i].Created? || s.setups[i].Unlinked?)
    case SetZero(i) => Is(s, i, Saved)
    case Start(i) => Is(s, i, Zeroed)
    case GiveUp(i) => i in s.setups && !s.setups[i].Created? && !s.setups[i].Unlinked? && !s.setups[i].Finished?
    case DaemonSets(value) => s.started && (value == 0 || value == 10)
    case RestoreRead(r) => s.started
    case RestoreWrite(r) => r in s.restores
  }

  function At(s: State, i: SetupId, at: Setup): State {
    s.(setups := s.setups[i := at])
  }

  function Step(s: State, e: Event): State
    requires Possible(s, e)
  {
    match e
    case Begin(i) => At(s, i, Begun)
    case ReadSetting(i) => At(s, i, Read(s.setting))
    case Create(i) => if s.file == Absent then At(s, i, Created(s.setups[i].value)).(file := Empty) else At(s, i, Saved)
    case Write(i) => At(s, i, Saved).(file := if s.setups[i].Created? then Holds(s.setups[i].value) else s.file)
    case WriteFails(i, removed) => At(s, i, Failed).(file := if removed then Absent else s.file)
    case SetZero(i) => At(s, i, Zeroed).(setting := 0)
    case Start(i) => At(s, i, Finished).(started := true)
    case GiveUp(i) => At(s, i, Failed)
    case DaemonSets(value) => s.(setting := value)
    case RestoreRead(r) => s.(restores := s.restores[r := Original(s.file)])
    case RestoreWrite(r) => s.(setting := s.restores[r], restores := s.restores - {r})
  }

  /** Nothing saved, nothing started, and the user's own value in the setting. */
  predicate Initial(s: State, v: nat) {
    s == State(v, Absent, map[], map[], false)
  }

  /** A run in which the setup that won the file also wrote it. */
  ghost predicate IsRun(run: seq<State>, events: seq<Event>, v: nat) {
    && |run| == |events| + 1 && Initial(run[0], v)
    && forall k :: 0 <= k < |events| ==> Possible(run[k], events[k]) && !events[k].WriteFails? && run[k + 1] == Step(run[k], events[k])
  }

  /** The user's value is still where it was: in the setting, in what each setup has
      read and in what each restore is about to write; and nobody who relies on a
      saved value, a setup past the saving, or writing to nowhere, or the daemon, is
      there to change it. */
  ghost predicate Untouched(s: State, v: nat) {
    && s.setting == v && !s.started
    && (forall r :: r in s.restores ==> s.restores[r] == v)
    && (forall i :: i in s.setups ==>
          && s.setups[i] != Unlinked && s.setups[i] != Saved && s.setups[i] != Zeroed
          && (s.setups[i].Read? ==> s.setups[i].value == v))
  }

  /** The file is empty exactly while one setup, which read the user's value, is
      about to write it. */
  ghost predicate Writing(file: SavedFile, setups: map<SetupId, Setup>, v: nat) {
    && (file == Empty <==> exists i :: i in setups && setups[i].Created?)
    && (forall i :: i in setups && setups[i].Created? ==> setups[i].value == v)
    && (forall i, j :: i in setups && j in setups && setups[i].Created? && setups[j].Created? ==> i == j)
  }

  ghost predicate Invariant(s: State, v: nat) {
    && (s.file.Holds? ==> s.file.value == v)
    && Writing(s.file, s.setups, v)
    && (s.file == Absent ==> Untouched(s, v))
  }

  lemma WritingKept(s: State, e: Event, v: nat)
    requires Invariant(s, v) && Possible(s, e) && !e.WriteFails?
    ensures Writing(Step(s, e).file, Step(s, e).setups, v)
  {
    var t := Step(s, e);
    if s.file == Empty {
      var i :| i in s.setups && s.setups[i].Created?;
      assert e != Write(i) ==> t.setups[i].Created?;
    }
    if e.Create? && s.file == Absent {
      assert t.setups[e.i].Created?;
    }
  }

  lemma StepKeeps(s: State, e: Event, v: nat)
    requires Invariant(s, v) && Possible(s, e) && !e.WriteFails?
    ensures Invariant(Step(s, e), v)
  {
    WritingKept(s, e, v);
  }

  lemma {:induction false} EveryReachableState(run: seq<State>, events: seq<Event>, v: nat, k: nat)
    requires IsRun(run, events, v) && k < |run|
    ensures Invariant(run[k], v)
  {
    if k > 0 {
      EveryReachableState(run, events, v, k - 1);
      StepKeeps(run[k - 1], events[k - 1], v);
    }
  }

  /** While the setup that wins the file writes it, the file never holds anything
      but the user's own value, for any number of setups beside the daemons they
      start and the restores those make. */
  lemma OnlyTheOriginalIsSaved(run: seq<State>, events: seq<Event>, v: nat, k: nat)
    requires IsRun(run, events, v) && k < |run|
    ensures run[k].file == Absent || run[k].file == Empty || run[k].file == Holds(v)
    ensures run[k].setting != v || run[k].started ==> run[k].file != Absent
    ensures (forall i :: i in run[k].setups ==> !run[k].setups[i].Created?) && run[k].file != Absent ==> Original(run[k].file) == v
  {
    EveryReachableState(run, events, v, k);
  }

  // ----- when the winning write fails

  /** Steps from any state on, without a failed write. */
  ghost predicate IsPath(path: seq<State>, events: seq<Event>) {
    && |path| == |events| + 1
    && forall k :: 0 <= k < |events| ==> Possible(path[k], events[k]) && !events[k].WriteFails? && path[k + 1] == Step(path[k], events[k])
  }

  lemma {:induction false} PathKeeps(path: seq<State>, events: seq<Event>, v: nat, k: nat)
    requires IsPath(path, events) && Invariant(path[0], v) && k < |path|
    ensures Invariant(path[k], v)
  {
    if k > 0 {
      PathKeeps(path, events, v, k - 1);
      StepKeeps(path[k - 1], events[k - 1], v);
    }
  }

  /** The user's value can be lost from here: some further steps save another. */
  ghost predicate CanLose(s: State, v: nat) {
    exists path, events :: IsPath(path, events) && path[0] == s && Lost(path[|events|], v)
  }

  /** Another value than the user's is saved. */
  predicate Lost(s: State, v: nat) {
    s.file.Holds? && s.file.value != v
  }

  lemma CannotLose(s: State, v: nat)
    requires Invariant(s, v)
    ensures !CanLose(s, v)
  {
    forall path, events | IsPath(path, events) && path[0] == s
      ensures !Lost(path[|events|], v)
    {
      PathKeeps(path, events, v, |events|);
    }
  }

  lemma PathFrom(s: State, e: Event, path: seq<State>, events: seq<Event>)
    requires Possible(s, e) && !e.WriteFails? && IsPath(path, events) && path[0] == Step(s, e)
    ensures IsPath([s] + path, [e] + events) && ([s] + path)[|events| + 1] == path[|events|]
  {
    var longer, more := [s] + path, [e] + events;
    forall k | 0 <= k < |more|
      ensures Possible(longer[k], more[k]) && !more[k].WriteFails? && longer[k + 1] == Step(longer[k], more[k])
    {
      if k > 0 {
        assert longer[k] == path[k - 1] && more[k] == events[k - 1] && longer[k + 1] == path[k];
      }
    }
  }

  lemma LoseOneStepLater(s: State, e: Event, v: nat)
    requires Possible(s, e) && !e.WriteFails? && CanLose(Step(s, e), v)
    ensures CanLose(s, v)
  {
    var path, events :| IsPath(path, events) && path[0] == Step(s, e) && Lost(path[|events|], v);
    PathFrom(s, e, path, events);
    assert ([s] + path)[0] == s;
  }

  lemma LostAlready(s: State, v: nat)
    requires Lost(s, v)
    ensures CanLose(s, v)
  {
    assert IsPath([s], []);
  }

  /** A setup that has read another value, with no file in its way. */
  lemma AnotherReadLoses(s: State, i: SetupId, v: nat)
    requires s.file == Absent && i in s.setups && s.setups[i].Read? && s.setups[i].value != v
    ensures CanLose(s, v)
  {
    var created := Step(s, Create(i));
    LostAlready(Step(created, Write(i)), v);
    LoseOneStepLater(created, Write(i), v);
    LoseOneStepLater(s, Create(i), v);
  }

  /** A setting that is no longer the user's, with no file: the next setup saves
      it. */
  lemma AnotherSettingLoses(s: State, v: nat)
    requires s.file == Absent && s.setting != v
    ensures CanLose(s, v)
  {
    var i := Above(s.setups.Keys);
    var begun := Step(s, Begin(i));
    var read := Step(begun, ReadSetting(i));
    AnotherReadLoses(read, i, v);
    LoseOneStepLater(begun, ReadSetting(i), v);
    LoseOneStepLater(s, Begin(i), v);
  }

  lemma DaemonLoses(s: State, v: nat)
    requires s.file == Absent && s.started
    ensures CanLose(s, v)
  {
    var e := DaemonSets(if v == 0 then 10 else 0);
    AnotherSettingLoses(Step(s, e), v);
    LoseOneStepLater(s, e, v);
  }

  /** A setup that got past the saving goes on to take the setting over. */
  lemma PastLoses(s: State, i: SetupId, v: nat)
    requires s.file == Absent && i in s.setups && (s.setups[i] == Unlinked || s.setups[i] == Saved || s.setups[i] == Zeroed)
    ensures CanLose(s, v)
    decreases s.setups[i] == Unlinked
  {
    if s.setups[i] == Unlinked {
      PastLoses(Step(s, Write(i)), i, v);
      LoseOneStepLater(s, Write(i), v);
    } else if s.setups[i] == Zeroed {
      DaemonLoses(Step(s, Start(i)), v);
      LoseOneStepLater(s, Start(i), v);
    } else {
      var zeroed := Step(s, SetZero(i));
      DaemonLoses(Step(zeroed, Start(i)), v);
      LoseOneStepLater(zeroed, Start(i), v);
      LoseOneStepLater(s, SetZero(i), v);
    }
  }

  lemma RestoreLoses(s: State, r: RestoreId, v: nat)
    requires s.file == Absent && r in s.restores && s.restores[r] != v
    ensures CanLose(s, v)
  {
    AnotherSettingLoses(Step(s, RestoreWrite(r)), v);
    LoseOneStepLater(s, RestoreWrite(r), v);
  }

  /** With no saved file and none being written, the user's value can be lost for
      good exactly when something has touched it or is about to. */
  lemma AbsentLosesExactlyWhen(s: State, v: nat)
    requires s.file == Absent && forall i :: i in s.setups ==> !s.setups[i].Created?
    ensures CanLose(s, v) <==> !Untouched(s, v)
  {
    if Untouched(s, v) {
      CannotLose(s, v);
    } else if s.setting != v {
      AnotherSettingLoses(s, v);
    } else if s.started {
      DaemonLoses(s, v);
    } else if r :| r in s.restores && s.restores[r] != v {
      RestoreLoses(s, r, v);
    } else if i :| i in s.setups && (s.setups[i] == Unlinked || s.setups[i] == Saved || s.setups[i] == Zeroed) {
      PastLoses(s, i, v);
    } else {
      var i :| i in s.setups && s.setups[i].Read? && s.setups[i].value != v;
      AnotherReadLoses(s, i, v);
    }
  }

  /** When, at any point of a run, the winning write fails and its empty file is
      removed, the user's value can be lost for good exactly when another setup or
      the daemon had relied on the file meanwhile. */
  lemma FailedWriteLosesExactlyWhen(run: seq<State>, events: seq<Event>, v: nat, k: nat, i: SetupId)
    requires IsRun(run, events, v) && k < |run| && i in run[k].setups && run[k].setups[i].Created?
    ensures CanLose(Step(run[k], WriteFails(i, true)), v) <==> !Untouched(run[k], v)
  {
    EveryReachableState(run, events, v, k);
    FailedSetupTouchesNothing(run[k], i, v);
    AbsentLosesExactlyWhen(Step(run[k], WriteFails(i, true)), v);
  }

  lemma FailedSetupTouchesNothing(s: State, i: SetupId, v: nat)
    requires i in s.setups && s.setups[i].Created?
    ensures Untouched(Step(s, WriteFails(i, true)), v) <==> Untouched(s, v)
  {
    var t := Step(s, WriteFails(i, true));
    assert forall j :: j in s.setups && j != i ==> t.setups[j] == s.setups[j];
    assert t.setups[i] == Failed && t.setups.Keys == s.setups.Keys;
  }

  lemma RunExtends(run: seq<State>, events: seq<Event>, v: nat, e: Event)
    requires IsRun(run, events, v) && Possible(run[|events|], e) && !e.WriteFails?
    ensures IsRun(run + [Step(run[|events|], e)], events + [e], v)
  {
  }

  /** Whatever the user's value is, two setups can come to that: the second passes
      the saving while the first has yet to write the file. */
  lemma TwoSetupsCanLose(v: nat) returns (run: seq<State>, events: seq<Event>)
    ensures IsRun(run, events, v) && events == [Begin(0), ReadSetting(0), Create(0), Begin(1), ReadSetting(1), Create(1)]
    ensures Is(run[6], 0, Created(v)) && CanLose(Step(run[6], WriteFails(0, true)), v)
  {
    run, events := [State(v, Absent, map[], map[], false)], [];
    var steps := [Begin(0), ReadSetting(0), Create(0), Begin(1), ReadSetting(1), Create(1)];
    for k := 0 to 6
      invariant IsRun(run, events, v) && |events| == k && events == steps[..k]
      invariant k == 1 ==> Is(run[1], 0, Begun)
      invariant k == 2 ==> Is(run[2], 0, Read(v))
      invariant k >= 3 ==> Is(run[k], 0, Created(v)) && run[k].file == Empty
      invariant k == 0 || k == 1 ==> run[k].file == Absent && run[k].setting == v && 1 !in run[k].setups
      invariant k == 2 || k == 3 ==> 1 !in run[k].setups && (k == 2 ==> run[k].file == Absent)
      invariant k == 4 ==> Is(run[4], 1, Begun)
      invariant k == 5 ==> 1 in run[5].setups && run[5].setups[1].Read?
      invariant k == 6 ==> Is(run[6], 1, Saved)
    {
      RunExtends(run, events, v, steps[k]);
      run := run + [Step(run[k], steps[k])];
      events := events + [steps[k]];
    }
    FailedWriteLosesExactlyWhen(run, events, v, 6, 0);
  }

  /** And when the empty file cannot be removed either, nothing is ever saved: from
      then on a restore gives the default. */
  lemma {:induction false} EmptyFileStays(path: seq<State>, events: seq<Event>, k: nat)
    requires IsPath(path, events) && k < |path|
    requires path[0].file == Empty && forall i :: i in path[0].setups ==> !path[0].setups[i].Created?
    ensures path[k].file == Empty && Original(path[k].file) == DEFAULT
    ensures forall i :: i in path[k].setups ==> !path[k].setups[i].Created?
  {
    if k > 0 {
      EmptyFileStays(path, events, k - 1);
      assert path[k] == Step(path[k - 1], events[k - 1]);
    }
  }

  // ----- teardown

  /** The unit is disabled, and the setting and the file are what Torn says; setups
      and restores that were under way go on, one that was writing the file without
      it. */
  function AfterTeardown(s: State, restored: bool, cleared: bool): State {
    var (setting, file) := Torn(s.setting, s.file, restored, cleared);
    s.(setting := setting, file := file, started := false, setups := if cleared then Severed(s.setups) else s.setups)
  }

  function Severed(setups: map<SetupId, Setup>): map<SetupId, Setup> {
    map i | i in setups :: if setups[i].Created? then Unlinked else setups[i]
  }

  /** A teardown after such a run gives the session back as it was exactly when the
      file was removed, and the setting was restored from it or had the value
      anyway: the user's value is cleared even where it was not restored. */
  lemma TeardownGivesBack(run: seq<State>, events: seq<Event>, v: nat, restored: bool, cleared: bool)
    requires IsRun(run, events, v)
    ensures var s := run[|events|];
      Torn(s.setting, s.file, restored, cleared) == (v, Absent) <==>
      (cleared || s.file == Absent) && (if restored then s.file == Holds(v) || v == DEFAULT else s.setting == v)
  {
    EveryReachableState(run, events, v, |events|);
  }

  /** And, with everything that is still under way followed to its end, the user's
      value can be lost for good after the teardown exactly when no value is saved
      any more and something has touched the setting or is about to. */
  lemma TeardownLosesExactlyWhen(run: seq<State>, events: seq<Event>, v: nat, restored: bool, cleared: bool)
    requires IsRun(run, events, v)
    ensures var t := AfterTeardown(run[|events|], restored, cleared);
      CanLose(t, v) <==> t.file == Absent && !Untouched(t, v)
  {
    var t := AfterTeardown(run[|events|], restored, cleared);
    EveryReachableState(run, events, v, |events|);
    if t.file == Absent {
      AbsentLosesExactlyWhen(t, v);
    } else {
      CannotLose(t, v);
    }
  }

  /** One setup up to where it is about to write the file. */
  lemma OneCreated(v: nat) returns (run: seq<State>, events: seq<Event>)
    ensures IsRun(run, events, v) && |events| == 3
    ensures run[3] == State(v, Empty, map[0 := Created(v)], map[], false)
  {
    var s0 := State(v, Absent, map[], map[], false);
    var s1 := Step(s0, Begin(0));
    var s2 := Step(s1, ReadSetting(0));
    run, events := [s0, s1, s2, Step(s2, Create(0))], [Begin(0), ReadSetting(0), Create(0)];
  }

  /** And on to the end, with the daemon it starts. */
  lemma OneSetup(v: nat) returns (run: seq<State>, events: seq<Event>)
    ensures IsRun(run, events, v) && |events| == 7
    ensures run[6] == State(0, Holds(v), map[0 := Finished], map[], true)
    ensures run[7].file == Holds(v) && run[7].setting != v && run[7].setups == map[0 := Finished]
  {
    run, events := OneCreated(v);
    var steps := [Write(0), SetZero(0), Start(0), DaemonSets(if v == 0 then 10 else 0)];
    for k := 0 to 4
      invariant IsRun(run, events, v) && |events| == k + 3
      invariant run[k + 3].file == if k == 0 then Empty else Holds(v)
      invariant run[k + 3].setups == map[0 := if k == 0 then Created(v) else if k == 1 then Saved else if k == 2 then Zeroed else Finished]
      invariant k == 3 ==> run[6] == State(0, Holds(v), map[0 := Finished], map[], true)
      invariant k == 4 ==> run[6] == State(0, Holds(v), map[0 := Finished], map[], true)
      invariant k <= 2 ==> run[k + 3].restores == map[] && (k == 2 ==> run[5].setting == 0)
      invariant k == 4 ==> run[k + 3].setting != v
    {
      RunExtends(run, events, v, steps[k]);
      run := run + [Step(run[k + 3], steps[k])];
      events := events + [steps[k]];
    }
  }

  /** A teardown that could not restore the setting removes the only copy of the
      user's value, whatever that is. */
  lemma UnrestoredTeardownLoses(v: nat) returns (run: seq<State>, events: seq<Event>)
    ensures IsRun(run, events, v) && run[|events|].file == Holds(v)
    ensures CanLose(AfterTeardown(run[|events|], false, true), v)
  {
    run, events := OneSetup(v);
    TeardownLosesExactlyWhen(run, events, v, false, true);
  }

  /** The steps of a restore, one after the other, do what RestoreIdleDelay does. */
  lemma RestoreSteps(s: State, r: RestoreId)
    requires s.started
    ensures Possible(s, RestoreRead(r)) && Possible(Step(s, RestoreRead(r)), RestoreWrite(r))
    ensures Step(Step(s, RestoreRead(r)), RestoreWrite(r)).setting == if s.file.Holds? then s.file.value else 300
    ensures Step(Step(s, RestoreRead(r)), RestoreWrite(r)).file == s.file
  {
  }

  /** And those of a setup, from any state on and by itself, what Setup does when no
      call fails: where nothing is saved yet, */
  lemma FirstSetupSteps(s: State, i: SetupId) returns (path: seq<State>, events: seq<Event>)
    requires i !in s.setups && s.file == Absent
    ensures IsPath(path, events) && path[0] == s
    ensures path[|events|] == s.(setting := 0, file := Holds(s.setting), setups := s.setups[i := Finished], started := true)
  {
    var s1 := Step(s, Begin(i));
    var s2 := Step(s1, ReadSetting(i));
    var s3 := Step(s2, Create(i));
    var s4 := Step(s3, Write(i));
    var s5 := Step(s4, SetZero(i));
    path, events := [s, s1, s2, s3, s4, s5, Step(s5, Start(i))], [Begin(i), ReadSetting(i), Create(i), Write(i), SetZero(i), Start(i)];
  }

  /** and where something is. */
  lemma LaterSetupSteps(s: State, i: SetupId) returns (path: seq<State>, events: seq<Event>)
    requires i !in s.setups && s.file != Absent
    ensures IsPath(path, events) && path[0] == s
    ensures path[|events|] == s.(setting := 0, setups := s.setups[i := Finished], started := true)
  {
    var s1 := Step(s, Begin(i));
    var s2 := Step(s1, ReadSetting(i));
    var s3 := Step(s2, Create(i));
    var s4 := Step(s3, SetZero(i));
    path, events := [s, s1, s2, s3, s4, Step(s4, Start(i))], [Begin(i), ReadSetting(i), Create(i), SetZero(i), Start(i)];
  }

  /** And so does one that removes the file under a setup that is about to write
      it, even when it could restore the setting: the setup goes on without the file. */
  lemma TeardownUnderASetupLoses(v: nat, restored: bool) returns (run: seq<State>, events: seq<Event>)
    ensures IsRun(run, events, v) && Is(run[|events|], 0, Created(v))
    ensures CanLose(AfterTeardown(run[|events|], restored, true), v)
  {
    run, events := OneCreated(v);
    TeardownLosesExactlyWhen(run, events, v, restored, true);
    assert AfterTeardown(run[3], restored, true).setups[0] == Unlinked;
  }

  /** A teardown where no setup ran sets the default, and so loses any other value. */
  lemma TeardownWithoutSetupLoses(v: nat) returns (run: seq<State>)
    requires v != DEFAULT
    ensures IsRun(run, [], v) && CanLose(AfterTeardown(run[0], true, true), v)
  {
    run := [State(v, Absent, map[], map[], false)];
    TeardownLosesExactlyWhen(run, [], v, true, true);
  }
}
