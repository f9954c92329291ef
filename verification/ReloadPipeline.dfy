/** internal/watch, cmd/retrosaver and internal/daemon: how an edit of the config
    file reaches the daemon. The kernel's queue, a reader, a debouncing goroutine,
    a relay and the event loop pass a token on through channels of capacity one,
    and every send that finds its channel full is dropped. */
module ReloadPipeline {

  /** An inotify event: about the config file, or about another in its directory. */
  datatype Notice = Ours | Another

  /** The inotify watch: not registered yet, reporting, or failed for good. */
  datatype Phase = Unregistered | Alive | Dead

  /** `version` counts the changes of the file, `seen` is the version the daemon
      read last, and `unclosed` counts the writes whose event is still to come. */
  datatype File = File(version: nat, seen: nat, unclosed: nat)

  /** The watch and the events the kernel has queued for it. */
  datatype Kernel = Kernel(watch: Phase, queue: seq<Notice>)

  /** watch.File: the reader about to send, raw, the settle timer, the debouncer
      about to send, and whether it still runs. */
  datatype Watcher = Watcher(holding: bool, raw: bool, armed: bool, sending: bool, runs: bool)

  /** reloadTriggers: the channel the watcher sends on, whether the relay listens to
      it, the signal channel, and the relay about to send. */
  datatype Relay = Relay(out: bool, listening: bool, hup: bool, relaying: bool)

  /** The event loop: the reload channel, and the daemon about to read the file. */
  datatype Loop = Loop(reload: bool, reading: bool)

  datatype State = State(file: File, kernel: Kernel, watcher: Watcher, relay: Relay, loop: Loop)

  datatype Event =
    // around the pipeline
    | Change
    | Close(overflow: bool)
    | OtherEvent(notice: Notice)
    | Signal
    | Register
    | Dies
    // the pipeline's own steps
    | ReadBatch(n: nat)
    | SendRaw
    | TakeRaw
    | Fire
    | SendOut
    | RunReturns
    | TakeOut
    | StopListening
    | TakeSignal
    | SendReload
    | TakeReload
    | ReadFile

  predicate Outside(e: Event) {
    e.Change? || e.Close? || e.OtherEvent? || e.Signal? || e.Register? || e.Dies?
  }

  predicate Possible(s: State, e: Event) {
    match e
    case Change => true
    case Close(_) => s.file.unclosed > 0
    case OtherEvent(_) => s.kernel.watch == Alive
    case Signal => true
    case Register => s.kernel.watch == Unregistered
    case Dies => s.kernel.watch == Alive && !s.watcher.holding
    case ReadBatch(n) => s.kernel.watch == Alive && !s.watcher.holding && 0 < n <= |s.kernel.queue|
    case SendRaw => s.watcher.holding
    case TakeRaw => s.watcher.runs && !s.watcher.sending && s.watcher.raw
    case Fire => s.watcher.runs && !s.watcher.sending && s.watcher.armed
    case SendOut => s.watcher.sending
    case RunReturns => s.watcher.runs && !s.watcher.sending && !s.watcher.raw && s.kernel.watch == Dead
    case TakeOut => s.relay.listening && !s.relay.relaying && s.relay.out
    case StopListening => s.relay.listening && !s.relay.relaying && !s.relay.out && !s.watcher.runs
    case TakeSignal => !s.relay.relaying && s.relay.hup
    case SendReload => s.relay.relaying
    case TakeReload => !s.loop.reading && s.loop.reload
    case ReadFile => s.loop.reading
  }

  /** A write is closed: the kernel queues an event, if it watches and has room. */
  function Closed(s: State, overflow: bool): State
    requires s.file.unclosed > 0
  {
    var closed := s.(file := s.file.(unclosed := s.file.unclosed - 1));
    if s.kernel.watch == Alive && !overflow then closed.(kernel := s.kernel.(queue := s.kernel.queue + [Ours]))
    else closed
  }

  /** One read takes the first n events and looks for the file among them. */
  function Batch(s: State, n: nat): State
    requires n <= |s.kernel.queue|
  {
    s.(kernel := s.kernel.(queue := s.kernel.queue[n..]), watcher := s.watcher.(holding := Ours in s.kernel.queue[..n]))
  }

  function Step(s: State, e: Event): State
    requires Possible(s, e)
  {
    match e
    case Change => s.(file := s.file.(version := s.file.version + 1, unclosed := s.file.unclosed + 1))
    case Close(overflow) => Closed(s, overflow)
    case OtherEvent(notice) => s.(kernel := s.kernel.(queue := s.kernel.queue + [notice]))
    case Signal => s.(relay := s.relay.(hup := true))
    case Register => s.(kernel := s.kernel.(watch := Alive))
    case Dies => s.(kernel := Kernel(Dead, []))
    case ReadBatch(n) => Batch(s, n)
    case SendRaw => s.(watcher := s.watcher.(holding := false, raw := true))
    case TakeRaw => s.(watcher := s.watcher.(raw := false, armed := true))
    case Fire => s.(watcher := s.watcher.(armed := false, sending := true))
    case SendOut => s.(watcher := s.watcher.(sending := false), relay := s.relay.(out := true))
    case RunReturns => s.(watcher := s.watcher.(armed := false, runs := false))
    case TakeOut => s.(relay := s.relay.(out := false, relaying := true))
    case StopListening => s.(relay := s.relay.(listening := false))
    case TakeSignal => s.(relay := s.relay.(hup := false, relaying := true))
    case SendReload => s.(relay := s.relay.(relaying := false), loop := s.loop.(reload := true))
    case TakeReload => s.(loop := Loop(false, true))
    case ReadFile => s.(loop := s.loop.(reading := false), file := s.file.(seen := s.file.version))
  }

  /** The daemon has loaded the config; the watch is registered only after that. */
  predicate Initial(s: State) {
    s == State(File(s.file.version, s.file.version, 0), Kernel(Unregistered, []),
               Watcher(false, false, false, false, true), Relay(false, true, false, false), Loop(false, false))
  }

  ghost predicate IsRun(run: seq<State>, events: seq<Event>) {
    && |run| == |events| + 1 && Initial(run[0])
    && forall k :: 0 <= k < |events| ==> Possible(run[k], events[k]) && run[k + 1] == Step(run[k], events[k])
  }

  /** Some stage holds a token that will have the file read. */
  predicate InFlight(s: State) {
    || Ours in s.kernel.queue
    || s.watcher.holding || s.watcher.raw || s.watcher.armed || s.watcher.sending
    || s.relay.out || s.relay.hup || s.relay.relaying
    || s.loop.reload || s.loop.reading
  }

  /** Nothing is read before it is there, and each token is where some goroutine
      will take it. */
  predicate Invariant(s: State) {
    && s.file.seen <= s.file.version
    && (s.kernel.queue != [] || s.watcher.holding ==> s.kernel.watch == Alive)
    && (s.watcher.raw || s.watcher.armed || s.watcher.sending || s.kernel.watch != Dead ==> s.watcher.runs)
    && (s.relay.out || s.watcher.runs ==> s.relay.listening)
  }

  lemma StepKeeps(s: State, e: Event)
    requires Invariant(s) && Possible(s, e)
    ensures Invariant(Step(s, e))
  {
  }

  lemma {:induction false} EveryReachableState(run: seq<State>, events: seq<Event>, k: nat)
    requires IsRun(run, events) && k < |run|
    ensures Invariant(run[k]) && run[k].file.seen <= run[k].file.version
  {
    if k > 0 {
      EveryReachableState(run, events, k - 1);
      StepKeeps(run[k - 1], events[k - 1]);
    }
  }

  /** Nothing is left for the pipeline to do. */
  ghost predicate Quiet(s: State) {
    forall e: Event :: Possible(s, e) ==> Outside(e)
  }

  /** A token on its way always has a step to take. */
  lemma TokensMove(s: State)
    requires Invariant(s) && Quiet(s)
    ensures !InFlight(s)
  {
    assert !Possible(s, SendRaw) && !Possible(s, TakeRaw) && !Possible(s, Fire) && !Possible(s, SendOut);
    assert !Possible(s, TakeOut) && !Possible(s, TakeSignal) && !Possible(s, SendReload) && !Possible(s, TakeReload);
    assert !Possible(s, ReadFile) && !Possible(s, ReadBatch(1));
  }

  // ----- which edits are lost

  /** Something sets the pipeline going: a write that is closed, or another event
      about the file, that reaches the kernel's queue, or a signal. */
  predicate Reports(s: State, e: Event) {
    match e
    case Close(overflow) => s.kernel.watch == Alive && !overflow
    case OtherEvent(notice) => notice == Ours
    case Signal => true
    case _ => false
  }

  /** Something that would have done so comes to nothing: a write is closed with no
      watch registered, after it failed, or with the kernel's queue full; or the
      watch fails with an event queued or the timer armed. */
  predicate Drops(s: State, e: Event) {
    match e
    case Close(overflow) => s.kernel.watch != Alive || overflow
    case Dies => Ours in s.kernel.queue
    case RunReturns => s.watcher.armed
    case _ => false
  }

  /** The file was changed, and not read since, by the first n events. */
  ghost predicate Unread(events: seq<Event>, n: nat)
    requires n <= |events|
  {
    exists c :: 0 <= c < n && events[c].Change? && forall i :: c < i < n ==> !events[i].ReadFile?
  }

  lemma UnreadOneMore(events: seq<Event>, n: nat)
    requires n < |events|
    ensures Unread(events, n + 1) <==> events[n].Change? || (Unread(events, n) && !events[n].ReadFile?)
  {
    if c :| 0 <= c < n && events[c].Change? && forall i :: c < i < n ==> !events[i].ReadFile? {
      assert events[n].ReadFile? || forall i :: c < i < n + 1 ==> !events[i].ReadFile?;
    }
  }

  lemma ReadStep(s: State, e: Event)
    requires Invariant(s) && Possible(s, e)
    ensures Step(s, e).file.seen < Step(s, e).file.version <==> e.Change? || (s.file.seen < s.file.version && !e.ReadFile?)
  {
  }

  /** What the daemon has not read yet shows in the events alone. */
  lemma {:induction false} UnreadMeans(run: seq<State>, events: seq<Event>, n: nat)
    requires IsRun(run, events) && n <= |events|
    ensures Unread(events, n) <==> run[n].file.seen < run[n].file.version
  {
    if n > 0 {
      UnreadMeans(run, events, n - 1);
      UnreadOneMore(events, n - 1);
      EveryReachableState(run, events, n - 1);
      ReadStep(run[n - 1], events[n - 1]);
    }
  }

  /** What becomes of the tokens in one step. */
  lemma TokenStep(s: State, e: Event)
    requires Possible(s, e)
    ensures Reports(s, e) ==> InFlight(Step(s, e))
    ensures InFlight(s) && !e.ReadFile? && !Drops(s, e) ==> InFlight(Step(s, e))
    ensures InFlight(Step(s, e)) ==> InFlight(s) || Reports(s, e)
    ensures e.ReadFile? ==> InFlight(s)
  {
    match e {
      case ReadBatch(n) =>
        assert s.kernel.queue == s.kernel.queue[..n] + s.kernel.queue[n..];
      case Close(overflow) =>
        assert (s.kernel.queue + [Ours])[|s.kernel.queue|] == Ours;
      case OtherEvent(notice) =>
        assert (s.kernel.queue + [notice])[|s.kernel.queue|] == notice;
      case _ =>
    }
  }

  /** At event j a report came to nothing while a change was unread and nothing else
      was on its way, and no report has come since, up to k. */
  ghost predicate LostAt(run: seq<State>, events: seq<Event>, j: nat, k: nat)
    requires |run| == |events| + 1 && k < |run|
  {
    && j < k && Drops(run[j], events[j]) && Unread(events, j + 1) && !InFlight(run[j + 1])
    && forall i :: j < i < k ==> !Reports(run[i], events[i])
  }

  lemma {:induction false} LostMeansUnread(run: seq<State>, events: seq<Event>, j: nat, k: nat)
    requires IsRun(run, events) && k < |run| && LostAt(run, events, j, k)
    ensures run[k].file.seen < run[k].file.version && !InFlight(run[k])
    decreases k
  {
    if k == j + 1 {
      UnreadMeans(run, events, k);
    } else {
      assert LostAt(run, events, j, k - 1);
      LostMeansUnread(run, events, j, k - 1);
      EveryReachableState(run, events, k - 1);
      TokenStep(run[k - 1], events[k - 1]);
      ReadStep(run[k - 1], events[k - 1]);
    }
  }

  /** The last step before an unread change with nothing on its way, every write
      closed: a drop, or one that kept it so without a report. */
  lemma LastStepBeforeLost(s: State, e: Event)
    requires Invariant(s) && Possible(s, e) && !Drops(s, e)
    requires Step(s, e).file.seen < Step(s, e).file.version && !InFlight(Step(s, e)) && Step(s, e).file.unclosed == 0
    ensures s.file.seen < s.file.version && !InFlight(s) && s.file.unclosed == 0 && !Reports(s, e)
  {
    TokenStep(s, e);
    ReadStep(s, e);
    CloseStep(s, e);
  }

  lemma LostStands(run: seq<State>, events: seq<Event>, j: nat, k: nat)
    requires |run| == |events| + 1 && k < |events| && LostAt(run, events, j, k) && !Reports(run[k], events[k])
    ensures LostAt(run, events, j, k + 1)
  {
  }

  /** Where the loss happened. */
  lemma {:induction false} UnreadMeansLost(run: seq<State>, events: seq<Event>, k: nat) returns (j: nat)
    requires IsRun(run, events) && k < |run|
    requires run[k].file.seen < run[k].file.version && !InFlight(run[k]) && run[k].file.unclosed == 0
    ensures LostAt(run, events, j, k)
  {
    EveryReachableState(run, events, k - 1);
    if Drops(run[k - 1], events[k - 1]) {
      UnreadMeans(run, events, k);
      j := k - 1;
    } else {
      LastStepBeforeLost(run[k - 1], events[k - 1]);
      j := UnreadMeansLost(run, events, k - 1);
      LostStands(run, events, j, k - 1);
    }
  }

  lemma CloseStep(s: State, e: Event)
    requires Possible(s, e)
    ensures Step(s, e).file.unclosed == 0 ==> !e.Change? && (s.file.unclosed == 0 || e.Close?)
    ensures e.Close? ==> Reports(s, e) || Drops(s, e)
  {
  }

  /** The last edit, exactly: once the pipeline is quiet and every write is closed,
      the daemon has not read the final contents if and only if, at some event, the
      report of an unread change was dropped with nothing else on its way and no
      report has come since. Every token dropped on a full channel is harmless. */
  lemma EditIsLostExactlyWhen(run: seq<State>, events: seq<Event>, k: nat)
    requires IsRun(run, events) && k < |run| && Quiet(run[k]) && run[k].file.unclosed == 0
    ensures run[k].file.seen != run[k].file.version <==> exists j :: LostAt(run, events, j, k)
  {
    EveryReachableState(run, events, k);
    TokensMove(run[k]);
    if run[k].file.seen < run[k].file.version {
      var j := UnreadMeansLost(run, events, k);
    }
    if j :| LostAt(run, events, j, k) {
      LostMeansUnread(run, events, j, k);
    }
  }

  /** While the watch never fails it is unregistered at first and alive for good
      from then on. */
  lemma {:induction false} AliveOnceRegistered(run: seq<State>, events: seq<Event>, k: nat)
    requires IsRun(run, events) && k < |run| && forall j :: 0 <= j < k ==> !events[j].Dies?
    ensures run[k].kernel.watch != Dead
    ensures run[k].kernel.watch == Alive <==> exists r :: 0 <= r < k && events[r].Register?
  {
    if k > 0 {
      AliveOnceRegistered(run, events, k - 1);
      assert Possible(run[k - 1], events[k - 1]) && run[k] == Step(run[k - 1], events[k - 1]);
      if events[k - 1].Register? {
        assert events[k - 1].Register?;
      }
    }
  }

  /** An edit closed before the watch is registered, which leaves a change unread
      with no token on its way, and no report since. */
  ghost predicate InTheGap(run: seq<State>, events: seq<Event>, j: nat, k: nat)
    requires |run| == |events| + 1 && k < |run|
  {
    && j < k && events[j].Close? && (forall r :: 0 <= r < j ==> !events[r].Register?)
    && Unread(events, j + 1) && !InFlight(run[j + 1])
    && forall i :: j < i < k ==> !Reports(run[i], events[i])
  }

  /** Hence, while the watch never fails and the kernel's queue never overflows, the
      gap between loading the config and registering the watch is the only way to
      lose an edit: the final contents are unread exactly when a write was closed
      in it, unnoticed then and not followed by any report. */
  lemma OnlyTheStartupGapLosesEdits(run: seq<State>, events: seq<Event>, k: nat)
    requires IsRun(run, events) && k < |run| && Quiet(run[k]) && run[k].file.unclosed == 0
    requires forall j :: 0 <= j < k ==> !events[j].Dies? && events[j] != Close(true)
    ensures run[k].file.seen != run[k].file.version <==> exists j :: InTheGap(run, events, j, k)
  {
    EditIsLostExactlyWhen(run, events, k);
    forall j: nat | j < k
      ensures LostAt(run, events, j, k) <==> InTheGap(run, events, j, k)
    {
      AliveOnceRegistered(run, events, j);
      assert Possible(run[j], events[j]);
    }
    if j :| LostAt(run, events, j, k) {
      assert InTheGap(run, events, j, k);
    }
    if j :| InTheGap(run, events, j, k) {
      assert LostAt(run, events, j, k);
    }
  }

  /** And with every write closed after the registration no edit is lost. */
  lemma NoEditIsLost(run: seq<State>, events: seq<Event>)
    requires IsRun(run, events) && Quiet(run[|events|]) && run[|events|].file.unclosed == 0
    requires forall j :: 0 <= j < |events| ==> !events[j].Dies? && events[j] != Close(true)
    requires forall j :: 0 <= j < |events| && events[j].Close? ==> exists r :: 0 <= r < j && events[r].Register?
    ensures run[|events|].file.seen == run[|events|].file.version
  {
    OnlyTheStartupGapLosesEdits(run, events, |events|);
  }

  /** A token on its way is read in the end, unless the watch fails first. */
  lemma {:induction false} TokensArrive(run: seq<State>, events: seq<Event>, i: nat, k: nat)
    requires IsRun(run, events) && i <= k < |run| && InFlight(run[i])
    requires forall n :: i <= n < k ==> !events[n].Change? && !events[n].Dies? && !events[n].RunReturns?
    ensures InFlight(run[k]) || run[k].file.seen == run[k].file.version
    decreases k
  {
    if i < k {
      TokensArrive(run, events, i, k - 1);
      TokenStep(run[k - 1], events[k - 1]);
      EveryReachableState(run, events, k - 1);
      ReadStep(run[k - 1], events[k - 1]);
    }
  }

  /** Any later report makes up for a lost one: after a signal, or another event
      about the file, that no further change follows, the daemon has the final
      contents when the pipeline is quiet again. */
  lemma LaterReportRecovers(run: seq<State>, events: seq<Event>, i: nat, k: nat)
    requires IsRun(run, events) && i < k < |run| && Reports(run[i], events[i]) && Quiet(run[k])
    requires forall n :: i < n < k ==> !events[n].Change? && !events[n].Dies? && !events[n].RunReturns?
    ensures run[k].file.seen == run[k].file.version
  {
    assert Possible(run[i], events[i]);
    TokenStep(run[i], events[i]);
    TokensArrive(run, events, i + 1, k);
    EveryReachableState(run, events, k);
    TokensMove(run[k]);
  }

  /** An edit closed in the gap: nothing is on its way, and the daemon keeps what it
      read until something else reports. */
  lemma StartupGapLosesAnEdit(first: nat) returns (run: seq<State>, events: seq<Event>)
    ensures IsRun(run, events) && run[0].file.version == first && events == [Change, Close(false), Register]
    ensures Quiet(run[3]) && run[3].file.unclosed == 0 && LostAt(run, events, 1, 3)
    ensures run[3].file.seen != run[3].file.version
  {
    var s0 := State(File(first, first, 0), Kernel(Unregistered, []),
               Watcher(false, false, false, false, true), Relay(false, true, false, false), Loop(false, false));
    var s1 := Step(s0, Change);
    var s2 := Step(s1, Close(false));
    var s3 := Step(s2, Register);
    run, events := [s0, s1, s2, s3], [Change, Close(false), Register];
    assert events[0].Change?;
  }

  // ----- the pipeline drains

  function Weight(token: bool, weight: nat): nat {
    if token then weight else 0
  }

  function WatcherMeasure(w: Watcher): nat {
    Weight(w.holding, 9) + Weight(w.raw, 8) + Weight(w.armed, 7) + Weight(w.sending, 6) + Weight(w.runs, 1)
  }

  function RelayMeasure(r: Relay): nat {
    Weight(r.out, 5) + Weight(r.hup, 5) + Weight(r.relaying, 4) + Weight(r.listening, 1)
  }

  function LoopMeasure(l: Loop): nat {
    Weight(l.reload, 3) + Weight(l.reading, 2)
  }

  /** How many steps the pipeline can still take without a new event. */
  function Measure(s: State): nat {
    10 * |s.kernel.queue| + WatcherMeasure(s.watcher) + RelayMeasure(s.relay) + LoopMeasure(s.loop)
  }

  /** The steps of the reader and of the debouncer. */
  predicate OfTheWatcher(e: Event) {
    e.ReadBatch? || e.SendRaw? || e.TakeRaw? || e.Fire? || e.SendOut? || e.RunReturns?
  }

  lemma WatcherDrains(s: State, e: Event)
    requires Possible(s, e) && OfTheWatcher(e)
    ensures Measure(Step(s, e)) < Measure(s)
  {
    if e.ReadBatch? {
      assert |s.kernel.queue[e.n..]| < |s.kernel.queue|;
    }
  }

  lemma RelayDrains(s: State, e: Event)
    requires Possible(s, e) && !Outside(e) && !OfTheWatcher(e)
    ensures Measure(Step(s, e)) < Measure(s)
  {
    assert Step(s, e).kernel == s.kernel && Step(s, e).watcher == s.watcher;
  }

  /** Every step of the pipeline brings it nearer to being quiet, whichever of the
      goroutines takes it. */
  lemma StepsDrain(s: State, e: Event)
    requires Possible(s, e) && !Outside(e)
    ensures Measure(Step(s, e)) < Measure(s)
  {
    if OfTheWatcher(e) {
      WatcherDrains(s, e);
    } else {
      RelayDrains(s, e);
    }
  }

  lemma InsideSteps(s: State, e: Event)
    requires Possible(s, e) && !Outside(e)
    ensures var t := Step(s, e);
      && t.file.version == s.file.version && t.file.unclosed == s.file.unclosed && t.kernel.watch == s.kernel.watch
      && (Drops(s, e) ==> s.kernel.watch == Dead)
      && (t.file.seen == if e.ReadFile? then s.file.version else s.file.seen)
  {
  }

  /** Left alone, in whatever order its goroutines run, the pipeline comes to rest,
      having read the file exactly when a token was on its way, unless the watch
      has failed. */
  method Drain(start: State) returns (s: State)
    requires Invariant(start)
    ensures Invariant(s) && !InFlight(s)
    ensures s.file.version == start.file.version && s.file.unclosed == start.file.unclosed
    ensures start.kernel.watch != Dead ==> s.file.seen == if InFlight(start) then start.file.version else start.file.seen
  {
    s := start;
    while InFlight(s)
      invariant Invariant(s) && s.kernel.watch == start.kernel.watch
      invariant s.file.version == start.file.version && s.file.unclosed == start.file.unclosed
      invariant !InFlight(start) ==> s == start
      invariant start.kernel.watch != Dead && InFlight(start) ==> InFlight(s) || s.file.seen == start.file.version
      decreases Measure(s)
    {
      var e: Event := *;
      if !Possible(s, e) || Outside(e) {
        e := AnyStep(s);
      }
      StepsDrain(s, e);
      StepKeeps(s, e);
      TokenStep(s, e);
      InsideSteps(s, e);
      s := Step(s, e);
    }
  }

  /** Some step that is possible while a token is on its way. */
  function AnyStep(s: State): (e: Event)
    requires Invariant(s) && InFlight(s)
    ensures Possible(s, e) && !Outside(e)
  {
    if s.loop.reading then ReadFile
    else if s.loop.reload then TakeReload
    else if s.relay.relaying then SendReload
    else if s.relay.hup then TakeSignal
    else if s.relay.out then TakeOut
    else if s.watcher.sending then SendOut
    else if s.watcher.armed then Fire
    else if s.watcher.raw then TakeRaw
    else if s.watcher.holding then SendRaw
    else ReadBatch(1)
  }
}
