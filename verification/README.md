# A verified model of retrosaver

retrosaver runs XScreenSaver modules on GNOME: a daemon without a mutex walks an
idle session through a saver, a lock and a blank stage, a configuration file
steers it, and a handful of small protocols (launching, exit reports, state files,
reload on edit, ownership of the session's idle-delay) hold it together. This
project models those parts and proves what they promise.

`dafny verify dfyconfig.toml` checks everything.

| part | files | form |
|---|---|---|
| The idle state machine of `internal/daemon` | `Machine.dfy` (the class, one method per handler, and the event loop), `IdleMachine.dfy` (what each event does, as functions on the state), `IdleMachineProofs.dfy`, `IdleMachineTheorems.dfy`, `IdleMachineEffects.dfy`, `IdleMachineLocks.dfy`, `IdleMachineFairness.dfy`, `IdleMachineRuns.dfy`, `Collaborators.dfy`, `Schedule.dfy`, `Limits.dfy`, `Modules.dfy` | each method of the class updates its fields in place and is proved equal to the function of its name, for whatever answers the collaborators gave; the theorems are about every run of those functions |
| The configuration text of `internal/config` and `config show` | `Text.dfy`, `Parser.dfy`, `Editor.dfy`, `EditorTheorems.dfy`, `Printer.dfy`, `Store.dfy`, `Readings.dfy`, `Settings.dfy` | loops proved equal to functions on text; the laws are about those functions |
| Exit reports and state files of `internal/window` | `ExitReports.dfy`, `StateFiles.dfy` | interleaved atomic steps, and classes that take them |
| inotify decoding and the reload pipeline | `Inotify.dfy`, `ReloadPipeline.dfy` | a loop over a byte buffer; interleaved atomic steps |
| Ownership of idle-delay | `IdleDelay.dfy` | a class for one process at a time, interleaved atomic steps for many |

Everything the code cannot control is nondeterministic: every fallible call may
fail, results and signals arrive in any order, watch ids may be stale, repeated or
unknown, and goroutines interleave step by step.

## What the proofs turned up

Each of these comes with the exact condition and, where something fails, with an
input or a run that shows it.

- The parser bounds each delay by itself, so a file it accepts can put the lock
  threshold before the saver's in int64 (`Limits.AcceptedDelaysCanWrap`); the
  stages stay in order exactly when the last threshold fits
  (`Schedule.StagesInOrderExactlyWhenTheyFit`,
  `Limits.AcceptedDelaysInOrderExactlyWhen`).
- The session is locked in an idle period exactly when a lock signal arrives with
  no blank signal before it (`IdleMachineTheorems.IdlePeriodEffects`): a blank
  signal delivered first skips the lock
  (`IdleMachineRuns.BlankingFirstSkipsTheLock`).
- A lock stops whatever is up or on its way exactly when a saver is up, a cancel
  function is stored, or nothing of this generation is on its way
  (`IdleMachineLocks.LockStopsExactlyWhen`). The comment at daemon.go:1064 promises
  it of every launch on its way; but the stored cancel function is that of the last
  launch begun, and the result of an earlier one clears it. So a launch can be
  left that a lock does not stop and that comes on screen behind it
  (`IdleMachineRuns.ALockCanMissALaunch`), and that no teardown cancels
  (`IdleMachineLocks.CancelledExactlyWhen`, `IdleMachineLocks.StoppingCancelsAllExactlyWhen`,
  `IdleMachineLocks.ShutdownLeavesRunning`).
- The guards of the two exit handlers against a later stage are never needed
  (`IdleMachineTheorems.ExitsBelongToTheSaverStage`).
- An exit on a monitor beyond the names on screen, which a launch that covers more
  monitors than it was given names can produce, is noted down within those names
  exactly when nothing is replaced there
  (`IdleMachineFairness.NotesWithinTheNamesExactlyWhen`); after two events a run can
  be where it would not be (`IdleMachineRuns.AnExitCanBePastTheNames`).
- When the reload pipeline is quiet and every write closed, the last edit is unread
  exactly when some report of it was dropped, by a watch that was not there, dead
  or overflowing, with nothing else on its way, and no report has come since
  (`ReloadPipeline.EditIsLostExactlyWhen`). While the watch works, that leaves the
  gap between loading the configuration and registering the watch
  (`ReloadPipeline.OnlyTheStartupGapLosesEdits`, `ReloadPipeline.StartupGapLosesAnEdit`);
  any later report makes up for it (`ReloadPipeline.LaterReportRecovers`), and
  tokens dropped on full channels are harmless.
- Teardown removes the saved idle-delay even when it could not restore it, and
  without any saved value it sets 300 (`IdleDelay.TeardownGivesBack`). The user's
  value can then be lost for good exactly when no value is saved any more and
  something has touched the setting or is about to
  (`IdleDelay.TeardownLosesExactlyWhen`, `IdleDelay.UnrestoredTeardownLoses`,
  `IdleDelay.TeardownWithoutSetupLoses`). A setup that was about to write the file
  when it was removed goes on without it, and so loses the value too
  (`IdleDelay.TeardownUnderASetupLoses`).
- When the setup that won the saved file fails to write it, the user's idle-delay
  can be lost for good exactly when another setup or the daemon had gone on
  meanwhile (`IdleDelay.FailedWriteLosesExactlyWhen`, `IdleDelay.TwoSetupsCanLose`).
- `config show` prints list values with Go's `%q`, whose escapes the parser does
  not undo: its output reads back as the settings exactly when no module name
  holds an escaped character (`Printer.PrintThenParse`); `EXCLUDE=a\b` is a file
  for which it does not (`Printer.OddNameIsNotReadBack`).
- After a Replace on the first monitor whose PID file could not be written, the
  state files describe no saver (`StateFiles.ReplaceCarriesOwnership`), and no Stop
  or Replace touches them until another launch (`StateFiles.OrphanedFilesStay`,
  `StateFiles.FilesCanBeOrphaned`).
- The file that names the pointer hider is only written for a saver that has one, so
  that of a saver without is true exactly when there was no such file at its launch
  (`StateFiles.HiderFileIsTrueExactlyWhen`); after a swap it can name the hider of
  the saver before (`StateFiles.SwapLeavesTheHider`).

## Model

| member | source | states |
|---|---|---|
| Daemon.Machine.constructor | internal/daemon/daemon.go:285-285 | a new machine is idle, in generation 0, with nothing on screen and an empty table |
| Daemon.Machine.AddIdle | internal/daemon/daemon.go:501-508 | on success the id returned, fresh, is in the table under its kind; on failure nothing changes; the monitor was really asked |
| Daemon.Machine.Arm | internal/daemon/daemon.go:477-499 | the new table is the specification's for the ids AddIdleWatch gave, cut off at the first refusal, and it fails exactly when there was one |
| Daemon.Machine.Rearm | internal/daemon/daemon.go:827-835 | every watch is asked to go, whichever removals fail, and the table is armed anew; it fails exactly when a watch was refused |
| Daemon.Machine.EnsureActiveWatch | internal/daemon/daemon.go:523-545 | the user-active watch is asked for once per idle period; a refusal is fatal exactly when no later stage is enabled |
| Daemon.Machine.SkipPassed | internal/daemon/daemon.go:641-662 | the next swap is the specification's for the idle time answered, and the counter is moved past the swaps skipped |
| Daemon.Machine.ArmCycle | internal/daemon/daemon.go:636-675 | the swap counter, the due time and the table are the specification's for the idle time the monitor answered, or could not; a watch is asked for exactly when the swap is due before the lock |
| Daemon.Machine.Pick | internal/daemon/daemon.go:865-893 | the name drawn follows the priority: unused, else off screen, else not in `also`, else any; it fails exactly when nothing can be selected; discovery failures included, the name is selectable and not in the avoid list that is left |
| Daemon.Machine.PickSet | internal/daemon/daemon.go:897-907 | n names, each drawn by that priority beside those before it, or none |
| Daemon.Machine.Monitors | internal/daemon/daemon.go:911-920 | one module when all monitors show the same, else as many as the launcher counted, or one when it could not |
| Daemon.Machine.StartLaunch | internal/daemon/daemon.go:930-959 | a launch of the current generation, for as many modules as are needed, is in flight and stored with its cancel function, unless nothing could be picked, which takes a failure to discover the modules or none to select, or it would replace a module by itself |
| Daemon.Machine.StopSaver | internal/daemon/daemon.go:1045-1060 | the stored launch is cancelled, the saver on screen stopped, and everything that refers to either cleared together |
| Daemon.Machine.Reset | internal/daemon/daemon.go:838-854 | back to the idle stage in a new generation; `blanked` is cleared exactly when idle-delay, which is asked for only then, could be set back |
| Daemon.Machine.CloseDead | internal/daemon/daemon.go:1146-1156 | a dead module's saver is stopped and forgotten; a live one is left alone |
| Daemon.Machine.OnSaver | internal/daemon/daemon.go:574-604 | the state after the saver signal is the specification's for the lock state, the idle time and the watches the collaborators answered: late, behind a lock, or the start of a launch |
| Daemon.Machine.OnCycle | internal/daemon/daemon.go:678-712 | the fired swap watch leaves the table; in the saver stage, unless the session answers that it is locked, the next swap is armed and a launch begun |
| Daemon.Machine.EnterStage | internal/daemon/daemon.go:714-738 | a late stage begins with the user-active watch asked for and the saver stopped |
| Daemon.Machine.OnLock | internal/daemon/daemon.go:714-727 | once per idle period: the stage advances, the saver stops, the session is asked to lock |
| Daemon.Machine.OnBlank | internal/daemon/daemon.go:729-744 | once per idle period: the stage advances, the saver stops, idle-delay is set to 10 and remembered if that worked |
| Daemon.Machine.OnActive | internal/daemon/daemon.go:746-757 | everything is reset and armed anew; it is fatal exactly when a watch was refused |
| Daemon.Machine.Reload | internal/daemon/daemon.go:763-797 | a config that cannot be loaded, or is the one in use, changes nothing; another replaces the config, the launcher then picks what was discovered, is in its INCLUDE unless that is empty and is not in its EXCLUDE, and everything is reset and armed anew |
| Daemon.Machine.Adopt | internal/daemon/daemon.go:1000-1031 | the saver that came up replaces the one on screen, which is stopped; one channel, Done or Exits, is listened to |
| Daemon.Machine.HandleLaunch | internal/daemon/daemon.go:961-1031 | a result of an old generation or a late stage is stopped or dropped; one that is wanted is adopted; a retryable failure is retried once; a dead module is closed when nothing is coming |
| Daemon.Machine.OnLockChange | internal/daemon/daemon.go:1077-1094 | a lock in the saver stage that finds a saver up, or a cancel function stored, starts a new generation and stops both; any other change of the lock state changes nothing |
| Daemon.Machine.OnModuleExit | internal/daemon/daemon.go:1108-1141 | the exit waits for a launch already coming, or begins one while fewer than three deaths were replaced and the session is unlocked, or closes the windows |
| Daemon.Machine.Retry | internal/daemon/daemon.go:1181-1209 | a turn of the loop either settles the exit or counts one more death and goes round |
| Daemon.Machine.ReplaceOn | internal/daemon/daemon.go:1188-1208 | one attempt counts one death, draws a module apart from the screen, and shows it exactly when the saver could start it |
| Daemon.Machine.OnCopyExit | internal/daemon/daemon.go:1166-1210 | the loop ends, and leaves what the specification gives for the attempts it made, each by the session's and the saver's answers: counted, drawn apart from the screen, and the one that ran shown on that monitor |
| Daemon.Machine.HandleWatch | internal/daemon/daemon.go:547-572 | a signal for an id in the table runs its handler, any other is ignored, and the invariant of the machine is kept |
| Daemon.Machine.Shutdown | internal/daemon/daemon.go:1216-1242 | the state is the specification's, with the result still waiting taken in; every saver ever received has been stopped exactly once and RestoreIdleDelay was called once |
| Daemon.Machine.Dispatch | internal/daemon/daemon.go:304-347 | a signal is ignored exactly when its channel is not selected on or its launch has reported; otherwise it becomes the event of its kind, and the state moves by that event |
| Daemon.Machine.EventLoop | internal/daemon/daemon.go:304-358 | the loop makes a run of the idle machine out of the signals, in order and without skipping any it could take, in whose every state the launcher picks by the config in use, and leaves early only when re-arming failed |
| Daemon.Machine.Serve | internal/daemon/daemon.go:304-358 | the loop and the teardown together: a run of the signals taken, then every saver stopped once and idle-delay restored once |
| Daemon.Started | internal/daemon/daemon.go:285-304 | the first arming fails exactly when a watch was refused, and otherwise every promise about runs applies |
| Daemon.Run | internal/daemon/daemon.go:273-358 | every way out past taking idle-delay over restores it once and leaves every saver stopped exactly once; it is not owned only when it could not be set, not armed only when a watch was refused; in between lies a run from the armed state |
| IdleMachineTheorems.EveryReachableState | internal/daemon/daemon.go:400-475 | the invariant on watches, launches, screen, counts and session holds in every state of every run |
| IdleMachineTheorems.StepKeeps | internal/daemon/daemon.go:304-347 | each event keeps that invariant, whatever the collaborators answer |
| IdleMachineEffects.LaunchesExactlyWhen | internal/daemon/daemon.go:574-604 | in every run Launch is called exactly when the saver signal starts the stage, a swap falls due in it, a launch of the current generation fails retryably before the lock stage with fewer than two attempts, or the module on screen exits with fewer than three deaths and nothing coming; for what was chosen, if that is not what is alive on screen; and only a session known to be locked holds it back |
| IdleMachineEffects.OnlyALockHoldsItBack | internal/daemon/daemon.go:608-622 | with the modules discovered and one to select, the first saver signal and a swap to other modules begin a launch exactly when the answer is not that the session is locked, an unknown state included |
| IdleMachineEffects.ScreenChangesExactlyWhen | internal/daemon/daemon.go:961-1060 | in every run a saver comes on screen exactly when a launch of the current generation comes up before the lock stage, with the modules it was of and one channel to listen to; it goes, stopped once, exactly when the user is back, a late stage begins, another comes up, the config changed, the session was locked, or it died with nothing coming; and a death alone leaves it there, marked |
| IdleMachineEffects.StoredExactlyWhen | internal/daemon/daemon.go:961-973 | in every run a launch is on its way from its beginning to its report, its context is released then, and the stored cancel function is that of the last one begun until a result of the generation, a teardown or a late stage clears it |
| IdleMachineEffects.GivesUpExactlyWhen | internal/daemon/daemon.go:523-545 | in every run the user-active watch is armed with the first stage that could register it, and the daemon gives up exactly when it was refused with LOCK_AFTER=0 or when a wanted watch was refused while arming anew |
| IdleMachineEffects.SwapsExactlyWhen | internal/daemon/daemon.go:636-675 | in every run a stage that begins and a swap in it, unless known to be locked, schedule the least swap still ahead of the idle time, with its watch at SAVER_DELAY + n * CYCLE_AFTER exactly when that comes before the lock |
| IdleMachineEffects.SwapsAtNoOtherTime | internal/daemon/daemon.go:677-712 | no other event counts or schedules a swap, and a swap watch that fired is gone |
| IdleMachineEffects.PeriodsEndExactlyWhen | internal/daemon/daemon.go:838-854 | in every run an idle period ends exactly when the user is back or the config changed, with every count, the avoid list, the screen and the stage as at the start and idle-delay 0 again if it could be written; until then each known signal is on record, the session is locked and blanked by the first such signal, and a death is counted exactly when it may be replaced |
| IdleMachineEffects.AttemptsExactly | internal/daemon/daemon.go:1166-1210 | in every run the exit of one monitor's module makes as many attempts as there is room for up to three, none once the session is known to be locked, ends with the first module that runs or when none can be picked, counts each, and shows the last one exactly if it runs |
| IdleMachineEffects.DrawnByPriority | internal/daemon/daemon.go:865-893 | a module is drawn from those not shown and not taken, else from those not on screen and not taken, else from those not taken, else from all, and the avoid list is kept, cut back to the screen, or emptied accordingly |
| IdleMachineEffects.SomethingIsDrawn | internal/daemon/daemon.go:865-893 | there is something to draw exactly when something can be selected |
| IdleMachineEffects.OnlyAllowedModules | internal/daemon/daemon.go:763-797 | after any number of reloads what is on screen, avoided or on its way in this generation was discovered, is in the INCLUDE in use unless that is empty, and is not in the EXCLUDE in use |
| IdleMachineTheorems.NeverStranded | internal/daemon/daemon.go:1096-1141 | while a module is dead on screen its saver is set, nothing listens to it, and an uncancelled launch of the current generation is in flight |
| IdleMachineTheorems.ReplacementSettles | internal/daemon/daemon.go:961-1031 | whatever that launch reports, the dead module is replaced, or closed and stopped once, or one last launch takes over |
| IdleMachineTheorems.SaversConserved | internal/daemon/daemon.go:961-1060 | over every run and order of results, the saver on screen has never been stopped and every other saver received exactly once |
| IdleMachineTheorems.ShutdownStopsEverySaver | internal/daemon/daemon.go:1216-1227 | after the teardown every saver received has been stopped exactly once, wherever the run ended |
| IdleMachineTheorems.ShutdownStops | internal/daemon/daemon.go:1216-1227 | the same from any state that conserves savers, a failed first arming included |
| IdleMachineTheorems.StepRemembers | internal/daemon/daemon.go:746-800 | no launch is forgotten or relabelled, and the generation moves by one exactly when the user is back, the config changed, or a lock found a saver up or a cancel function stored |
| IdleMachineTheorems.AbandonedLaunchNeverShows | internal/daemon/daemon.go:838-854 | a launch begun before the generation moved on is never on screen at any later time of the run |
| IdleMachineLocks.LockStopsExactlyWhen | internal/daemon/daemon.go:1062-1089 | in every reachable saver stage, a lock leaves no launch begun before it able to come on screen, by any further events, exactly when a saver is up, a cancel function is stored, or no launch of this generation is on its way |
| IdleMachineLocks.CancelledExactlyWhen | internal/daemon/daemon.go:1044-1060 | in every reachable state a launch on its way has been cancelled exactly when the saver was stopped, by whichever event, while the stored cancel function was its own |
| IdleMachineLocks.StoppingCancelsAllExactlyWhen | internal/daemon/daemon.go:1044-1060 | before the lock stage, stopping the saver cancels all of this generation that is on its way exactly when that is the stored launch alone |
| IdleMachineLocks.ShutdownLeavesRunning | internal/daemon/daemon.go:1216-1227 | the teardown leaves running exactly the launches on their way that are neither stored nor were when the saver was last stopped |
| IdleMachineRuns.ALockCanMissALaunch | internal/daemon/daemon.go:961-1031 | a run in which the result of one launch clears the cancel function of the next, a lock changes nothing, and that next launch comes on screen behind it |
| IdleMachineTheorems.ExitsBelongToTheSaverStage | internal/daemon/daemon.go:1119-1121 | an exit is only seen in the saver stage with an unstopped saver on screen, so the handlers' guards against a later stage are never taken and Replace always has a saver |
| IdleMachineTheorems.LaunchBudget | internal/daemon/daemon.go:38-48 | in one idle period Launch is called at most 2(1 + swaps + deaths) times with deaths at most 3 and, when locking, swaps times CYCLE_AFTER below LOCK_AFTER; Replace at most 3 times per monitor |
| IdleMachineTheorems.TableAsConfigured | internal/daemon/daemon.go:477-545 | unless it is about to exit, the table holds exactly one saver watch, one lock and one blank watch exactly when enabled, one user-active watch exactly when armed, at most one swap watch and none in the idle stage, each at its threshold, five at most |
| IdleMachineTheorems.KindsBound | internal/daemon/daemon.go:684-687 | a table with one watch per kind has no more entries than kinds |
| IdleMachineTheorems.StaleIdsStayUnknown | internal/daemon/daemon.go:547-554 | after a re-arming, an id handed out before leaves the machine unchanged for the rest of the run |
| IdleMachineTheorems.IdlePeriodEffects | internal/daemon/daemon.go:714-744 | for any order and repetition of signals between two resets the stage is the furthest delivered, Lock is called once exactly when a lock signal had no blank signal before it, blanking once exactly when a blank signal came, and idle-delay is 10 exactly when `blanked` says so, else 0 |
| IdleMachineRuns.BlankingFirstSkipsTheLock | internal/daemon/daemon.go:714-744 | a run with locking enabled in which the blank signal comes before the lock signal and the session is never locked |
| IdleMachineTheorems.OneMoreDrawn | internal/daemon/daemon.go:865-893 | a module drawn beside others is a new one as long as one is left |
| IdleMachineTheorems.DrawnAreDistinct | internal/daemon/daemon.go:897-907 | names drawn one after another hold exactly as many different ones as there are, or as can be selected |
| IdleMachineTheorems.PickedSetIsVaried | internal/daemon/daemon.go:895-907 | a launch for n monitors picks exactly when something can be selected, and min(n, selectable) different modules |
| IdleMachineFairness.SlideshowIsFair | internal/daemon/daemon.go:858-893 | with one module for all monitors, in every run, an event that launches a module on the avoid list, or takes one off the list while the idle period lasts, comes only after every selectable module is on that list, however many rounds have passed, and was launched in that period |
| IdleMachineFairness.ChoiceIsFair | internal/daemon/daemon.go:865-893 | a single choice repeats a module, or cuts the avoid list back, only when everything selectable is on the list |
| IdleMachineFairness.AlwaysAccounted | internal/daemon/daemon.go:451-458 | in that mode every module on screen or on the avoid list was launched in the idle period that still lasts |
| IdleMachineTheorems.AvoidListIsBounded | internal/daemon/daemon.go:858-893 | in that mode the avoid list never holds a duplicate nor outgrows the selectable set, over an unbounded run |
| IdleMachineFairness.ReplacementDiffers | internal/daemon/daemon.go:1188-1208 | in every run, whatever number of attempts it took, the module put on one monitor was on no monitor before, whenever there is such a module; every other name stays |
| IdleMachineFairness.NotesWithinTheNamesExactlyWhen | internal/daemon/daemon.go:1188-1208 | for every monitor an exit may name, and whatever the collaborators answer, the replacement is noted down within the names on screen exactly when that monitor has one, is left black, or nothing can be selected |
| IdleMachineRuns.AnExitCanBePastTheNames | internal/daemon/daemon.go:930-959 | a run in which a saver with two names comes up, where an exit on a third monitor would be noted down past the names |
| IdleMachineProofs.FurthestIsTheMaximum | internal/daemon/daemon.go:574-585 | the stage reached is at or past every signal delivered, and is one of them |
| IdleMachineProofs.LockCameFirstMeans | internal/daemon/daemon.go:714-717 | the order of signals that locks: some lock signal without a blank signal before it |
| IdleMachineProofs.OnSaverKeeps | internal/daemon/daemon.go:574-604 | the saver signal keeps the invariant |
| IdleMachineProofs.OnCycleKeeps | internal/daemon/daemon.go:678-712 | the swap signal keeps the invariant, the schedule's bound on swaps included |
| IdleMachineProofs.HandleLaunchKeeps | internal/daemon/daemon.go:961-1031 | a launch result keeps the invariant in every generation and stage |
| IdleMachineProofs.OnModuleExitKeeps | internal/daemon/daemon.go:1108-1141 | the exit of the module on screen keeps the invariant |
| IdleMachineProofs.OnCopyExitKeeps | internal/daemon/daemon.go:1166-1210 | any number of replacement attempts on one monitor keeps the invariant |
| IdleMachineProofs.OnLockChangeKeeps | internal/daemon/daemon.go:1077-1094 | a lock from outside keeps the invariant |
| IdleMachineProofs.ReloadKeeps | internal/daemon/daemon.go:763-797 | a reload keeps the invariant |
| Collaborators.Launcher.Pick | internal/modules/modules.go:136-157 | a name that is discovered, allowed and not avoided, or none exactly when there is none and discovery worked |
| Modules.Select | internal/modules/modules.go:116-134 | the loop keeps exactly the discovered names the filters allow, in order |
| Modules.SelectionMembers | internal/modules/modules.go:116-134 | a name is selected exactly when it was discovered, INCLUDE is empty or holds it, and EXCLUDE does not |
| Modules.SelectionOrder | internal/modules/modules.go:116-134 | the selection keeps the order in which the modules were discovered |
| Modules.AvoidingFiltersTheSelection | internal/daemon/daemon.go:218-221 | appending the avoid list to EXCLUDE filters the selection further and changes nothing else |
| IdleMachineTheorems.SwapsNeverWrap | internal/daemon/daemon.go:636-675 | in every run each swap scheduled, with or without an idle time that could be read, is computed without wrapping int64 when SAVER_DELAY + LOCK_AFTER + CYCLE_AFTER fits and so does one interval past the idle time and, without a lock, past the swap that fired |
| Schedule.NextSwapIsTheLeastAhead | internal/daemon/daemon.go:636-675 | the swap armed is the least one beyond those done that is due strictly after the idle time already passed |
| Schedule.StagesInOrderExactlyWhenTheyFit | internal/config/config.go:190-207 | with each delay in range and locking enabled, the lock threshold is past the saver delay in int64 exactly when it fits, and with blanking enabled all three are in order exactly when the blank threshold fits |
| Limits.AcceptedDelaysCanWrap | internal/config/config.go:190-207 | a text with two delays that the parser accepts, over any base, puts the lock threshold below zero |
| Limits.AcceptedDelaysInOrderExactlyWhen | internal/config/config.go:190-207 | every text that sets those two delays, each in range, is accepted, and puts the lock after the saver exactly when they add up to no more seconds than a Duration holds |
| Schedule.SwapScheduleFits | internal/daemon/daemon.go:653-670 | the int64 schedule is the exact one when the lock threshold, the next counted swap, and idle plus one interval fit |
| Schedule.RoomAfter | internal/daemon/daemon.go:664-670 | once a swap fell due, the next one fits in int64 when one interval past the lock does, or without a lock one interval past the swap itself |
| Text.JoinSplit | internal/config/write.go:158-181 | joining the lines of a text gives the text back |
| Text.SplitJoin | internal/config/write.go:158-181 | splitting joined lines gives the lines back |
| Text.FieldsJoin | internal/config/write.go:126-132 | words joined by blanks are read back as those words |
| Text.AtoiDecimal | internal/config/config.go:195-199 | a 64-bit number printed in decimal is read back as itself |
| Parser.Seconds | internal/config/config.go:190-207 | an accepted delay is a whole number of seconds that a Duration holds |
| Parser.Scan | internal/config/config.go:122-125 | one line is taken off the text at a time |
| Parser.ApplyLine | internal/config/config.go:125-174 | a line changes the settings, or leaves them, or is an error that keeps them |
| Parser.Parse | internal/config/config.go:121-177 | the loop gives the settings of all lines applied in turn, or the first error with its line number |
| Parser.Load | internal/config/config.go:102-117 | a missing file is no error; on any error the settings are the defaults, never half a file |
| Parser.AssignedSetsOneKey | internal/config/config.go:136-174 | an assignment sets its own key to what its value means and leaves every other key |
| Parser.LastAssignmentWins | internal/config/config.go:119-177 | in an accepted file each key has the value of its last assignment, or the one it started from |
| Parser.FirstBadLineReported | internal/config/config.go:121-177 | a file with a bad line is refused with the number of the first one and what is wrong there |
| Parser.AcceptedExactlyWhenFaultless | internal/config/config.go:121-177 | a file is accepted exactly when no line is bad |
| Parser.SettingsAreEverything | internal/config/config.go:21-39 | two configurations that agree on every key are the same |
| Parser.ParsedBySplitLines | internal/config/write.go:158-158 | the parser's scanner and the editor's split read the same settings off any text |
| Readings.TrimmedExactly | internal/config/config.go:126-126 | white space around a text is trimmed off, and nothing else, for each of the six ASCII characters |
| Readings.BlankReads | internal/config/config.go:126-129 | a line of white space says nothing |
| Readings.CommentReads | internal/config/config.go:126-129 | a line whose first character is # says nothing, whatever follows |
| Readings.WithoutEqualsReads | internal/config/config.go:130-133 | any other line without an equals sign is no assignment |
| Readings.QuotedAssigns | internal/config/config.go:179-188 | for every key and every value, a value between two double or two single quotes is what is between them |
| Readings.BareAssigns | internal/config/config.go:179-188 | a value that is not enclosed in one matching pair is read as it stands |
| Readings.AtoiExactly | internal/config/config.go:195-199 | a text is read as n exactly when n has 64 bits and the text spells it: a sign or none, any zeros, the number in decimal |
| Readings.FieldsExactly | internal/config/config.go:170-174 | names laid out with any white space around and between them are read as those names |
| Readings.EveryTextIsLaid | internal/config/config.go:170-174 | every text is names laid out like that |
| Readings.QuotedLineSets | internal/config/config.go:121-188 | a file of one quoted assignment sets its key to what the value between the quotes says, for delays, modes and lists, or is refused with what is wrong with it |
| Readings.BareLineSets | internal/config/config.go:121-188 | and so does one of any other assignment, by the value as it stands |
| Readings.ShippedDefaults | internal/config/config.go:54-67 | what a new installation runs with |
| Editor.AssignedKey | internal/config/write.go:160-170 | the editor finds the key of a line exactly where the parser does |
| Editor.LastAssignments | internal/config/write.go:159-174 | for each wanted key the index of its last assignment, or none |
| Editor.Overwrite | internal/config/write.go:175-177 | whatever the order of the map, exactly the last assignment of each wanted key is replaced |
| Editor.Missing | internal/config/write.go:180-187 | the lines of the wanted keys no line assigns, in the order of the inventory |
| Editor.Apply | internal/config/write.go:157-194 | the edited text is the specification's |
| Editor.RenderAll | internal/config/write.go:82-89 | every update is rendered exactly when all are acceptable; otherwise some refused one is reported |
| Store.ConfigFile.Set | internal/config/write.go:78-118 | the outcome is determined: refused exactly when an update is unacceptable, then unreadable, then not parsing, then not writable; only a success changes the file, to the edited text |
| EditorTheorems.RenderedMeansRequested | internal/config/write.go:121-138 | an accepted update renders as one line that assigns its key what was asked for; list values come back as their words |
| Readings.ListRenderedExactly | internal/config/write.go:121-138 | an update of a list is accepted exactly when all its names are made of the characters module names use, and its line has them quoted, one blank apart; otherwise the first other name is reported |
| Readings.WordRenderedExactly | internal/config/write.go:121-138 | an update of another known key is accepted exactly when its value is one word without quotes and #, and its line has it as it stands; an unknown key is refused |
| EditorTheorems.EditedSplits | internal/config/write.go:179-193 | the lines of the edited text: the old ones, the appended ones on lines of their own, and a final newline |
| EditorTheorems.EditedLastLine | internal/config/write.go:157-194 | after an edit the last assignment of a wanted key is the rendered line and that of any other key what it was |
| EditorTheorems.SetThenParse | internal/config/write.go:66-118 | what is set is what is parsed back, and every other key keeps the value the old text gave it |
| EditorTheorems.EditParsesExactlyWhen | internal/config/write.go:106-111 | an edit is refused for not parsing exactly when a requested value makes no sense or a line that stays is bad; a bad line that is overwritten is repaired |
| EditorTheorems.OtherLinesSurvive | internal/config/write.go:66-77 | every line but the last assignment of an updated key survives unchanged and in its place |
| EditorTheorems.NothingElseIsAdded | internal/config/write.go:179-193 | what follows the old lines is only what was asked for |
| EditorTheorems.SetTwice | internal/config/write.go:155-194 | setting keys again gives the text that setting once with the later values would |
| Printer.ShowConfig | cmd/retrosaver/configcmd.go:86-119 | the settings in effect are printed row by row, and nothing for a file that cannot be parsed |
| Printer.ShownLines | cmd/retrosaver/configcmd.go:111-118 | the seven lines that are printed, in order, delays in whole seconds |
| Printer.ParsedIsLoadable | internal/config/config.go:190-207 | whatever the parser accepts has whole-second delays in range and lists of words |
| Printer.PrintThenParse | cmd/retrosaver/configcmd.go:111-118 | for every loadable config and any path, parsing the printed form gives the config back exactly when no name needs escaping and no later line of the path is refused |
| Printer.OddNameIsNotReadBack | cmd/retrosaver/configcmd.go:111-118 | a file the parser accepts, `EXCLUDE=a\b`, whose printed form does not give its settings back, whatever the path and the base |
| Printer.EscapedNamesSame | cmd/retrosaver/configcmd.go:117-118 | names printed with %q are unchanged exactly when all their characters print as themselves |
| Readings.EscapesExactly | cmd/retrosaver/configcmd.go:117-118 | how %q prints each character below 128 |
| Store.RenderThenParse | internal/config/write.go:33-64 | a file rendered from a config without escapes sets exactly that config, over any base and with any wording of the comments |
| Store.DefaultFileIsDefaults | internal/config/write.go:30-64 | the default file sets the defaults, whatever its comments say |
| Store.SetWithoutAFile | internal/config/write.go:98-106 | setting keys where there is no file gives the defaults with exactly those keys changed |
| ExitReports.EveryReachableState | internal/window/window.go:281-314 | the invariant of processes, watchers, reports and done over every interleaving |
| ExitReports.ReportedOnceAndInTime | internal/window/window.go:316-323 | a process is reported at most once, and only if it exited before it was retired and before Stop began |
| ExitReports.LateExitsAreNeverReported | internal/window/window.go:299-304 | an exit after Stop closed stopping, or after Replace retired the process, is never reported however the run goes on |
| ExitReports.NothingElseIsDropped | internal/window/window.go:316-323 | a watcher that ended without a report belongs to a retired process or a stopping saver |
| ExitReports.DoneMeansAnExit | internal/window/window.go:297-298 | done is closed at most once, only after a process was reaped, and as soon as any watcher has moved |
| ExitReports.OneProcessPerMonitor | internal/window/window.go:335-359 | each monitor keeps exactly one process in its place, started for that monitor |
| ExitReports.NoWatcherBlocksOnceStopping | internal/window/window.go:309-312 | once Stop has begun the watcher of a reaped process always has a step that needs no reader, that no other step can disable, and that brings it nearer its end |
| ExitReports.AtMostFourSteps | internal/window/window.go:295-314 | a watcher takes at most four steps in any run |
| ExitReports.FourStepsEndIt | internal/window/window.go:295-314 | a watcher that took four steps has ended |
| ExitReports.Saver.Watch | internal/window/window.go:295-314 | the goroutine's code, among any steps of the others, ends unless its process still runs or nobody reads and nobody stops |
| ExitReports.Saver.Stop | internal/window/window.go:521-551 | stopping is closed first and once; a second Stop does nothing |
| ExitReports.Saver.Replace | internal/window/window.go:335-368 | refused for no such monitor or a stopping saver; otherwise the old process is retired first and a new watched one takes its place on that monitor only, or nothing moves if it cannot start |
| StateFiles.ReadPIDs | internal/window/window.go:699-713 | the loop gives the PIDs of all lines, or nothing |
| StateFiles.WholeOrNothing | internal/window/window.go:693-698 | a file is believed exactly when every line is a plausible PID, and then line by line |
| StateFiles.PidOfExactly | internal/window/window.go:705-709 | a line is a PID exactly when it is a number above 1, white space around it aside |
| StateFiles.WriteThenRead | internal/window/window.go:731-736 | reading undoes writing for every list of PIDs above 1, the empty one included |
| StateFiles.Runtime.WriteState | internal/window/window.go:731-743 | exactly the files the file system lets through get their content; the pointer hider's only when there is one |
| StateFiles.Runtime.ClearStateFor | internal/window/window.go:761-766 | each of the files is gone exactly when its removal is allowed or it was absent, if they describe that first PID, and otherwise they are untouched |
| StateFiles.Runtime.ClearState | internal/window/window.go:769-777 | exactly the files the file system lets go are removed |
| StateFiles.Saver.Replace | internal/window/window.go:335-368 | refused for any index without a monitor, for a saver that was stopped, and when the module cannot be started, with nothing changed; otherwise that monitor alone changes, and the files are rewritten exactly when they described the saver by the PID it had before |
| StateFiles.Saver.Stop | internal/window/window.go:521-551 | the first Stop of the saver the files describe leaves each of them gone exactly when its removal was allowed or it was absent; any other Stop leaves the files alone |
| StateFiles.OnlyItsOwnFiles | internal/window/window.go:752-760 | over any run of launches, Replaces and Stops by savers with distinct PIDs, no Stop or Replace touches files that describe another saver |
| StateFiles.StopClears | internal/window/window.go:521-551 | over every run the Stop of the saver the files describe removes each of them exactly as far as that is allowed, and all of them when it all is |
| StateFiles.LaunchThenStop | internal/window/window.go:731-777 | every launch followed by its Stop writes files that list it and leaves none |
| StateFiles.TheNewSaverKeepsTheFiles | internal/window/window.go:752-760 | once a saver is described, the files stay untouched however many others are stopped or replaced |
| StateFiles.ScrappedNamesNothing | internal/window/window.go:752-766 | a launch stopped before it wrote the files leaves those of the others alone |
| StateFiles.ReplaceCarriesOwnership | internal/window/window.go:360-366 | after a Replace the files describe the saver exactly when they could be written or another monitor than the first was replaced |
| StateFiles.OrphanedFilesStay | internal/window/window.go:360-366 | when the PID file could not be written as the first monitor was replaced, the files describe no saver and stay as they are, whatever is stopped or replaced, until another launch |
| StateFiles.FilesCanBeOrphaned | internal/window/window.go:360-366 | every launch can come to that with one such Replace: the files still name the processes it began with |
| StateFiles.FilesTellTheTruth | internal/window/window.go:727-730 | without a failed write or removal, and launches that failed before they wrote included, the PID and module files that describe a saver list exactly its processes and modules |
| StateFiles.HiderFileIsTrueExactlyWhen | internal/window/window.go:731-743 | over every run without a failed write or removal, the third file of the saver described is true exactly when that saver has a pointer hider or there was no such file at its launch, the last one |
| StateFiles.SwapLeavesTheHider | internal/window/window.go:731-743 | every swap from a saver with a pointer hider to one without leaves the third file naming the hider of the one that was stopped |
| Inotify.TrimNUL | internal/watch/watch.go:232-239 | the name up to its first NUL, and nothing less |
| Inotify.UnpaddedExactly | internal/watch/watch.go:232-239 | a field holds the name it starts with exactly when a NUL or the end follows and the name has none |
| Inotify.Mentions | internal/watch/watch.go:213-230 | the decoder stays in bounds, ends, and finds what the specification finds |
| Inotify.MentionedExactly | internal/watch/watch.go:207-230 | for every concatenation of encoded events and a truncated one, true exactly when some complete event's unpadded name is the target |
| Inotify.EveryBufferDecodes | internal/watch/watch.go:207-230 | every buffer is such a concatenation |
| Inotify.NumberWritten | internal/watch/watch.go:216-216 | four bytes are the number with the lowest first, and determine each other |
| ReloadPipeline.EveryReachableState | internal/watch/watch.go:117-205 | over every interleaving the last read is never ahead of the file, and each token lies where some goroutine takes it |
| ReloadPipeline.EditIsLostExactlyWhen | internal/watch/watch.go:55-59 | at every quiet point with all writes closed, the final contents are unread exactly when at some event the report of an unread change was dropped, with nothing else on its way, and no report has come since |
| ReloadPipeline.OnlyTheStartupGapLosesEdits | cmd/retrosaver/main.go:223-249 | while the watch and its queue do not fail, they are unread exactly when a write was closed before the registration, with nothing on its way, and no report has come since |
| ReloadPipeline.NoEditIsLost | cmd/retrosaver/main.go:258-293 | hence with every write closed after the registration the daemon has read the final contents when it is quiet, although every send on a full channel is dropped |
| ReloadPipeline.LaterReportRecovers | cmd/retrosaver/main.go:258-293 | after any report, a signal included, that no further change follows, the final contents are read when the pipeline is quiet again |
| ReloadPipeline.StartupGapLosesAnEdit | cmd/retrosaver/main.go:223-249 | a run in which an edit between loading the config and registering the watch is unread when the pipeline is quiet |
| ReloadPipeline.TokensMove | internal/watch/watch.go:134-167 | a token on its way always has a step to take |
| ReloadPipeline.StepsDrain | internal/watch/watch.go:134-167 | every step of the pipeline lowers a measure, whichever goroutine takes it |
| ReloadPipeline.Drain | cmd/retrosaver/main.go:273-291 | left alone, in any order of its goroutines, the pipeline comes to rest, having read the file exactly when a token was on its way; the file and its writers are untouched |
| IdleDelay.Desktop.SetIdleDelay | internal/session/session.go:197-205 | it works exactly for a value that is not negative when the call works, and else changes nothing |
| IdleDelay.Desktop.SaveIdleDelay | internal/session/session.go:230-264 | for every pattern of failing calls: an existing file is never touched; a new one holds the setting, or is removed again unless even that fails |
| IdleDelay.Desktop.RestoreIdleDelay | internal/session/session.go:273-286 | the saved value, or 300, is written back, or nothing changes |
| IdleDelay.Desktop.ClearSavedIdleDelay | internal/session/session.go:290-299 | the file is gone or unchanged |
| IdleDelay.Desktop.Setup | cmd/retrosaver/main.go:523-538 | saves before it sets, sets only after it saved, and never overwrites what was saved |
| IdleDelay.Desktop.Teardown | cmd/retrosaver/main.go:565-578 | the setting is restored exactly if that worked and the file removed exactly if that worked, whatever became of the other |
| IdleDelay.SetupAndTeardown | cmd/retrosaver/main.go:504-578 | after a setup that saved, any number of setups with any failures and of daemon runs, and a teardown, idle-delay is what it was and nothing is saved |
| IdleDelay.EveryReachableState | internal/session/session.go:230-264 | the invariant of the saved file over every interleaving of setups, daemons and restores |
| IdleDelay.FirstSetupSteps | cmd/retrosaver/main.go:523-538 | from any state without a saved file, the steps of a setup save the setting, set it to 0 and start the daemon |
| IdleDelay.LaterSetupSteps | cmd/retrosaver/main.go:523-538 | and where a file is, they leave it as it is |
| IdleDelay.RestoreSteps | internal/session/session.go:273-286 | the steps of a restore set what the file holds, or 300 |
| IdleDelay.OnlyTheOriginalIsSaved | internal/session/session.go:213-229 | for any number of setups beside the daemons they start, the file is absent, empty or holds the user's own value while the winning write succeeds |
| IdleDelay.TeardownGivesBack | cmd/retrosaver/main.go:565-578 | over every run, the exact condition under which a teardown leaves the user's value set and nothing saved |
| IdleDelay.TeardownLosesExactlyWhen | cmd/retrosaver/main.go:565-578 | after a teardown at any point of any run, with everything still under way followed to its end, the user's value can be lost for good exactly when no value is saved and something has touched the setting or is about to |
| IdleDelay.UnrestoredTeardownLoses | cmd/retrosaver/main.go:565-578 | for every value of the user, a run whose teardown restores nothing and removes the only copy of it |
| IdleDelay.TeardownUnderASetupLoses | cmd/retrosaver/main.go:565-578 | for every value of the user, a run in which the teardown removes the file a setup is about to write, and the value is lost whether or not it was restored |
| IdleDelay.TeardownWithoutSetupLoses | cmd/retrosaver/main.go:565-578 | a teardown that no setup came before loses every value but 300 |
| IdleDelay.FailedWriteLosesExactlyWhen | internal/session/session.go:253-263 | at every point of every run, when the winning write fails and the empty file is removed, the user's value can be lost for good exactly when another setup or the daemon had relied on the file meanwhile |
| IdleDelay.AbsentLosesExactlyWhen | internal/session/session.go:230-264 | with no file and none being written, another value than the user's can come to be saved exactly when something has touched the setting or is about to |
| IdleDelay.TwoSetupsCanLose | internal/session/session.go:253-263 | for every value of the user, a run of two setups in which it is lost when the first one's write fails |
| IdleDelay.EmptyFileStays | internal/session/session.go:255-258 | an empty file that could not be removed pins every later restore to 300 |

## Left out

- Logging, trace tags, error texts, the JSON form of `config show`, `list`, `run`, `preview`, flag parsing and preflight checks: no property beyond their text.
- X11 windows, D-Bus clients, systemd, process signals, grace timers, /proc scans, pkill and unclutter: a launch brings a saver or an error, a process exits at some point, a call works or fails.
- Directory scanning, module descriptions and the random choice of a module: the discovered names are given, and Collaborators.Launcher.Pick may return any allowed one.
- Schedule: the idle machine itself computes over unbounded integers; the int64 forms are in this module, and IdleMachineTheorems.SwapsNeverWrap says when the two agree.
- IdleMachineEffects.SwapsExactlyWhen: the idle time is taken not to be negative, as the monitor reports it.
- Daemon.Machine: the generation is a natural number where the source wraps at 64 bits; watch ids are assumed fresh when they are handed out; the discovered modules do not change during a run.
- Daemon.Machine.Shutdown: the backstop that signals stray modules and clears the state files is left out, because it works on processes the machine does not know.
- Daemon.Machine.Dispatch: an exit that names a monitor past the names on screen is ignored, where the source would index past them; IdleMachineFairness.NotesWithinTheNamesExactlyWhen says exactly when that cannot happen.
- Daemon.Machine.OnLockChange: promises to stop a launch on its way only where its cancel function is stored, as the code does and unlike its comment; IdleMachineLocks.LockStopsExactlyWhen gives the condition. The closing of the lock channel, after which no lock change arrives, is not modelled.
- Text.FieldsJoin: holds for ASCII white space only, because a string here has no Unicode properties.
- Text: white space and case beyond ASCII, and invalid UTF-8; `%q` of a character beyond ASCII is taken to be the character itself.
- Parser.Parse: the 64 KiB limit on a line of bufio.Scanner and read errors in the middle of a file.
- Store.ConfigFile.Set: symlinks, file modes and the temporary file; the file is replaced as a whole.
- Printer.ShowConfig: a file that exists but cannot be examined after it was read.
- Inotify: the native byte order is taken to be little-endian and int to have 64 bits.
- ReloadPipeline: the endless loops of the reader, the debouncer and the relay are steps of one state machine; the settle time is abstract (the timer may fire at any moment after it was armed); cancellation of the context ends the run and is not modelled.
- ExitReports.Saver.Stop: the signals it sends, the time it waits and the windows it closes after `stopping` is closed.
- ExitReports: awaitStartup and awaitAny, what an exit report carries besides the process and its monitor.
- ExitReports.Saver.Replace: Replace and Stop are assumed not to race, as the source asks of its caller.
- StateFiles.Runtime.WriteState: does not model a write that fails half-way and leaves part of its content.
- StateFiles: PIDs are assumed not to be reused while the files or a saver name them; StopRunning, which clears the files whoever they describe.
- IdleDelay.Desktop.Teardown: what the daemon restores itself while it is being disabled, which is RunDaemon's part.
- IdleDelay: other programs that change the setting meanwhile; the few bytes of the saved value are written whole or not at all; the restore and the removal of a teardown are one step.
