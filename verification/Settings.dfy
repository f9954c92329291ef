/** internal/config: the resolved configuration. A delay is a Go Duration, a
    count of nanoseconds. */
module Settings {
  import opened Wrappers

  const SECOND: int := 1_000_000_000
  /** The largest number of whole seconds a Duration holds. */
  const MAX_SECONDS: int := MAX_INT64 / SECOND

  datatype MonitorMode = Same | Different

  datatype Config = Config(
    saverDelay: int,
    lockAfter: int,
    blankAfter: int,
    cycleAfter: int,
    monitors: MonitorMode,
    never: seq<string>,
    only: seq<string>)
  {
    predicate LockEnabled() { lockAfter > 0 }

    predicate BlankEnabled() { lockAfter > 0 && blankAfter > 0 }

    predicate CycleEnabled() { cycleAfter > 0 }

    predicate DifferentPerMonitor() { monitors == Different }
  }

  function Defaults(): Config {
    Config(300 * SECOND, 900 * SECOND, 120 * SECOND, 300 * SECOND, Same,
      ["webcollage", "vidwhacker", "glslideshow", "photopile", "carousel", "sonar"], [])
  }
}
