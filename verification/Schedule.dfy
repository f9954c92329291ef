/** When the stages and the swaps of one idle period fall due, as
    internal/daemon computes it: over the integers, and in the int64 arithmetic
    of Go's Duration. */
module Schedule {
  import opened Settings
  import opened Wrappers

  /** The idle time at which the session locks. */
  function LockAt(cfg: Config): int { cfg.saverDelay + cfg.lockAfter }

  function BlankAt(cfg: Config): int { cfg.saverDelay + cfg.lockAfter + cfg.blankAfter }

  /** The idle time at which swap number n is due. */
  function SwapAt(cfg: Config, n: int): int { cfg.saverDelay + n * cfg.cycleAfter }

  /** Go's integer division, which truncates toward zero. */
  function Quotient(a: int, b: int): int
    requires b > 0
  {
    if a >= 0 then a / b else -((-a) / b)
  }

  /** The swap armCycle turns to after `cycles` of them, at this idle time; without
      one it is the next in number. */
  function NextSwap(cfg: Config, cycles: int, idle: Option<int>): (next: int)
    requires cfg.CycleEnabled()
    ensures next > cycles
  {
    var n := cycles + 1;
    match idle
    case None => n
    case Some(t) =>
      var k := Quotient(t - cfg.saverDelay, cfg.cycleAfter) + 1;
      if k > n then k else n
  }

  /** Swap n falls due ahead of the lock, if there is one. */
  predicate BeforeLock(cfg: Config, n: int) {
    cfg.LockEnabled() ==> SwapAt(cfg, n) < LockAt(cfg)
  }

  lemma MulLess(a: int, b: int, c: int)
    requires a < b && c > 0
    ensures a * c + c <= b * c
  {
    assert (a + 1) * c <= b * c;
  }

  /** armCycle picks the least swap, beyond those already done, that falls due
      strictly later than the session has already been idle. */
  lemma NextSwapIsTheLeastAhead(cfg: Config, cycles: nat, idle: nat, m: int)
    requires cfg.CycleEnabled()
    ensures SwapAt(cfg, NextSwap(cfg, cycles, Some(idle))) > idle
    ensures m > cycles && SwapAt(cfg, m) > idle ==> NextSwap(cfg, cycles, Some(idle)) <= m
  {
    var n := NextSwap(cfg, cycles, Some(idle));
    var c := cfg.cycleAfter;
    var ahead := idle - cfg.saverDelay;
    if ahead >= 0 {
      var q := ahead / c;
      assert q * c <= ahead < q * c + c;
      if n > q + 1 {
        MulLess(q, n, c);
      }
      if m <= q && m >= 0 {
        if m < q { MulLess(m, q, c); }
      }
    } else {
      assert Quotient(ahead, c) <= 0;
      MulLess(0, n, c);
    }
  }

  // ----- int64

  /** The value int64 arithmetic keeps of an exact result. */
  function Wrap(x: int): int
    ensures -MAX_INT64 - 1 <= Wrap(x) <= MAX_INT64
    ensures -MAX_INT64 - 1 <= x <= MAX_INT64 ==> Wrap(x) == x
  {
    (x + MAX_INT64 + 1) % (2 * MAX_INT64 + 2) - MAX_INT64 - 1
  }

  function LockAt64(cfg: Config): int { Wrap(cfg.saverDelay + cfg.lockAfter) }

  function BlankAt64(cfg: Config): int { Wrap(LockAt64(cfg) + cfg.blankAfter) }

  function SwapAt64(cfg: Config, n: int): int { Wrap(cfg.saverDelay + Wrap(n * cfg.cycleAfter)) }

  function NextSwap64(cfg: Config, cycles: int, idle: Option<int>): int
    requires cfg.CycleEnabled()
  {
    var n := Wrap(cycles + 1);
    match idle
    case None => n
    case Some(t) =>
      var k := Wrap(Quotient(Wrap(t - cfg.saverDelay), cfg.cycleAfter) + 1);
      if k > n then k else n
  }

  predicate BeforeLock64(cfg: Config, n: int) {
    cfg.LockEnabled() ==> SwapAt64(cfg, n) < LockAt64(cfg)
  }

  /** What the parser guarantees of each delay, one key at a time. */
  predicate InRange(cfg: Config) {
    && 0 <= cfg.saverDelay <= MAX_INT64
    && 0 <= cfg.lockAfter <= MAX_INT64
    && 0 <= cfg.blankAfter <= MAX_INT64
    && 0 <= cfg.cycleAfter <= MAX_INT64
  }

  /** The stages stay in order in int64 exactly when the last threshold fits:
      checking each key by itself, as the parser does, is not enough. */
  lemma StagesInOrderExactlyWhenTheyFit(cfg: Config)
    requires InRange(cfg) && cfg.LockEnabled()
    ensures cfg.saverDelay < LockAt64(cfg) <==> LockAt(cfg) <= MAX_INT64
    ensures cfg.BlankEnabled() ==> (cfg.saverDelay < LockAt64(cfg) < BlankAt64(cfg) <==> BlankAt(cfg) <= MAX_INT64)
  {
    if LockAt(cfg) > MAX_INT64 {
      assert Wrap(LockAt(cfg)) == LockAt(cfg) - 2 * MAX_INT64 - 2;
    } else if BlankAt(cfg) > MAX_INT64 {
      assert Wrap(BlankAt(cfg)) == BlankAt(cfg) - 2 * MAX_INT64 - 2;
    }
  }

  lemma LongestDelaysWrap(cfg: Config)
    requires cfg.saverDelay == cfg.lockAfter == MAX_SECONDS * SECOND
    ensures cfg.LockEnabled() && LockAt64(cfg) < 0 < cfg.saverDelay
  {
    assert MAX_SECONDS == 9_223_372_036;
    assert LockAt(cfg) == 18_446_744_072_000_000_000;
    assert Wrap(LockAt(cfg)) == LockAt(cfg) - 2 * MAX_INT64 - 2;
  }

  /** The int64 swap schedule is the exact one while the lock threshold and the
      idle time each leave room for one more interval. Without a lock stage the
      room must be there for the swaps already counted. */
  lemma SwapScheduleFits(cfg: Config, cycles: nat, idle: Option<int>)
    requires InRange(cfg) && cfg.CycleEnabled()
    requires idle.Some? ==> 0 <= idle.value && idle.value + cfg.cycleAfter <= MAX_INT64
    requires SwapAt(cfg, cycles + 1) <= MAX_INT64
    requires LockAt(cfg) <= MAX_INT64
    ensures NextSwap64(cfg, cycles, idle) == NextSwap(cfg, cycles, idle)
    ensures SwapAt64(cfg, NextSwap(cfg, cycles, idle)) == SwapAt(cfg, NextSwap(cfg, cycles, idle))
    ensures BeforeLock64(cfg, NextSwap(cfg, cycles, idle)) <==> BeforeLock(cfg, NextSwap(cfg, cycles, idle))
  {
    var n := cycles + 1;
    NoLarger(n, cfg.cycleAfter);
    if idle.Some? {
      NextAfterIdleFits(cfg, idle.value);
    }
    var next := NextSwap(cfg, cycles, idle);
    assert 0 <= next * cfg.cycleAfter <= SwapAt(cfg, next) <= MAX_INT64;
  }

  /** The idle-time branch of armCycle, in isolation. */
  lemma NextAfterIdleFits(cfg: Config, idle: nat)
    requires InRange(cfg) && cfg.CycleEnabled() && idle + cfg.cycleAfter <= MAX_INT64
    ensures var k := Quotient(idle - cfg.saverDelay, cfg.cycleAfter) + 1;
            && Wrap(Quotient(Wrap(idle - cfg.saverDelay), cfg.cycleAfter) + 1) == k
            && (k > 1 ==> k * cfg.cycleAfter >= 0 && SwapAt(cfg, k) <= idle + cfg.cycleAfter)
  {
    var q := Quotient(idle - cfg.saverDelay, cfg.cycleAfter);
    QuotientBounds(idle - cfg.saverDelay, cfg.cycleAfter);
    assert Wrap(idle - cfg.saverDelay) == idle - cfg.saverDelay;
    assert Wrap(q + 1) == q + 1;
    if q >= 1 {
      assert (q + 1) * cfg.cycleAfter == q * cfg.cycleAfter + cfg.cycleAfter;
    }
  }

  lemma QuotientBounds(a: int, c: int)
    requires c > 0
    ensures a >= 0 ==> 0 <= Quotient(a, c) <= a && 0 <= Quotient(a, c) * c <= a
    ensures a < 0 ==> a <= Quotient(a, c) <= 0
  {
    var m := if a >= 0 then a else -a;
    var q := m / c;
    assert q * c + m % c == m;
    assert q >= 0;
    NoLarger(q, c);
  }

  lemma NoLarger(n: nat, c: int)
    requires c > 0
    ensures n <= n * c
  {
    assert n * c - n == n * (c - 1);
  }

  /** Once swap number `cycles` was due, the next one fits: before the lock, because
      the config leaves room for one interval past it; without a lock, because one
      interval past the due time does. */
  lemma RoomAfter(cfg: Config, cycles: nat)
    requires InRange(cfg) && cfg.CycleEnabled() && BeforeLock(cfg, cycles)
    requires LockAt(cfg) + cfg.cycleAfter <= MAX_INT64
    requires !cfg.LockEnabled() ==> SwapAt(cfg, cycles) + cfg.cycleAfter <= MAX_INT64
    ensures SwapAt(cfg, cycles + 1) <= MAX_INT64
  {
    assert (cycles + 1) * cfg.cycleAfter == cycles * cfg.cycleAfter + cfg.cycleAfter;
  }
}
