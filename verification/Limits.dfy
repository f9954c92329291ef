/** internal/config and internal/daemon together: what the parser accepts and what
    the daemon's int64 arithmetic makes of it. */
module Limits {
  import opened Wrappers
  import opened Settings
  import opened Schedule
  import opened Text
  import opened Parser
  import opened EditorTheorems
  import opened Printer

  /** A file that sets the saver delay and the lock delay. */
  function Delays(saver: nat, lock: nat): string {
    "SAVER_DELAY" + "=" + Decimal(saver) + "\n" + ("LOCK_AFTER" + "=" + Decimal(lock))
  }

  lemma DelayRead(key: string, n: nat)
    requires key in KEYS && n <= MAX_SECONDS
    ensures '\n' !in key + "=" + Decimal(n)
    ensures Read(key + "=" + Decimal(n)) == Assignment(key, Decimal(n)) && Seconds(key, Decimal(n)) == Ok(n * SECOND)
  {
    var ns := n * SECOND;
    assert ns / SECOND == n && ns % SECOND == 0;
    DelayMeans(key, ns);
    ValueReads(key, Decimal(n));
  }

  lemma ValueReads(key: string, value: string)
    requires key in KEYS && '\n' !in value && Unquote(Trim(value)) == value
    ensures '\n' !in key + "=" + value && Read(key + "=" + value) == Assignment(key, value)
  {
    LineReads(key, value);
  }

  /** Every pair of delays that fit a Duration one by one is accepted. */
  lemma DelaysParse(saver: nat, lock: nat, base: Config)
    requires saver <= MAX_SECONDS && lock <= MAX_SECONDS
    ensures ParsedText(Delays(saver, lock), base) == Ok(base.(saverDelay := saver * SECOND, lockAfter := lock * SECOND))
  {
    var first, second := "SAVER_DELAY" + "=" + Decimal(saver), "LOCK_AFTER" + "=" + Decimal(lock);
    DelayRead("SAVER_DELAY", saver);
    DelayRead("LOCK_AFTER", lock);
    SplitInTwo(first, second);
    ParsedBySplitLines(Delays(saver, lock), base);
    TwoLines([Read(first), Read(second)], "SAVER_DELAY", Decimal(saver), "LOCK_AFTER", Decimal(lock), base);
  }

  lemma SplitInTwo(first: string, second: string)
    requires '\n' !in first && '\n' !in second
    ensures ReadAll(Split(first + "\n" + second, '\n')) == [Read(first), Read(second)]
  {
    SplitConcat(first, second, '\n');
    SplitWhole(first, '\n');
    SplitWhole(second, '\n');
    assert first + "\n" + second == first + ['\n'] + second;
    assert [first] + [second] == [first, second];
  }

  lemma TwoLines(lines: seq<Line>, key: string, value: string, last: string, lastValue: string, base: Config)
    requires lines == [Assignment(key, value), Assignment(last, lastValue)]
    requires Assigned(base, key, value).Ok? && Assigned(Assigned(base, key, value).value, last, lastValue).Ok?
    ensures Parsed(lines, base) == Ok(Assigned(Assigned(base, key, value).value, last, lastValue).value)
  {
    assert lines[..1] == [Assignment(key, value)] && lines[..1][..0] == [];
    ParsedNext(lines, 0, base);
    ParsedNext(lines, 1, base);
    assert lines[..2] == lines && lines[..0] == [];
  }

  /** A file the parser accepts puts the lock before the saver: the two delays sum
      to more than an int64 holds. */
  lemma AcceptedDelaysCanWrap(base: Config)
    ensures ParsedText(Delays(MAX_SECONDS, MAX_SECONDS), base).Ok?
    ensures var cfg := ParsedText(Delays(MAX_SECONDS, MAX_SECONDS), base).value;
      cfg.LockEnabled() && LockAt64(cfg) < 0 < cfg.saverDelay
  {
    DelaysParse(MAX_SECONDS, MAX_SECONDS, base);
    LongestDelaysWrap(base.(saverDelay := MAX_SECONDS * SECOND, lockAfter := MAX_SECONDS * SECOND));
  }

  /** For every such file the two stages come in order exactly when the delays add
      up to no more seconds than a Duration holds. */
  lemma AcceptedDelaysInOrderExactlyWhen(saver: nat, lock: nat, base: Config)
    requires saver <= MAX_SECONDS && 0 < lock <= MAX_SECONDS && InRange(base)
    ensures ParsedText(Delays(saver, lock), base).Ok?
    ensures var cfg := ParsedText(Delays(saver, lock), base).value;
      cfg.saverDelay < LockAt64(cfg) <==> saver + lock <= MAX_SECONDS
  {
    DelaysParse(saver, lock, base);
    var cfg := ParsedText(Delays(saver, lock), base).value;
    StagesInOrderExactlyWhenTheyFit(cfg);
    assert MAX_SECONDS == 9_223_372_036;
  }
}
