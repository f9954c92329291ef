/** internal/config: what the text of a configuration file says. */
module Parser {
  import opened Wrappers
  import opened Settings
  import opened Text

  /** The keys ApplyLine does not reject; Missing appends in this order. */
  const KEYS := ["SAVER_DELAY", "CYCLE_AFTER", "MONITORS", "LOCK_AFTER", "BLANK_AFTER", "EXCLUDE", "INCLUDE"]

  predicate ListKey(key: string) {
    key == "EXCLUDE" || key == "INCLUDE"
  }

  // ----- one line

  /** What a line is: blank or a comment, no assignment, or an assignment. */
  datatype Line = Silent | NotAssignment | Assignment(key: string, value: string) {
    /** The key it assigns. */
    function Key(): Option<string> {
      if Assignment? then Some(key) else None
    }
  }

  /** s between its first and last characters when those are the same quote, and
      s itself otherwise; quotes further in stay. */
  function Unquote(s: string): string {
    if |s| >= 2 && ((s[0] == '"' && s[|s| - 1] == '"') || (s[0] == '\'' && s[|s| - 1] == '\'')) then s[1..|s| - 1] else s
  }

  function Read(line: string): Line {
    var text := Trim(line);
    if text == "" || text[0] == '#' then Silent
    else match IndexOf(text, '=')
      case None => NotAssignment
      case Some(at) => Assignment(Trim(text[..at]), Unquote(Trim(text[at + 1..])))
  }

  function ReadAll(lines: seq<string>): (r: seq<Line>)
    ensures |r| == |lines| && forall i :: 0 <= i < |lines| ==> r[i] == Read(lines[i])
  {
    if lines == [] then [] else ReadAll(lines[..|lines| - 1]) + [Read(lines[|lines| - 1])]
  }

  datatype Problem =
    | NoAssignment
    | NotSeconds(key: string)
    | Negative(key: string)
    | TooLarge(key: string)
    | NotMode(key: string)

  /** Which line, counted from 1, and what is wrong with it. */
  datatype ParseError = ParseError(line: nat, problem: Problem)

  /** A whole number of seconds as a Duration. One that would wrap around when
      converted is refused. */
  function Seconds(key: string, s: string): (r: Result<int, Problem>)
    ensures r.Ok? ==> 0 <= r.value <= MAX_SECONDS * SECOND && r.value % SECOND == 0
  {
    match Atoi(s)
    case None => Err(NotSeconds(key))
    case Some(n) =>
      if n < 0 then Err(Negative(key))
      else if n > MAX_SECONDS then Err(TooLarge(key))
      else Ok(n * SECOND)
  }

  /** cfg after one assignment; an unknown key is ignored. */
  function Assigned(cfg: Config, key: string, value: string): Result<Config, Problem> {
    if key == "SAVER_DELAY" then
      match Seconds(key, value) case Err(e) => Err(e) case Ok(d) => Ok(cfg.(saverDelay := d))
    else if key == "LOCK_AFTER" then
      match Seconds(key, value) case Err(e) => Err(e) case Ok(d) => Ok(cfg.(lockAfter := d))
    else if key == "BLANK_AFTER" then
      match Seconds(key, value) case Err(e) => Err(e) case Ok(d) => Ok(cfg.(blankAfter := d))
    else if key == "CYCLE_AFTER" then
      match Seconds(key, value) case Err(e) => Err(e) case Ok(d) => Ok(cfg.(cycleAfter := d))
    else if key == "MONITORS" then
      if value == "same" then Ok(cfg.(monitors := Same))
      else if value == "different" then Ok(cfg.(monitors := Different))
      else Err(NotMode(key))
    else if key == "EXCLUDE" then Ok(cfg.(never := Fields(value)))
    else if key == "INCLUDE" then Ok(cfg.(only := Fields(value)))
    else Ok(cfg)
  }

  // ----- a whole file

  /** What the n-th line makes of the settings before it. */
  function Stepped(before: Result<Config, ParseError>, n: nat, line: Line): Result<Config, ParseError> {
    if before.Err? then before
    else match line
      case Silent => before
      case NotAssignment => Err(ParseError(n, NoAssignment))
      case Assignment(key, value) =>
        match Assigned(before.value, key, value)
        case Ok(cfg) => Ok(cfg)
        case Err(problem) => Err(ParseError(n, problem))
  }

  /** The lines applied to base one after another, up to the first bad one. */
  function Parsed(lines: seq<Line>, base: Config): Result<Config, ParseError> {
    if lines == [] then Ok(base)
    else Stepped(Parsed(lines[..|lines| - 1], base), |lines|, lines[|lines| - 1])
  }

  lemma ParsedNext(lines: seq<Line>, n: nat, base: Config)
    requires n < |lines|
    ensures Parsed(lines[..n + 1], base) == Stepped(Parsed(lines[..n], base), n + 1, lines[n])
  {
    assert lines[..n + 1][..n] == lines[..n];
  }

  /** What bufio.Scanner makes of a text: its lines without their ends, and no
      empty line after the last newline. */
  function ScanLines(text: string): seq<string> {
    if text == "" then []
    else match IndexOf(text, '\n')
      case None => [DropCR(text)]
      case Some(at) => [DropCR(text[..at])] + ScanLines(text[at + 1..])
  }

  function DropCR(line: string): string {
    if line != "" && line[|line| - 1] == '\r' then line[..|line| - 1] else line
  }

  /** What a text sets, over base. */
  function ParsedText(text: string, base: Config): Result<Config, ParseError> {
    Parsed(ReadAll(ScanLines(text)), base)
  }

  /** Scanner.Scan: takes the next line off the text. */
  method Scan(text: string) returns (line: string, rest: string)
    requires text != ""
    ensures ScanLines(text) == [line] + ScanLines(rest) && |rest| < |text|
  {
    match IndexOf(text, '\n') {
      case None => line, rest := DropCR(text), "";
      case Some(at) => line, rest := DropCR(text[..at]), text[at + 1..];
    }
  }

  /** One turn of the parse loop: what is wrong with the line, or the settings
      after it. */
  method ApplyLine(text: string, cfg: Config) returns (next: Config, failure: Option<Problem>)
    ensures forall n: nat :: Stepped(Ok(cfg), n, Read(text)) == if failure.Some? then Err(ParseError(n, failure.value)) else Ok(next)
  {
    match Read(text) {
      case Silent => return cfg, None;
      case NotAssignment => return cfg, Some(NoAssignment);
      case Assignment(key, value) =>
        match Assigned(cfg, key, value) {
          case Ok(t) => return t, None;
          case Err(problem) => return cfg, Some(problem);
        }
    }
  }

  /** parse: each line in turn is applied to the settings, which are overwritten,
      until there is none left or one is bad. */
  method Parse(text: string, base: Config) returns (r: Result<Config, ParseError>)
    ensures r == ParsedText(text, base)
  {
    var cfg, rest, n: nat := base, text, 0;
    ghost var scanned := ScanLines(text);
    ghost var lines := ReadAll(scanned);
    while rest != ""
      invariant n <= |lines| && scanned[n..] == ScanLines(rest)
      invariant Parsed(lines[..n], base) == Ok(cfg)
      decreases |rest|
    {
      var line;
      line, rest := Scan(rest);
      assert scanned[n] == scanned[n..][0] == line && scanned[n + 1..] == scanned[n..][1..];
      ParsedNext(lines, n, base);
      n := n + 1;
      var failure;
      cfg, failure := ApplyLine(line, cfg);
      if failure.Some? {
        FirstErrorStands(lines, n, base);
        return Err(ParseError(n, failure.value));
      }
    }
    assert lines[..n] == lines;
    return Ok(cfg);
  }

  /** Nothing after a bad line is looked at. */
  lemma {:induction false} FirstErrorStands(lines: seq<Line>, n: nat, base: Config)
    requires n <= |lines| && Parsed(lines[..n], base).Err?
    ensures Parsed(lines, base) == Parsed(lines[..n], base)
  {
    if n < |lines| {
      var init := lines[..|lines| - 1];
      assert init[..n] == lines[..n];
      FirstErrorStands(init, n, base);
    } else {
      assert lines[..n] == lines;
    }
  }

  datatype FileRead = Missing | Unreadable | Contents(text: string)

  /** Load: a missing file is no error, and no error leaves half a file applied:
      the settings are then the defaults. */
  method Load(file: FileRead) returns (cfg: Config, failed: bool)
    ensures !failed <==> file.Missing? || (file.Contents? && ParsedText(file.text, Defaults()).Ok?)
    ensures cfg == if !failed && file.Contents? then ParsedText(file.text, Defaults()).value else Defaults()
  {
    match file {
      case Missing => return Defaults(), false;
      case Unreadable => return Defaults(), true;
      case Contents(text) =>
        var parsed := Parse(text, Defaults());
        match parsed {
          case Err(_) => return Defaults(), true;
          case Ok(read) => return read, false;
        }
    }
  }

  // ----- what a file means

  /** The value of one key. */
  datatype Setting = Delay(ns: int) | Mode(mode: MonitorMode) | Names(names: seq<string>)

  function Get(cfg: Config, key: string): Setting
    requires key in KEYS
  {
    if key == "SAVER_DELAY" then Delay(cfg.saverDelay)
    else if key == "LOCK_AFTER" then Delay(cfg.lockAfter)
    else if key == "BLANK_AFTER" then Delay(cfg.blankAfter)
    else if key == "CYCLE_AFTER" then Delay(cfg.cycleAfter)
    else if key == "MONITORS" then Mode(cfg.monitors)
    else if key == "EXCLUDE" then Names(cfg.never)
    else Names(cfg.only)
  }

  /** What a value means for a key, if it means anything. */
  function Meaning(key: string, value: string): Result<Setting, Problem>
    requires key in KEYS
  {
    if ListKey(key) then Ok(Names(Fields(value)))
    else if key == "MONITORS" then
      if value == "same" then Ok(Mode(Same)) else if value == "different" then Ok(Mode(Different)) else Err(NotMode(key))
    else match Seconds(key, value)
      case Ok(d) => Ok(Delay(d))
      case Err(e) => Err(e)
  }

  /** Two configurations with the same value for every key are the same. */
  lemma SettingsAreEverything(a: Config, b: Config)
    requires forall key :: key in KEYS ==> Get(a, key) == Get(b, key)
    ensures a == b
  {
    assert forall i :: 0 <= i < 7 ==> KEYS[i] in KEYS;
    assert Get(a, KEYS[0]) == Get(b, KEYS[0]) && Get(a, KEYS[1]) == Get(b, KEYS[1]) && Get(a, KEYS[2]) == Get(b, KEYS[2]);
    assert Get(a, KEYS[3]) == Get(b, KEYS[3]) && Get(a, KEYS[4]) == Get(b, KEYS[4]) && Get(a, KEYS[5]) == Get(b, KEYS[5]);
    assert Get(a, KEYS[6]) == Get(b, KEYS[6]);
  }

  /** An assignment sets its own key to what its value means, and no other. */
  lemma AssignedSetsOneKey(cfg: Config, key: string, value: string, other: string)
    requires other in KEYS
    ensures key !in KEYS ==> Assigned(cfg, key, value) == Ok(cfg)
    ensures key in KEYS && Meaning(key, value).Err? ==> Assigned(cfg, key, value) == Err(Meaning(key, value).error)
    ensures key in KEYS && Meaning(key, value).Ok? ==>
      && Assigned(cfg, key, value).Ok?
      && Get(Assigned(cfg, key, value).value, other) == (if other == key then Meaning(key, value).value else Get(cfg, other))
  {
  }

  /** What is wrong with a line. */
  function ProblemOf(line: Line): Option<Problem> {
    match line
    case Silent => None
    case NotAssignment => Some(NoAssignment)
    case Assignment(key, value) =>
      if key !in KEYS then None
      else match Meaning(key, value) case Ok(_) => None case Err(e) => Some(e)
  }

  /** The last line that assigns a key. */
  function LastIndex(lines: seq<Line>, key: string): (at: Option<nat>)
    ensures at.Some? ==> at.value < |lines| && lines[at.value].Key() == Some(key)
    ensures at.Some? ==> forall i :: at.value < i < |lines| ==> lines[i].Key() != Some(key)
    ensures at.None? ==> forall i :: 0 <= i < |lines| ==> lines[i].Key() != Some(key)
  {
    if lines == [] then None
    else
      var n := |lines| - 1;
      if lines[n].Key() == Some(key) then Some(n) else LastIndex(lines[..n], key)
  }

  ghost predicate Faultless(lines: seq<Line>) {
    forall i :: 0 <= i < |lines| ==> ProblemOf(lines[i]).None?
  }

  /** The value the last assignment of a key gives it. */
  ghost function LastSetting(lines: seq<Line>, base: Config, key: string): Setting
    requires key in KEYS && Faultless(lines)
  {
    match LastIndex(lines, key)
    case None => Get(base, key)
    case Some(i) =>
      assert ProblemOf(lines[i]).None?;
      Meaning(key, lines[i].value).value
  }

  /** A file without a bad line sets each key to what its last assignment says
      and leaves the other keys alone. */
  lemma {:induction false} LastAssignmentWins(lines: seq<Line>, base: Config, key: string)
    requires key in KEYS && Faultless(lines)
    ensures Parsed(lines, base).Ok? && Get(Parsed(lines, base).value, key) == LastSetting(lines, base, key)
  {
    if lines != [] {
      var n := |lines| - 1;
      var init := lines[..n];
      assert Faultless(init) by {
        assert forall i :: 0 <= i < n ==> lines[i] == init[i];
      }
      LastAssignmentWins(init, base, key);
      assert ProblemOf(lines[n]).None?;
      if lines[n].Assignment? {
        AssignedSetsOneKey(Parsed(init, base).value, lines[n].key, lines[n].value, key);
      }
    }
  }

  /** A file with a bad line is refused as a whole, and the error names the first
      such line and what is wrong with it. */
  lemma {:induction false} FirstBadLineReported(lines: seq<Line>, base: Config, n: nat)
    requires n < |lines| && ProblemOf(lines[n]).Some? && Faultless(lines[..n])
    ensures Parsed(lines, base) == Err(ParseError(n + 1, ProblemOf(lines[n]).value))
  {
    assert "MONITORS" in KEYS;
    LastAssignmentWins(lines[..n], base, "MONITORS");
    var upTo := lines[..n + 1];
    assert upTo[..n] == lines[..n];
    if lines[n].Assignment? {
      AssignedSetsOneKey(Parsed(lines[..n], base).value, lines[n].key, lines[n].value, "MONITORS");
    }
    FirstErrorStands(lines, n + 1, base);
  }

  /** Hence a file is accepted exactly when no line is bad. */
  lemma {:induction false} AcceptedExactlyWhenFaultless(lines: seq<Line>, base: Config)
    ensures Parsed(lines, base).Ok? <==> Faultless(lines)
  {
    if lines == [] {
    } else if Faultless(lines) {
      assert "MONITORS" in KEYS;
      LastAssignmentWins(lines, base, "MONITORS");
    } else {
      var n: nat := 0;
      assert lines[..|lines|] == lines;
      while n < |lines| && ProblemOf(lines[n]).None?
        invariant n <= |lines| && Faultless(lines[..n])
      {
        assert lines[..n + 1] == lines[..n] + [lines[n]];
        n := n + 1;
      }
      FirstBadLineReported(lines, base, n);
    }
  }

  // ----- lines scanned and lines split

  /** The parser's scanner drops carriage returns and the empty line after a last
      newline; the editor splits at every newline. Both read the same settings. */
  lemma {:induction false} ScannedReadsAsSplit(text: string)
    ensures var lines := Split(text, '\n');
      ReadAll(lines) == ReadAll(ScanLines(text)) + (if lines[|lines| - 1] == "" then [Silent] else [])
  {
    if text != "" {
      match IndexOf(text, '\n') {
        case None =>
          SplitWhole(text, '\n');
          ReadDropsCR(text);
          OneLine(text);
        case Some(at) =>
          var first, rest := text[..at], text[at + 1..];
          assert text == first + ['\n'] + rest;
          SplitConcat(first, rest, '\n');
          SplitWhole(first, '\n');
          ReadDropsCR(first);
          ScannedReadsAsSplit(rest);
          ReadFirst(first, Split(rest, '\n'));
          ReadFirst(DropCR(first), ScanLines(rest));
      }
    }
  }

  lemma OneLine(line: string)
    ensures ReadAll([line]) == [Read(line)]
  {
  }

  lemma ReadFirst(first: string, rest: seq<string>)
    ensures ReadAll([first] + rest) == [Read(first)] + ReadAll(rest)
  {
  }

  lemma ReadDropsCR(line: string)
    ensures Read(DropCR(line)) == Read(line)
  {
    if line != "" && line[|line| - 1] == '\r' {
      TrimIgnoresTail(line[..|line| - 1], '\r');
      assert line == line[..|line| - 1] + ['\r'];
    }
  }

  /** So a text may be parsed by its split lines. */
  lemma ParsedBySplitLines(text: string, base: Config)
    ensures ParsedText(text, base) == Parsed(ReadAll(Split(text, '\n')), base)
  {
    ScannedReadsAsSplit(text);
    var lines := ReadAll(Split(text, '\n'));
    var scanned := ReadAll(ScanLines(text));
    if lines != scanned {
      assert lines[..|lines| - 1] == scanned;
    }
  }
}
