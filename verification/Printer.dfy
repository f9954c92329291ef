/** cmd/retrosaver: `config show` prints the settings in effect in the form of the
    configuration file, and internal/config writes the defaults in that form. */
module Printer {
  import opened Wrappers
  import opened Settings
  import opened Text
  import opened Parser
  import opened EditorTheorems

  function ModeText(mode: MonitorMode): string {
    if mode.Same? then "same" else "different"
  }

  /** The settings a file can give: whole seconds a Duration holds, and words. */
  ghost predicate Loadable(cfg: Config) {
    forall key :: key in KEYS ==> LoadableSetting(Get(cfg, key))
  }

  ghost predicate LoadableSetting(s: Setting) {
    match s
    case Delay(ns) => 0 <= ns <= MAX_SECONDS * SECOND && ns % SECOND == 0
    case Mode(_) => true
    case Names(names) => Words(names)
  }

  /** What is printed for the value of a key. */
  function Printed(s: Setting): string
    requires s.Delay? ==> s.ns >= 0
  {
    match s
    case Delay(ns) => Decimal(ns / SECOND)
    case Mode(mode) => ModeText(mode)
    case Names(names) => Quoted(Join(names, ' '))
  }

  /** The line for a key, and the lines for some keys. */
  function Row(cfg: Config, key: string): string
    requires key in KEYS && (Get(cfg, key).Delay? ==> Get(cfg, key).ns >= 0)
  {
    key + "=" + Printed(Get(cfg, key))
  }

  predicate Printable(cfg: Config) {
    cfg.saverDelay >= 0 && cfg.cycleAfter >= 0 && cfg.lockAfter >= 0 && cfg.blankAfter >= 0
  }

  function Rows(cfg: Config): seq<string>
    requires Printable(cfg)
  {
    seq(|KEYS|, i requires 0 <= i < |KEYS| => Row(cfg, KEYS[i]))
  }

  function Shown(path: string, cfg: Config): string
    requires Printable(cfg)
  {
    "# " + path + "\n" + Join(Rows(cfg), '\n') + "\n"
  }

  /** The text that is printed, line by line. */
  lemma ShownLines(path: string, cfg: Config) returns (rows: seq<string>)
    requires Printable(cfg)
    ensures Shown(path, cfg) == "# " + path + "\n" + Join(rows, '\n') + "\n" && |rows| == 7
    ensures rows[0] == "SAVER_DELAY" + "=" + Decimal(cfg.saverDelay / 1_000_000_000)
    ensures rows[1] == "CYCLE_AFTER" + "=" + Decimal(cfg.cycleAfter / 1_000_000_000)
    ensures rows[2] == "MONITORS" + "=" + (if cfg.monitors.Same? then "same" else "different")
    ensures rows[3] == "LOCK_AFTER" + "=" + Decimal(cfg.lockAfter / 1_000_000_000)
    ensures rows[4] == "BLANK_AFTER" + "=" + Decimal(cfg.blankAfter / 1_000_000_000)
    ensures rows[5] == "EXCLUDE" + "=" + Quoted(Join(cfg.never, ' '))
    ensures rows[6] == "INCLUDE" + "=" + Quoted(Join(cfg.only, ' '))
  {
    rows := Rows(cfg);
  }

  /** A loaded config has no negative delay. */
  lemma LoadableIsPrintable(cfg: Config)
    requires Loadable(cfg)
    ensures Printable(cfg)
  {
    assert KEYS[0] in KEYS && KEYS[1] in KEYS && KEYS[3] in KEYS && KEYS[4] in KEYS;
    assert LoadableSetting(Get(cfg, "SAVER_DELAY")) && LoadableSetting(Get(cfg, "CYCLE_AFTER"));
    assert LoadableSetting(Get(cfg, "LOCK_AFTER")) && LoadableSetting(Get(cfg, "BLANK_AFTER"));
  }

  /** Whatever the parser accepts gives settings a file can give. */
  lemma ParsedIsLoadable(content: string, base: Config)
    requires Loadable(base) && ParsedText(content, base).Ok?
    ensures Loadable(ParsedText(content, base).value)
  {
    forall key | key in KEYS
      ensures LoadableSetting(Get(ParsedText(content, base).value, key))
    {
      LastLineDecides(content, base, key);
    }
  }

  lemma DefaultsAreLoadable()
    ensures Loadable(Defaults())
  {
    DefaultsAreWords();
  }

  lemma DefaultsAreWords()
    ensures Words(Defaults().never) && Words(Defaults().only)
  {
  }

  /** Prints each row and a newline. */
  method PrintRows(head: string, rows: seq<string>) returns (text: string)
    requires rows != []
    ensures text == head + Join(rows, '\n') + "\n"
  {
    text := head + rows[0] + "\n";
    assert rows[..1] == [rows[0]];
    for i := 1 to |rows|
      invariant text == head + Join(rows[..i], '\n') + "\n"
    {
      text := text + rows[i] + "\n";
      assert rows[..i + 1] == rows[..i] + [rows[i]];
      JoinConcat(rows[..i], [rows[i]], '\n');
    }
    assert rows[..|rows|] == rows;
  }

  /** showConfig: the settings in effect, or nothing when the file is bad. */
  method ShowConfig(path: string, file: FileRead) returns (out: Option<string>)
    ensures out.None? <==> file.Unreadable? || (file.Contents? && ParsedText(file.text, Defaults()).Err?)
    ensures out.Some? ==>
              var cfg := if file.Contents? then ParsedText(file.text, Defaults()).value else Defaults();
              Printable(cfg) && out.value == Shown(path, cfg)
  {
    var cfg, failed := Load(file);
    if failed {
      return None;
    }
    DefaultsAreLoadable();
    if file.Contents? {
      ParsedIsLoadable(file.text, Defaults());
    }
    LoadableIsPrintable(cfg);
    var text := PrintRows("# " + path + "\n", Rows(cfg));
    return Some(text);
  }

  // ----- what the printed form reads back as

  lemma {:induction false} EscapeConcat(a: string, b: string)
    ensures EscapeAll(a + b) == EscapeAll(a) + EscapeAll(b)
  {
    if a == "" {
      assert a + b == b;
    } else {
      assert (a + b)[1..] == a[1..] + b;
      EscapeConcat(a[1..], b);
    }
  }

  function EscapedNames(names: seq<string>): (r: seq<string>)
    ensures |r| == |names| && forall i :: 0 <= i < |names| ==> r[i] == EscapeAll(names[i])
  {
    seq(|names|, i requires 0 <= i < |names| => EscapeAll(names[i]))
  }

  /** Escaping does not touch the blanks between names. */
  lemma {:induction false} EscapeJoined(names: seq<string>)
    ensures EscapeAll(Join(names, ' ')) == Join(EscapedNames(names), ' ')
  {
    if |names| > 1 {
      var rest := Join(names[1..], ' ');
      EscapeConcat(names[0] + [' '], rest);
      EscapeConcat(names[0], [' ']);
      assert EscapeAll([' ']) == [' '];
      EscapeJoined(names[1..]);
      assert EscapedNames(names)[1..] == EscapedNames(names[1..]);
    }
  }

  lemma EscapedChar(c: char)
    requires !IsSpace(c)
    ensures Escaped(c) != "" && forall i :: 0 <= i < |Escaped(c)| ==> !IsSpace(Escaped(c)[i]) && Escaped(c)[i] != '\n'
    ensures |Escaped(c)| == 1 ==> Plain(c)
  {
  }

  /** An escaped word is a word, and longer than the word when a character needed
      escaping. */
  lemma {:induction false} EscapedWord(s: string)
    requires Spaceless(s)
    ensures Spaceless(EscapeAll(s)) && '\n' !in EscapeAll(s)
    ensures |EscapeAll(s)| >= |s|
    ensures |EscapeAll(s)| == |s| ==> forall i :: 0 <= i < |s| ==> Plain(s[i])
  {
    if s != "" {
      EscapedChar(s[0]);
      EscapedWord(s[1..]);
      assert forall i :: 1 <= i < |s| ==> s[i] == s[1..][i - 1];
    }
  }

  /** Every character of every name prints as itself. */
  ghost predicate PlainNames(names: seq<string>) {
    forall i, j :: 0 <= i < |names| && 0 <= j < |names[i]| ==> Plain(names[i][j])
  }

  lemma EscapedNamesSame(names: seq<string>)
    requires Words(names)
    ensures Words(EscapedNames(names))
    ensures EscapedNames(names) == names <==> PlainNames(names)
    ensures '\n' !in Join(EscapedNames(names), ' ')
  {
    forall i | 0 <= i < |names|
      ensures Spaceless(EscapeAll(names[i])) && '\n' !in EscapeAll(names[i]) && EscapeAll(names[i]) != ""
      ensures EscapeAll(names[i]) == names[i] <==> forall j :: 0 <= j < |names[i]| ==> Plain(names[i][j])
    {
      EscapedWord(names[i]);
      if forall j :: 0 <= j < |names[i]| ==> Plain(names[i][j]) {
        PlainPrintsItself(names[i]);
      }
    }
    var escaped := EscapedNames(names);
    if escaped == names {
      assert forall i :: 0 <= i < |names| ==> names[i] == EscapeAll(names[i]);
    }
    JoinKeeps(escaped, ' ', '\n');
  }

  /** What a printed setting reads back as. */
  function ReadBack(s: Setting): Setting {
    match s
    case Names(names) => Names(EscapedNames(names))
    case _ => s
  }

  /** The setting is of the kind the key takes. */
  ghost predicate Fits(key: string, s: Setting) {
    match s
    case Names(_) => ListKey(key)
    case Mode(_) => key == "MONITORS"
    case Delay(_) => !ListKey(key) && key != "MONITORS"
  }

  lemma ModeMeans(mode: MonitorMode)
    ensures var s := ModeText(mode); Trim(s) == s && Unquote(s) == s && '\n' !in s
  {
    SpacelessIsTrimmed(ModeText(mode));
  }

  lemma PrintedSettingMeans(key: string, s: Setting)
    requires key in KEYS && LoadableSetting(s) && Fits(key, s)
    ensures '\n' !in Printed(s)
    ensures Meaning(key, Unquote(Trim(Printed(s)))) == Ok(ReadBack(s))
  {
    match s {
      case Delay(ns) =>
        DelayMeans(key, ns);
      case Mode(mode) =>
        ModeMeans(mode);
      case Names(names) =>
        NamesMean(names);
    }
  }

  /** A printed setting keeps to its line, and reads back as itself unless a name
      holds a character that was escaped. */
  lemma PrintedMeans(cfg: Config, key: string)
    requires key in KEYS && LoadableSetting(Get(cfg, key))
    ensures '\n' !in Row(cfg, key)
    ensures Read(Row(cfg, key)).Assignment? && Read(Row(cfg, key)).key == key
    ensures Meaning(key, Read(Row(cfg, key)).value) == Ok(ReadBack(Get(cfg, key)))
  {
    GetFits(cfg, key);
    PrintedSettingMeans(key, Get(cfg, key));
    LineReads(key, Printed(Get(cfg, key)));
  }

  lemma GetFits(cfg: Config, key: string)
    requires key in KEYS
    ensures Fits(key, Get(cfg, key))
  {
  }

  lemma NamesMean(names: seq<string>)
    requires Words(names)
    ensures var s := Quoted(Join(names, ' '));
      '\n' !in s && Trim(s) == s && Fields(Unquote(s)) == EscapedNames(names)
  {
    EscapedNamesSame(names);
    EscapeJoined(names);
    SpacelessIsTrimmed(Quoted(Join(names, ' ')));
    FieldsJoin(EscapedNames(names));
  }

  lemma DelayMeans(key: string, ns: int)
    requires LoadableSetting(Delay(ns))
    ensures var s := Decimal(ns / SECOND);
      Seconds(key, s) == Ok(ns) && Trim(s) == s && Unquote(s) == s && '\n' !in s
  {
    var n := ns / SECOND;
    AtoiDecimal(n);
    DecimalStays(n);
  }

  lemma DecimalStays(n: nat)
    ensures var s := Decimal(n); Trim(s) == s && Unquote(s) == s && '\n' !in s
  {
    DecimalIsBare(n);
    SpacelessIsTrimmed(Decimal(n));
    assert IsDigit(Decimal(n)[0]);
  }

  /** The rows are lines, faultless, and the last to assign their keys. */
  lemma RowsRead(cfg: Config)
    requires Loadable(cfg) && Printable(cfg)
    ensures forall i :: 0 <= i < |KEYS| ==> '\n' !in Rows(cfg)[i]
    ensures Faultless(ReadAll(Rows(cfg)))
    ensures forall key :: key in KEYS ==> LastLine(ReadAll(Rows(cfg)), key) == Some(Read(Row(cfg, key)))
  {
    var rows := Rows(cfg);
    var lines := ReadAll(rows);
    forall i | 0 <= i < |KEYS|
      ensures '\n' !in rows[i] && ProblemOf(lines[i]).None? && lines[i].Key() == Some(KEYS[i])
              && lines[i] == Read(Row(cfg, KEYS[i]))
    {
      PrintedMeans(cfg, KEYS[i]);
    }
    KeysDoNotRepeat();
    forall key | key in KEYS
      ensures LastLine(lines, key) == Some(Read(Row(cfg, key)))
    {
      var i :| 0 <= i < |KEYS| && KEYS[i] == key;
      LastIndexIs(lines, key, i);
    }
  }

  /** A head line, rows and a final newline, by their lines. */
  lemma PageSplits(head: string, rows: seq<string>)
    requires rows != [] && forall i :: 0 <= i < |rows| ==> '\n' !in rows[i]
    ensures Split(head + "\n" + Join(rows, '\n') + "\n", '\n') == Split(head, '\n') + (rows + [""])
  {
    var body := Join(rows, '\n');
    SplitJoin(rows, '\n');
    SplitConcat(body, "", '\n');
    assert body + ['\n'] + "" == body + "\n";
    SplitConcat(head, body + "\n", '\n');
    assert head + "\n" + body + "\n" == head + ['\n'] + (body + "\n");
  }

  /** What is printed, by its lines. */
  lemma ShownSplits(path: string, cfg: Config)
    requires Loadable(cfg) && Printable(cfg)
    ensures Split(Shown(path, cfg), '\n') == Split("# " + path, '\n') + (Rows(cfg) + [""])
  {
    RowsRead(cfg);
    PageSplits("# " + path, Rows(cfg));
  }

  /** What is printed reads as the path's lines and then the rows. */
  lemma ShownReads(path: string, cfg: Config)
    requires Loadable(cfg) && Printable(cfg)
    ensures var head, lines := ReadAll(Split("# " + path, '\n')), ReadAll(Split(Shown(path, cfg), '\n'));
      && (Faultless(lines) <==> Faultless(head))
      && forall key :: key in KEYS ==> LastLine(lines, key) == Some(Read(Row(cfg, key)))
  {
    var first, rows := Split("# " + path, '\n'), Rows(cfg);
    ShownSplits(path, cfg);
    RowsRead(cfg);
    ReadConcat(rows, [""]);
    OneLine("");
    ReadConcat(first, rows + [""]);
    SilentAssignsNothing(ReadAll(rows), "");
    FaultlessConcat(ReadAll(first), ReadAll(rows + [""]));
    forall key | key in KEYS
      ensures LastLine(ReadAll(first + (rows + [""])), key) == Some(Read(Row(cfg, key)))
    {
      SilentAssignsNothing(ReadAll(rows), key);
      LastLineConcat(ReadAll(first), ReadAll(rows + [""]), key);
    }
  }

  lemma OneCommentLine(path: string)
    requires '\n' !in path
    ensures Faultless(ReadAll(Split("# " + path, '\n')))
  {
    SplitWhole("# " + path, '\n');
    OneLine("# " + path);
    CommentRead("# " + path);
  }

  lemma CommentRead(line: string)
    requires line != "" && line[0] == '#'
    ensures Read(line).Silent?
  {
    TrimRightSuffix("#", line[1..]);
    assert line == "#" + line[1..];
  }

  /** What was read back is what was printed exactly when nothing was escaped. */
  lemma SameExactlyWhenPlain(cfg: Config, read: Config)
    requires Loadable(cfg) && forall key :: key in KEYS ==> Get(read, key) == ReadBack(Get(cfg, key))
    ensures read == cfg <==> NamesPlain(cfg)
  {
    assert KEYS[5] in KEYS && KEYS[6] in KEYS;
    assert LoadableSetting(Get(cfg, "EXCLUDE")) && LoadableSetting(Get(cfg, "INCLUDE"));
    EscapedNamesSame(cfg.never);
    EscapedNamesSame(cfg.only);
    assert Get(read, "EXCLUDE") == Names(EscapedNames(cfg.never)) && Get(read, "INCLUDE") == Names(EscapedNames(cfg.only));
    if NamesPlain(cfg) {
      forall key | key in KEYS ensures Get(read, key) == Get(cfg, key) {
      }
      SettingsAreEverything(read, cfg);
    }
  }

  ghost predicate NamesPlain(cfg: Config) {
    PlainNames(cfg.never) && PlainNames(cfg.only)
  }

  /** Parsing what `config show` prints gives the settings back, over whatever
      defaults, exactly when no module name holds a character that is escaped in
      print and no line of the path after its first would be refused. For a path
      without a newline the names alone decide. */
  lemma PrintThenParse(path: string, cfg: Config, base: Config)
    requires Loadable(cfg) && Printable(cfg)
    ensures ParsedText(Shown(path, cfg), base) == Ok(cfg) <==>
            NamesPlain(cfg) && Faultless(ReadAll(Split("# " + path, '\n')))
    ensures '\n' !in path ==> Faultless(ReadAll(Split("# " + path, '\n')))
  {
    var content, head := Shown(path, cfg), ReadAll(Split("# " + path, '\n'));
    ShownReads(path, cfg);
    ParsedBySplitLines(content, base);
    AcceptedExactlyWhenFaultless(ReadAll(Split(content, '\n')), base);
    if Faultless(head) {
      var read := ParsedText(content, base).value;
      forall key | key in KEYS
        ensures Get(read, key) == ReadBack(Get(cfg, key))
      {
        LastLineDecides(content, base, key);
        PrintedMeans(cfg, key);
      }
      SameExactlyWhenPlain(cfg, read);
    }
    if '\n' !in path {
      OneCommentLine(path);
    }
  }

  /** A name with a backslash in it, which the parser accepts. */
  const ODD_NAME := "a\\b"

  lemma OddNameRead()
    ensures Words([ODD_NAME]) && !PlainNames([ODD_NAME]) && '\n' !in ODD_NAME
    ensures Fields(Unquote(Trim(ODD_NAME))) == [ODD_NAME]
  {
    SpacelessIsTrimmed(ODD_NAME);
    FieldsJoin([ODD_NAME]);
    assert ODD_NAME[1] == '\\' && !Plain([ODD_NAME][0][1]);
  }

  /** EXCLUDE=a\b is accepted, and what is then printed does not give the settings
      back: the escape is read as part of the name. */
  lemma OddNameIsNotReadBack(path: string, base: Config)
    requires Loadable(base)
    ensures var parsed := ParsedText("EXCLUDE" + "=" + ODD_NAME, base);
      && parsed.Ok? && parsed.value.never == [ODD_NAME] && Printable(parsed.value)
      && ParsedText(Shown(path, parsed.value), base) != parsed
  {
    var line := "EXCLUDE" + "=" + ODD_NAME;
    OddNameRead();
    assert KEYS[5] == "EXCLUDE";
    LineReads("EXCLUDE", ODD_NAME);
    SplitWhole(line, '\n');
    OneLine(line);
    ParsedBySplitLines(line, base);
    OneAssignment(Read(line), base);
    var cfg := base.(never := [ODD_NAME]);
    ParsedIsLoadable(line, base);
    LoadableIsPrintable(cfg);
    PrintThenParse(path, cfg, base);
  }

  lemma OneAssignment(line: Line, base: Config)
    requires line.Assignment?
    ensures Parsed([line], base) == Stepped(Ok(base), 1, line)
  {
    ParsedNext([line], 0, base);
    assert [line][..1] == [line] && [line][..0] == [];
  }
}
