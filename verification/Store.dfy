/** internal/config: the configuration file itself, and the one that is written
    where there is none. */
module Store {
  import opened Wrappers
  import opened Settings
  import opened Text
  import opened Parser
  import opened Editor
  import opened EditorTheorems
  import opened Printer

  /** The comments of the default file, whatever their wording. */
  predicate IsComment(line: string) {
    line != "" && line[0] == '#' && '\n' !in line
  }

  type Comments = lines: seq<string> | |lines| == 11 && forall i :: 0 <= i < |lines| ==> IsComment(lines[i])
    witness ["#", "#", "#", "#", "#", "#", "#", "#", "#", "#", "#"]

  const FILE_LINES: nat := 24

  /** A configuration as a commented file, line by line. */
  function FileLine(d: Config, says: Comments, n: nat): string
    requires Printable(d)
  {
    match n
    case 0 => says[0]
    case 1 => "SAVER_DELAY" + "=" + Decimal(d.saverDelay / SECOND)
    case 3 => says[1]
    case 4 => says[2]
    case 5 => "CYCLE_AFTER" + "=" + Decimal(d.cycleAfter / SECOND)
    case 7 => says[3]
    case 8 => says[4]
    case 9 => "MONITORS" + "=" + ModeText(d.monitors)
    case 11 => says[5]
    case 12 => "LOCK_AFTER" + "=" + Decimal(d.lockAfter / SECOND)
    case 14 => says[6]
    case 15 => "BLANK_AFTER" + "=" + Decimal(d.blankAfter / SECOND)
    case 17 => says[7]
    case 18 => says[8]
    case 19 => "EXCLUDE" + "=" + ("\"" + Join(d.never, ' ') + "\"")
    case 21 => says[9]
    case 22 => says[10]
    case 23 => "INCLUDE" + "=" + ("\"" + Join(d.only, ' ') + "\"")
    case _ => ""
  }

  function FileText(d: Config, says: Comments): string
    requires Printable(d)
  {
    Join(seq(FILE_LINES, n requires 0 <= n => FileLine(d, says, n)), '\n') + "\n"
  }

  /** The file that is installed, and edited, where there is none. */
  function DefaultFile(says: Comments): string {
    FileText(Defaults(), says)
  }

  datatype Outcome = Done | Refused(why: Refusal) | CannotRead | WouldNotParse(error: ParseError) | WriteFailed

  /** The configuration file on disk, replaced as a whole. */
  class ConfigFile {
    const says: Comments
    var content: Option<string>

    constructor (says: Comments, content: Option<string>)
      ensures this.says == says && this.content == content
    {
      this.says, this.content := says, content;
    }

    /** What an edit starts from. */
    function Text(): string
      reads this
    {
      if content.Some? then content.value else DefaultFile(says)
    }

    /** `content` differs from what it was only when r is Done, and is Edited's text
        then. `readable` and `writable` are the disk's two answers. */
    method Set(updates: map<string, string>, readable: bool, writable: bool) returns (r: Outcome)
      modifies this
      ensures updates == map[] ==> r == Done && content == old(content)
      ensures r.Refused? <==> !Accepted(updates)
      ensures r.Refused? ==> RefusedFor(updates, r.why)
      ensures r.CannotRead? <==> updates != map[] && Accepted(updates) && !readable
      ensures updates != map[] && Accepted(updates) && readable ==>
        var parsed := ParsedText(Edited(old(Text()), AllRendered(updates)), Defaults());
        && (r.WouldNotParse? <==> parsed.Err?) && (r.WouldNotParse? ==> r.error == parsed.error)
        && (r.WriteFailed? <==> parsed.Ok? && !writable)
        && (r.Done? <==> parsed.Ok? && writable)
      ensures r.Done? && updates != map[] ==> content == Some(Edited(old(Text()), AllRendered(updates)))
      ensures !r.Done? ==> content == old(content)
    {
      if updates == map[] {
        return Done;
      }
      var rendered := RenderAll(updates);
      if rendered.Err? {
        return Refused(rendered.error);
      }
      if !readable {
        return CannotRead;
      }
      var edited := Apply(Text(), rendered.value);
      var parsed := Parse(edited, Defaults());
      if parsed.Err? {
        return WouldNotParse(parsed.error);
      }
      if !writable {
        return WriteFailed;
      }
      content := Some(edited);
      return Done;
    }
  }

  // ----- the default file

  /** The key line n of such a file assigns. */
  function FileKey(n: nat): Option<string> {
    match n
    case 1 => Some("SAVER_DELAY")
    case 5 => Some("CYCLE_AFTER")
    case 9 => Some("MONITORS")
    case 12 => Some("LOCK_AFTER")
    case 15 => Some("BLANK_AFTER")
    case 19 => Some("EXCLUDE")
    case 23 => Some("INCLUDE")
    case _ => None
  }

  /** The only line that assigns a key. */
  lemma FileLineOf(key: string) returns (n: nat)
    requires key in KEYS
    ensures n < FILE_LINES && FileKey(n) == Some(key)
    ensures forall m: nat :: FileKey(m) == Some(key) ==> m == n
  {
    n := if key == "SAVER_DELAY" then 1
         else if key == "CYCLE_AFTER" then 5
         else if key == "MONITORS" then 9
         else if key == "LOCK_AFTER" then 12
         else if key == "BLANK_AFTER" then 15
         else if key == "EXCLUDE" then 19
         else 23;
  }

  /** A list of plain names is printed and read back as it is. */
  lemma PlainListPrints(names: seq<string>)
    requires Words(names) && PlainNames(names)
    ensures Quoted(Join(names, ' ')) == "\"" + Join(names, ' ') + "\"" && EscapedNames(names) == names
  {
    EscapedNamesSame(names);
    JoinedArePlain(names);
    PlainPrintsItself(Join(names, ' '));
  }

  /** A config that prints without escapes. */
  ghost predicate Clear(d: Config) {
    && Loadable(d) && Printable(d)
    && Quoted(Join(d.never, ' ')) == "\"" + Join(d.never, ' ') + "\""
    && Quoted(Join(d.only, ' ')) == "\"" + Join(d.only, ' ') + "\""
    && EscapedNames(d.never) == d.never && EscapedNames(d.only) == d.only
  }

  /** Each line of the file is silent or sets its key to the config's value. */
  lemma FileLineMeans(d: Config, says: Comments, n: nat)
    requires Clear(d) && n < FILE_LINES
    ensures '\n' !in FileLine(d, says, n)
    ensures Read(FileLine(d, says, n)).Key() == FileKey(n) && ProblemOf(Read(FileLine(d, says, n))).None?
    ensures FileKey(n).Some? ==>
      && FileKey(n).value in KEYS
      && Meaning(FileKey(n).value, Read(FileLine(d, says, n)).value) == Ok(Get(d, FileKey(n).value))
  {
    match FileKey(n) {
      case None =>
        SilentLine(d, says, n);
      case Some(key) =>
        FileLineIsRow(d, says, n);
        RowMeans(d, key);
    }
  }

  lemma RowMeans(d: Config, key: string)
    requires Clear(d) && key in KEYS
    ensures var row := Read(Row(d, key));
      && '\n' !in Row(d, key)
      && row.Key() == Some(key) && ProblemOf(row).None? && Meaning(key, row.value) == Ok(Get(d, key))
  {
    assert LoadableSetting(Get(d, key));
    PrintedMeans(d, key);
    NothingEscaped(d, key);
  }

  lemma NothingEscaped(d: Config, key: string)
    requires Clear(d) && key in KEYS
    ensures ReadBack(Get(d, key)) == Get(d, key)
  {
  }

  lemma SilentLine(d: Config, says: Comments, n: nat)
    requires Printable(d) && FileKey(n).None?
    ensures '\n' !in FileLine(d, says, n) && Read(FileLine(d, says, n)).Silent?
  {
    if FileLine(d, says, n) != "" {
      assert IsComment(FileLine(d, says, n));
      CommentRead(FileLine(d, says, n));
    }
  }

  lemma FileLineIsRow(d: Config, says: Comments, n: nat)
    requires Clear(d) && FileKey(n).Some?
    ensures FileKey(n).value in KEYS && FileLine(d, says, n) == Row(d, FileKey(n).value)
  {
    FileKeyKnown(n);
    var key := FileKey(n).value;
    if ListKey(key) {
      assert FileLine(d, says, n) == key + "=" + Quoted(Join(Get(d, key).names, ' '));
    } else {
      assert FileLine(d, says, n) == key + "=" + Printed(Get(d, key));
    }
  }

  lemma FileKeyKnown(n: nat)
    requires FileKey(n).Some?
    ensures FileKey(n).value in KEYS
  {
  }

  /** The file reads as its lines. */
  lemma FileReads(d: Config, says: Comments)
    requires Clear(d)
    ensures var lines := ReadAll(Split(FileText(d, says), '\n'));
      && |lines| == FILE_LINES + 1 && lines[FILE_LINES] == Silent
      && forall n :: 0 <= n < FILE_LINES ==> lines[n] == Read(FileLine(d, says, n))
  {
    var text := seq(FILE_LINES, n requires 0 <= n => FileLine(d, says, n));
    forall n | 0 <= n < FILE_LINES ensures '\n' !in text[n] {
      FileLineMeans(d, says, n);
    }
    SplitJoin(text, '\n');
    SplitConcat(Join(text, '\n'), "", '\n');
    assert FileText(d, says) == Join(text, '\n') + ['\n'] + "";
  }

  /** The last line to assign a key gives it the config's value. */
  lemma FileSetting(d: Config, says: Comments, lines: seq<Line>, base: Config, key: string)
    requires Clear(d) && key in KEYS && |lines| == FILE_LINES + 1 && lines[FILE_LINES] == Silent
    requires forall n :: 0 <= n < FILE_LINES ==> lines[n] == Read(FileLine(d, says, n))
    ensures Faultless(lines) && LastSetting(lines, base, key) == Get(d, key)
  {
    forall n | 0 <= n < |lines|
      ensures ProblemOf(lines[n]).None? && lines[n].Key() == if n < FILE_LINES then FileKey(n) else None
    {
      if n < FILE_LINES {
        FileLineMeans(d, says, n);
      }
    }
    var n := FileLineOf(key);
    LastIndexIs(lines, key, n);
    FileLineMeans(d, says, n);
  }

  /** A file rendered from a config sets exactly that config. */
  lemma RenderThenParse(d: Config, says: Comments, base: Config)
    requires Clear(d)
    ensures ParsedText(FileText(d, says), base) == Ok(d)
  {
    var lines := ReadAll(Split(FileText(d, says), '\n'));
    FileReads(d, says);
    ParsedBySplitLines(FileText(d, says), base);
    assert "MONITORS" in KEYS;
    FileSetting(d, says, lines, base, "MONITORS");
    LastAssignmentWins(lines, base, "MONITORS");
    var read := Parsed(lines, base).value;
    forall key | key in KEYS ensures Get(read, key) == Get(d, key) {
      FileSetting(d, says, lines, base, key);
      LastAssignmentWins(lines, base, key);
    }
    SettingsAreEverything(read, d);
  }

  ghost predicate PlainWord(s: string) {
    s != "" && Spaceless(s) && forall i :: 0 <= i < |s| ==> Plain(s[i])
  }

  lemma FirstDefaultNamesPlain()
    ensures PlainWord("webcollage") && PlainWord("vidwhacker") && PlainWord("glslideshow")
  {
  }

  lemma LastDefaultNamesPlain()
    ensures PlainWord("photopile") && PlainWord("carousel") && PlainWord("sonar")
  {
  }

  /** Nothing in the default lists needs escaping. */
  lemma DefaultNamesPlain()
    ensures PlainNames(Defaults().never) && Words(Defaults().never)
  {
    FirstDefaultNamesPlain();
    LastDefaultNamesPlain();
    assert forall i :: 0 <= i < |Defaults().never| ==> PlainWord(Defaults().never[i]);
  }

  /** The file written where there is none sets what having none does. */
  lemma DefaultFileIsDefaults(says: Comments, base: Config)
    ensures ParsedText(DefaultFile(says), base) == Ok(Defaults())
  {
    DefaultsAreLoadable();
    DefaultNamesPlain();
    PlainListPrints(Defaults().never);
    PlainListPrints(Defaults().only);
    RenderThenParse(Defaults(), says, base);
  }

  /** Setting keys where there is no file gives the defaults with those keys
      changed, and no others. */
  lemma SetWithoutAFile(says: Comments, updates: map<string, string>, key: string)
    requires Accepted(updates) && key in KEYS
    ensures var parsed := ParsedText(Edited(DefaultFile(says), AllRendered(updates)), Defaults());
      parsed.Ok? ==>
        if key in updates then Requested(key, updates[key]) == Ok(Get(parsed.value, key))
        else Get(parsed.value, key) == Get(Defaults(), key)
  {
    DefaultFileIsDefaults(says, Defaults());
    SetThenParse(DefaultFile(says), updates, Defaults(), key);
  }
}
