/** Editing a configuration file is a lawful update: what is set is what is read
    back, nothing else changes, and the later of two edits wins. */
module EditorTheorems {
  import opened Wrappers
  import opened Settings
  import opened Text
  import opened Parser
  import opened Editor

  // ----- what Rendered lines are

  /** Lines that each assign their own key, and are lines. */
  ghost predicate Proper(rendered: map<string, string>) {
    forall key :: key in rendered ==> key in KEYS && '\n' !in rendered[key] && Read(rendered[key]).Key() == Some(key)
  }

  /** A key is one bare word without an equals sign. */
  lemma KeysAreWords(key: string)
    requires key in KEYS
    ensures key != "" && Spaceless(key) && '=' !in key && '#' !in key && '\n' !in key
  {
  }

  lemma {:induction false} SpacelessIsTrimmed(s: string)
    requires Bare(s)
    ensures Trim(s) == s && TrimLeft(s) == s && TrimRight(s) == s
  {
  }

  /** Trimming what was trimmed on the right trims the rest. */
  lemma {:induction false} TrimAfterTrimRight(s: string)
    ensures Trim(TrimRight(s)) == Trim(s)
  {
    if s != "" && IsSpace(s[|s| - 1]) {
      TrimAfterTrimRight(s[..|s| - 1]);
      TrimIgnoresTail(s[..|s| - 1], s[|s| - 1]);
      assert s == s[..|s| - 1] + [s[|s| - 1]];
    }
  }

  /** A line KEY=value assigns the trimmed value, unquoted. */
  lemma AssignmentRead(key: string, value: string)
    requires key in KEYS
    ensures Read(key + "=" + value) == Assignment(key, Unquote(Trim(value)))
  {
    KeysAreWords(key);
    var line := key + "=" + value;
    assert line[0] == key[0];
    TrimRightSuffix(key + "=", value);
    var text := key + "=" + TrimRight(value);
    assert Trim(line) == text;
    IndexOfFirst(key, TrimRight(value), '=');
    assert text == key + ['='] + TrimRight(value);
    assert text[..|key|] == key && text[|key| + 1..] == TrimRight(value);
    SpacelessIsTrimmed(key);
    TrimAfterTrimRight(value);
  }

  lemma {:induction false} PlainPrintsItself(s: string)
    requires forall i :: 0 <= i < |s| ==> Plain(s[i])
    ensures EscapeAll(s) == s
  {
    if s != "" {
      PlainPrintsItself(s[1..]);
      assert s == [s[0]] + s[1..];
    }
  }

  lemma {:induction false} JoinedArePlain(names: seq<string>)
    requires forall i, j :: 0 <= i < |names| && 0 <= j < |names[i]| ==> Plain(names[i][j])
    ensures forall k :: 0 <= k < |Join(names, ' ')| ==> Plain(Join(names, ' ')[k])
  {
    if |names| > 1 {
      JoinedArePlain(names[1..]);
    }
  }

  /** A quoted text keeps its ends, and unquotes to what it quotes. */
  lemma QuotedRead(s: string)
    requires forall i :: 0 <= i < |s| ==> Plain(s[i])
    ensures Trim(Quoted(s)) == Quoted(s) && Unquote(Quoted(s)) == s
  {
    PlainPrintsItself(s);
    SpacelessIsTrimmed(Quoted(s));
  }

  /** A line KEY=value is one line when the value is. */
  lemma LineReads(key: string, value: string)
    requires key in KEYS && '\n' !in value
    ensures '\n' !in key + "=" + value
    ensures Read(key + "=" + value) == Assignment(key, Unquote(Trim(value)))
  {
    KeysAreWords(key);
    AssignmentRead(key, value);
  }

  /** A quoted list of module names reads back as the names. */
  lemma QuotedNames(names: seq<string>)
    requires Words(names) && forall i :: 0 <= i < |names| ==> ModuleName(names[i])
    ensures var s := Quoted(Join(names, ' '));
      '\n' !in s && Unquote(Trim(s)) == Join(names, ' ') && Fields(Join(names, ' ')) == names
  {
    JoinedArePlain(names);
    QuotedRead(Join(names, ' '));
    PlainPrintsItself(Join(names, ' '));
    FieldsJoin(names);
  }

  lemma WordStays(value: string)
    requires forall i :: 0 <= i < |value| ==> !Forbidden(value[i])
    ensures '\n' !in value && Unquote(Trim(value)) == Trim(value)
  {
    TrimKeeps(value, '"');
    TrimKeeps(value, '\'');
  }

  /** An update that is accepted renders as a line that assigns its key what was
      asked for: list values come back as their words. */
  lemma RenderedMeansRequested(key: string, value: string)
    requires Rendered(key, value).Ok?
    ensures key in KEYS
    ensures var line := Rendered(key, value).value;
      && '\n' !in line
      && Read(line).Assignment? && Read(line).key == key
      && Meaning(key, Read(line).value) == Requested(key, value)
  {
    if ListKey(key) {
      QuotedNames(Fields(value));
      LineReads(key, Quoted(Join(Fields(value), ' ')));
    } else {
      WordStays(value);
      LineReads(key, value);
    }
  }

  // ----- the edited text by its lines

  /** A last empty line is what follows a final newline; what is appended takes
      its place. */
  function Trunk(text: seq<string>): seq<string>
    requires text != []
  {
    if text[|text| - 1] == "" then text[..|text| - 1] else text
  }

  function EditedLines(text: seq<string>, rendered: map<string, string>): seq<string>
    requires text != []
  {
    var lines := ReadAll(text);
    var replaced := Replaced(text, lines, rendered);
    var more := Appended(KEYS, lines, rendered);
    if more == [] then replaced else Trunk(replaced) + more + [""]
  }

  lemma {:induction false} AppendedAreLines(keys: seq<string>, lines: seq<Line>, rendered: map<string, string>)
    requires Proper(rendered)
    ensures forall line :: line in Appended(keys, lines, rendered) ==> '\n' !in line
  {
    if keys != [] {
      AppendedAreLines(keys[..|keys| - 1], lines, rendered);
    }
  }

  lemma {:induction false} JoinEnds(text: seq<string>)
    requires text != [] && forall line :: line in text ==> '\n' !in line
    ensures var s := Join(text, '\n');
      && (s == "" <==> text == [""])
      && (s != "" && s[|s| - 1] == '\n' <==> |text| > 1 && text[|text| - 1] == "")
  {
    if |text| > 1 {
      JoinEnds(text[1..]);
      assert text[1..][|text| - 2] == text[|text| - 1];
      assert forall line :: line in text[1..] ==> line in text;
    } else {
      assert text[0] in text;
    }
  }

  /** What comes before the appended lines. */
  lemma TrunkEnded(text: seq<string>)
    requires text != [] && forall line :: line in text ==> '\n' !in line
    ensures Ended(Join(text, '\n')) == if Trunk(text) == [] then "" else Join(Trunk(text), '\n') + "\n"
  {
    JoinEnds(text);
    var trunk := Trunk(text);
    if trunk != text {
      assert text == trunk + [""];
      if trunk != [] {
        JoinConcat(trunk, [""], '\n');
      }
    }
  }

  /** The appended lines and the newline that ends them. */
  lemma MoreEnded(more: seq<string>)
    requires more != []
    ensures Join(more + [""], '\n') == Join(more, '\n') + "\n"
  {
    JoinConcat(more, [""], '\n');
  }

  /** What is appended follows the text's lines, after a newline if need be. */
  lemma AppendedFollow(text: seq<string>, more: seq<string>)
    requires text != [] && more != []
    requires forall line :: line in text ==> '\n' !in line
    ensures Ended(Join(text, '\n')) + Join(more, '\n') + "\n" == Join(Trunk(text) + more + [""], '\n')
  {
    TrunkEnded(text);
    MoreEnded(more);
    var trunk, tail := Trunk(text), more + [""];
    assert trunk + more + [""] == trunk + tail;
    if trunk == [] {
      assert trunk + tail == tail;
    } else {
      JoinConcat(trunk, tail, '\n');
    }
  }

  lemma ReplacedAreLines(text: seq<string>, lines: seq<Line>, rendered: map<string, string>)
    requires |text| == |lines| && Proper(rendered) && forall i :: 0 <= i < |text| ==> '\n' !in text[i]
    ensures forall line :: line in Replaced(text, lines, rendered) ==> '\n' !in line
  {
    var replaced := Replaced(text, lines, rendered);
    forall line | line in replaced ensures '\n' !in line {
      var j :| 0 <= j < |replaced| && replaced[j] == line;
      assert replaced[j] == EditedLine(text, lines, rendered, j);
    }
  }

  lemma EditedJoins(content: string, rendered: map<string, string>)
    requires Proper(rendered)
    ensures var lines := EditedLines(Split(content, '\n'), rendered);
      Edited(content, rendered) == Join(lines, '\n') && forall line :: line in lines ==> '\n' !in line
  {
    var text := Split(content, '\n');
    var lines := ReadAll(text);
    var replaced := Replaced(text, lines, rendered);
    var more := Appended(KEYS, lines, rendered);
    AppendedAreLines(KEYS, lines, rendered);
    ReplacedAreLines(text, lines, rendered);
    if more != [] {
      AppendedFollow(replaced, more);
    }
  }

  /** The edited text splits into the edited lines. */
  lemma EditedSplits(content: string, rendered: map<string, string>)
    requires Proper(rendered)
    ensures Split(Edited(content, rendered), '\n') == EditedLines(Split(content, '\n'), rendered)
  {
    EditedJoins(content, rendered);
    SplitJoin(EditedLines(Split(content, '\n'), rendered), '\n');
  }

  // ----- the last assignment of each key

  /** The last line that assigns a key, itself. */
  function LastLine(lines: seq<Line>, key: string): Option<Line> {
    match LastIndex(lines, key)
    case None => None
    case Some(i) => Some(lines[i])
  }

  /** LastIndex is the only index with its description. */
  lemma LastIndexIs(lines: seq<Line>, key: string, i: nat)
    requires i < |lines| && lines[i].Key() == Some(key)
    requires forall j :: i < j < |lines| ==> lines[j].Key() != Some(key)
    ensures LastIndex(lines, key) == Some(i)
  {
    var at := LastIndex(lines, key);
    assert at.Some?;
    assert !(at.value < i) && !(i < at.value);
  }

  lemma LastLineConcat(a: seq<Line>, b: seq<Line>, key: string)
    ensures LastLine(a + b, key) == if LastLine(b, key).Some? then LastLine(b, key) else LastLine(a, key)
  {
    var ab := a + b;
    match LastIndex(b, key) {
      case Some(i) =>
        forall j | |a| + i < j < |ab| ensures ab[j].Key() != Some(key) {
          assert ab[j] == b[j - |a|];
        }
        LastIndexIs(ab, key, |a| + i);
      case None =>
        forall j | |a| <= j < |ab| ensures ab[j].Key() != Some(key) {
          assert ab[j] == b[j - |a|];
        }
        if LastIndex(a, key).Some? {
          LastIndexIs(ab, key, LastIndex(a, key).value);
        } else {
          forall j | 0 <= j < |a| ensures ab[j].Key() != Some(key) {
            assert ab[j] == a[j];
          }
        }
    }
  }

  lemma ReadConcat(a: seq<string>, b: seq<string>)
    ensures ReadAll(a + b) == ReadAll(a) + ReadAll(b)
  {
  }

  /** An empty last line assigns nothing. */
  lemma TrunkReads(text: seq<string>)
    requires text != []
    ensures ReadAll(text) == ReadAll(Trunk(text)) + if Trunk(text) == text then [] else [Silent]
  {
    if Trunk(text) != text {
      assert text == Trunk(text) + [""];
      ReadConcat(Trunk(text), [""]);
      OneLine("");
    }
  }

  lemma SilentAssignsNothing(lines: seq<Line>, key: string)
    ensures LastLine(lines + [Silent], key) == LastLine(lines, key)
    ensures Faultless(lines + [Silent]) <==> Faultless(lines)
  {
    LastLineConcat(lines, [Silent], key);
    FaultlessConcat(lines, [Silent]);
  }

  lemma FaultlessConcat(a: seq<Line>, b: seq<Line>)
    ensures Faultless(a + b) <==> Faultless(a) && Faultless(b)
  {
    assert forall i :: 0 <= i < |a| ==> (a + b)[i] == a[i];
    assert forall i :: 0 <= i < |b| ==> (a + b)[|a| + i] == b[i];
  }

  /** How the overwritten text reads. */
  ghost predicate ReadsReplaced(lines: seq<Line>, rendered: map<string, string>, after: seq<Line>) {
    && |after| == |lines|
    && forall j :: 0 <= j < |lines| ==> after[j] == if Overwritten(lines, rendered, j) then Read(rendered[lines[j].key]) else lines[j]
  }

  lemma ReplacedReads(text: seq<string>, rendered: map<string, string>)
    ensures ReadsReplaced(ReadAll(text), rendered, ReadAll(Replaced(text, ReadAll(text), rendered)))
  {
    var lines := ReadAll(text);
    var replaced := Replaced(text, lines, rendered);
    forall j | 0 <= j < |text|
      ensures ReadAll(replaced)[j] == if Overwritten(lines, rendered, j) then Read(rendered[lines[j].key]) else lines[j]
    {
      assert replaced[j] == EditedLine(text, lines, rendered, j);
    }
  }

  /** Overwriting keeps where each key is last assigned, and changes the line for
      the wanted ones. */
  lemma ReplacedLastLine(lines: seq<Line>, rendered: map<string, string>, after: seq<Line>, key: string)
    requires Proper(rendered) && ReadsReplaced(lines, rendered, after)
    ensures LastLine(after, key) ==
            if key in rendered && LastIndex(lines, key).Some? then Some(Read(rendered[key])) else LastLine(lines, key)
  {
    assert forall j :: 0 <= j < |lines| ==> after[j].Key() == lines[j].Key();
    var at := LastIndex(lines, key);
    if at.Some? {
      LastIndexIs(after, key, at.value);
    }
  }

  /** The rendered lines as they are read. */
  ghost function ReadOf(rendered: map<string, string>): map<string, Line> {
    map key | key in rendered :: Read(rendered[key])
  }

  /** The appended lines as they are read. */
  ghost function AppendedRead(keys: seq<string>, lines: seq<Line>, read: map<string, Line>): seq<Line> {
    if keys == [] then []
    else
      var key := keys[|keys| - 1];
      AppendedRead(keys[..|keys| - 1], lines, read) + (if key in read && LastIndex(lines, key).None? then [read[key]] else [])
  }

  lemma {:induction false} AppendedReads(keys: seq<string>, lines: seq<Line>, rendered: map<string, string>)
    ensures ReadAll(Appended(keys, lines, rendered)) == AppendedRead(keys, lines, ReadOf(rendered))
  {
    if keys != [] {
      var init, last := keys[..|keys| - 1], keys[|keys| - 1];
      AppendedReads(init, lines, rendered);
      if last in rendered && LastIndex(lines, last).None? {
        ReadConcat(Appended(init, lines, rendered), [rendered[last]]);
        OneLine(rendered[last]);
      }
    }
  }

  lemma OneLineAssigns(line: Line, key: string)
    ensures LastLine([line], key) == if line.Key() == Some(key) then Some(line) else None
    ensures Faultless([line]) <==> ProblemOf(line).None?
  {
    assert [line][0] == line;
  }

  lemma {:induction false} AppendedLastLine(keys: seq<string>, lines: seq<Line>, read: map<string, Line>, key: string)
    requires forall k :: k in read ==> read[k].Key() == Some(k)
    ensures LastLine(AppendedRead(keys, lines, read), key) ==
            if key in keys && key in read && LastIndex(lines, key).None? then Some(read[key]) else None
  {
    if keys != [] {
      var init, last := keys[..|keys| - 1], keys[|keys| - 1];
      var before := AppendedRead(init, lines, read);
      AppendedLastLine(init, lines, read, key);
      assert key in keys <==> key in init || key == last;
      if last in read && LastIndex(lines, last).None? {
        OneLineAssigns(read[last], key);
        LastLineConcat(before, [read[last]], key);
        assert AppendedRead(keys, lines, read) == before + [read[last]];
      } else {
        assert AppendedRead(keys, lines, read) == before;
      }
    }
  }

  /** After an edit the last assignment of a wanted key is the rendered line, and
      that of any other key is what it was. */
  lemma EditedLastLine(text: seq<string>, rendered: map<string, string>, key: string)
    requires text != [] && Proper(rendered) && key in KEYS
    ensures LastLine(ReadAll(EditedLines(text, rendered)), key) ==
            if key in rendered then Some(Read(rendered[key])) else LastLine(ReadAll(text), key)
  {
    var lines := ReadAll(text);
    var replaced := Replaced(text, lines, rendered);
    var more := Appended(KEYS, lines, rendered);
    ReplacedReads(text, rendered);
    ReplacedLastLine(lines, rendered, ReadAll(replaced), key);
    AppendedReads(KEYS, lines, rendered);
    AppendedLastLine(KEYS, lines, ReadOf(rendered), key);
    if more != [] {
      var trunk := Trunk(replaced);
      TrunkReads(replaced);
      SilentAssignsNothing(ReadAll(trunk), key);
      ReadConcat(trunk, more);
      ReadConcat(trunk + more, [""]);
      OneLine("");
      LastLineConcat(ReadAll(trunk), ReadAll(more), key);
      SilentAssignsNothing(ReadAll(trunk + more), key);
    }
  }

  // ----- when the edited text parses

  /** What a rendered line says makes sense for its key. */
  ghost predicate Sensible(rendered: map<string, string>) {
    forall key :: key in rendered ==> ProblemOf(Read(rendered[key])).None?
  }

  /** The lines an edit leaves alone have nothing wrong. */
  ghost predicate RestFaultless(lines: seq<Line>, rendered: map<string, string>) {
    forall j :: 0 <= j < |lines| && !Overwritten(lines, rendered, j) ==> ProblemOf(lines[j]).None?
  }

  /** The wanted keys that a line assigns make sense. */
  ghost predicate SensibleWhere(rendered: map<string, string>, lines: seq<Line>, found: bool) {
    forall key :: key in rendered && LastIndex(lines, key).Some? == found ==> ProblemOf(Read(rendered[key])).None?
  }

  lemma ReplacedFaultless(lines: seq<Line>, rendered: map<string, string>, after: seq<Line>)
    requires ReadsReplaced(lines, rendered, after)
    ensures Faultless(after) <==> RestFaultless(lines, rendered) && SensibleWhere(rendered, lines, true)
  {
    if Faultless(after) {
      forall key | key in rendered && LastIndex(lines, key).Some?
        ensures ProblemOf(Read(rendered[key])).None?
      {
        var j := LastIndex(lines, key).value;
        assert Overwritten(lines, rendered, j) && after[j] == Read(rendered[key]);
      }
      forall j | 0 <= j < |lines| && !Overwritten(lines, rendered, j)
        ensures ProblemOf(lines[j]).None?
      {
        assert after[j] == lines[j];
      }
    }
  }

  /** What is appended for these keys makes sense. */
  ghost predicate MissingSensible(keys: seq<string>, lines: seq<Line>, read: map<string, Line>) {
    forall key :: key in keys && key in read && LastIndex(lines, key).None? ==> ProblemOf(read[key]).None?
  }

  lemma {:induction false} AppendedFaultless(keys: seq<string>, lines: seq<Line>, read: map<string, Line>)
    ensures Faultless(AppendedRead(keys, lines, read)) <==> MissingSensible(keys, lines, read)
  {
    if keys != [] {
      var init, last := keys[..|keys| - 1], keys[|keys| - 1];
      AppendedFaultless(init, lines, read);
      assert forall key :: key in keys <==> key in init || key == last;
      assert MissingSensible(keys, lines, read) <==>
             MissingSensible(init, lines, read) && (last in read && LastIndex(lines, last).None? ==> ProblemOf(read[last]).None?);
      if last in read && LastIndex(lines, last).None? {
        OneLineAssigns(read[last], last);
        FaultlessConcat(AppendedRead(init, lines, read), [read[last]]);
      } else {
        assert AppendedRead(keys, lines, read) == AppendedRead(init, lines, read);
      }
    }
  }

  /** The edited text parses exactly when every requested value makes sense and
      every line that is left alone does. */
  lemma EditedFaultless(text: seq<string>, rendered: map<string, string>)
    requires text != [] && Proper(rendered)
    ensures Faultless(ReadAll(EditedLines(text, rendered))) <==> Sensible(rendered) && RestFaultless(ReadAll(text), rendered)
  {
    var lines := ReadAll(text);
    var replaced := Replaced(text, lines, rendered);
    var more := Appended(KEYS, lines, rendered);
    ReplacedReads(text, rendered);
    ReplacedFaultless(lines, rendered, ReadAll(replaced));
    AppendedReads(KEYS, lines, rendered);
    AppendedFaultless(KEYS, lines, ReadOf(rendered));
    assert Faultless(ReadAll(more)) <==> SensibleWhere(rendered, lines, false);
    assert Sensible(rendered) <==> SensibleWhere(rendered, lines, true) && SensibleWhere(rendered, lines, false);
    if more != [] {
      var trunk := Trunk(replaced);
      TrunkReads(replaced);
      SilentAssignsNothing(ReadAll(trunk), "");
      ReadConcat(trunk, more);
      ReadConcat(trunk + more, [""]);
      OneLine("");
      FaultlessConcat(ReadAll(trunk), ReadAll(more));
      SilentAssignsNothing(ReadAll(trunk + more), "");
    }
  }

  // ----- the laws

  lemma AcceptedIsProper(updates: map<string, string>)
    requires Accepted(updates)
    ensures Proper(AllRendered(updates))
  {
    var rendered := AllRendered(updates);
    forall key | key in rendered
      ensures key in KEYS && '\n' !in rendered[key] && Read(rendered[key]).Key() == Some(key)
    {
      RenderedMeansRequested(key, updates[key]);
    }
  }

  /** The parsed value of a key is what its last line says. */
  lemma LastLineSays(lines: seq<Line>, base: Config, key: string)
    requires key in KEYS && Faultless(lines)
    ensures Parsed(lines, base).Ok?
    ensures LastLine(lines, key).None? ==> Get(Parsed(lines, base).value, key) == Get(base, key)
    ensures LastLine(lines, key).Some? ==>
      && LastLine(lines, key).value.Assignment?
      && Meaning(key, LastLine(lines, key).value.value) == Ok(Get(Parsed(lines, base).value, key))
  {
    LastAssignmentWins(lines, base, key);
    var at := LastIndex(lines, key);
    if at.Some? {
      assert ProblemOf(lines[at.value]).None?;
    }
  }

  lemma LastLineDecides(content: string, base: Config, key: string)
    requires key in KEYS && ParsedText(content, base).Ok?
    ensures var last := LastLine(ReadAll(Split(content, '\n')), key);
      if last.None? then Get(ParsedText(content, base).value, key) == Get(base, key)
      else last.value.Assignment? && Meaning(key, last.value.value) == Ok(Get(ParsedText(content, base).value, key))
  {
    var lines := ReadAll(Split(content, '\n'));
    ParsedBySplitLines(content, base);
    AcceptedExactlyWhenFaultless(lines, base);
    LastLineSays(lines, base, key);
  }

  /** What an edit sets is what is read back, and every other key keeps the value
      the old text gave it. */
  lemma SetThenParse(content: string, updates: map<string, string>, base: Config, key: string)
    requires Accepted(updates) && key in KEYS
    ensures var before, after := ParsedText(content, base), ParsedText(Edited(content, AllRendered(updates)), base);
      after.Ok? ==>
        && (key in updates ==> Requested(key, updates[key]) == Ok(Get(after.value, key)))
        && (key !in updates && before.Ok? ==> Get(after.value, key) == Get(before.value, key))
  {
    var rendered := AllRendered(updates);
    if ParsedText(Edited(content, rendered), base).Ok? {
      AcceptedIsProper(updates);
      EditedSplits(content, rendered);
      EditedLastLine(Split(content, '\n'), rendered, key);
      LastLineDecides(Edited(content, rendered), base, key);
      if key in updates {
        RenderedMeansRequested(key, updates[key]);
      } else if ParsedText(content, base).Ok? {
        LastLineDecides(content, base, key);
      }
    }
  }

  /** The edited file is refused exactly when a requested value makes no sense or
      a line that would stay is bad; a bad line that is overwritten is repaired. */
  lemma EditParsesExactlyWhen(content: string, updates: map<string, string>, base: Config)
    requires Accepted(updates)
    ensures ParsedText(Edited(content, AllRendered(updates)), base).Ok? <==>
      && (forall key :: key in updates ==> key in KEYS && Requested(key, updates[key]).Ok?)
      && RestFaultless(ReadAll(Split(content, '\n')), AllRendered(updates))
  {
    var rendered := AllRendered(updates);
    AcceptedIsProper(updates);
    EditedSplits(content, rendered);
    var text := Split(content, '\n');
    EditedFaultless(text, rendered);
    ParsedBySplitLines(Edited(content, rendered), base);
    AcceptedExactlyWhenFaultless(ReadAll(EditedLines(text, rendered)), base);
    forall key | key in updates
      ensures key in KEYS && (ProblemOf(Read(rendered[key])).None? <==> Requested(key, updates[key]).Ok?)
    {
      RenderedMeansRequested(key, updates[key]);
    }
  }

  /** Every line but the last assignment of an updated key survives unchanged and
      in its place. */
  lemma OtherLinesSurvive(content: string, updates: map<string, string>, j: nat)
    requires Accepted(updates) && j < |Split(content, '\n')|
    ensures var before, after := Split(content, '\n'), Split(Edited(content, AllRendered(updates)), '\n');
      var lines := ReadAll(before);
      if Overwritten(lines, AllRendered(updates), j) then j < |after| && after[j] == AllRendered(updates)[lines[j].key]
      else j < |Trunk(before)| ==> j < |after| && after[j] == before[j]
  {
    var rendered := AllRendered(updates);
    AcceptedIsProper(updates);
    EditedSplits(content, rendered);
    var before := Split(content, '\n');
    var replaced := Replaced(before, ReadAll(before), rendered);
    assert replaced[j] == EditedLine(before, ReadAll(before), rendered, j);
    TrunkReplaced(before, rendered);
  }

  /** A last empty line is never overwritten. */
  lemma TrunkReplaced(text: seq<string>, rendered: map<string, string>)
    requires text != [] && Proper(rendered)
    ensures |Trunk(Replaced(text, ReadAll(text), rendered))| == |Trunk(text)|
    ensures !(|Trunk(text)| < |text| && Overwritten(ReadAll(text), rendered, |text| - 1))
  {
    var n := |text| - 1;
    var lines := ReadAll(text);
    assert Replaced(text, lines, rendered)[n] == EditedLine(text, lines, rendered, n);
    assert lines[n] == Read(text[n]);
    EmptyIsSilent();
    if Overwritten(lines, rendered, n) {
      assert Read(rendered[lines[n].key]).Key() == Some(lines[n].key);
    }
  }

  lemma EmptyIsSilent()
    ensures Read("") == Silent
  {
  }

  /** What follows the old lines is only what was asked for. */
  lemma NothingElseIsAdded(content: string, updates: map<string, string>, line: string)
    requires Accepted(updates)
    ensures var before, after := Split(content, '\n'), Split(Edited(content, AllRendered(updates)), '\n');
      |after| >= |Trunk(before)| && (line in after[|Trunk(before)|..] ==> line == "" || line in AllRendered(updates).Values)
  {
    var rendered := AllRendered(updates);
    AcceptedIsProper(updates);
    EditedSplits(content, rendered);
    var before := Split(content, '\n');
    TrunkReplaced(before, rendered);
    var lines := ReadAll(before);
    var more := Appended(KEYS, lines, rendered);
    AppendedAsked(KEYS, lines, rendered);
    AfterTrunk(before, Replaced(before, lines, rendered), more, EditedLines(before, rendered));
  }

  lemma AfterTrunk(before: seq<string>, replaced: seq<string>, more: seq<string>, after: seq<string>)
    requires |before| == |replaced| > 0 && |Trunk(replaced)| == |Trunk(before)|
    requires after == if more == [] then replaced else Trunk(replaced) + more + [""]
    ensures |after| >= |Trunk(before)|
    ensures forall line :: line in after[|Trunk(before)|..] ==> line == "" || line in more
  {
    if more != [] {
      assert after[|Trunk(before)|..] == more + [""];
    } else if Trunk(replaced) != replaced {
      assert after[|Trunk(before)|..] == [""];
    }
  }

  lemma {:induction false} AppendedAsked(keys: seq<string>, lines: seq<Line>, rendered: map<string, string>)
    ensures forall line :: line in Appended(keys, lines, rendered) ==> line in rendered.Values
  {
    if keys != [] {
      AppendedAsked(keys[..|keys| - 1], lines, rendered);
    }
  }

  // ----- one edit after another

  /** The wanted keys no line assigns, in the order they are appended. */
  function MissingKeys(keys: seq<string>, lines: seq<Line>, wanted: set<string>): seq<string> {
    if keys == [] then []
    else
      var key := keys[|keys| - 1];
      MissingKeys(keys[..|keys| - 1], lines, wanted) + (if key in wanted && LastIndex(lines, key).None? then [key] else [])
  }

  ghost predicate NoRepeats(keys: seq<string>) {
    forall i, j :: 0 <= i < j < |keys| ==> keys[i] != keys[j]
  }

  lemma {:induction false} MissingKeysMean(keys: seq<string>, lines: seq<Line>, wanted: set<string>)
    requires NoRepeats(keys)
    ensures NoRepeats(MissingKeys(keys, lines, wanted))
    ensures forall key :: key in MissingKeys(keys, lines, wanted) <==> key in keys && key in wanted && LastIndex(lines, key).None?
  {
    if keys != [] {
      var init := keys[..|keys| - 1];
      MissingKeysMean(init, lines, wanted);
      assert forall key :: key in keys <==> key in init || key == keys[|keys| - 1];
    }
  }

  lemma {:induction false} AppendedAt(keys: seq<string>, lines: seq<Line>, rendered: map<string, string>)
    ensures var missing := MissingKeys(keys, lines, rendered.Keys);
      && |Appended(keys, lines, rendered)| == |missing|
      && forall p :: 0 <= p < |missing| ==> missing[p] in rendered && Appended(keys, lines, rendered)[p] == rendered[missing[p]]
  {
    if keys != [] {
      AppendedAt(keys[..|keys| - 1], lines, rendered);
    }
  }

  lemma KeysDoNotRepeat()
    ensures NoRepeats(KEYS)
  {
  }

  /** Every key of a first edit is assigned after it. */
  lemma AllAssignedAfter(text: seq<string>, first: map<string, string>, wanted: set<string>)
    requires text != [] && Proper(first) && wanted <= first.Keys
    ensures MissingKeys(KEYS, ReadAll(EditedLines(text, first)), wanted) == []
  {
    KeysDoNotRepeat();
    var lines := ReadAll(EditedLines(text, first));
    MissingKeysMean(KEYS, lines, wanted);
    var missing := MissingKeys(KEYS, lines, wanted);
    if missing != [] {
      assert missing[0] in missing;
      EditedLastLine(text, first, missing[0]);
    }
  }

  /** Where the appended lines start. */
  function Kept(text: seq<string>, missing: seq<string>): nat
    requires text != []
  {
    if missing == [] then |text| else |Trunk(text)|
  }

  /** The edited lines one by one: an old line, overwritten or not, then the
      appended ones, then the empty line after the last newline. */
  function LineAt(text: seq<string>, lines: seq<Line>, rendered: map<string, string>, n: nat,
                  missing: seq<string>, j: nat): string
    requires n <= |text| == |lines| && forall key :: key in missing ==> key in rendered
  {
    if j < n then EditedLine(text, lines, rendered, j)
    else if j < n + |missing| then rendered[missing[j - n]]
    else ""
  }

  ghost predicate Laid(text: seq<string>, lines: seq<Line>, rendered: map<string, string>, n: nat,
                       missing: seq<string>, after: seq<string>) {
    && n <= |text| == |lines|
    && (forall key :: key in missing ==> key in rendered)
    && |after| == n + |missing| + (if missing == [] then 0 else 1)
    && (forall j :: 0 <= j < |after| ==> after[j] == LineAt(text, lines, rendered, n, missing, j))
  }

  lemma EditedIsLaid(text: seq<string>, rendered: map<string, string>)
    requires text != [] && Proper(rendered)
    ensures var missing := MissingKeys(KEYS, ReadAll(text), rendered.Keys);
      Laid(text, ReadAll(text), rendered, Kept(text, missing), missing, EditedLines(text, rendered))
  {
    var lines := ReadAll(text);
    TrunkReplaced(text, rendered);
    AppendedAt(KEYS, lines, rendered);
    Lay(text, lines, rendered, Replaced(text, lines, rendered), Appended(KEYS, lines, rendered),
        MissingKeys(KEYS, lines, rendered.Keys), EditedLines(text, rendered));
  }

  lemma Lay(text: seq<string>, lines: seq<Line>, rendered: map<string, string>, replaced: seq<string>,
            more: seq<string>, missing: seq<string>, after: seq<string>)
    requires |text| == |lines| > 0 && replaced == Replaced(text, lines, rendered)
    requires |Trunk(replaced)| == |Trunk(text)| && |more| == |missing|
    requires forall p :: 0 <= p < |missing| ==> missing[p] in rendered && more[p] == rendered[missing[p]]
    requires after == if more == [] then replaced else Trunk(replaced) + more + [""]
    ensures Laid(text, lines, rendered, Kept(text, missing), missing, after)
  {
    var n := Kept(text, missing);
    assert forall key :: key in missing ==> key in rendered;
    forall j | 0 <= j < |after| ensures after[j] == LineAt(text, lines, rendered, n, missing, j) {
      if n <= j < n + |missing| {
        assert after[j] == more[j - n];
      }
    }
  }

  /** The keys of `after` are those of the first n lines, then `missing`. */
  ghost predicate Follow(lines: seq<Line>, n: nat, missing: seq<string>, after: seq<Line>) {
    && n <= |lines| && n + |missing| <= |after|
    && NoRepeats(missing)
    && (forall key :: key in missing ==> LastIndex(lines, key).None?)
    && (forall i :: n <= i < |lines| ==> lines[i].Key() == None)
    && (forall i :: 0 <= i < n ==> after[i].Key() == lines[i].Key())
    && (forall i :: n <= i < n + |missing| ==> after[i].Key() == Some(missing[i - n]))
    && (forall i :: n + |missing| <= i < |after| ==> after[i].Key() == None)
  }

  /** Appending keys no line assigns moves no last assignment. */
  lemma LastAmong(lines: seq<Line>, n: nat, missing: seq<string>, after: seq<Line>, j: nat)
    requires Follow(lines, n, missing, after) && j < |after| && after[j].Assignment?
    ensures j < n + |missing|
    ensures LastIndex(after, after[j].key) == Some(j) <==> (j < n ==> LastIndex(lines, after[j].key) == Some(j))
  {
    var key := after[j].key;
    assert after[j].Key() == Some(key);
    if j >= n {
      forall i | j < i < |after| ensures after[i].Key() != Some(key) {
        assert i < n + |missing| ==> missing[j - n] != missing[i - n];
      }
      LastIndexIs(after, key, j);
    } else {
      assert lines[j].Key() == Some(key);
      var at := LastIndex(lines, key).value;
      forall i | at < i < |after| ensures after[i].Key() != Some(key) {
        assert n <= i < n + |missing| ==> missing[i - n] in missing;
      }
      LastIndexIs(after, key, at);
    }
  }

  lemma LaidFollow(text: seq<string>, rendered: map<string, string>, n: nat, missing: seq<string>, after: seq<string>)
    requires Proper(rendered) && Laid(text, ReadAll(text), rendered, n, missing, after)
    requires NoRepeats(missing) && forall key :: key in missing ==> LastIndex(ReadAll(text), key).None?
    requires n == |text| || (n + 1 == |text| && text[n] == "")
    ensures Follow(ReadAll(text), n, missing, ReadAll(after))
  {
    var lines, read := ReadAll(text), ReadAll(after);
    forall j | 0 <= j < |after|
      ensures read[j].Key() == if j < n then lines[j].Key() else if j < n + |missing| then Some(missing[j - n]) else None
    {
      assert after[j] == LineAt(text, lines, rendered, n, missing, j);
      assert n <= j < n + |missing| ==> missing[j - n] in missing;
    }
  }

  lemma EditedFollow(text: seq<string>, rendered: map<string, string>)
    requires text != [] && Proper(rendered)
    ensures var lines, after := ReadAll(text), EditedLines(text, rendered);
      var missing := MissingKeys(KEYS, lines, rendered.Keys);
      var n := Kept(text, missing);
      Laid(text, lines, rendered, n, missing, after) && Follow(lines, n, missing, ReadAll(after))
  {
    var missing := MissingKeys(KEYS, ReadAll(text), rendered.Keys);
    EditedIsLaid(text, rendered);
    KeysDoNotRepeat();
    MissingKeysMean(KEYS, ReadAll(text), rendered.Keys);
    LaidFollow(text, rendered, Kept(text, missing), missing, EditedLines(text, rendered));
  }

  /** One line edited twice is the line edited once with both updates. */
  lemma LineEditedTwice(text: seq<string>, lines: seq<Line>, first: map<string, string>, second: map<string, string>,
                        n: nat, missing: seq<string>, once: seq<string>, after: seq<Line>, j: nat)
    requires Laid(text, lines, first, n, missing, once) && Follow(lines, n, missing, after)
    requires second.Keys <= first.Keys && j < |once| == |after|
    ensures EditedLine(once, after, second, j) == LineAt(text, lines, first + second, n, missing, j)
  {
    assert once[j] == LineAt(text, lines, first, n, missing, j);
    if after[j].Assignment? {
      LastAmong(lines, n, missing, after, j);
      assert after[j].Key() == Some(after[j].key);
    }
  }

  /** Editing with some updates and then with others for the same keys is editing
      once, the later updates overriding the earlier. */
  lemma EditTwice(content: string, first: map<string, string>, second: map<string, string>)
    requires Proper(first) && Proper(second) && second.Keys <= first.Keys
    ensures Edited(Edited(content, first), second) == Edited(content, first + second)
  {
    var text, both := Split(content, '\n'), first + second;
    assert both.Keys == first.Keys && Proper(both);
    EditedSplits(content, first);
    EditedJoins(Edited(content, first), second);
    EditedJoins(content, both);
    LinesEditedTwice(text, first, second);
  }

  lemma LinesEditedTwice(text: seq<string>, first: map<string, string>, second: map<string, string>)
    requires text != [] && Proper(first) && Proper(second) && second.Keys <= first.Keys
    ensures EditedLines(text, first) != []
    ensures EditedLines(EditedLines(text, first), second) == EditedLines(text, first + second)
  {
    var lines, both := ReadAll(text), first + second;
    assert both.Keys == first.Keys && Proper(both);
    var once := EditedLines(text, first);
    var missing := MissingKeys(KEYS, lines, first.Keys);
    var n := Kept(text, missing);
    EditedFollow(text, first);
    EditedIsLaid(text, both);
    AllAssignedAfter(text, first, second.Keys);
    EditedIsLaid(once, second);
    var twice := EditedLines(once, second);
    forall j | 0 <= j < |once| ensures twice[j] == EditedLines(text, both)[j] {
      LineEditedTwice(text, lines, first, second, n, missing, once, ReadAll(once), j);
      assert twice[j] == LineAt(once, ReadAll(once), second, |once|, [], j);
    }
  }

  lemma RenderedOverride(first: map<string, string>, second: map<string, string>)
    requires Accepted(first) && Accepted(second)
    ensures Accepted(first + second) && AllRendered(first) + AllRendered(second) == AllRendered(first + second)
  {
  }

  /** The law on updates: a second Set for keys already set overrides them. */
  lemma SetTwice(content: string, first: map<string, string>, second: map<string, string>)
    requires Accepted(first) && Accepted(second) && second.Keys <= first.Keys
    ensures Accepted(first + second)
    ensures Edited(Edited(content, AllRendered(first)), AllRendered(second)) == Edited(content, AllRendered(first + second))
  {
    AcceptedIsProper(first);
    AcceptedIsProper(second);
    RenderedOverride(first, second);
    EditTwice(content, AllRendered(first), AllRendered(second));
  }
}
