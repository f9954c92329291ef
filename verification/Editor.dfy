/** internal/config: assigning keys in the text of a configuration file. */
module Editor {
  import opened Wrappers
  import opened Text
  import opened Parser

  // ----- one update

  predicate ModuleChar(c: char) {
    'a' <= c <= 'z' || 'A' <= c <= 'Z' || '0' <= c <= '9' || c == '-' || c == '_' || c == '.' || c == '+'
  }

  predicate ModuleName(s: string) {
    s != "" && forall i :: 0 <= i < |s| ==> ModuleChar(s[i])
  }

  /** What the editor refuses in the value of a key that takes one word. */
  predicate Forbidden(c: char) {
    c in " \t\r\n\"\'#"
  }

  datatype Refusal = UnknownKey(key: string) | NotModuleName(name: string) | NotOneWord(value: string)

  /** The first name that is no module name. */
  function FirstOdd(names: seq<string>): (odd: Option<string>)
    ensures odd.None? <==> forall i :: 0 <= i < |names| ==> ModuleName(names[i])
  {
    if names == [] then None
    else if !ModuleName(names[0]) then Some(names[0])
    else FirstOdd(names[1..])
  }

  /** The line an update becomes, or why there is none. */
  function Rendered(key: string, value: string): Result<string, Refusal> {
    if key !in KEYS then Err(UnknownKey(key))
    else if ListKey(key) then
      var names := Fields(value);
      match FirstOdd(names)
      case Some(name) => Err(NotModuleName(name))
      case None => Ok(key + "=" + Quoted(Join(names, ' ')))
    else if value == "" || exists i :: 0 <= i < |value| && Forbidden(value[i]) then Err(NotOneWord(value))
    else Ok(key + "=" + value)
  }

  /** What an update asks for. */
  function Requested(key: string, value: string): Result<Setting, Problem>
    requires key in KEYS
  {
    Meaning(key, if ListKey(key) then value else Trim(value))
  }

  // ----- the edit, line by line

  /** The lines that are appended: those of the wanted keys no line assigns. */
  function Appended(keys: seq<string>, lines: seq<Line>, rendered: map<string, string>): seq<string> {
    if keys == [] then []
    else
      var key := keys[|keys| - 1];
      Appended(keys[..|keys| - 1], lines, rendered) +
      (if key in rendered && LastIndex(lines, key).None? then [rendered[key]] else [])
  }

  /** Line j is overwritten: it is the last assignment of a wanted key. */
  predicate Overwritten(lines: seq<Line>, rendered: map<string, string>, j: nat)
    requires j < |lines|
  {
    lines[j].Assignment? && lines[j].key in rendered && LastIndex(lines, lines[j].key) == Some(j)
  }

  function EditedLine(text: seq<string>, lines: seq<Line>, rendered: map<string, string>, j: nat): string
    requires j < |text| == |lines|
  {
    if Overwritten(lines, rendered, j) then rendered[lines[j].key] else text[j]
  }

  /** The lines of a text after the overwriting. */
  function Replaced(text: seq<string>, lines: seq<Line>, rendered: map<string, string>): (r: seq<string>)
    requires |text| == |lines|
    ensures |r| == |text| && forall j :: 0 <= j < |text| ==> r[j] == EditedLine(text, lines, rendered, j)
  {
    seq(|text|, j requires 0 <= j < |text| => EditedLine(text, lines, rendered, j))
  }

  /** A text that more lines may follow. */
  function Ended(out: string): string {
    if out != "" && out[|out| - 1] != '\n' then out + "\n" else out
  }

  /** The edited text: what is appended starts on a line of its own. */
  function Edited(content: string, rendered: map<string, string>): string {
    var text := Split(content, '\n');
    var lines := ReadAll(text);
    var out := Join(Replaced(text, lines, rendered), '\n');
    var more := Appended(KEYS, lines, rendered);
    if more == [] then out
    else Ended(out) + Join(more, '\n') + "\n"
  }

  /** The key a line assigns, by the editor's own reading. */
  method AssignedKey(line: string) returns (key: Option<string>)
    ensures key == Read(line).Key()
  {
    var text := Trim(line);
    if text == "" || text[0] == '#' {
      return None;
    }
    var at := IndexOf(text, '=');
    if at.None? {
      return None;
    }
    return Some(Trim(text[..at.value]));
  }

  /** Each wanted key is found where it is last assigned, if it is. */
  ghost predicate Located(lines: seq<Line>, rendered: map<string, string>, last: map<string, nat>) {
    && last.Keys <= rendered.Keys
    && forall key :: key in rendered ==> LastIndex(lines, key) == if key in last then Some(last[key]) else None
  }

  lemma LocatedNext(lines: seq<Line>, i: nat, rendered: map<string, string>, last: map<string, nat>)
    requires i < |lines| && Located(lines[..i], rendered, last)
    ensures var key := lines[i].Key();
      Located(lines[..i + 1], rendered, if key.Some? && key.value in rendered then last[key.value := i] else last)
  {
    assert lines[..i + 1][..i] == lines[..i];
  }

  /** Where each wanted key is last assigned. */
  method LastAssignments(text: seq<string>, rendered: map<string, string>) returns (last: map<string, nat>)
    ensures Located(ReadAll(text), rendered, last)
  {
    last := map[];
    ghost var lines := ReadAll(text);
    for i := 0 to |text|
      invariant Located(lines[..i], rendered, last)
    {
      LocatedNext(lines, i, rendered, last);
      var key := AssignedKey(text[i]);
      assert lines[i].Key() == key;
      if key.Some? && key.value in rendered {
        last := last[key.value := i];
      }
    }
    assert lines[..|text|] == lines;
  }

  /** The text with the lines of some of the keys overwritten. */
  function PartlyReplaced(text: seq<string>, lines: seq<Line>, rendered: map<string, string>, done: set<string>): (r: seq<string>)
    requires |text| == |lines|
    ensures |r| == |text|
    ensures forall j :: 0 <= j < |text| ==>
              r[j] == if Overwritten(lines, rendered, j) && lines[j].key in done then rendered[lines[j].key] else text[j]
  {
    seq(|text|, j requires 0 <= j < |text| =>
      if Overwritten(lines, rendered, j) && lines[j].key in done then rendered[lines[j].key] else text[j])
  }

  /** Only its last assignment is overwritten for the sake of a key. */
  lemma OneMoreReplaced(text: seq<string>, lines: seq<Line>, rendered: map<string, string>, done: set<string>,
                        key: string, at: nat)
    requires |text| == |lines| && key in rendered && LastIndex(lines, key) == Some(at)
    ensures at < |text|
    ensures PartlyReplaced(text, lines, rendered, done + {key}) == PartlyReplaced(text, lines, rendered, done)[at := rendered[key]]
  {
  }

  /** With every key found done, nothing is left to overwrite. */
  lemma AllReplaced(text: seq<string>, lines: seq<Line>, rendered: map<string, string>, done: set<string>)
    requires |text| == |lines| && forall key :: key in rendered && LastIndex(lines, key).Some? ==> key in done
    ensures PartlyReplaced(text, lines, rendered, done) == Replaced(text, lines, rendered)
  {
    forall j | 0 <= j < |text| && Overwritten(lines, rendered, j) ensures lines[j].key in done {
      assert LastIndex(lines, lines[j].key).Some?;
    }
  }

  /** Overwrites each line found, in no particular order. */
  method Overwrite(content: seq<string>, rendered: map<string, string>, last: map<string, nat>) returns (text: seq<string>)
    requires Located(ReadAll(content), rendered, last)
    ensures text == Replaced(content, ReadAll(content), rendered)
  {
    text := content;
    ghost var lines := ReadAll(content);
    var todo := last.Keys;
    assert text == PartlyReplaced(content, lines, rendered, {});
    ghost var done := {};
    while todo != {}
      invariant todo <= last.Keys && last.Keys == done + todo
      invariant text == PartlyReplaced(content, lines, rendered, done)
    {
      var key :| key in todo;
      OneMoreReplaced(content, lines, rendered, done, key, last[key]);
      text := text[last[key] := rendered[key]];
      todo := todo - {key};
      done := done + {key};
    }
    AllReplaced(content, lines, rendered, done);
  }

  /** The lines to append, in the order of the inventory of keys. */
  method Missing(ghost lines: seq<Line>, rendered: map<string, string>, last: map<string, nat>) returns (missing: seq<string>)
    requires last.Keys <= rendered.Keys
    requires forall key :: key in rendered ==> (LastIndex(lines, key).Some? <==> key in last)
    ensures missing == Appended(KEYS, lines, rendered)
  {
    missing := [];
    var keys := KEYS;
    for i := 0 to |keys|
      invariant missing == Appended(keys[..i], lines, rendered)
    {
      assert keys[..i + 1][..i] == keys[..i];
      if keys[i] !in last && keys[i] in rendered {
        missing := missing + [rendered[keys[i]]];
      }
    }
    assert keys[..|keys|] == keys;
  }

  /** The loops above one after another: together they give the text Edited
      defines, for any content and any set of rendered lines. */
  method Apply(content: string, rendered: map<string, string>) returns (out: string)
    ensures out == Edited(content, rendered)
  {
    var text := Split(content, '\n');
    var last := LastAssignments(text, rendered);
    var edited := Overwrite(text, rendered, last);
    out := Join(edited, '\n');
    var missing := Missing(ReadAll(text), rendered, last);
    if |missing| > 0 {
      if out != "" && out[|out| - 1] != '\n' {
        out := out + "\n";
      }
      out := out + Join(missing, '\n') + "\n";
    }
  }

  // ----- the whole operation

  predicate Accepted(updates: map<string, string>) {
    forall key :: key in updates ==> Rendered(key, updates[key]).Ok?
  }

  /** The lines the updates render as. */
  function AllRendered(updates: map<string, string>): (rendered: map<string, string>)
    requires Accepted(updates)
    ensures rendered.Keys == updates.Keys
  {
    map key | key in updates :: Rendered(key, updates[key]).value
  }

  /** Some update is refused for this reason. */
  ghost predicate RefusedFor(updates: map<string, string>, why: Refusal) {
    exists key :: key in updates && Rendered(key, updates[key]) == Err(why)
  }

  /** Renders every update, in no particular order, unless one is refused. */
  method RenderAll(updates: map<string, string>) returns (r: Result<map<string, string>, Refusal>)
    ensures r.Ok? <==> Accepted(updates)
    ensures r.Ok? ==> r.value == AllRendered(updates)
    ensures r.Err? ==> RefusedFor(updates, r.error)
  {
    var rendered: map<string, string> := map[];
    var todo := updates.Keys;
    while todo != {}
      invariant todo <= updates.Keys && rendered.Keys == updates.Keys - todo
      invariant forall key :: key in rendered ==> Rendered(key, updates[key]) == Ok(rendered[key])
    {
      var key :| key in todo;
      var line := Rendered(key, updates[key]);
      if line.Err? {
        return Err(line.error);
      }
      rendered := rendered[key := line.value];
      todo := todo - {key};
    }
    return Ok(rendered);
  }
}
