/** internal/config: what the lines of a file say, character by character: white
    space, comments, quotes, numbers and lists of names. */
module Readings {
  import opened Wrappers
  import opened Settings
  import opened Text
  import opened Parser
  import opened Editor
  import opened EditorTheorems

  // ----- white space

  /** Tab, newline, vertical tab, form feed, carriage return or blank. */
  predicate WhiteChar(c: char) {
    c as int in {9, 10, 11, 12, 13, 32}
  }

  predicate White(s: string) {
    forall i :: 0 <= i < |s| ==> WhiteChar(s[i])
  }

  /** Nothing, or text with no white space at its ends. */
  predicate Solid(s: string) {
    s == "" || (!WhiteChar(s[0]) && !WhiteChar(s[|s| - 1]))
  }

  lemma WhiteIsSpace(c: char)
    ensures WhiteChar(c) <==> IsSpace(c)
  {
  }

  lemma {:induction false} WhiteLeft(a: string, s: string)
    requires White(a)
    ensures TrimLeft(a + s) == TrimLeft(s)
  {
    if a == "" {
      assert a + s == s;
    } else {
      WhiteIsSpace(a[0]);
      assert (a + s)[1..] == a[1..] + s;
      WhiteLeft(a[1..], s);
    }
  }

  lemma {:induction false} WhiteRight(s: string, b: string)
    requires White(b)
    ensures Trim(s + b) == Trim(s)
  {
    if b == "" {
      assert s + b == s;
    } else {
      var init, last := b[..|b| - 1], b[|b| - 1];
      WhiteIsSpace(last);
      assert s + b == (s + init) + [last];
      TrimIgnoresTail(s + init, last);
      WhiteRight(s, init);
    }
  }

  /** White space around a text is trimmed off, and nothing else. */
  lemma TrimmedExactly(a: string, s: string, b: string)
    requires White(a) && Solid(s) && White(b)
    ensures Trim(a + s + b) == s
  {
    WhiteRight(a + s, b);
    WhiteLeft(a, s);
    SolidStays(s);
  }

  lemma SolidStays(s: string)
    requires Solid(s)
    ensures Trim(s) == s
  {
    if s != "" {
      WhiteIsSpace(s[0]);
      WhiteIsSpace(s[|s| - 1]);
    }
  }

  // ----- lines

  /** A blank line says nothing. */
  lemma BlankReads(a: string)
    requires White(a)
    ensures Read(a) == Silent
  {
    TrimmedExactly(a, "", "");
    assert a + "" + "" == a;
  }

  /** Nor does a comment, whatever it holds. */
  lemma CommentReads(a: string, rest: string)
    requires White(a)
    ensures Read(a + "#" + rest) == Silent
  {
    WhiteLeft(a, "#" + rest);
    assert a + "#" + rest == a + ("#" + rest);
    TrimRightSuffix("#", rest);
  }

  /** Any other line without an equals sign is no assignment. */
  lemma WithoutEqualsReads(a: string, s: string, b: string)
    requires White(a) && Solid(s) && White(b) && s != "" && s[0] != '#' && '=' !in s
    ensures Read(a + s + b) == NotAssignment
  {
    TrimmedExactly(a, s, b);
  }

  /** A line that assigns a value to a key, with white space where it may be. */
  function Line(a: string, key: string, b: string, c: string, value: string, d: string): string {
    a + key + b + "=" + c + value + d
  }

  ghost predicate Spaced(a: string, key: string, b: string, c: string, value: string, d: string) {
    && White(a) && White(b) && White(c) && White(d) && Solid(key) && Solid(value)
    && '=' !in key && (key != "" ==> key[0] != '#')
  }

  lemma WhiteHasNoEquals(b: string)
    requires White(b)
    ensures '=' !in b
  {
  }

  /** What is left of the equals sign, and right of it, once the line is trimmed. */
  function Head(key: string, b: string): string {
    if key == "" then "" else key + b
  }

  function Tail(c: string, value: string): string {
    if value == "" then "" else c + value
  }

  lemma LineRegrouped(a: string, key: string, b: string, c: string, value: string, d: string)
    ensures Line(a, key, b, c, value, d) ==
      (if key == "" then a + b else a) + (Head(key, b) + "=" + Tail(c, value)) + (if value == "" then c + d else d)
  {
  }

  lemma LineTrimmed(a: string, key: string, b: string, c: string, value: string, d: string)
    requires Spaced(a, key, b, c, value, d)
    ensures Trim(Line(a, key, b, c, value, d)) == Head(key, b) + "=" + Tail(c, value)
  {
    LineRegrouped(a, key, b, c, value, d);
    TrimmedExactly(if key == "" then a + b else a, Head(key, b) + "=" + Tail(c, value), if value == "" then c + d else d);
  }

  lemma HeadTrimmed(key: string, b: string)
    requires White(b) && Solid(key)
    ensures Trim(Head(key, b)) == key
  {
    TrimmedExactly("", key, if key == "" then "" else b);
    assert "" + key + (if key == "" then "" else b) == Head(key, b);
  }

  lemma TailTrimmed(c: string, value: string)
    requires White(c) && Solid(value)
    ensures Trim(Tail(c, value)) == value
  {
    TrimmedExactly(if value == "" then "" else c, value, "");
    assert (if value == "" then "" else c) + value + "" == Tail(c, value);
  }

  /** The line is cut at its first equals sign. */
  lemma CutAtEquals(head: string, tail: string)
    requires '=' !in head && (head != "" ==> head[0] != '#')
    requires Trim(head + "=" + tail) == head + "=" + tail
    ensures Read(head + "=" + tail) == Assignment(Trim(head), Unquote(Trim(tail)))
  {
    var text := head + "=" + tail;
    IndexOfFirst(head, tail, '=');
    assert text == head + ['='] + tail;
    assert text[..|head|] == head && text[|head| + 1..] == tail;
  }

  lemma ReadOfTrimmed(line: string)
    ensures Trim(Trim(line)) == Trim(line) ==> Read(line) == Read(Trim(line))
  {
  }

  lemma LineAssigns(a: string, key: string, b: string, c: string, value: string, d: string)
    requires Spaced(a, key, b, c, value, d)
    ensures Read(Line(a, key, b, c, value, d)) == Assignment(key, Unquote(value))
  {
    var head, tail := Head(key, b), Tail(c, value);
    LineTrimmed(a, key, b, c, value, d);
    SolidStays(head + "=" + tail);
    ReadOfTrimmed(Line(a, key, b, c, value, d));
    WhiteHasNoEquals(b);
    CutAtEquals(head, tail);
    HeadTrimmed(key, b);
    TailTrimmed(c, value);
  }

  /** A value between two double or two single quotes is what is between them,
      whatever that is. */
  lemma QuotedAssigns(a: string, key: string, b: string, c: string, q: char, value: string, d: string)
    requires Spaced(a, key, b, c, "", d) && (q == '\"' || q == '\'')
    ensures Read(Line(a, key, b, c, [q] + value + [q], d)) == Assignment(key, value)
  {
    var quoted := [q] + value + [q];
    assert quoted[1..|quoted| - 1] == value;
    LineAssigns(a, key, b, c, quoted, d);
  }

  /** One that is not enclosed in a matching pair is read as it stands. */
  lemma BareAssigns(a: string, key: string, b: string, c: string, value: string, d: string)
    requires Spaced(a, key, b, c, value, d)
    requires |value| < 2 || value[0] != value[|value| - 1] || (value[0] != '\"' && value[0] != '\'')
    ensures Read(Line(a, key, b, c, value, d)) == Assignment(key, value)
  {
    LineAssigns(a, key, b, c, value, d);
  }

  // ----- numbers

  function Zeros(k: nat): string {
    seq(k, _ => '0')
  }

  /** s spells n: a sign or none, any zeros, and the number in decimal. */
  ghost predicate Spells(s: string, n: int) {
    exists k: nat :: SpelledWith(s, n, k)
  }

  predicate SpelledWith(s: string, n: int, k: nat) {
    var digits := Zeros(k) + Decimal(if n < 0 then -n else n);
    (n >= 0 && (s == digits || s == "+" + digits)) || (n <= 0 && s == "-" + digits)
  }

  lemma DecimalOneMore(m: nat, d: nat)
    requires m > 0 && d < 10
    ensures Decimal(m * 10 + d) == Decimal(m) + [Digit(d)]
  {
    assert (m * 10 + d) / 10 == m && (m * 10 + d) % 10 == d;
  }

  lemma {:induction false} NumeralSpelled(s: string) returns (k: nat)
    requires s != "" && AllDigits(s)
    ensures s == Zeros(k) + Decimal(Numeral(s))
  {
    var init, last := s[..|s| - 1], s[|s| - 1];
    var d: nat := last as int - '0' as int;
    DigitIs(d, last);
    assert s == init + [last];
    if init == "" {
      return 0;
    }
    var j := NumeralSpelled(init);
    k := OneDigitMore(j, Numeral(init), d);
    assert Numeral(s) == Numeral(init) * 10 + d;
  }

  lemma OneDigitMore(j: nat, m: nat, d: nat) returns (k: nat)
    requires d < 10
    ensures Zeros(j) + Decimal(m) + [Digit(d)] == Zeros(k) + Decimal(m * 10 + d)
  {
    if m == 0 {
      assert Zeros(j) + "0" == Zeros(j + 1);
      assert Decimal(0) == "0" && Decimal(d) == [Digit(d)];
      k := j + 1;
    } else {
      DecimalOneMore(m, d);
      assert Zeros(j) + Decimal(m) + [Digit(d)] == Zeros(j) + (Decimal(m) + [Digit(d)]);
      k := j;
    }
  }

  lemma DigitIs(d: nat, c: char)
    requires d < 10 && c as int == '0' as int + d
    ensures Digit(d) == c
  {
  }

  lemma {:induction false} ZerosCountNothing(k: nat, s: string)
    requires AllDigits(s)
    ensures AllDigits(Zeros(k) + s)
    ensures Numeral(Zeros(k) + s) == Numeral(s)
    decreases k + |s|
  {
    if s != "" {
      var t := Zeros(k) + s;
      assert t[..|t| - 1] == Zeros(k) + s[..|s| - 1];
      ZerosCountNothing(k, s[..|s| - 1]);
    } else if k > 0 {
      var t := Zeros(k) + s;
      assert t[..|t| - 1] == Zeros(k - 1) + s;
      ZerosCountNothing(k - 1, s);
    }
  }

  /** strconv.Atoi, exactly: the numbers of 64 bits, however they are spelled. */
  lemma AtoiExactly(s: string, n: int)
    ensures Atoi(s) == Some(n) <==> MIN_INT64 <= n <= MAX_INT64 && Spells(s, n)
  {
    if Atoi(s) == Some(n) {
      AtoiSpells(s);
    }
    if k: nat :| SpelledWith(s, n, k) {
      SpelledReads(s, n, k);
    }
  }

  /** What Atoi makes of a string of digits, and of one behind a sign. */
  lemma SignsRead(digits: string)
    requires digits != "" && AllDigits(digits)
    ensures var n: int := Numeral(digits);
      && Atoi(digits) == (if n <= MAX_INT64 then Some(n) else None)
      && Atoi("+" + digits) == (if n <= MAX_INT64 then Some(n) else None)
      && Atoi("-" + digits) == (if -n >= MIN_INT64 then Some(-n) else None)
  {
    assert ("+" + digits)[1..] == digits && ("-" + digits)[1..] == digits;
    assert IsDigit(digits[0]);
  }

  /** A number that is read has a sign or none, and digits. */
  lemma AtoiParts(s: string) returns (sign: string, digits: string)
    requires Atoi(s).Some?
    ensures s == sign + digits && digits != "" && AllDigits(digits)
    ensures sign == "" || sign == "+" || sign == "-"
  {
    sign := if s[0] == '-' || s[0] == '+' then [s[0]] else "";
    digits := s[|sign|..];
  }

  lemma SignedSpells(sign: string, digits: string, n: nat, k: nat)
    requires sign == "" || sign == "+" || sign == "-"
    requires digits == Zeros(k) + Decimal(n)
    ensures SpelledWith(sign + digits, if sign == "-" then 0 - n else n, k)
  {
    assert "" + digits == digits;
  }

  lemma AtoiSpells(s: string)
    requires Atoi(s).Some?
    ensures Spells(s, Atoi(s).value)
  {
    var sign, digits := AtoiParts(s);
    var k := NumeralSpelled(digits);
    SignsRead(digits);
    SignedSpells(sign, digits, Numeral(digits), k);
    assert "" + digits == digits;
    assert SpelledWith(s, Atoi(s).value, k);
  }

  lemma SpelledReads(s: string, n: int, k: nat)
    requires SpelledWith(s, n, k)
    ensures Atoi(s) == if MIN_INT64 <= n <= MAX_INT64 then Some(n) else None
  {
    var m: nat := if n < 0 then -n else n;
    var digits := Zeros(k) + Decimal(m);
    ZerosCountNothing(k, Decimal(m));
    NumeralDecimal(m);
    SignsRead(digits);
  }

  // ----- names

  /** The text made of these names with white space around and between them. */
  function Laid(names: seq<string>, gaps: seq<string>): string
    requires |gaps| == |names| + 1
  {
    if names == [] then gaps[0] else gaps[0] + names[0] + Laid(names[1..], gaps[1..])
  }

  /** Names without white space, and white space between any two of them. */
  ghost predicate Apart(names: seq<string>, gaps: seq<string>) {
    && |gaps| == |names| + 1
    && (forall i :: 0 <= i < |gaps| ==> White(gaps[i]))
    && (forall i :: 0 < i < |names| ==> gaps[i] != "")
    && (forall i :: 0 <= i < |names| ==> names[i] != "" && forall j :: 0 <= j < |names[i]| ==> !WhiteChar(names[i][j]))
  }

  lemma {:induction false} FieldsSkip(a: string, s: string)
    requires White(a)
    ensures Fields(a + s) == Fields(s)
  {
    if a == "" {
      assert a + s == s;
    } else {
      WhiteIsSpace(a[0]);
      assert (a + s)[1..] == a[1..] + s;
      FieldsSkip(a[1..], s);
    }
  }

  /** strings.Fields finds exactly those names. */
  lemma {:induction false} FieldsExactly(names: seq<string>, gaps: seq<string>)
    requires Apart(names, gaps)
    ensures Fields(Laid(names, gaps)) == names
  {
    if names == [] {
      FieldsSkip(gaps[0], "");
      assert gaps[0] + "" == gaps[0];
    } else {
      var rest := Laid(names[1..], gaps[1..]);
      FieldsExactly(names[1..], gaps[1..]);
      assert Laid(names, gaps) == gaps[0] + (names[0] + rest);
      FieldsSkip(gaps[0], names[0] + rest);
      LaidStartsWhite(names[1..], gaps[1..], |names| > 1);
      FirstField(names[0], rest);
    }
  }

  lemma LaidStartsWhite(names: seq<string>, gaps: seq<string>, some: bool)
    requires |gaps| == |names| + 1 && White(gaps[0]) && (names != [] ==> gaps[0] != "")
    ensures Laid(names, gaps) != "" ==> WhiteChar(Laid(names, gaps)[0])
  {
  }

  lemma FirstField(name: string, rest: string)
    requires name != "" && (forall j :: 0 <= j < |name| ==> !WhiteChar(name[j]))
    requires rest != "" ==> WhiteChar(rest[0])
    ensures Fields(name + rest) == [name] + Fields(rest)
  {
    forall j | 0 <= j < |name| ensures !IsSpace(name[j]) {
      WhiteIsSpace(name[j]);
    }
    if rest != "" {
      WhiteIsSpace(rest[0]);
    }
    WordLengthOf(name, rest);
    var s := name + rest;
    assert s[0] == name[0] && s[..|name|] == name && s[|name|..] == rest;
  }

  /** And every text is names laid out like that. */
  lemma {:induction false} EveryTextIsLaid(s: string) returns (names: seq<string>, gaps: seq<string>)
    ensures Apart(names, gaps) && s == Laid(names, gaps)
    ensures s != "" && !WhiteChar(s[0]) ==> gaps[0] == ""
    decreases |s|
  {
    if s == "" {
      return [], [""];
    }
    if WhiteChar(s[0]) {
      names, gaps := EveryTextIsLaid(s[1..]);
      LaidAfterWhite(s[0], names, gaps);
      gaps := [[s[0]] + gaps[0]] + gaps[1..];
    } else {
      var n := WordEnd(s);
      names, gaps := EveryTextIsLaid(s[n..]);
      LaidAfterName(s[..n], names, gaps);
      assert s == s[..n] + s[n..];
      names, gaps := [s[..n]] + names, [""] + gaps;
    }
  }

  lemma {:induction false} WordEnd(s: string) returns (n: nat)
    requires s != "" && !WhiteChar(s[0])
    ensures 0 < n <= |s| && (forall i :: 0 <= i < n ==> !WhiteChar(s[i])) && (n < |s| ==> WhiteChar(s[n]))
  {
    if |s| == 1 || WhiteChar(s[1]) {
      return 1;
    }
    n := WordEnd(s[1..]);
    assert forall i :: 0 < i <= n ==> s[i] == s[1..][i - 1];
    n := n + 1;
  }

  lemma LaidAfterWhite(c: char, names: seq<string>, gaps: seq<string>)
    requires WhiteChar(c) && Apart(names, gaps)
    ensures var more := [[c] + gaps[0]] + gaps[1..];
      Apart(names, more) && Laid(names, more) == [c] + Laid(names, gaps)
  {
    var more := [[c] + gaps[0]] + gaps[1..];
    assert more[1..] == gaps[1..];
  }

  lemma LaidAfterName(name: string, names: seq<string>, gaps: seq<string>)
    requires name != "" && (forall j :: 0 <= j < |name| ==> !WhiteChar(name[j])) && Apart(names, gaps)
    requires Laid(names, gaps) != "" ==> WhiteChar(Laid(names, gaps)[0])
    ensures Apart([name] + names, [""] + gaps) && Laid([name] + names, [""] + gaps) == name + Laid(names, gaps)
  {
    assert ([name] + names)[1..] == names && ([""] + gaps)[1..] == gaps;
    if names != [] && gaps[0] == "" {
      LaidStartsSolid(names, gaps);
      assert false;
    }
  }

  lemma LaidStartsSolid(names: seq<string>, gaps: seq<string>)
    requires Apart(names, gaps) && names != [] && gaps[0] == ""
    ensures Laid(names, gaps) != "" && !WhiteChar(Laid(names, gaps)[0])
  {
    assert Laid(names, gaps)[0] == names[0][0];
  }

  // ----- what an assignment sets

  /** What a delay is read as: a whole number of seconds, in nanoseconds, if there are
      not more than a Duration holds; otherwise what is wrong with it. */
  ghost predicate DelayReads(key: string, value: string, r: Result<int, Problem>) {
    && (forall n :: Spells(value, n) && -0x8000_0000_0000_0000 <= n <= 0x7FFF_FFFF_FFFF_FFFF ==>
          r == if n < 0 then Err(Negative(key)) else if n > 9_223_372_036 then Err(TooLarge(key)) else Ok(n * 1_000_000_000))
    && ((forall n :: Spells(value, n) ==> n < -0x8000_0000_0000_0000 || n > 0x7FFF_FFFF_FFFF_FFFF) ==> r == Err(NotSeconds(key)))
  }

  lemma DelayReadsExactly(key: string, value: string)
    ensures DelayReads(key, value, Seconds(key, value))
  {
    assert MAX_SECONDS == 9_223_372_036;
    forall n ensures Atoi(value) == Some(n) <==> MIN_INT64 <= n <= MAX_INT64 && Spells(value, n) {
      AtoiExactly(value, n);
    }
    if Atoi(value).Some? {
      assert Spells(value, Atoi(value).value);
    }
  }

  ghost predicate NamesRead(value: string, names: seq<string>) {
    forall ns, gaps :: Apart(ns, gaps) && value == Laid(ns, gaps) ==> names == ns
  }

  lemma NamesReadExactly(value: string)
    ensures NamesRead(value, Fields(value))
  {
    forall ns, gaps | Apart(ns, gaps) && value == Laid(ns, gaps) ensures Fields(value) == ns {
      FieldsExactly(ns, gaps);
    }
  }

  /** The settings after a delay was read, put where `place` says. */
  function After(d: Result<int, Problem>, place: int -> Config): Result<Config, ParseError> {
    match d
    case Ok(ns) => Ok(place(ns))
    case Err(problem) => Err(ParseError(1, problem))
  }

  /** r is what a file of this one assignment makes of base. */
  ghost predicate Sets(key: string, value: string, base: Config, r: Result<Config, ParseError>) {
    if key == "SAVER_DELAY" then exists d :: DelayReads(key, value, d) && r == After(d, ns => base.(saverDelay := ns))
    else if key == "LOCK_AFTER" then exists d :: DelayReads(key, value, d) && r == After(d, ns => base.(lockAfter := ns))
    else if key == "BLANK_AFTER" then exists d :: DelayReads(key, value, d) && r == After(d, ns => base.(blankAfter := ns))
    else if key == "CYCLE_AFTER" then exists d :: DelayReads(key, value, d) && r == After(d, ns => base.(cycleAfter := ns))
    else if key == "MONITORS" then
      r == if value == "same" then Ok(base.(monitors := Same)) else if value == "different" then Ok(base.(monitors := Different))
           else Err(ParseError(1, NotMode(key)))
    else if key == "EXCLUDE" then exists names :: NamesRead(value, names) && r == Ok(base.(never := names))
    else if key == "INCLUDE" then exists names :: NamesRead(value, names) && r == Ok(base.(only := names))
    else r == Ok(base)
  }

  lemma AssignmentSets(key: string, value: string, base: Config)
    ensures Sets(key, value, base, Stepped(Ok(base), 1, Assignment(key, value)))
  {
    DelayReadsExactly(key, value);
    NamesReadExactly(value);
  }

  lemma OneLineParsed(line: string, base: Config)
    requires '\n' !in line
    ensures ParsedText(line, base) == Stepped(Ok(base), 1, Read(line))
  {
    SplitWhole(line, '\n');
    ParsedBySplitLines(line, base);
    OneLine(line);
    assert [Read(line)][..0] == [];
  }

  /** A quoted assignment sets its key to what is between the quotes, single or
      double, for every key and value and with white space wherever it may be. */
  lemma QuotedLineSets(a: string, key: string, b: string, c: string, q: char, value: string, d: string, base: Config)
    requires Spaced(a, key, b, c, "", d) && (q == '\"' || q == '\'')
    requires '\n' !in Line(a, key, b, c, [q] + value + [q], d)
    ensures Sets(key, value, base, ParsedText(Line(a, key, b, c, [q] + value + [q], d), base))
  {
    QuotedAssigns(a, key, b, c, q, value, d);
    OneLineParsed(Line(a, key, b, c, [q] + value + [q], d), base);
    AssignmentSets(key, value, base);
  }

  /** Any other sets it to the value as it stands. */
  lemma BareLineSets(a: string, key: string, b: string, c: string, value: string, d: string, base: Config)
    requires Spaced(a, key, b, c, value, d)
    requires |value| < 2 || value[0] != value[|value| - 1] || (value[0] != '\"' && value[0] != '\'')
    requires '\n' !in Line(a, key, b, c, value, d)
    ensures Sets(key, value, base, ParsedText(Line(a, key, b, c, value, d), base))
  {
    BareAssigns(a, key, b, c, value, d);
    OneLineParsed(Line(a, key, b, c, value, d), base);
    AssignmentSets(key, value, base);
  }

  // ----- what an update is accepted as

  /** A letter, a digit, or one of four signs. */
  predicate NameChar(c: char) {
    || ('a' <= c && c <= 'z') || ('A' <= c && c <= 'Z') || ('0' <= c && c <= '9')
    || c == '-' || c == '_' || c == '.' || c == '+'
  }

  predicate NameOnly(name: string) {
    forall j :: 0 <= j < |name| ==> NameChar(name[j])
  }

  /** Blank, tab, carriage return, newline, quotes and the comment sign. */
  predicate Odd(c: char) {
    c as int == 32 || c as int == 9 || c as int == 13 || c as int == 10 || c == '\"' || c == '\'' || c == '#'
  }

  predicate OneWord(value: string) {
    value != "" && forall i :: 0 <= i < |value| ==> !Odd(value[i])
  }

  lemma NameCharsMean(c: char)
    ensures NameChar(c) <==> ModuleChar(c)
    ensures Odd(c) <==> Forbidden(c)
    ensures NameChar(c) ==> Plain(c)
  {
    var all := " \t\r\n\"\'#";
    assert all[0] as int == 32 && all[1] as int == 9 && all[2] as int == 13 && all[3] as int == 10;
    assert all[4] == '\"' && all[5] == '\'' && all[6] == '#';
  }

  lemma OddMeans(value: string)
    ensures OneWord(value) <==> !(value == "" || exists i :: 0 <= i < |value| && Forbidden(value[i]))
  {
    forall i | 0 <= i < |value| ensures Odd(value[i]) <==> Forbidden(value[i]) {
      NameCharsMean(value[i]);
    }
  }

  /** An update of a list is accepted exactly when all its names, however they are
      laid out, are made of the characters module names use; its line has them in
      quotes, one blank apart. The first name that is not is what is refused. */
  lemma ListRenderedExactly(key: string, names: seq<string>, gaps: seq<string>)
    requires (key == "EXCLUDE" || key == "INCLUDE") && Apart(names, gaps)
    ensures (forall i :: 0 <= i < |names| ==> NameOnly(names[i])) ==>
      Rendered(key, Laid(names, gaps)) == Ok(key + "=" + "\"" + Join(names, ' ') + "\"")
    ensures forall i :: 0 <= i < |names| && !NameOnly(names[i]) && (forall j :: 0 <= j < i ==> NameOnly(names[j])) ==>
      Rendered(key, Laid(names, gaps)) == Err(NotModuleName(names[i]))
  {
    FieldsExactly(names, gaps);
    forall i | 0 <= i < |names| ensures NameOnly(names[i]) <==> ModuleName(names[i]) {
      NameMeans(names[i]);
    }
    if forall i :: 0 <= i < |names| ==> NameOnly(names[i]) {
      NamesPrint(names);
      assert key + "=" + ("\"" + Join(names, ' ') + "\"") == key + "=" + "\"" + Join(names, ' ') + "\"";
    }
    forall i | 0 <= i < |names| && !NameOnly(names[i]) && (forall j :: 0 <= j < i ==> NameOnly(names[j]))
      ensures FirstOdd(names) == Some(names[i])
    {
      FirstOddIs(names, i);
    }
    KeyOfList(key);
  }

  lemma KeyOfList(key: string)
    requires key == "EXCLUDE" || key == "INCLUDE"
    ensures key in KEYS && ListKey(key)
  {
    assert KEYS[5] == "EXCLUDE" && KEYS[6] == "INCLUDE";
  }

  lemma NameMeans(name: string)
    requires name != ""
    ensures NameOnly(name) <==> ModuleName(name)
  {
    forall j | 0 <= j < |name| ensures NameChar(name[j]) <==> ModuleChar(name[j]) {
      NameCharsMean(name[j]);
    }
  }

  lemma {:induction false} FirstOddIs(names: seq<string>, i: nat)
    requires i < |names| && !ModuleName(names[i]) && forall j :: 0 <= j < i ==> ModuleName(names[j])
    ensures FirstOdd(names) == Some(names[i])
  {
    if i > 0 {
      FirstOddIs(names[1..], i - 1);
    }
  }

  lemma NamesPrint(names: seq<string>)
    requires forall i :: 0 <= i < |names| ==> NameOnly(names[i])
    ensures Quoted(Join(names, ' ')) == "\"" + Join(names, ' ') + "\""
  {
    forall i, j | 0 <= i < |names| && 0 <= j < |names[i]| ensures Plain(names[i][j]) {
      NameCharsMean(names[i][j]);
    }
    JoinedArePlain(names);
    PlainPrintsItself(Join(names, ' '));
  }

  /** An update of any other key is accepted exactly when its value is one word
      without quotes and comment signs; its line has it as it stands. A key that is
      none of the seven is refused. */
  lemma WordRenderedExactly(key: string, value: string)
    requires key != "EXCLUDE" && key != "INCLUDE"
    ensures Rendered(key, value) ==
      if key == "SAVER_DELAY" || key == "CYCLE_AFTER" || key == "MONITORS" || key == "LOCK_AFTER" || key == "BLANK_AFTER" then
        if OneWord(value) then Ok(key + "=" + value) else Err(NotOneWord(value))
      else Err(UnknownKey(key))
  {
    OddMeans(value);
    KeysAre(key);
  }

  lemma KeysAre(key: string)
    ensures key in KEYS <==>
      || key == "SAVER_DELAY" || key == "CYCLE_AFTER" || key == "MONITORS" || key == "LOCK_AFTER"
      || key == "BLANK_AFTER" || key == "EXCLUDE" || key == "INCLUDE"
  {
    assert KEYS[0] == "SAVER_DELAY" && KEYS[1] == "CYCLE_AFTER" && KEYS[2] == "MONITORS" && KEYS[3] == "LOCK_AFTER";
    assert KEYS[4] == "BLANK_AFTER" && KEYS[5] == "EXCLUDE" && KEYS[6] == "INCLUDE";
  }

  /** How a character is printed between quotes: itself, unless it is a quote or a
      backslash, or does not print. */
  lemma EscapesExactly(c: char)
    ensures c == '\"' ==> Escaped(c) == "\\\""
    ensures c == '\\' ==> Escaped(c) == "\\\\"
    ensures c as int == 7 ==> Escaped(c) == "\\a"
    ensures c as int == 8 ==> Escaped(c) == "\\b"
    ensures c as int == 9 ==> Escaped(c) == "\\t"
    ensures c as int == 10 ==> Escaped(c) == "\\n"
    ensures c as int == 11 ==> Escaped(c) == "\\v"
    ensures c as int == 12 ==> Escaped(c) == "\\f"
    ensures c as int == 13 ==> Escaped(c) == "\\r"
    ensures c as int < 7 || 13 < c as int < 32 || c as int == 127 ==>
      |Escaped(c)| == 4 && Escaped(c)[..2] == "\\x" && HexValue(Escaped(c)[2]) * 16 + HexValue(Escaped(c)[3]) == c as int
    ensures c as int >= 32 && c as int != 127 && c != '\"' && c != '\\' ==> Escaped(c) == [c]
  {
    if c as int < 32 || c as int == 127 {
      HexRead(c as int / 16);
      HexRead(c as int % 16);
    }
  }

  /** What a lower-case hexadecimal digit stands for. */
  function HexValue(c: char): int {
    if '0' <= c <= '9' then c as int - '0' as int else c as int - 'a' as int + 10
  }

  lemma HexRead(d: nat)
    requires d < 16
    ensures HexValue(Hex(d)) == d
  {
  }

  /** What a new installation runs with. */
  lemma ShippedDefaults()
    ensures Defaults() == Config(300_000_000_000, 900_000_000_000, 120_000_000_000, 300_000_000_000, Same,
      ["webcollage", "vidwhacker", "glslideshow", "photopile", "carousel", "sonar"], [])
  {
  }
}
