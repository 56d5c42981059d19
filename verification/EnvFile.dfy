/** Reading and rewriting an environment file: the entry points, what they promise, and their loops. */
module EnvFile {
  import opened Wrappers
  import opened EnvText
  import opened EnvEdits
  import opened EnvRoundTrip
  import opened EnvEditor
  import opened EnvSplice

  datatype SourceError = TooLarge | NulByte | Malformed

  /** Parse a file of at most `maximum` characters. */
  function ParseSource(text: string, maximum: int): Result<seq<Definition>, SourceError> {
    if maximum <= 0 || |text| > maximum then Err(TooLarge)
    else if '\0' in text then Err(NulByte)
    else
      var defs := ParseFrom(text, 0, map[]);
      if defs.None? then Err(SourceError.Malformed) else Ok(defs.value)
  }

  function NamesValues(defs: seq<Definition>): seq<Entry> {
    if defs == [] then [] else [(defs[0].name, defs[0].value)] + NamesValues(defs[1..])
  }

  /** The parsed definitions hold exactly the file's names and values in order. */
  lemma {:induction false} DefinitionsEntries(lines: seq<Line>, offset: nat, seen: map<string, nat>)
    ensures EntriesOf(lines) == var d := Definitions(lines, offset, seen); if d.None? then None else Some(NamesValues(d.value))
  {
    if lines != [] {
      var next := offset + |lines[0].body| + |lines[0].term|;
      match ParseStatement(lines[0].body)
      case Malformed =>
      case Blank => DefinitionsEntries(lines[1..], next, seen);
      case Assign(name, v) => DefinitionsEntries(lines[1..], next, Seen(seen, name));
    }
  }

  // ----- NUL characters ----------------------------------------------------------

  lemma {:induction false} EscapeNul(v: string, q: char)
    ensures '\0' in Escape(v, q) <==> '\0' in v
  {
    if v != [] {
      EscapeNul(v[1..], q);
      assert v == [v[0]] + v[1..];
    }
  }

  lemma {:induction false} EncodedNul(token: string, v: string)
    requires '\0' !in token
    ensures '\0' in Encoded(token, v) <==> '\0' in v
  {
    if IsQuoted(token) { EscapeNul(v, token[0]); }
    EscapeNul(v, '"');
  }

  /** No value that is set holds a NUL character. */
  predicate NulFree(defs: seq<Definition>, edits: map<Key, Edit>) {
    defs == [] ||
    ((KeyOf(defs[0]) in edits && edits[KeyOf(defs[0])].Put? ==> '\0' !in edits[KeyOf(defs[0])].value) &&
     NulFree(defs[1..], edits))
  }

  lemma {:induction false} EditedLineNul(line: Line, v: Value, k: Key, edits: map<Key, Edit>)
    requires v.start <= v.end <= |line.body| && '\0' !in line.body + line.term
    ensures '\0' in EditedLine(line, v, k, edits) <==> k in edits && edits[k].Put? && '\0' in edits[k].value
  {
    if k in edits && edits[k].Put? { EncodedNul(line.body[v.start..v.end], edits[k].value); }
  }

  /** An edited file holds a NUL character exactly when a value that was set does. */
  lemma {:induction false} EditedNul(lines: seq<Line>, offset: nat, seen: map<string, nat>, edits: map<Key, Edit>,
                                     defs: seq<Definition>)
    requires Definitions(lines, offset, seen) == Some(defs) && '\0' !in Joined(lines)
    ensures '\0' !in Edited(lines, seen, edits) <==> NulFree(defs, edits)
  {
    if lines != [] {
      var next := offset + |lines[0].body| + |lines[0].term|;
      match ParseStatement(lines[0].body)
      case Blank => EditedNul(lines[1..], next, seen, edits, defs);
      case Assign(name, v) =>
        EditedLineNul(lines[0], v, KeyOf(defs[0]), edits);
        EditedNul(lines[1..], next, Seen(seen, name), edits, defs[1..]);
    }
  }

  // ----- the round trip ----------------------------------------------------------

  /**
   Updating a file and reading it back: every set definition has exactly the value it was set to, every other one its
   name, value and place, no deleted one is left. It holds exactly when the result fits, no set value holds a NUL
   character, and the edits are faithful.
   */
  lemma {:induction false} UpdateRoundTrip(text: string, maximum: int, defs: seq<Definition>, ops: seq<Operation>)
    requires ParseSource(text, maximum) == Ok(defs) && Distinct(ops) && AllKnown(Table(defs), ops)
    ensures var r := Updated(text, defs, ops); var edits := EditsOf(ops);
            r.Some? &&
            (ParseSource(r.value, maximum).Ok? && NamesValues(ParseSource(r.value, maximum).value) == Expected(defs, edits)
             <==> |r.value| <= maximum && NulFree(defs, edits) && Faithful(Cut(text).value, map[], edits, defs))
  {
    var lines, edits := Cut(text).value, EditsOf(ops);
    CutIsWell(text);
    UpdatedIsEdited(text, lines, defs, ops);
    var r := Updated(text, defs, ops).value;
    EditThenReparse(lines, 0, map[], edits, defs);
    EditedNul(lines, 0, map[], edits, defs);
    SourceEntries(r, maximum);
  }

  /** When no replaced value's comment goes over a line break: every one was quoted, had no comment, or is written in quotes. */
  lemma {:induction false} OneLineRoundTrip(text: string, maximum: int, defs: seq<Definition>, ops: seq<Operation>)
    requires ParseSource(text, maximum) == Ok(defs) && Distinct(ops) && AllKnown(Table(defs), ops)
    requires AllOneLine(defs, EditsOf(ops))
    ensures var r := Updated(text, defs, ops); var edits := EditsOf(ops);
            r.Some? &&
            (ParseSource(r.value, maximum).Ok? && NamesValues(ParseSource(r.value, maximum).value) == Expected(defs, edits)
             <==> |r.value| <= maximum && NulFree(defs, edits) && AllSafe(defs, edits))
  {
    UpdateRoundTrip(text, maximum, defs, ops);
    FaithfulOneLine(Cut(text).value, 0, map[], EditsOf(ops), defs);
  }

  lemma {:induction false} SourceEntries(text: string, maximum: int)
    ensures var p := ParseSource(text, maximum);
            if p.Ok? then |text| <= maximum && '\0' !in text && Entries(text) == Some(NamesValues(p.value))
            else maximum <= 0 || |text| > maximum || '\0' in text || Entries(text) == None
  {
    if Cut(text).Some? { DefinitionsEntries(Cut(text).value, 0, map[]); }
  }

  lemma {:induction false} CutStep(s: string, n: nat, m: nat, line: Line, rest: string)
    requires s != [] && Scan(s, Plain) == Some(n) && Next(s) == m && line == Line(s[..n], s[n..m]) && rest == s[m..]
    ensures Cut(s) == if Cut(rest).None? then None else Some([line] + Cut(rest).value)
  {
  }

  lemma {:induction false} CutNone(s: string)
    requires s != [] && Scan(s, Plain).None?
    ensures Cut(s).None?
  {
  }

  /**
   Why the comment must stay on one line: the quote of an unquoted value can carry its statement over a line break
   that lies behind a '#'. Replacing the value makes the scanner see that break.
   */
  lemma {:induction false} OpenQuoteBreaks()
    ensures Replaced("A=b' #\n'", 2, 5, Encoded("b' ", "")) == "A=#\n'" && Entries("A=#\n'") == None
  {
    assert Replaced("A=b' #\n'", 2, 5, []) == "A=#\n'";
    OpenQuoteLeft("A=#\n'", "'");
  }

  lemma {:induction false} OpenQuoteLeft(t: string, rest: string)
    requires t == "A=#\n'" && rest == "'"
    ensures Cut(t) == None
  {
    assert t[3..] == "\n'" && t[4..] == rest && "\n'"[0..] == "\n'";
    assert Scan("\n'", Comment) == Some(0);
    assert "#\n'"[1..] == "\n'" && Scan("#\n'", Plain) == Some(1);
    assert "=#\n'"[1..] == "#\n'" && Scan("=#\n'", Plain) == Some(2);
    assert t[1..] == "=#\n'" && Scan(t, Plain) == Some(3);
    assert rest[1..] == "" && Scan("", Quoted('\'')).None? && Scan(rest, Plain).None?;
    CutNone(rest);
    CutStep(t, 3, 4, Line(t[..3], t[3..4]), rest);
  }

  /** The file parses before the edit: one definition, whose statement goes over the line break. */
  lemma {:induction false} OpenQuoteReads()
    ensures ParseSource("A=b' #\n'", 100) == Ok([Definition("A", "b'", 0, 0, 8, 2, 5, "b' ", "#\n'")])
  {
    var s := "A=b' #\n'";
    var v := Value("b'", 2, 5);
    OpenQuoteStatement(s);
    OpenQuoteScan(s);
    OneStatement(s, "A", v);
    OpenQuoteDefinition(s, v);
  }

  lemma {:induction false} OpenQuoteDefinition(s: string, v: Value)
    requires s == "A=b' #\n'" && v == Value("b'", 2, 5)
    ensures Defined(s, "A", v, 0, 0, |s|) == Definition("A", "b'", 0, 0, 8, 2, 5, "b' ", "#\n'")
  {
    assert s[2..5] == "b' " && s[5..] == "#\n'";
  }

  lemma {:induction false} OpenQuoteStatement(s: string)
    requires s == "A=b' #\n'"
    ensures ParseStatement(s) == Assign("A", Value("b'", 2, 5))
  {
    assert NameTail(s, 1) == 1 && SkipSpace(s, 0) == 0;
    OpenQuoteToken(s);
    assert s[0..1] == "A";
  }

  lemma {:induction false} QuoteScan(t: string)
    requires t == " #\n'"
    ensures Scan(t, Quoted('\'')) == Some(4)
  {
    assert t[1..] == "#\n'" && t[1..][1..] == "\n'" && t[1..][1..][1..] == "'" && "'"[1..] == "";
    assert Scan("'", Quoted('\'')) == Some(1) && Scan("\n'", Quoted('\'')) == Some(2);
  }

  lemma {:induction false} OpenQuoteScan(s: string)
    requires s == "A=b' #\n'"
    ensures Scan(s, Plain) == Some(|s|)
  {
    QuoteScan(s[4..]);
    assert s[1..][1..] == s[2..] && s[2..][1..] == s[3..] && s[3..][1..] == s[4..];
    assert Scan(s[3..], Plain) == Some(5);
    assert Scan(s[2..], Plain) == Some(6);
  }

  /** A text that is one assignment. */
  lemma {:induction false} OneStatement(s: string, name: string, v: Value)
    requires s != [] && Scan(s, Plain) == Some(|s|) && ParseStatement(s) == Assign(name, v) && '\0' !in s && |s| <= 100
    ensures ParseSource(s, 100) == Ok([Defined(s, name, v, 0, 0, |s|)])
  {
    OneCut(s);
    OneDefinition(Line(s, []), name, v);
  }

  lemma {:induction false} OneCut(s: string)
    requires s != [] && Scan(s, Plain) == Some(|s|)
    ensures Cut(s) == Some([Line(s, [])])
  {
    assert s[..|s|] == s && s[|s|..] == [];
    CutStep(s, |s|, |s|, Line(s, []), []);
    assert [Line(s, [])] + [] == [Line(s, [])];
  }

  lemma {:induction false} OneDefinition(line: Line, name: string, v: Value)
    requires ParseStatement(line.body) == Assign(name, v)
    ensures Definitions([line], 0, map[]) == Some([Defined(line.body, name, v, 0, 0, |line.body| + |line.term|)])
  {
    DefinitionsOne(line, [], 0, map[]);
    assert [line] + [] == [line];
    var d := Defined(line.body, name, v, 0, 0, |line.body| + |line.term|);
    assert [d] + [] == [d];
  }

  lemma {:induction false} OpenQuoteToken(s: string)
    requires s == "A=b' #\n'"
    ensures ParseValue(s, 2) == Some(Value("b'", 2, 5))
  {
    assert TokenEnd(s, 2, false, false) == TokenEnd(s, 4, false, false) == Some(5);
    DecodePlain("b' ", "");
    assert s[2..5] == "b' " + "" == "b' ";
    assert TrimEnd("b' ") == "b'";
  }

  /**
   Two sets of one definition are two splices at one place, and the second one takes as much of what the first one wrote as
   the old value was long.
   */
  lemma {:induction false} SameDefinitionTwice()
    ensures var op := Operation("A", 0, false, true, Some("22")); var parsed := ParseSource("A=1", 100);
            parsed.Ok? && Known(Table(parsed.value), op) &&
            Updated("A=1", parsed.value, [op]) == Some("A=22") && Updated("A=1", parsed.value, [op, op]) == Some("A=222")
  {
    var d := PlainOne("A=1");
    TwoSplices(d);
  }

  lemma {:induction false} TwoSplices(d: Definition)
    requires d.name == "A" && d.ordinal == 0 && d.token == "1" && d.valueStart == 2 && d.valueEnd == 3
    ensures var op := Operation("A", 0, false, true, Some("22"));
            Known(Table([d]), op) && Updated("A=1", [d], [op]) == Some("A=22") && Updated("A=1", [d], [op, op]) == Some("A=222")
  {
    var op := Operation("A", 0, false, true, Some("22"));
    var r := Replacement(2, 3, "22");
    assert [d][..0] == [] && Table([d]) == map[("A", 0) := d];
    assert IsPlain("22") && ChangeOf(d, Put("22")) == r;
    TwoRequests(Table([d]), op, r);
    assert [r][..0] == [] && [r, r][..1] == [r];
    assert Apply("A=1", r) == "A=22" && Apply("A=22", r) == "A=222";
    assert Splice("A=1", [r]) == Apply(Splice("A=1", []), r);
    assert Splice("A=1", [r, r]) == Apply(Splice("A=1", [r]), r);
  }

  /** The file of one plain definition parses as it. */
  lemma {:induction false} PlainOne(s: string) returns (d: Definition)
    requires s == "A=1"
    ensures ParseSource(s, 100) == Ok([d]) && d.name == "A" && d.ordinal == 0 && d.token == "1" && d.valueStart == 2 && d.valueEnd == 3
  {
    var v := Value("1", 2, 3);
    PlainStatement(s);
    OneStatement(s, "A", v);
    d := Defined(s, "A", v, 0, 0, 3);
  }

  lemma {:induction false} PlainStatement(s: string)
    requires s == "A=1"
    ensures ParseStatement(s) == Assign("A", Value("1", 2, 3)) && Scan(s, Plain) == Some(3)
  {
    assert NameTail(s, 1) == 1 && SkipSpace(s, 0) == 0 && s[0..1] == "A";
    assert s[2..][1..] == [] && s[1..][1..] == s[2..];
    assert Scan(s[2..], Plain) == Some(1) && Scan(s[1..], Plain) == Some(2);
    BareReads(s, 2, "1");
  }

  lemma {:induction false} TwoRequests(table: map<Key, Definition>, op: Operation, r: Replacement)
    requires Known(table, op) && ChangeOf(table[(op.name, op.ordinal)], EditOf(op)) == r
    ensures Requested(table, [op]) == Some([r]) && Requested(table, [op, op]) == Some([r, r])
    ensures Sorted([r]) == [r] && Sorted([r, r]) == [r, r]
  {
    assert [op][..0] == [] && [op, op][..1] == [op];
    assert [] + [r] == [r] && [r] + [r] == [r, r];
    assert [r][..0] == [] && [r, r][..1] == [r];
  }

  // ----- the loops ---------------------------------------------------------------

  function ModeOf(quote: Option<char>, escaped: bool): Mode {
    match quote
    case None => if escaped then PlainEscaped else Plain
    case Some(q) => if escaped then QuotedEscaped(q) else Quoted(q)
  }

  function Shift(r: Option<nat>, k: nat): Option<nat> { if r.None? then None else Some(r.value + k) }

  /** Where the statement ends that is in `mode` at position i. */
  function EndFrom(text: string, i: nat, mode: Mode): (r: Option<nat>)
    requires i <= |text|
    ensures r.Some? ==> i <= r.value <= |text|
    decreases |text| - i
  {
    if i == |text| then (if IsOpen(mode) then None else Some(i))
    else if Ends(mode, text[i]) then Some(i)
    else EndFrom(text, i + 1, ScanStep(mode, text[i]))
  }

  /** The position behind the line break at `at`, if there is one. */
  function After(text: string, at: nat): (n: nat)
    requires at <= |text|
    ensures at <= n <= |text| && (at < |text| ==> at < n)
  {
    if at == |text| then at else if text[at] == '\r' && at + 1 < |text| && text[at + 1] == '\n' then at + 2 else at + 1
  }

  lemma {:induction false} EndFromScan(text: string, i: nat, mode: Mode)
    requires i <= |text|
    ensures EndFrom(text, i, mode) == Shift(Scan(text[i..], mode), i)
    decreases |text| - i
  {
    if i < |text| {
      assert text[i..][1..] == text[i + 1..];
      if !Ends(mode, text[i]) { EndFromScan(text, i + 1, ScanStep(mode, text[i])); }
    }
  }

  lemma {:induction false} AfterIsNext(text: string, start: nat, at: nat)
    requires start < |text| && Scan(text[start..], Plain) == Some(at - start) && start <= at
    ensures After(text, at) == start + Next(text[start..])
  {
    assert text[start..][at - start..] == text[at..];
  }

  /** The end of the statement at `start` and the start of the next one; None when a quote stays open. */
  method StatementEnd(text: string, start: nat) returns (r: Option<(nat, nat)>)
    requires start < |text|
    ensures r == var end := EndFrom(text, start, Plain); if end.None? then None else Some((end.value, After(text, end.value)))
  {
    var quote: Option<char> := None;
    var escaped := false;
    var index := start;
    while index < |text|
      invariant start <= index <= |text|
      invariant EndFrom(text, start, Plain) == EndFrom(text, index, ModeOf(quote, escaped))
    {
      var c := text[index];
      if escaped {
        escaped := false;
      } else if c == '\\' {
        escaped := true;
      } else if quote.Some? {
        if c == quote.value { quote := None; }
      } else if c == '\'' || c == '"' {
        quote := Some(c);
      } else if c == '#' {
        while index < |text| && !IsBreak(text[index])
          invariant start <= index <= |text|
          invariant EndFrom(text, start, Plain) == EndFrom(text, index, Comment) || (index < |text| && text[index] == '#')
          invariant index < |text| && text[index] == '#' ==>
                      EndFrom(text, start, Plain) in {EndFrom(text, index, Plain), EndFrom(text, index, Comment)}
        {
          index := index + 1;
        }
        return Some((index, After(text, index)));
      } else if IsBreak(c) {
        return Some((index, After(text, index)));
      }
      index := index + 1;
    }
    if quote.Some? { return None; }
    return Some((|text|, |text|));
  }

  method SkipWhitespace(s: string, from: nat) returns (n: nat)
    requires from <= |s|
    ensures n == SkipSpace(s, from)
  {
    n := from;
    while n < |s| && IsSpace(s[n])
      invariant from <= n <= |s| && SkipSpace(s, n) == SkipSpace(s, from)
    {
      n := n + 1;
    }
  }

  /** Decoding from position i on. */
  function DecodeFrom(s: string, i: nat, double: bool): string
    requires i <= |s|
    decreases |s| - i
  {
    if i == |s| then []
    else if s[i] != '\\' || i + 1 == |s| then [s[i]] + DecodeFrom(s, i + 1, double)
    else [Unescaped(s[i + 1], double)] + DecodeFrom(s, i + 2, double)
  }

  lemma {:induction false} DecodeFromIs(s: string, i: nat, double: bool)
    requires i <= |s|
    ensures DecodeFrom(s, i, double) == Decode(s[i..], double)
    decreases |s| - i
  {
    if i < |s| {
      assert s[i..][1..] == s[i + 1..];
      if s[i] != '\\' || i + 1 == |s| {
        DecodeFromIs(s, i + 1, double);
      } else {
        assert s[i..][2..] == s[i + 2..];
        DecodeFromIs(s, i + 2, double);
      }
    }
  }

  lemma {:induction false} OneMore(result: string, c: char, rest: string, whole: string)
    requires result + ([c] + rest) == whole
    ensures result + [c] + rest == whole
  {
    assert result + [c] + rest == result + ([c] + rest);
  }

  /** Undo backslash escapes, character by character. */
  method DecodeLoop(value: string, double: bool) returns (result: string)
    ensures result == DecodeFrom(value, 0, double)
  {
    result := "";
    var index := 0;
    ghost var whole := DecodeFrom(value, 0, double);
    assert result + whole == whole;
    while index < |value|
      invariant index <= |value| && result + DecodeFrom(value, index, double) == whole
    {
      var c := value[index];
      var next := index + 1;
      if c == '\\' && next < |value| {
        c := value[next];
        if double { c := if c == 'n' then '\n' else if c == 'r' then '\r' else if c == 't' then '\t' else c; }
        next := next + 1;
      }
      OneMore(result, c, DecodeFrom(value, next, double), whole);
      result := result + [c];
      index := next;
    }
    assert result + [] == result;
  }

  method DecodeEscapes(value: string, double: bool) returns (result: string)
    ensures result == Decode(value, double)
  {
    result := DecodeLoop(value, double);
    DecodeFromIs(value, 0, double);
    assert value[0..] == value;
  }

  /** A quoted value from its opening quote on. */
  method ParseQuotedValue(s: string, start: nat) returns (r: Option<Value>)
    requires start < |s| && IsQuote(s[start])
    ensures r == ParseQuoted(s, start)
  {
    var opener, escaped, index := s[start], false, start + 1;
    while index < |s|
      invariant start < index <= |s|
      invariant ClosingQuote(s, start + 1, opener, false) == ClosingQuote(s, index, opener, escaped)
    {
      if escaped {
        escaped := false;
      } else if s[index] == '\\' {
        escaped := true;
      } else if s[index] == opener {
        var after := SkipWhitespace(s, index + 1);
        if after < |s| && s[after] != '#' { return None; }
        var text := DecodeEscapes(s[start + 1..index], opener == '"');
        return Some(Value(text, start, after));
      }
      index := index + 1;
    }
    return None;
  }

  /** An unquoted value from its first character on. */
  method ParseBareValue(s: string, start: nat) returns (r: Option<Value>)
    requires start < |s| && s[start] != '#'
    ensures r == ParseBare(s, start)
  {
    var value, escaped, end, index := "", false, start, start;
    while index < |s|
      invariant start <= index <= |s| && end == index && value == s[start..index]
      invariant TokenEnd(s, start, false, false) == TokenEnd(s, index, index > start && IsSpace(s[index - 1]), escaped)
    {
      var c := s[index];
      if !escaped && c == '#' && (index == start || IsSpace(s[index - 1])) { break; }
      value := value + [c];
      end := index + 1;
      escaped := !escaped && c == '\\';
      index := index + 1;
    }
    if escaped { return None; }
    var text := DecodeEscapes(value, false);
    return Some(Value(TrimEnd(text), start, end));
  }

  method ParseValueFrom(s: string, from: nat) returns (r: Option<Value>)
    requires from <= |s|
    ensures r == ParseValue(s, from)
  {
    var start := SkipWhitespace(s, from);
    if start >= |s| || s[start] == '#' { return Some(Value("", start, start)); }
    if IsQuote(s[start]) { r := ParseQuotedValue(s, start); } else { r := ParseBareValue(s, start); }
  }

  /** The longest name at `from`. */
  method MatchName(s: string, from: nat) returns (end: nat)
    requires from <= |s|
    ensures end == NameEnd(s, from)
  {
    end := from;
    if from < |s| && IsNameStart(s[from]) {
      end := from + 1;
      while end < |s| && IsNameChar(s[end])
        invariant from < end <= |s| && NameTail(s, end) == NameTail(s, from + 1)
      {
        end := end + 1;
      }
    }
  }

  /** The part of an assignment before its value: the name, and the position behind the equals sign. */
  method ParseHead(s: string, first: nat) returns (k: Option<nat>, name: string)
    requires first == SkipSpace(s, 0)
    ensures k == AfterEquals(s) && (k.Some? ==> name == s[NameStart(s)..NameEnd(s, NameStart(s))])
  {
    var cursor := first;
    if HasExport(s, cursor) { cursor := SkipWhitespace(s, cursor + 6); }
    var nameStart := cursor;
    cursor := MatchName(s, nameStart);
    if cursor == nameStart { return None, ""; }
    name := s[nameStart..cursor];
    cursor := SkipWhitespace(s, cursor);
    if cursor == |s| || s[cursor] != '=' { return None, ""; }
    k := Some(cursor + 1);
  }

  method ParseAssignment(s: string) returns (a: Assignment)
    ensures a == ParseStatement(s)
  {
    var cursor := SkipWhitespace(s, 0);
    if cursor >= |s| || s[cursor] == '#' { return Blank; }
    var k, name := ParseHead(s, cursor);
    if k.None? { return Assignment.Malformed; }
    var value := ParseValueFrom(s, k.value);
    if value.None? { return Assignment.Malformed; }
    return Assign(name, value.value);
  }

  /** Definitions read so far before those still to be read. */
  function Before(done: seq<Definition>, rest: Option<seq<Definition>>): Option<seq<Definition>> {
    if rest.None? then None else Some(done + rest.value)
  }

  lemma {:induction false} BeforeNothing(rest: Option<seq<Definition>>)
    ensures Before([], rest) == rest
  {
    if rest.Some? { assert [] + rest.value == rest.value; }
  }

  lemma {:induction false} BeforeMore(done: seq<Definition>, d: Definition, rest: Option<seq<Definition>>)
    ensures Before(done, Before([d], rest)) == Before(done + [d], rest)
  {
    if rest.Some? { assert done + ([d] + rest.value) == done + [d] + rest.value; }
  }

  /** The statements of a text from position i on. */
  function CutAt(text: string, i: nat): Option<seq<Line>>
    requires i <= |text|
    decreases |text| - i
  {
    if i == |text| then Some([])
    else if LineOf(text, i).None? then None
    else
      var rest := CutAt(text, After(text, EndFrom(text, i, Plain).value));
      if rest.None? then None else Some([LineOf(text, i).value] + rest.value)
  }

  /** `rest` is what s holds from position m on. */
  predicate SuffixAt(s: string, m: nat, rest: string) {
    |s| == m + |rest| && forall j :: 0 <= j < |rest| ==> rest[j] == s[m + j]
  }

  /** The end of a statement does not depend on the text before it. */
  lemma {:induction false} EndShift(s: string, m: nat, rest: string, j: nat, mode: Mode)
    requires SuffixAt(s, m, rest) && j <= |rest|
    ensures EndFrom(s, m + j, mode) == Shift(EndFrom(rest, j, mode), m)
    decreases |rest| - j
  {
    if j < |rest| && !Ends(mode, rest[j]) { EndShift(s, m, rest, j + 1, ScanStep(mode, rest[j])); }
  }

  lemma {:induction false} SameSlice(s: string, m: nat, rest: string, a: nat, b: nat)
    requires SuffixAt(s, m, rest) && a <= b <= |rest|
    ensures rest[a..b] == s[m + a..m + b]
  {
  }

  /** The statement at position i of a text. */
  function LineOf(text: string, i: nat): Option<Line>
    requires i <= |text|
  {
    var end := EndFrom(text, i, Plain);
    if end.None? then None else Some(Line(text[i..end.value], text[end.value..After(text, end.value)]))
  }

  lemma {:induction false} LineShift(s: string, m: nat, rest: string, j: nat)
    requires SuffixAt(s, m, rest) && j < |rest|
    ensures LineOf(s, m + j) == LineOf(rest, j)
    ensures var end := EndFrom(rest, j, Plain);
            EndFrom(s, m + j, Plain) == Shift(end, m) && (end.Some? ==> After(s, m + end.value) == m + After(rest, end.value))
  {
    EndShift(s, m, rest, j, Plain);
    var end := EndFrom(rest, j, Plain);
    if end.Some? {
      SameSlice(s, m, rest, j, end.value);
      SameSlice(s, m, rest, end.value, After(rest, end.value));
    }
  }

  lemma {:induction false} CutShift(s: string, m: nat, rest: string, j: nat)
    requires SuffixAt(s, m, rest) && j <= |rest|
    ensures CutAt(rest, j) == CutAt(s, m + j)
    decreases |rest| - j
  {
    if j < |rest| {
      LineShift(s, m, rest, j);
      var end := EndFrom(rest, j, Plain);
      if end.Some? { CutShift(s, m, rest, After(rest, end.value)); }
    }
  }

  /** Cutting by position cuts the same statements. */
  lemma {:induction false} CutAtIs(s: string)
    ensures CutAt(s, 0) == Cut(s)
    decreases |s|
  {
    if s != [] {
      EndFromScan(s, 0, Plain);
      assert s[0..] == s;
      if Scan(s, Plain).None? {
        CutNone(s);
      } else {
        var n, m := Scan(s, Plain).value, Next(s);
        var rest := s[m..];
        AfterIsNext(s, 0, n);
        CutAtIs(rest);
        CutShift(s, m, rest, 0);
        CutStep(s, n, m, Line(s[..n], s[n..m]), rest);
        assert s[0..n] == s[..n];
      }
    }
  }

  function DefinitionsIn(lines: Option<seq<Line>>, offset: nat, seen: map<string, nat>): Option<seq<Definition>> {
    if lines.None? then None else Definitions(lines.value, offset, seen)
  }

  /** The definitions from position i on. */
  function Rest(text: string, i: nat, seen: map<string, nat>): Option<seq<Definition>>
    requires i <= |text|
  {
    DefinitionsIn(CutAt(text, i), i, seen)
  }

  lemma {:induction false} DefinitionsOne(line: Line, more: seq<Line>, offset: nat, seen: map<string, nat>)
    ensures Definitions([line] + more, offset, seen) ==
            var size := |line.body| + |line.term|;
            match ParseStatement(line.body)
            case Malformed => None
            case Blank => Definitions(more, offset + size, seen)
            case Assign(name, v) => Before([Defined(line.body, name, v, Count(seen, name), offset, size)],
                                           Definitions(more, offset + size, Seen(seen, name)))
  {
    assert ([line] + more)[1..] == more;
  }

  lemma {:induction false} CutAtStep(text: string, i: nat, end: nat)
    requires i < |text| && EndFrom(text, i, Plain) == Some(end)
    ensures var next := After(text, end); var more := CutAt(text, next);
            CutAt(text, i) == if more.None? then None else Some([Line(text[i..end], text[end..next])] + more.value)
  {
  }

  /** `lines` are the line and the ones behind it, if those can be cut. */
  predicate Heads(line: Line, more: Option<seq<Line>>, lines: Option<seq<Line>>) {
    lines == if more.None? then None else Some([line] + more.value)
  }

  /** The definitions of a statement and of the statements behind it. */
  lemma {:induction false} DefinitionsNext(line: Line, lines: Option<seq<Line>>, more: Option<seq<Line>>, offset: nat, next: nat,
                                           seen: map<string, nat>)
    requires Heads(line, more, lines) && next == offset + |line.body| + |line.term|
    ensures var all := DefinitionsIn(lines, offset, seen);
            match ParseStatement(line.body)
            case Malformed => all == None
            case Blank => all == DefinitionsIn(more, next, seen)
            case Assign(name, v) => all == Before([Defined(line.body, name, v, Count(seen, name), offset, next - offset)],
                                                  DefinitionsIn(more, next, Seen(seen, name)))
  {
    if more.Some? { DefinitionsOne(line, more.value, offset, seen); }
  }

  /** Read one statement: add its definition, if it has one. */
  method AddStatement(line: Line, offset: nat, definitions: seq<Definition>, ordinals: map<string, nat>,
                      ghost lines: Option<seq<Line>>, ghost more: Option<seq<Line>>, ghost next: nat)
    returns (r: Option<(seq<Definition>, map<string, nat>)>)
    requires Heads(line, more, lines) && next == offset + |line.body| + |line.term|
    ensures if r.None? then DefinitionsIn(lines, offset, ordinals) == None
            else Before(definitions, DefinitionsIn(lines, offset, ordinals)) == Before(r.value.0, DefinitionsIn(more, next, r.value.1))
  {
    DefinitionsNext(line, lines, more, offset, next, ordinals);
    var assignment := ParseAssignment(line.body);
    match assignment
    case Malformed => return None;
    case Blank => return Some((definitions, ordinals));
    case Assign(name, v) =>
      var ordinal := if name in ordinals then ordinals[name] else 0;
      var d := Definition(name, v.text, ordinal, offset, offset + |line.body + line.term|, offset + v.start, offset + v.end,
                          line.body[v.start..v.end], line.body[v.end..]);
      BeforeMore(definitions, d, DefinitionsIn(more, next, Seen(ordinals, name)));
      return Some((definitions + [d], ordinals[name := ordinal + 1]));
  }

  /** Cut off the statement at a position. */
  method NextLine(text: string, start: nat) returns (r: Option<(Line, nat)>)
    requires start < |text|
    ensures if r.None? then CutAt(text, start) == None
            else start < r.value.1 <= |text| && r.value.1 == start + |r.value.0.body| + |r.value.0.term| &&
                 Heads(r.value.0, CutAt(text, r.value.1), CutAt(text, start))
  {
    var bounds := StatementEnd(text, start);
    if bounds.None? { return None; }
    var (end, next) := bounds.value;
    CutAtStep(text, start, end);
    return Some((Line(text[start..end], text[end..next]), next));
  }

  /** Read the statement at a position; None when it is malformed. */
  method ReadStatement(text: string, start: nat, definitions: seq<Definition>, ordinals: map<string, nat>)
    returns (r: Option<(seq<Definition>, map<string, nat>, nat)>)
    requires start < |text|
    ensures if r.None? then Rest(text, start, ordinals) == None
            else start < r.value.2 <= |text| &&
                 Before(definitions, Rest(text, start, ordinals)) == Before(r.value.0, Rest(text, r.value.2, r.value.1))
  {
    var cut := NextLine(text, start);
    if cut.None? { return None; }
    var (line, next) := cut.value;
    var added := AddStatement(line, start, definitions, ordinals, CutAt(text, start), CutAt(text, next), next);
    return if added.None? then None else Some((added.value.0, added.value.1, next));
  }

  /** All definitions of a text; None when it is malformed. */
  method ParseAll(text: string) returns (r: Option<seq<Definition>>)
    ensures r == ParseFrom(text, 0, map[])
  {
    var definitions: seq<Definition> := [];
    var ordinals: map<string, nat> := map[];
    var start := 0;
    CutAtIs(text);
    ghost var whole := Rest(text, 0, map[]);
    BeforeNothing(whole);
    while start < |text|
      invariant 0 <= start <= |text| && whole == Before(definitions, Rest(text, start, ordinals))
    {
      var read := ReadStatement(text, start, definitions, ordinals);
      if read.None? { return None; }
      definitions, ordinals, start := read.value.0, read.value.1, read.value.2;
    }
    assert definitions + [] == definitions;
    return Some(definitions);
  }

  method ParseTextAssignments(text: string, maximum: int) returns (r: Result<seq<Definition>, SourceError>)
    ensures r == ParseSource(text, maximum)
  {
    if maximum <= 0 || |text| > maximum { return Err(TooLarge); }
    if '\0' in text { return Err(NulByte); }
    var definitions := ParseAll(text);
    return if definitions.None? then Err(SourceError.Malformed) else Ok(definitions.value);
  }

  /** Every occurrence of a character replaced. */
  function ReplaceAll(s: string, c: char, to: string): string {
    if s == [] then [] else (if s[0] == c then to else [s[0]]) + ReplaceAll(s[1..], c, to)
  }

  lemma {:induction false} ReplaceMore(x: string, y: string, c: char, to: string)
    ensures ReplaceAll(x + y, c, to) == ReplaceAll(x, c, to) + ReplaceAll(y, c, to)
  {
    if x == [] {
      assert x + y == y;
    } else {
      DropConcat(x, y, 1);
      ReplaceMore(x[1..], y, c, to);
    }
  }

  /** Doubling the backslashes first and then putting one before every quote escapes a value. */
  lemma {:induction false} ReplacedTwice(v: string, q: char)
    requires IsQuote(q)
    ensures ReplaceAll(ReplaceAll(v, '\\', ['\\', '\\']), q, ['\\', q]) == Escape(v, q)
  {
    if v != [] {
      var first := if v[0] == '\\' then ['\\', '\\'] else [v[0]];
      ReplacedTwice(v[1..], q);
      ReplaceMore(first, ReplaceAll(v[1..], '\\', ['\\', '\\']), q, ['\\', q]);
      assert first[1..] == if v[0] == '\\' then ['\\'] else [];
      assert "\\"[1..] == "" && ReplaceAll("\\", q, ['\\', q]) == "\\";
      assert ReplaceAll(first, q, ['\\', q]) ==
             if v[0] == '\\' then ['\\', '\\'] else if v[0] == q then ['\\', q] else [v[0]];
    }
  }

  /** The characters that keep a value from being written without quotes. */
  predicate KeepsPlain(v: string) { v != "" && forall c :: c in v ==> !IsSpace(c) && c !in "#\\'\"=" }

  lemma {:induction false} PlainIs(v: string)
    ensures KeepsPlain(v) <==> IsPlain(v)
  {
    assert forall i :: 0 <= i < |v| ==> v[i] in v;
  }

  method EncodedValue(token: string, value: string) returns (bytes: string)
    ensures bytes == Encoded(token, value)
  {
    var quote := if token != "" && token[0] == '\'' then Some('\'') else if token != "" && token[0] == '"' then Some('"') else None;
    if quote.Some? {
      ReplacedTwice(value, quote.value);
      return [quote.value] + ReplaceAll(ReplaceAll(value, '\\', ['\\', '\\']), quote.value, ['\\', quote.value]) + [quote.value];
    }
    if |value| == 0 { return []; }
    PlainIs(value);
    if KeepsPlain(value) { return value; }
    ReplacedTwice(value, '"');
    return ['"'] + ReplaceAll(ReplaceAll(value, '\\', ['\\', '\\']), '"', ['\\', '"']) + ['"'];
  }

  /** The replacement one operation asks for; None when it is refused. */
  method ReplacementFor(table: map<Key, Definition>, op: Operation) returns (r: Option<Replacement>)
    ensures r == if Known(table, op) then Some(ChangeOf(table[(op.name, op.ordinal)], EditOf(op))) else None
  {
    if op.delete && !op.optional { return None; }
    if !op.delete && op.value == None { return None; }
    if (op.name, op.ordinal) !in table { return None; }
    var definition := table[(op.name, op.ordinal)];
    if op.delete { return Some(Replacement(definition.start, definition.end, "")); }
    var bytes := EncodedValue(definition.token, op.value.value);
    return Some(Replacement(definition.valueStart, definition.valueEnd, bytes));
  }

  method TableOf(definitions: seq<Definition>) returns (table: map<Key, Definition>)
    ensures table == Table(definitions)
  {
    table := map[];
    for i := 0 to |definitions|
      invariant table == Table(definitions[..i])
    {
      assert definitions[..i + 1][..i] == definitions[..i];
      table := table[(definitions[i].name, definitions[i].ordinal) := definitions[i]];
    }
    assert definitions[..|definitions|] == definitions;
  }

  method ReplacementsFor(table: map<Key, Definition>, operations: seq<Operation>) returns (r: Option<seq<Replacement>>)
    ensures r == Requested(table, operations)
  {
    var replacements: seq<Replacement> := [];
    for i := 0 to |operations|
      invariant Requested(table, operations[..i]) == Some(replacements)
    {
      assert operations[..i + 1][..i] == operations[..i];
      var replacement := ReplacementFor(table, operations[i]);
      if replacement == None {
        RequestRefused(table, operations);
        assert !Known(table, operations[i]);
        return None;
      }
      replacements := replacements + [replacement.value];
    }
    assert operations[..|operations|] == operations;
    return Some(replacements);
  }

  method SpliceAll(bytes: string, sorted: seq<Replacement>) returns (result: string)
    ensures result == Splice(bytes, sorted)
  {
    result := bytes;
    for i := 0 to |sorted|
      invariant result == Splice(bytes, sorted[..i])
    {
      assert sorted[..i + 1][..i] == sorted[..i];
      var start, end := sorted[i].start, sorted[i].end;
      result := (if start <= |result| then result[..start] else result) + sorted[i].bytes +
      (if end <= |result| then result[end..] else "");
    }
    assert sorted[..|sorted|] == sorted;
  }

  method SerializeUpdatedSource(bytes: string, definitions: seq<Definition>, operations: seq<Operation>)
    returns (r: Option<string>)
    ensures r == Updated(bytes, definitions, operations)
  {
    var table := TableOf(definitions);
    var replacements := ReplacementsFor(table, operations);
    if replacements == None { return None; }
    var result := SpliceAll(bytes, Sorted(replacements.value));
    return Some(result);
  }
}
