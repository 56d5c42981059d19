/**
 The statement scanner and value grammar of environment files, as functions on text.
 One unit of text stands for one character.
 */
module EnvText {
  import opened Wrappers

  /** What the expression \s matches. */
  predicate IsSpace(c: char) {
    var u := c as int;
    0x09 <= u <= 0x0D || u == 0x20 || u == 0xA0 || u == 0x1680 || 0x2000 <= u <= 0x200A || u == 0x2028 ||
    u == 0x2029 || u == 0x202F || u == 0x205F || u == 0x3000 || u == 0xFEFF
  }

  predicate IsBreak(c: char) { c == '\n' || c == '\r' }

  // ----- statements ------------------------------------------------------------

  /** Where the scanner is inside a statement; a quote remembers its opening character. */
  datatype Mode = Plain | PlainEscaped | Quoted(q: char) | QuotedEscaped(q: char) | Comment

  predicate Ends(mode: Mode, c: char) { (mode.Plain? || mode.Comment?) && IsBreak(c) }

  function ScanStep(mode: Mode, c: char): Mode {
    match mode
    case PlainEscaped => Plain
    case QuotedEscaped(q) => Quoted(q)
    case Comment => Comment
    case Plain =>
      if c == '\\' then PlainEscaped
      else if c == '\'' || c == '"' then Quoted(c)
      else if c == '#' then Comment else Plain
    case Quoted(q) => if c == '\\' then QuotedEscaped(q) else if c == q then Plain else mode
  }

  predicate IsOpen(mode: Mode) { mode.Quoted? || mode.QuotedEscaped? }

  /** The length of the statement at the front of s, without its line break; None in an open quote. */
  function Scan(s: string, mode: Mode): (r: Option<nat>)
    ensures r.Some? ==> r.value <= |s| && (r.value < |s| ==> IsBreak(s[r.value]))
    ensures r == Some(0) && mode.Plain? && s != [] ==> IsBreak(s[0])
  {
    if s == [] then (if IsOpen(mode) then None else Some(0))
    else if Ends(mode, s[0]) then Some(0)
    else
      var r := Scan(s[1..], ScanStep(mode, s[0]));
      if r.None? then None else Some(r.value + 1)
  }

  /** The length of the line break at the front of s. */
  function BreakLength(s: string): (n: nat)
    ensures n <= |s| && (n == 0 <==> s == [])
  {
    if s == [] then 0 else if s[0] == '\r' && |s| > 1 && s[1] == '\n' then 2 else 1
  }

  // ----- names and values ------------------------------------------------------

  /** The first position from i on that holds no white space. */
  function SkipSpace(s: string, i: nat): (n: nat)
    requires i <= |s|
    ensures i <= n <= |s| && (n < |s| ==> !IsSpace(s[n]))
    decreases |s| - i
  {
    if i == |s| || !IsSpace(s[i]) then i else SkipSpace(s, i + 1)
  }

  predicate IsNameStart(c: char) { 'A' <= c <= 'Z' || 'a' <= c <= 'z' || c == '_' }

  predicate IsNameChar(c: char) { IsNameStart(c) || '0' <= c <= '9' }

  function NameTail(s: string, i: nat): (n: nat)
    requires i <= |s|
    ensures i <= n <= |s| && (n < |s| ==> !IsNameChar(s[n]))
    decreases |s| - i
  {
    if i == |s| || !IsNameChar(s[i]) then i else NameTail(s, i + 1)
  }

  /** The end of the longest name at i; i itself when there is none. */
  function NameEnd(s: string, i: nat): (n: nat)
    requires i <= |s|
    ensures i <= n <= |s|
  {
    if i == |s| || !IsNameStart(s[i]) then i else NameTail(s, i + 1)
  }

  /** The character that a backslash before c stands for; only a double-quoted value knows \n, \r and \t. */
  function Unescaped(c: char, double: bool): char {
    if double && c == 'n' then '\n' else if double && c == 'r' then '\r' else if double && c == 't' then '\t' else c
  }

  /** Undo backslash escapes. */
  function Decode(s: string, double: bool): string {
    if s == [] then []
    else if s[0] != '\\' || |s| == 1 then [s[0]] + Decode(s[1..], double)
    else
      [Unescaped(s[1], double)] + Decode(s[2..], double)
  }

  function TrimEnd(s: string): string {
    if s != [] && IsSpace(s[|s| - 1]) then TrimEnd(s[..|s| - 1]) else s
  }

  /** The position of the quote that closes the value whose content starts at i. */
  function ClosingQuote(s: string, i: nat, q: char, escaped: bool): (r: Option<nat>)
    requires i <= |s|
    ensures r.Some? ==> i <= r.value < |s| && s[r.value] == q
    decreases |s| - i
  {
    if i == |s| then None
    else if !escaped && s[i] != '\\' && s[i] == q then Some(i)
    else ClosingQuote(s, i + 1, q, !escaped && s[i] == '\\')
  }

  /** The end of an unquoted token: a comment after white space, or the end; None when it ends in an escape. */
  function TokenEnd(s: string, i: nat, afterSpace: bool, escaped: bool): (r: Option<nat>)
    requires i <= |s|
    ensures r.Some? ==> i <= r.value <= |s| && (r.value < |s| ==> s[r.value] == '#')
    decreases |s| - i
  {
    if i == |s| then (if escaped then None else Some(i))
    else if !escaped && s[i] == '#' && afterSpace then Some(i)
    else TokenEnd(s, i + 1, IsSpace(s[i]), !escaped && s[i] == '\\')
  }

  /** A parsed value with the range of its token. */
  datatype Value = Value(text: string, start: nat, end: nat)

  predicate IsQuote(c: char) { c == '\'' || c == '"' }

  /** The value in the part of a statement from `from` on; None when malformed. */
  function ParseValue(s: string, from: nat): (r: Option<Value>)
    requires from <= |s|
    ensures r.Some? ==> from <= r.value.start <= r.value.end <= |s| && r.value.start == SkipSpace(s, from)
    ensures r.Some? && r.value.end < |s| ==> s[r.value.end] == '#'
  {
    var start := SkipSpace(s, from);
    if start == |s| || s[start] == '#' then Some(Value("", start, start))
    else if IsQuote(s[start]) then ParseQuoted(s, start)
    else ParseBare(s, start)
  }

  function ParseQuoted(s: string, start: nat): (r: Option<Value>)
    requires start < |s|
    ensures r.Some? ==> r.value.start == start < r.value.end <= |s| && (r.value.end < |s| ==> s[r.value.end] == '#')
  {
    var close := ClosingQuote(s, start + 1, s[start], false);
    if close.None? then None
    else
      var after := SkipSpace(s, close.value + 1);
      if after < |s| && s[after] != '#' then None
      else Some(Value(Decode(s[start + 1..close.value], s[start] == '"'), start, after))
  }

  function ParseBare(s: string, start: nat): (r: Option<Value>)
    requires start < |s|
    ensures r.Some? ==> r.value.start == start <= r.value.end <= |s| && (r.value.end < |s| ==> s[r.value.end] == '#')
  {
    var end := TokenEnd(s, start, false, false);
    if end.None? then None else Some(Value(TrimEnd(Decode(s[start..end.value], false)), start, end.value))
  }

  // ----- assignments -----------------------------------------------------------

  datatype Assignment = Blank | Malformed | Assign(name: string, value: Value)

  /** `export` at a position counts only when white space follows it. */
  predicate HasExport(s: string, c: nat) {
    |s| > c + 6 && s[c] == 'e' && s[c + 1] == 'x' && s[c + 2] == 'p' && s[c + 3] == 'o' &&
    s[c + 4] == 'r' && s[c + 5] == 't' && IsSpace(s[c + 6])
  }

  /** Skip white space and a leading `export`. */
  function NameStart(s: string): (n: nat)
    ensures SkipSpace(s, 0) <= n <= |s|
  {
    var c := SkipSpace(s, 0);
    if HasExport(s, c) then SkipSpace(s, c + 6) else c
  }

  /** The position just after the equals sign; None when the statement has no name or no equals sign. */
  function AfterEquals(s: string): (r: Option<nat>)
    ensures r.Some? ==> NameStart(s) < NameEnd(s, NameStart(s)) < r.value <= |s| && s[r.value - 1] == '='
  {
    var at := NameStart(s);
    var end := NameEnd(s, at);
    var eq := SkipSpace(s, end);
    if end == at || eq == |s| || s[eq] != '=' then None else Some(eq + 1)
  }

  /** One statement, its token range counted from the start of the statement. */
  function ParseStatement(s: string): (r: Assignment)
    ensures r.Assign? ==> r.value.start <= r.value.end <= |s|
    ensures r.Assign? && r.value.end < |s| ==> s[r.value.end] == '#'
  {
    var c := SkipSpace(s, 0);
    if c == |s| || s[c] == '#' then Blank
    else
      var k := AfterEquals(s);
      if k.None? then Malformed
      else
        var v := ParseValue(s, k.value);
        if v.None? then Malformed else Assign(s[NameStart(s)..NameEnd(s, NameStart(s))], v.value)
  }

  // ----- whole files -----------------------------------------------------------

  /** A definition, its range, its value's token, and the comment between the token and the line break. */
  datatype Definition = Definition(name: string, value: string, ordinal: nat, start: nat, end: nat,
                                   valueStart: nat, valueEnd: nat, token: string, comment: string)

  function Count(seen: map<string, nat>, name: string): nat { if name in seen then seen[name] else 0 }

  function Seen(seen: map<string, nat>, name: string): map<string, nat> { seen[name := Count(seen, name) + 1] }

  /** The length of the statement at the front of s with its line break. */
  function Next(s: string): (n: nat)
    requires s != [] && Scan(s, Plain).Some?
    ensures 0 < n <= |s| && Scan(s, Plain).value <= n
  {
    var n := Scan(s, Plain).value;
    n + BreakLength(s[n..])
  }

  /** The definition a statement holds when the statement takes `size` characters from `offset` on. */
  function Defined(body: string, name: string, v: Value, ordinal: nat, offset: nat, size: nat): Definition
    requires v.start <= v.end <= |body|
  {
    Definition(name, v.text, ordinal, offset, offset + size, offset + v.start, offset + v.end, body[v.start..v.end],
               body[v.end..])
  }

  /** A statement with the line break that ends it; the last one may have none. */
  datatype Line = Line(body: string, term: string)

  /** The statements of a text; None when a quote is left open. */
  function Cut(s: string): Option<seq<Line>>
    decreases |s|
  {
    if s == [] then Some([])
    else if Scan(s, Plain).None? then None
    else
      var n, rest := Scan(s, Plain).value, Cut(s[Next(s)..]);
      if rest.None? then None else Some([Line(s[..n], s[n..Next(s)])] + rest.value)
  }

  /** The definitions of statements that start at `offset`, given how often each name was seen before. */
  function Definitions(lines: seq<Line>, offset: nat, seen: map<string, nat>): Option<seq<Definition>> {
    if lines == [] then Some([])
    else
      var body, size := lines[0].body, |lines[0].body| + |lines[0].term|;
      match ParseStatement(body)
      case Malformed => None
      case Blank => Definitions(lines[1..], offset + size, seen)
      case Assign(name, v) =>
        var rest := Definitions(lines[1..], offset + size, Seen(seen, name));
        if rest.None? then None else Some([Defined(body, name, v, Count(seen, name), offset, size)] + rest.value)
  }

  function ParseFrom(s: string, offset: nat, seen: map<string, nat>): Option<seq<Definition>> {
    if Cut(s).None? then None else Definitions(Cut(s).value, offset, seen)
  }
}
