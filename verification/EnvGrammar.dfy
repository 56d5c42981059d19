/**
 Environment files as they are written: the spellings of characters, values and statements, and that the parser accepts
 exactly these and reads each of them as what it means.
 */
module EnvGrammar {
  import opened Wrappers
  import opened EnvText
  import opened EnvEdits
  import opened EnvRoundTrip

  // ----- characters --------------------------------------------------------------

  lemma SpaceIs(c: char)
    ensures IsSpace(c) <==>
            c in {'\t', '\n', '\U{0B}', '\U{0C}', '\r', ' ', '\U{A0}', '\U{1680}', '\U{2000}', '\U{2001}', '\U{2002}', '\U{2003}',
                  '\U{2004}', '\U{2005}', '\U{2006}', '\U{2007}', '\U{2008}', '\U{2009}', '\U{200A}', '\U{2028}', '\U{2029}',
                  '\U{202F}', '\U{205F}', '\U{3000}', '\U{FEFF}'}
  {
  }

  lemma NameStartIs(c: char)
    ensures IsNameStart(c) <==>
            c in {'A', 'B', 'C', 'D', 'E', 'F', 'G', 'H', 'I', 'J', 'K', 'L', 'M', 'N', 'O', 'P', 'Q', 'R', 'S', 'T', 'U', 'V', 'W',
                  'X', 'Y', 'Z', 'a', 'b', 'c', 'd', 'e', 'f', 'g', 'h', 'i', 'j', 'k', 'l', 'm', 'n', 'o', 'p', 'q', 'r', 's', 't',
                  'u', 'v', 'w', 'x', 'y', 'z', '_'}
    ensures IsNameChar(c) <==> IsNameStart(c) || c in {'0', '1', '2', '3', '4', '5', '6', '7', '8', '9'}
  {
  }

  predicate AllSpace(s: string) { forall i :: 0 <= i < |s| ==> IsSpace(s[i]) }

  // ----- spellings of a text -----------------------------------------------------

  /** A character written as it is, or behind a backslash. */
  datatype Unit = Bare(c: char) | Slashed(c: char)

  function Spelt(u: Unit): string { match u case Bare(c) => [c] case Slashed(c) => ['\\', c] }

  function Written(units: seq<Unit>): string { if units == [] then [] else Spelt(units[0]) + Written(units[1..]) }

  /** The control characters that have a letter in double quotes. */
  function Letters(): map<char, char> { map['n' := '\n', 'r' := '\r', 't' := '\t'] }

  function Meaning(u: Unit, double: bool): char {
    if u.Slashed? && double && u.c in Letters() then Letters()[u.c] else u.c
  }

  function Meanings(units: seq<Unit>, double: bool): string {
    seq(|units|, i requires 0 <= i < |units| => Meaning(units[i], double))
  }

  /** A backslash stands only in front of another character. */
  predicate Spells(units: seq<Unit>) { forall i :: 0 <= i < |units| ==> units[i] != Bare('\\') }

  lemma {:induction false} MeaningsMore(units: seq<Unit>, double: bool)
    requires units != []
    ensures Meanings(units, double) == [Meaning(units[0], double)] + Meanings(units[1..], double)
  {
  }

  lemma {:induction false} DecodeUnit(u: Unit, rest: string, double: bool)
    requires u != Bare('\\')
    ensures Decode(Spelt(u) + rest, double) == [Meaning(u, double)] + Decode(rest, double)
  {
    var e := Spelt(u);
    assert (e + rest)[|e|..] == rest;
    assert (e + rest)[0] == e[0];
    if u.Slashed? { assert (e + rest)[1] == u.c; }
  }

  /** Every spelling decodes to what its characters mean; a lone backslash at the end stays. */
  lemma {:induction false} DecodeWritten(units: seq<Unit>, last: string, double: bool)
    requires Spells(units) && last in {"", "\\"}
    ensures Decode(Written(units) + last, double) == Meanings(units, double) + last
  {
    if units == [] {
      assert Written(units) + last == last && Meanings(units, double) + last == last;
      assert last == "" || last[1..] == "";
    } else {
      assert Written(units) + last == Spelt(units[0]) + (Written(units[1..]) + last);
      DecodeUnit(units[0], Written(units[1..]) + last, double);
      DecodeWritten(units[1..], last, double);
      MeaningsMore(units, double);
    }
  }

  lemma {:induction false} WrittenDecodes(units: seq<Unit>, double: bool)
    requires Spells(units)
    ensures Decode(Written(units), double) == Meanings(units, double)
  {
    DecodeWritten(units, "", double);
    assert Written(units) + "" == Written(units) && Meanings(units, double) + "" == Meanings(units, double);
  }

  /** Every text is spelt in one way, up to a lone backslash at its end. */
  lemma {:induction false} EveryText(s: string) returns (units: seq<Unit>, last: string)
    ensures Spells(units) && last in {"", "\\"} && s == Written(units) + last
  {
    if s == [] || s == "\\" {
      units, last := [], s;
    } else {
      var u := if s[0] == '\\' then Slashed(s[1]) else Bare(s[0]);
      var more, end := EveryText(s[|Spelt(u)|..]);
      units, last := [u] + more, end;
      assert units[1..] == more;
      assert s == Spelt(u) + s[|Spelt(u)|..];
    }
  }

  /** The usual way to write a text in double quotes. */
  function Usual(v: string): seq<Unit> {
    if v == [] then []
    else
      var u := match v[0]
        case '\n' => Slashed('n') case '\r' => Slashed('r') case '\t' => Slashed('t')
        case '\\' => Slashed('\\') case '"' => Slashed('"') case c => Bare(c);
      [u] + Usual(v[1..])
  }

  lemma {:induction false} UsualMeans(v: string)
    ensures Spells(Usual(v)) && Meanings(Usual(v), true) == v && Bare('"') !in Usual(v)
    ensures forall c :: c in Written(Usual(v)) ==> c !in {'\n', '\r', '\t'}
  {
    if v != [] {
      UsualMeans(v[1..]);
      MeaningsMore(Usual(v), true);
      assert Usual(v)[1..] == Usual(v[1..]);
    }
  }

  /** Line feeds, carriage returns, tabs, backslashes and quotes written behind backslashes read as what they stand for. */
  lemma {:induction false} UsualDecodes(v: string)
    ensures Decode(Written(Usual(v)), true) == v
  {
    UsualMeans(v);
    WrittenDecodes(Usual(v), true);
  }

  /** In single quotes and in bare text a backslash before any character gives that character. */
  lemma {:induction false} SlashedDecodes(v: string)
    ensures var units := seq(|v|, i requires 0 <= i < |v| => Slashed(v[i])); Decode(Written(units), false) == v
  {
    var units := seq(|v|, i requires 0 <= i < |v| => Slashed(v[i]));
    WrittenDecodes(units, false);
    assert Meanings(units, false) == v;
  }

  // ----- values ------------------------------------------------------------------

  /** Trimming takes off exactly the white space at the end. */
  lemma {:induction false} TrimEndIs(s: string)
    ensures var t := TrimEnd(s);
            |t| <= |s| && s[..|t|] == t && AllSpace(s[|t|..]) && (t != [] ==> !IsSpace(t[|t| - 1]))
  {
    if s != [] && IsSpace(s[|s| - 1]) {
      var less, t := s[..|s| - 1], TrimEnd(s);
      TrimEndIs(less);
      assert forall i :: |t| <= i < |s| - 1 ==> s[i] == less[|t|..][i - |t|];
    }
  }

  /** What can stand where a value is expected: nothing, a quoted text with the white space behind it, or bare text. */
  datatype Token = Nothing | InQuotes(q: char, units: seq<Unit>, blank: string) | Unquoted(units: seq<Unit>)

  function TokenText(t: Token): string {
    match t
    case Nothing => ""
    case InQuotes(q, units, blank) => [q] + Written(units) + [q] + blank
    case Unquoted(units) => Written(units)
  }

  function TokenMeans(t: Token): string {
    match t
    case Nothing => ""
    case InQuotes(q, units, _) => Meanings(units, q == '"')
    case Unquoted(units) => TrimEnd(Meanings(units, false))
  }

  /** Bare text has no comment sign behind white space; `after` says whether it follows white space itself. */
  predicate Unbroken(units: seq<Unit>, after: bool) {
    units == [] ||
    (units[0] != Bare('\\') && !(units[0] == Bare('#') && after) && Unbroken(units[1..], IsSpace(units[0].c)))
  }

  predicate EndsBlank(units: seq<Unit>, after: bool) {
    if units == [] then after else EndsBlank(units[1..], IsSpace(units[0].c))
  }

  /** A token that ends where its tail begins. */
  predicate Fits(t: Token, tail: string) {
    IsTail(tail) &&
    match t
    case Nothing => true
    case InQuotes(q, units, blank) => IsQuote(q) && Spells(units) && Bare(q) !in units && AllSpace(blank)
    case Unquoted(units) =>
      units != [] && Unbroken(units, false) && (tail != [] ==> EndsBlank(units, false)) &&
      (units[0].Bare? ==> !IsSpace(units[0].c) && !IsQuote(units[0].c) && units[0].c != '#')
  }

  /** A token and the rest of the statement at a position of it. */
  predicate Stands(s: string, start: nat, t: Token) {
    At(s, start, TokenText(t)) && Fits(t, s[start + |TokenText(t)|..])
  }

  lemma {:induction false} UnitCloses(s: string, i: nat, u: Unit, q: char)
    requires IsQuote(q) && At(s, i, Spelt(u)) && u != Bare('\\') && u != Bare(q)
    ensures ClosingQuote(s, i, q, false) == ClosingQuote(s, i + |Spelt(u)|, q, false)
  {
    assert s[i + 0] == Spelt(u)[0];
    if u.Slashed? { assert s[i + 1] == Spelt(u)[1]; }
  }

  /** The first quote that stands for itself closes the value. */
  lemma {:induction false} WrittenCloses(s: string, i: nat, units: seq<Unit>, q: char)
    requires IsQuote(q) && Spells(units) && Bare(q) !in units && At(s, i, Written(units) + [q])
    ensures ClosingQuote(s, i, q, false) == Some(i + |Written(units)|)
    decreases |units|
  {
    if units == [] {
      assert s[i + 0] == (Written(units) + [q])[0];
    } else {
      var e := Spelt(units[0]);
      assert Written(units) + [q] == e + (Written(units[1..]) + [q]);
      AtParts(s, i, e, Written(units[1..]) + [q]);
      UnitCloses(s, i, units[0], q);
      WrittenCloses(s, i + |e|, units[1..], q);
    }
  }

  /** The parts of a quoted token at a position. */
  lemma {:induction false} QuotedPieces(s: string, start: nat, q: char, w: string, blank: string)
    requires At(s, start, [q] + w + [q] + blank)
    ensures At(s, start + 1, w + [q]) && At(s, start + 2 + |w|, blank) && s[start] == q
    ensures s[start + 1..start + 1 + |w|] == w
  {
    assert [q] + w + [q] + blank == [q] + ((w + [q]) + blank);
    AtParts(s, start, [q], (w + [q]) + blank);
    AtParts(s, start + 1, w + [q], blank);
    AtParts(s, start + 1, w, [q]);
    assert s[start + 0] == [q][0];
  }

  lemma {:induction false} BlankEnds(s: string, i: nat, blank: string)
    requires At(s, i, blank) && AllSpace(blank) && IsTail(s[i + |blank|..])
    ensures SkipSpace(s, i) == i + |blank|
  {
    var end := i + |blank|;
    assert forall j :: i <= j < end ==> s[j] == blank[j - i];
    assert end < |s| ==> s[end..][0] == s[end];
    SkipSpaceIs(s, i, end);
  }

  /** Where a quoted token closes and ends, and the text in its quotes. */
  lemma {:induction false} QuotedEnds(s: string, start: nat, t: Token)
    requires t.InQuotes? && Stands(s, start, t)
    ensures var w := Written(t.units); var end := start + |TokenText(t)|;
            end == start + 2 + |w| + |t.blank| && s[start] == t.q && s[start + 1..start + 1 + |w|] == w &&
            ClosingQuote(s, start + 1, t.q, false) == Some(start + 1 + |w|) && SkipSpace(s, start + 2 + |w|) == end &&
            (end < |s| ==> s[end] == '#')
  {
    var w := Written(t.units);
    QuotedPieces(s, start, t.q, w, t.blank);
    WrittenCloses(s, start + 1, t.units, t.q);
    BlankEnds(s, start + 2 + |w|, t.blank);
    var end := start + |TokenText(t)|;
    assert end < |s| ==> s[end..][0] == s[end];
  }

  lemma {:induction false} QuotedMeans(s: string, start: nat, t: Token)
    requires t.InQuotes? && Stands(s, start, t)
    ensures ParseQuoted(s, start) == Some(Value(TokenMeans(t), start, start + |TokenText(t)|))
  {
    QuotedEnds(s, start, t);
    WrittenDecodes(t.units, t.q == '"');
  }

  lemma {:induction false} UnitContinues(s: string, i: nat, u: Unit, after: bool)
    requires At(s, i, Spelt(u)) && u != Bare('\\') && !(u == Bare('#') && after)
    ensures TokenEnd(s, i, after, false) == TokenEnd(s, i + |Spelt(u)|, IsSpace(u.c), false)
  {
    assert s[i + 0] == Spelt(u)[0];
    if u.Slashed? { assert s[i + 1] == Spelt(u)[1]; }
  }

  lemma {:induction false} WrittenContinues(s: string, i: nat, units: seq<Unit>, after: bool)
    requires Unbroken(units, after) && At(s, i, Written(units))
    ensures TokenEnd(s, i, after, false) == TokenEnd(s, i + |Written(units)|, EndsBlank(units, after), false)
    decreases |units|
  {
    if units != [] {
      AtParts(s, i, Spelt(units[0]), Written(units[1..]));
      UnitContinues(s, i, units[0], after);
      WrittenContinues(s, i + |Spelt(units[0])|, units[1..], IsSpace(units[0].c));
    }
  }

  lemma {:induction false} UnbrokenSpells(units: seq<Unit>, after: bool)
    requires Unbroken(units, after)
    ensures Spells(units)
  {
    if units != [] {
      UnbrokenSpells(units[1..], IsSpace(units[0].c));
      assert forall i :: 1 <= i < |units| ==> units[i] == units[1..][i - 1];
    }
  }

  lemma {:induction false} UnitsEnd(s: string, start: nat, units: seq<Unit>)
    requires units != [] && At(s, start, Written(units)) && Unbroken(units, false)
    requires var tail := s[start + |Written(units)|..]; IsTail(tail) && (tail != [] ==> EndsBlank(units, false))
    ensures TokenEnd(s, start, false, false) == Some(start + |Written(units)|)
    ensures s[start..start + |Written(units)|] == Written(units)
  {
    var end := start + |Written(units)|;
    WrittenContinues(s, start, units, false);
    assert end < |s| ==> s[end..][0] == s[end];
  }

  lemma {:induction false} BareMeans(s: string, start: nat, t: Token)
    requires t.Unquoted? && Stands(s, start, t)
    ensures start < |s| && ParseBare(s, start) == Some(Value(TokenMeans(t), start, start + |TokenText(t)|))
  {
    assert Written(t.units) == Spelt(t.units[0]) + Written(t.units[1..]);
    UnitsEnd(s, start, t.units);
    UnbrokenSpells(t.units, false);
    WrittenDecodes(t.units, false);
  }

  /** Every token that stands behind white space is read as what it means. */
  lemma {:induction false} TokenReads(s: string, from: nat, start: nat, t: Token)
    requires SpacesBetween(s, from, start) && Stands(s, start, t)
    ensures ParseValue(s, from) == Some(Value(TokenMeans(t), start, start + |TokenText(t)|))
  {
    match t
    case Nothing => EmptyCase(s, from, start);
    case InQuotes(q, units, blank) =>
      assert s[start + 0] == TokenText(t)[0];
      SkipSpaceIs(s, from, start);
      QuotedMeans(s, start, t);
    case Unquoted(units) =>
      assert s[start + 0] == TokenText(t)[0];
      assert Written(units) == Spelt(units[0]) + Written(units[1..]);
      SkipSpaceIs(s, from, start);
      BareMeans(s, start, t);
  }

  // ----- every value that is read -------------------------------------------------

  /** The spelling of the text up to the closing quote. */
  lemma {:induction false} ClosedSpelling(s: string, i: nat, q: char) returns (units: seq<Unit>)
    requires IsQuote(q) && i <= |s| && ClosingQuote(s, i, q, false).Some?
    ensures Spells(units) && Bare(q) !in units && Written(units) == s[i..ClosingQuote(s, i, q, false).value]
    decreases |s| - i
  {
    var close := ClosingQuote(s, i, q, false).value;
    if close == i {
      units := [];
    } else {
      var u := if s[i] == '\\' then Slashed(s[i + 1]) else Bare(s[i]);
      var more := ClosedSpelling(s, i + |Spelt(u)|, q);
      units := [u] + more;
      assert units[1..] == more;
      assert s[i..close] == Spelt(u) + s[i + |Spelt(u)|..close];
    }
  }

  lemma {:induction false} BareSpelling(s: string, i: nat, after: bool) returns (units: seq<Unit>)
    requires i <= |s| && TokenEnd(s, i, after, false).Some?
    ensures var end := TokenEnd(s, i, after, false).value;
            Unbroken(units, after) && Written(units) == s[i..end] && (end < |s| ==> EndsBlank(units, after))
    decreases |s| - i
  {
    var end := TokenEnd(s, i, after, false).value;
    if i == |s| || (s[i] == '#' && after) {
      units := [];
    } else {
      var u := if s[i] == '\\' then Slashed(s[i + 1]) else Bare(s[i]);
      var more := BareSpelling(s, i + |Spelt(u)|, IsSpace(u.c));
      units := [u] + more;
      assert units[1..] == more;
      assert s[i..end] == Spelt(u) + s[i + |Spelt(u)|..end];
    }
  }

  lemma {:induction false} SliceStands(s: string, start: nat, end: nat, t: Token)
    requires start <= end <= |s| && TokenText(t) == s[start..end] && Fits(t, s[end..])
    ensures Stands(s, start, t)
  {
    assert start + |TokenText(t)| == end;
  }

  lemma {:induction false} QuotedSlice(s: string, start: nat, close: nat, end: nat, w: string, blank: string)
    requires start < close < end <= |s| && w == s[start + 1..close] && blank == s[close + 1..end]
    ensures [s[start]] + w + [s[close]] + blank == s[start..end]
  {
  }

  /** The white space behind a closing quote, and what ends it. */
  lemma {:induction false} QuoteEnd(s: string, start: nat, close: nat, end: nat)
    requires start < |s| && ParseQuoted(s, start).Some? && ParseQuoted(s, start).value.end == end
    requires Some(close) == ClosingQuote(s, start + 1, s[start], false)
    ensures start < close < end <= |s| && s[close] == s[start] && AllSpace(s[close + 1..end]) && IsTail(s[end..])
  {
    SpacesOnly(s, close + 1);
  }

  lemma {:induction false} QuotedSpelling(s: string, start: nat) returns (t: Token)
    requires start < |s| && IsQuote(s[start]) && ParseQuoted(s, start).Some?
    ensures t.InQuotes? && Stands(s, start, t) && start + |TokenText(t)| == ParseQuoted(s, start).value.end
  {
    var close, end := ClosingQuote(s, start + 1, s[start], false).value, ParseQuoted(s, start).value.end;
    var units := ClosedSpelling(s, start + 1, s[start]);
    QuoteEnd(s, start, close, end);
    t := InQuotes(s[start], units, s[close + 1..end]);
    QuotedSlice(s, start, close, end, Written(units), s[close + 1..end]);
    SliceStands(s, start, end, t);
  }

  /** Every value that is read is spelt by a token, which gives its text and its range. */
  lemma {:induction false} ValueSpelt(s: string, from: nat) returns (t: Token)
    requires from <= |s| && ParseValue(s, from).Some?
    ensures var v := ParseValue(s, from).value;
            SpacesBetween(s, from, v.start) && Stands(s, v.start, t) &&
            v == Value(TokenMeans(t), v.start, v.start + |TokenText(t)|)
  {
    var start := SkipSpace(s, from);
    SpacesOnly(s, from);
    if start == |s| || s[start] == '#' {
      t := Nothing;
    } else if IsQuote(s[start]) {
      t := QuotedSpelling(s, start);
    } else {
      var end := TokenEnd(s, start, false, false).value;
      var units := BareSpelling(s, start, false);
      t := Unquoted(units);
      FirstUnit(s, start, end, units);
    }
    TokenReads(s, from, start, t);
  }

  lemma {:induction false} FirstUnit(s: string, start: nat, end: nat, units: seq<Unit>)
    requires start < end <= |s| && Written(units) == s[start..end]
    ensures units != [] && (units[0].Bare? ==> units[0].c == s[start])
  {
    if units != [] { assert Written(units)[0] == s[start..end][0]; }
  }

  // ----- statements --------------------------------------------------------------

  /** What stands before a value: white space, `export` with the white space behind it if it is there, the name, white space. */
  datatype Head = Head(lead: string, exported: string, name: string, gap: string)

  predicate IsName(name: string) {
    name != [] && IsNameStart(name[0]) && forall i :: 0 <= i < |name| ==> IsNameChar(name[i])
  }

  predicate IsExport(s: string) { |s| > 6 && s[..6] == "export" && AllSpace(s[6..]) }

  /** A variable may be called `export` where no white space comes before the equals sign, or where it is exported itself. */
  predicate IsHead(h: Head) {
    AllSpace(h.lead) && AllSpace(h.gap) && IsName(h.name) &&
    (IsExport(h.exported) || (h.exported == "" && (h.name == "export" ==> h.gap == "")))
  }

  function HeadText(h: Head): string { h.lead + h.exported + h.name + h.gap + "=" }

  /** White space up to a, an exported word up to b if there is one, the name up to c, white space up to the equals sign at d. */
  predicate HeadAt(s: string, a: nat, b: nat, c: nat, d: nat) {
    a <= b < c <= d < |s| && s[d] == '=' && IsName(s[b..c]) &&
    (forall i :: 0 <= i < a ==> IsSpace(s[i])) && (forall i :: c <= i < d ==> IsSpace(s[i])) &&
    (if a == b then s[b..c] == "export" ==> c == d else IsExport(s[a..b]))
  }

  /** A name that is the word `export` up to white space. */
  lemma {:induction false} WordExport(s: string, a: nat, c: nat)
    requires HasExport(s, a) && a < c < |s| && !IsNameChar(s[c]) && forall i :: a <= i < c ==> IsNameChar(s[i])
    ensures s[a..c] == "export" && IsSpace(s[c])
  {
    assert forall i :: a <= i < a + 6 ==> IsNameChar(s[i]);
    assert c == a + 6;
  }

  lemma {:induction false} ExportWord(s: string, a: nat, c: nat)
    requires a <= c < |s| && s[a..c] == "export" && IsSpace(s[c])
    ensures HasExport(s, a)
  {
    var e := s[a..c];
    assert e[0] == 'e' && e[1] == 'x' && e[2] == 'p' && e[3] == 'o' && e[4] == 'r' && e[5] == 't';
  }

  lemma {:induction false} ExportAt(s: string, a: nat, b: nat, c: nat, d: nat)
    requires HeadAt(s, a, b, c, d)
    ensures HasExport(s, a) <==> a < b
    ensures forall i :: b <= i < c ==> IsNameChar(s[i])
  {
    assert forall i :: b <= i < c ==> s[i] == s[b..c][i - b];
    if a < b {
      var e := s[a..b];
      assert e[..6] == "export";
      assert forall i :: 0 <= i < 6 ==> s[a + i] == e[i] && e[i] == e[..6][i];
      assert e[6..][0] == s[a + 6];
    } else if HasExport(s, a) {
      WordExport(s, a, c);
      assert false;
    }
  }

  lemma {:induction false} HeadReads(s: string, a: nat, b: nat, c: nat, d: nat)
    requires HeadAt(s, a, b, c, d)
    ensures SkipSpace(s, 0) == a && s[a] != '#' && NameStart(s) == b && NameEnd(s, b) == c && AfterEquals(s) == Some(d + 1)
  {
    ExportAt(s, a, b, c, d);
    assert s[b] == s[b..c][0];
    if a < b {
      assert s[a] == 'e';
      assert forall i :: a + 6 <= i < b ==> s[i] == s[a..b][6..][i - a - 6];
      SkipSpaceIs(s, a + 6, b);
    }
    SkipSpaceIs(s, 0, a);
    NameTailIs(s, b + 1, c);
    SkipSpaceIs(s, c, d);
  }

  /** The parts of a head at the places of a text. */
  predicate HeadParts(s: string, h: Head, a: nat, b: nat, c: nat, d: nat) {
    a <= b <= c <= d < |s| && h == Head(s[..a], s[a..b], s[b..c], s[c..d]) && s[d] == '='
  }

  lemma {:induction false} HeadPlaces(s: string, h: Head, a: nat, b: nat, c: nat, d: nat)
    requires HeadParts(s, h, a, b, c, d)
    ensures IsHead(h) <==> HeadAt(s, a, b, c, d)
  {
    assert forall i :: 0 <= i < a ==> s[i] == h.lead[i];
    assert forall i :: c <= i < d ==> s[i] == h.gap[i - c];
  }

  lemma {:induction false} HeadJoins(s: string, h: Head, a: nat, b: nat, c: nat, d: nat)
    requires HeadParts(s, h, a, b, c, d)
    ensures HeadText(h) == s[..d + 1]
  {
  }

  /** Two texts that stand one behind the other, as slices. */
  lemma {:induction false} Slices(s: string, i: nat, x: string, y: string)
    requires At(s, i, x + y)
    ensures At(s, i, x) && i + |x| + |y| <= |s| && s[i + |x|..i + |x| + |y|] == y
  {
    AtParts(s, i, x, y);
  }

  lemma {:induction false} Pieces(s: string, p: string, q: string, r: string, t: string, u: string, a: nat, b: nat, c: nat, d: nat)
    requires At(s, 0, p + q + r + t + u) && a == |p| && b == a + |q| && c == b + |r| && d == c + |t|
    ensures d + |u| <= |s| && s[..a] == p && s[a..b] == q && s[b..c] == r && s[c..d] == t && s[d..d + |u|] == u
  {
    var two := p + q;
    var three := two + r;
    var four := three + t;
    Slices(s, 0, four, u);
    Slices(s, 0, three, t);
    Slices(s, 0, two, r);
    Slices(s, 0, p, q);
    assert forall j :: 0 <= j < a ==> s[0 + j] == p[j];
  }

  lemma {:induction false} HeadSplits(s: string, h: Head)
    requires At(s, 0, HeadText(h))
    ensures var a := |h.lead|; var b := a + |h.exported|; var c := b + |h.name|; var d := c + |h.gap|;
            HeadParts(s, h, a, b, c, d) && d + 1 == |HeadText(h)|
  {
    var a := |h.lead|;
    var b := a + |h.exported|;
    var c := b + |h.name|;
    var d := c + |h.gap|;
    Pieces(s, h.lead, h.exported, h.name, h.gap, "=", a, b, c, d);
    assert s[d] == s[d..d + 1][0];
  }

  lemma {:induction false} HeadStands(s: string, h: Head)
    requires IsHead(h) && At(s, 0, HeadText(h))
    ensures SkipSpace(s, 0) < |s| && s[SkipSpace(s, 0)] != '#' && AfterEquals(s) == Some(|HeadText(h)|)
    ensures NameStart(s) <= NameEnd(s, NameStart(s)) && s[NameStart(s)..NameEnd(s, NameStart(s))] == h.name
  {
    var a := |h.lead|;
    var b := a + |h.exported|;
    var c := b + |h.name|;
    var d := c + |h.gap|;
    HeadSplits(s, h);
    HeadPlaces(s, h, a, b, c, d);
    HeadReads(s, a, b, c, d);
  }

  /** The statement whose head, white space and token stand one behind the other. */
  lemma {:induction false} StatementReads(s: string, h: Head, start: nat, t: Token)
    requires IsHead(h) && At(s, 0, HeadText(h)) && SpacesBetween(s, |HeadText(h)|, start) && Stands(s, start, t)
    ensures ParseStatement(s) == Assign(h.name, Value(TokenMeans(t), start, start + |TokenText(t)|))
  {
    HeadStands(s, h);
    TokenReads(s, |HeadText(h)|, start, t);
  }

  lemma {:induction false} FourPlaces(x: string, space: string, y: string, tail: string)
    ensures var s := x + space + y + tail; var start := |x + space|;
            At(s, 0, x) && At(s, start, y) && s[start + |y|..] == tail && s[|x|..start] == space
  {
  }

  /** An assignment is read as its name and what its value means, wherever white space, comments and quotes put them. */
  lemma {:induction false} AssignmentReads(h: Head, space: string, t: Token, tail: string)
    requires IsHead(h) && AllSpace(space) && Fits(t, tail)
    ensures var start := |HeadText(h) + space|;
            ParseStatement(HeadText(h) + space + TokenText(t) + tail) ==
            Assign(h.name, Value(TokenMeans(t), start, start + |TokenText(t)|))
  {
    var k, start := |HeadText(h)|, |HeadText(h) + space|;
    var s := HeadText(h) + space + TokenText(t) + tail;
    FourPlaces(HeadText(h), space, TokenText(t), tail);
    assert forall j :: k <= j < start ==> s[j] == s[k..start][j - k];
    StatementReads(s, h, start, t);
  }

  lemma {:induction false} ExportPart(s: string, a: nat)
    requires HasExport(s, a)
    ensures IsExport(s[a..SkipSpace(s, a + 6)])
  {
    var b := SkipSpace(s, a + 6);
    SpacesOnly(s, a + 6);
    assert s[a..b][..6] == "export";
    assert s[a..b][6..] == s[a + 6..b];
  }

  lemma {:induction false} HeadFound(s: string)
    requires AfterEquals(s).Some?
    ensures HeadAt(s, SkipSpace(s, 0), NameStart(s), NameEnd(s, NameStart(s)), AfterEquals(s).value - 1)
  {
    var a, b := SkipSpace(s, 0), NameStart(s);
    var c := NameEnd(s, b);
    SpacesOnly(s, 0);
    NameCharsOnly(s, b + 1);
    SpacesOnly(s, c);
    if a < b {
      ExportPart(s, a);
    } else if s[b..c] == "export" && c < AfterEquals(s).value - 1 {
      ExportWord(s, a, c);
      assert false;
    }
  }

  lemma {:induction false} HeadSpelt(s: string) returns (h: Head)
    requires AfterEquals(s).Some?
    ensures IsHead(h) && HeadText(h) == s[..AfterEquals(s).value] && h.name == s[NameStart(s)..NameEnd(s, NameStart(s))]
  {
    var a, b, d := SkipSpace(s, 0), NameStart(s), AfterEquals(s).value - 1;
    var c := NameEnd(s, b);
    HeadFound(s);
    h := Head(s[..a], s[a..b], s[b..c], s[c..d]);
    HeadPlaces(s, h, a, b, c, d);
    HeadJoins(s, h, a, b, c, d);
  }

  lemma {:induction false} JoinsBack(s: string, k: nat, start: nat, e: string)
    requires k <= start <= |s| && At(s, start, e)
    ensures s[..k] + s[k..start] + e + s[start + |e|..] == s
  {
    assert s[start..start + |e|] == e;
  }

  lemma {:induction false} SpacesAre(s: string, k: nat, start: nat)
    requires SpacesBetween(s, k, start)
    ensures AllSpace(s[k..start])
  {
  }

  /** Every statement that is read as an assignment is spelt as one, and is read as what its spelling means. */
  lemma {:induction false} AssignmentSpelt(s: string) returns (h: Head, space: string, t: Token, tail: string)
    requires ParseStatement(s).Assign?
    ensures IsHead(h) && AllSpace(space) && Fits(t, tail) && s == HeadText(h) + space + TokenText(t) + tail
    ensures ParseStatement(s).name == h.name && ParseStatement(s).value.text == TokenMeans(t)
  {
    var k, v := AfterEquals(s).value, ParseStatement(s).value;
    h := HeadSpelt(s);
    t := ValueSpelt(s, k);
    space, tail := s[k..v.start], s[v.start + |TokenText(t)|..];
    SpacesAre(s, k, v.start);
    JoinsBack(s, k, v.start, TokenText(t));
  }

  /** A statement holds nothing exactly when its first character that is no white space, if it has one, starts a comment. */
  lemma {:induction false} BlankExactly(s: string)
    ensures ParseStatement(s).Blank? <==>
            exists n :: 0 <= n <= |s| && AllSpace(s[..n]) && IsTail(s[n..])
  {
    SpacesOnly(s, 0);
    var c := SkipSpace(s, 0);
    if ParseStatement(s).Blank? { assert AllSpace(s[..c]) && IsTail(s[c..]); }
    if n :| 0 <= n <= |s| && AllSpace(s[..n]) && IsTail(s[n..]) {
      assert forall j :: 0 <= j < n ==> s[j] == s[..n][j];
      assert n < |s| ==> s[n] == s[n..][0];
      SkipSpaceIs(s, 0, n);
    }
  }
}
