/** Values as the editor writes them back, and what writing one does to a statement. */
module EnvEdits {
  import opened Wrappers
  import opened EnvText

  lemma {:induction false} DropConcat(x: string, y: string, at: nat)
    requires at <= |x|
    ensures (x + y)[at..] == x[at..] + y
  {
  }

  predicate IsPlainChar(c: char) {
    !IsSpace(c) && c != '#' && c != '\\' && c != '\'' && c != '"' && c != '='
  }

  /** A value the editor writes without quotes. */
  predicate IsPlain(v: string) {
    v != [] && forall i :: 0 <= i < |v| ==> IsPlainChar(v[i])
  }

  function Escape(v: string, q: char): string {
    if v == [] then [] else (if v[0] == '\\' || v[0] == q then ['\\', v[0]] else [v[0]]) + Escape(v[1..], q)
  }

  predicate IsQuoted(token: string) { token != [] && (token[0] == '\'' || token[0] == '"') }

  /** How a value replaces a token: in the token's own quotes, bare, or in new double quotes. */
  function Encoded(token: string, v: string): string {
    if IsQuoted(token) then [token[0]] + Escape(v, token[0]) + [token[0]]
    else if v == [] then []
    else if IsPlain(v) then v
    else ['"'] + Escape(v, '"') + ['"']
  }

  /** A statement with its value token replaced. */
  function Replaced(body: string, start: nat, end: nat, bytes: string): string
    requires start <= end <= |body|
  {
    body[..start] + bytes + body[end..]
  }

  // ----- the scanner's mode ----------------------------------------------------

  /** The mode after s, or None when a statement ends inside s. */
  function ModeAfter(s: string, mode: Mode): Option<Mode> {
    if s == [] then Some(mode)
    else if Ends(mode, s[0]) then None
    else ModeAfter(s[1..], ScanStep(mode, s[0]))
  }

  lemma {:induction false} ModeConcat(x: string, y: string, mode: Mode)
    ensures ModeAfter(x + y, mode) == if ModeAfter(x, mode).None? then None else ModeAfter(y, ModeAfter(x, mode).value)
  {
    if x == [] {
      assert x + y == y;
    } else {
      DropConcat(x, y, 1);
      if !Ends(mode, x[0]) { ModeConcat(x[1..], y, ScanStep(mode, x[0])); }
    }
  }

  /** Scanning past text in which no statement ends. */
  lemma {:induction false} ScanConcat(x: string, y: string, mode: Mode)
    requires ModeAfter(x, mode).Some?
    ensures Scan(x + y, mode) == var r := Scan(y, ModeAfter(x, mode).value); if r.None? then None else Some(|x| + r.value)
  {
    if x == [] {
      assert x + y == y;
    } else {
      DropConcat(x, y, 1);
      ScanConcat(x[1..], y, ScanStep(mode, x[0]));
    }
  }

  /** A scanned statement is text in which no statement ends, and its mode allows the end it has. */
  lemma {:induction false} ScanMode(s: string, mode: Mode)
    requires Scan(s, mode).Some?
    ensures var n := Scan(s, mode).value; var m := ModeAfter(s[..n], mode);
            m.Some? && (if n == |s| then !IsOpen(m.value) else Ends(m.value, s[n]))
  {
    var n := Scan(s, mode).value;
    if s != [] && !Ends(mode, s[0]) {
      ScanMode(s[1..], ScanStep(mode, s[0]));
      assert s[..n][1..] == s[1..][..n - 1];
    }
  }

  predicate IsOrdinary(c: char) { c != '\\' && c != '\'' && c != '"' && c != '#' }

  /** Ordinary characters keep the scanner in plain text, unless one of them breaks the line. */
  lemma {:induction false} OrdinaryMode(s: string)
    requires forall i :: 0 <= i < |s| ==> IsOrdinary(s[i])
    ensures ModeAfter(s, Plain) == if (forall i :: 0 <= i < |s| ==> !IsBreak(s[i])) then Some(Plain) else None
  {
    if s != [] {
      OrdinaryMode(s[1..]);
      assert forall i :: 1 <= i < |s| ==> s[i] == s[1..][i - 1];
    }
  }

  lemma {:induction false} CommentMode(s: string)
    ensures ModeAfter(s, Comment) == if (forall i :: 0 <= i < |s| ==> !IsBreak(s[i])) then Some(Comment) else None
  {
    if s != [] {
      CommentMode(s[1..]);
      assert forall i :: 1 <= i < |s| ==> s[i] == s[1..][i - 1];
    }
  }

  // ----- quoting and unquoting -------------------------------------------------

  /** Text e stands at position i of s. */
  predicate At(s: string, i: nat, e: string) {
    i + |e| <= |s| && forall j :: 0 <= j < |e| ==> s[i + j] == e[j]
  }

  lemma {:induction false} AtParts(s: string, i: nat, x: string, y: string)
    ensures At(s, i, x + y) <==> At(s, i, x) && At(s, i + |x|, y)
  {
    if At(s, i, x + y) {
      assert forall j :: 0 <= j < |x| ==> (x + y)[j] == x[j];
      assert forall j :: 0 <= j < |y| ==> (x + y)[|x| + j] == y[j] && s[i + |x| + j] == s[i + (|x| + j)];
    } else if At(s, i, x) && At(s, i + |x|, y) {
      forall j | 0 <= j < |x + y|
        ensures s[i + j] == (x + y)[j]
      {
        if |x| <= j { assert s[i + |x| + (j - |x|)] == y[j - |x|]; }
      }
    }
  }

  /** Escaped text stays inside its quotes, and decoding gives the value back. */
  lemma {:induction false} EscapeMode(v: string, q: char)
    requires IsQuote(q)
    ensures ModeAfter(Escape(v, q), Quoted(q)) == Some(Quoted(q))
  {
    if v != [] {
      var c := if v[0] == '\\' || v[0] == q then ['\\', v[0]] else [v[0]];
      ModeConcat(c, Escape(v[1..], q), Quoted(q));
      assert c[1..] == [] || (c[1..] == [v[0]] && c[1..][1..] == []);
      EscapeMode(v[1..], q);
    }
  }

  lemma {:induction false} EscapeDecodes(v: string, q: char)
    requires IsQuote(q)
    ensures Decode(Escape(v, q), q == '"') == v
  {
    if v != [] {
      var e, rest := Escape(v, q), Escape(v[1..], q);
      EscapeDecodes(v[1..], q);
      if v[0] == '\\' || v[0] == q {
        assert e[0] == '\\' && e[1] == v[0] && e[2..] == rest;
      } else {
        assert e[0] == v[0] && e[1..] == rest;
      }
    }
  }

  /** The quote after escaped text closes it. */
  lemma {:induction false} EscapeCloses(s: string, i: nat, v: string, q: char)
    requires IsQuote(q) && At(s, i, Escape(v, q)) && i + |Escape(v, q)| < |s| && s[i + |Escape(v, q)|] == q
    ensures ClosingQuote(s, i, q, false) == Some(i + |Escape(v, q)|)
    decreases |v|
  {
    if v != [] {
      var rest := Escape(v[1..], q);
      var c := if v[0] == '\\' || v[0] == q then ['\\', v[0]] else [v[0]];
      AtParts(s, i, c, rest);
      EscapeCloses(s, i + |c|, v[1..], q);
      assert s[i + 0] == c[0];
      if |c| == 2 { assert s[i + 1] == c[1]; }
    }
  }

  /** The scanner and the value parser agree on where a quoted value closes. */
  lemma {:induction false} ClosingMode(s: string, i: nat, q: char, escaped: bool)
    requires IsQuote(q) && i <= |s| && ClosingQuote(s, i, q, escaped).Some?
    ensures ModeAfter(s[i..ClosingQuote(s, i, q, escaped).value + 1], if escaped then QuotedEscaped(q) else Quoted(q)) ==
            Some(Plain)
    decreases |s| - i
  {
    var k := ClosingQuote(s, i, q, escaped).value;
    assert s[i..k + 1][1..] == s[i + 1..k + 1];
    if escaped || s[i] == '\\' || s[i] != q { ClosingMode(s, i + 1, q, !escaped && s[i] == '\\'); }
  }

  /** Bare text is one token with whatever follows it up to the next comment. */
  lemma {:induction false} BareToken(s: string, i: nat, n: nat)
    requires i < n <= |s| && forall j :: i <= j < n ==> IsPlainChar(s[j])
    ensures TokenEnd(s, i, false, false) == TokenEnd(s, n, false, false)
    decreases n - i
  {
    if i + 1 < n { BareToken(s, i + 1, n); }
  }

  lemma {:induction false} DecodePlain(v: string, after: string)
    requires forall i :: 0 <= i < |v| ==> v[i] != '\\'
    ensures Decode(v + after, false) == v + Decode(after, false)
  {
    if v == [] {
      assert v + after == after;
    } else {
      DropConcat(v, after, 1);
      DecodePlain(v[1..], after);
    }
  }

  lemma {:induction false} TrimKeeps(s: string, n: nat)
    requires n < |s| && !IsSpace(s[n])
    ensures |TrimEnd(s)| > n
  {
    if IsSpace(s[|s| - 1]) { TrimKeeps(s[..|s| - 1], n); }
  }

  lemma {:induction false} SkipSpaceIs(s: string, i: nat, n: nat)
    requires i <= n <= |s| && (forall j :: i <= j < n ==> IsSpace(s[j])) && (n < |s| ==> !IsSpace(s[n]))
    ensures SkipSpace(s, i) == n
    decreases n - i
  {
    if i < n { SkipSpaceIs(s, i + 1, n); }
  }

  lemma {:induction false} NameTailIs(s: string, i: nat, n: nat)
    requires i <= n <= |s| && (forall j :: i <= j < n ==> IsNameChar(s[j])) && (n < |s| ==> !IsNameChar(s[n]))
    ensures NameTail(s, i) == n
    decreases n - i
  {
    if i < n { NameTailIs(s, i + 1, n); }
  }

  lemma {:induction false} SpacesOnly(s: string, i: nat)
    requires i <= |s|
    ensures forall j :: i <= j < SkipSpace(s, i) ==> IsSpace(s[j])
    decreases |s| - i
  {
    if i < |s| && IsSpace(s[i]) { SpacesOnly(s, i + 1); }
  }

  lemma {:induction false} NameCharsOnly(s: string, i: nat)
    requires i <= |s|
    ensures forall j :: i <= j < NameTail(s, i) ==> IsNameChar(s[j])
    decreases |s| - i
  {
    if i < |s| && IsNameChar(s[i]) { NameCharsOnly(s, i + 1); }
  }

  // ----- the part of a statement before its value --------------------------------

  /** Two texts with the same first k characters. */
  predicate SameHead(s: string, t: string, k: nat) {
    k <= |s| && k <= |t| && forall j :: 0 <= j < k ==> s[j] == t[j]
  }

  lemma {:induction false} SkipSpaceSame(s: string, t: string, i: nat, k: nat)
    requires SameHead(s, t, k) && i <= |s| && SkipSpace(s, i) < k
    ensures SkipSpace(t, i) == SkipSpace(s, i)
  {
    SpacesOnly(s, i);
    SkipSpaceIs(t, i, SkipSpace(s, i));
  }

  /** A leading export is seen or not whatever follows the equals sign. */
  lemma {:induction false} ExportSame(s: string, t: string, c: nat, k: nat)
    requires SameHead(s, t, k) && c < k && s[k - 1] == '='
    ensures HasExport(s, c) == HasExport(t, c)
  {
    assert t[k - 1] == '=';
  }

  lemma {:induction false} NameStartSame(s: string, t: string, k: nat)
    requires SameHead(s, t, k) && NameStart(s) < k && s[k - 1] == '='
    ensures NameStart(t) == NameStart(s) && SkipSpace(t, 0) == SkipSpace(s, 0)
  {
    var c := SkipSpace(s, 0);
    SkipSpaceSame(s, t, 0, k);
    ExportSame(s, t, c, k);
    if HasExport(s, c) { SkipSpaceSame(s, t, c + 6, k); }
  }

  lemma {:induction false} NameEndSame(s: string, t: string, at: nat, k: nat)
    requires SameHead(s, t, k) && at <= |s| && NameEnd(s, at) < k
    ensures NameEnd(t, at) == NameEnd(s, at)
  {
    if at < k && IsNameStart(s[at]) {
      NameCharsOnly(s, at + 1);
      NameTailIs(t, at + 1, NameEnd(s, at));
    }
  }

  /** Everything up to the equals sign is read the same whatever follows it. */
  lemma {:induction false} HeadSame(s: string, t: string, k: nat)
    requires AfterEquals(s) == Some(k) && SameHead(s, t, k)
    ensures AfterEquals(t) == Some(k) && NameStart(t) == NameStart(s) && SkipSpace(t, 0) == SkipSpace(s, 0)
    ensures NameEnd(t, NameStart(s)) == NameEnd(s, NameStart(s))
  {
    var at := NameStart(s);
    NameStartSame(s, t, k);
    NameEndSame(s, t, at, k);
    SkipSpaceSame(s, t, NameEnd(s, at), k);
  }

  lemma {:induction false} StartOrdinary(s: string)
    ensures forall i :: 0 <= i < NameStart(s) ==> IsOrdinary(s[i])
  {
    var c := SkipSpace(s, 0);
    SpacesOnly(s, 0);
    if HasExport(s, c) { SpacesOnly(s, c + 6); }
  }

  /** Nothing before a value opens a quote, an escape or a comment. */
  lemma {:induction false} HeadOrdinary(s: string)
    requires AfterEquals(s).Some?
    ensures forall i :: 0 <= i < AfterEquals(s).value ==> IsOrdinary(s[i])
  {
    var at := NameStart(s);
    var end := NameEnd(s, at);
    StartOrdinary(s);
    NameCharsOnly(s, at + 1);
    SpacesOnly(s, end);
  }
}
