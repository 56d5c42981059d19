/** Editing one statement: what its value reads as afterwards, and where it ends. */
module EnvRoundTrip {
  import opened Wrappers
  import opened EnvText
  import opened EnvEdits

  predicate NoBreak(s: string) { forall i :: 0 <= i < |s| ==> !IsBreak(s[i]) }

  /** What may follow a value token inside its statement. */
  predicate IsTail(tail: string) { tail == [] || tail[0] == '#' }

  // ----- the value ---------------------------------------------------------------

  lemma {:induction false} QuotedReads(s: string, start: nat, v: string, q: char)
    requires IsQuote(q) && At(s, start, [q] + Escape(v, q) + [q])
    requires IsTail(s[start + |Escape(v, q)| + 2..])
    ensures ParseQuoted(s, start) == Some(Value(v, start, start + |Escape(v, q)| + 2))
  {
    var e := Escape(v, q);
    var end := start + |e| + 2;
    AtParts(s, start, [q] + e, [q]);
    AtParts(s, start, [q], e);
    assert [q][0] == q && s[start + 0] == q && s[start + |[q] + e| + 0] == q;
    EscapeCloses(s, start + 1, v, q);
    SkipSpaceIs(s, end, end);
    assert s[start + 1..start + 1 + |e|] == e by {
      assert forall j :: 0 <= j < |e| ==> s[start + 1 + j] == e[j];
    }
    EscapeDecodes(v, q);
  }

  lemma {:induction false} BareReads(s: string, start: nat, v: string)
    requires IsPlain(v) && At(s, start, v) && start + |v| == |s|
    ensures ParseBare(s, start) == Some(Value(v, start, |s|))
  {
    assert forall j :: start <= j < |s| ==> s[j] == v[j - start];
    BareToken(s, start, |s|);
    assert s[start..|s|] == v;
    DecodePlain(v, []);
    assert v + [] == v;
  }

  /** A bare value written right before a comment swallows it. */
  lemma {:induction false} BareSwallows(s: string, start: nat, v: string)
    requires IsPlain(v) && At(s, start, v) && start + |v| < |s| && s[start + |v|] == '#'
    ensures ParseBare(s, start).Some? ==> ParseBare(s, start).value.text != v
  {
    var n := start + |v|;
    assert forall j :: start <= j < n ==> s[j] == v[j - start];
    BareToken(s, start, n);
    var end := TokenEnd(s, start, false, false);
    if end.Some? {
      var more := s[n..end.value];
      assert s[start..end.value] == v + more && more[0] == '#';
      DecodePlain(v, more);
      assert Decode(more, false)[0] == '#';
      TrimKeeps(Decode(v + more, false), |v|);
    }
  }

  predicate SpacesBetween(s: string, from: nat, start: nat) {
    from <= start <= |s| && forall j :: from <= j < start ==> IsSpace(s[j])
  }

  lemma {:induction false} QuotedCase(s: string, from: nat, start: nat, v: string, q: char)
    requires IsQuote(q) && SpacesBetween(s, from, start) && At(s, start, [q] + Escape(v, q) + [q])
    requires IsTail(s[start + |Escape(v, q)| + 2..])
    ensures ParseValue(s, from) == Some(Value(v, start, start + |Escape(v, q)| + 2))
  {
    QuotedReads(s, start, v, q);
    assert s[start + 0] == ([q] + Escape(v, q) + [q])[0];
    SkipSpaceIs(s, from, start);
  }

  lemma {:induction false} EmptyCase(s: string, from: nat, start: nat)
    requires SpacesBetween(s, from, start) && IsTail(s[start..])
    ensures ParseValue(s, from) == Some(Value("", start, start))
  {
    if start < |s| { assert s[start..][0] == '#'; }
    SkipSpaceIs(s, from, start);
  }

  lemma {:induction false} BareCase(s: string, from: nat, start: nat, v: string)
    requires SpacesBetween(s, from, start) && IsPlain(v) && At(s, start, v) && IsTail(s[start + |v|..])
    ensures if start + |v| == |s| then ParseValue(s, from) == Some(Value(v, start, |s|))
            else ParseValue(s, from).Some? ==> ParseValue(s, from).value.text != v
  {
    assert s[start + 0] == v[0] && IsPlainChar(v[0]);
    SkipSpaceIs(s, from, start);
    if start + |v| == |s| {
      BareReads(s, start, v);
    } else {
      assert s[start + |v|..][0] == '#';
      BareSwallows(s, start, v);
    }
  }

  /** The encoded value at a token's place, up to a comment or the end of the statement. */
  lemma {:induction false} EncodedReads(s: string, from: nat, start: nat, token: string, v: string)
    requires SpacesBetween(s, from, start) && At(s, start, Encoded(token, v)) && IsTail(s[start + |Encoded(token, v)|..])
    ensures var r := ParseValue(s, from); var end := start + |Encoded(token, v)|;
            if IsQuoted(token) || !IsPlain(v) || end == |s| then r == Some(Value(v, start, end))
            else r.Some? ==> r.value.text != v
  {
    if IsQuoted(token) {
      QuotedCase(s, from, start, v, token[0]);
    } else if v == [] {
      EmptyCase(s, from, start);
    } else if IsPlain(v) {
      BareCase(s, from, start, v);
    } else {
      QuotedCase(s, from, start, v, '"');
    }
  }

  // ----- the statement -----------------------------------------------------------

  /** An edit that keeps the value readable and the statement's end in place. */
  predicate SafeEdit(token: string, tail: string, v: string) {
    IsQuoted(token) || tail == [] || (NoBreak(tail) && !IsPlain(v))
  }

  /** What a bare value abutting a comment makes of its statement. */
  predicate Garbled(a: Assignment, name: string, v: string) {
    a.Malformed? || (a.Assign? && a.name == name && a.value.text != v)
  }

  /** Two statements with the same head differ only in their values. */
  lemma {:induction false} SameStatement(s: string, t: string, k: nat, name: string)
    requires ParseStatement(s).Assign? && ParseStatement(s).name == name && AfterEquals(s) == Some(k) && SameHead(s, t, k)
    ensures ParseStatement(t) ==
            var r := ParseValue(t, k); if r.None? then Malformed else Assign(name, r.value)
  {
    HeadSame(s, t, k);
    assert t[NameStart(s)..NameEnd(s, NameStart(s))] == s[NameStart(s)..NameEnd(s, NameStart(s))];
  }

  lemma {:induction false} ValueSpaces(s: string, name: string, a: Value)
    requires ParseStatement(s) == Assign(name, a)
    ensures var k := AfterEquals(s); k.Some? && k.value <= a.start && forall j :: k.value <= j < a.start ==> IsSpace(s[j])
  {
    SpacesOnly(s, AfterEquals(s).value);
  }

  /** The head of an assignment, a new value, and what follows it. */
  lemma {:induction false} StatementGiven(s: string, name: string, a: Value, token: string, v: string, tail: string)
    requires ParseStatement(s) == Assign(name, a) && IsTail(tail)
    ensures var bytes := Encoded(token, v); var after := ParseStatement(s[..a.start] + bytes + tail);
            if IsQuoted(token) || !IsPlain(v) || tail == [] then after == Assign(name, Value(v, a.start, a.start + |bytes|))
            else Garbled(after, name, v)
  {
    var bytes := Encoded(token, v);
    var t := s[..a.start] + bytes + tail;
    var k := GivenHead(s, name, a, bytes, tail);
    SameStatement(s, t, k, name);
    EncodedReads(t, k, a.start, token, v);
  }

  /** Up to its value the new statement is the old one. */
  lemma {:induction false} GivenHead(s: string, name: string, a: Value, bytes: string, tail: string) returns (k: nat)
    requires ParseStatement(s) == Assign(name, a)
    ensures var t := s[..a.start] + bytes + tail;
            AfterEquals(s) == Some(k) && SameHead(s, t, k) && SpacesBetween(t, k, a.start) &&
            At(t, a.start, bytes) && t[a.start + |bytes|..] == tail
  {
    ValueSpaces(s, name, a);
    k := AfterEquals(s).value;
  }

  lemma {:induction false} StatementSet(s: string, name: string, a: Value, v: string)
    requires ParseStatement(s) == Assign(name, a)
    ensures var token, tail := s[a.start..a.end], s[a.end..]; var bytes := Encoded(token, v);
            var after := ParseStatement(Replaced(s, a.start, a.end, bytes));
            if IsQuoted(token) || !IsPlain(v) || tail == [] then after == Assign(name, Value(v, a.start, a.start + |bytes|))
            else Garbled(after, name, v)
  {
    StatementGiven(s, name, a, s[a.start..a.end], v, s[a.end..]);
  }

  // ----- where the edited statement ends -----------------------------------------

  lemma {:induction false} QuotedMode(v: string, q: char)
    requires IsQuote(q)
    ensures ModeAfter([q] + Escape(v, q) + [q], Plain) == Some(Plain)
  {
    var e := Escape(v, q);
    EscapeMode(v, q);
    ModeConcat(e, [q], Quoted(q));
    assert ([q] + e + [q])[1..] == e + [q];
    assert [q][1..] == [];
  }

  lemma {:induction false} EncodedMode(token: string, v: string)
    ensures ModeAfter(Encoded(token, v), Plain) == Some(Plain)
  {
    if IsQuoted(token) {
      QuotedMode(v, token[0]);
    } else if v != [] && IsPlain(v) {
      OrdinaryMode(v);
    } else if v != [] {
      QuotedMode(v, '"');
    }
  }

  lemma {:induction false} TailMode(tail: string)
    requires IsTail(tail)
    ensures ModeAfter(tail, Plain) == if tail == [] then Some(Plain) else if NoBreak(tail) then Some(Comment) else None
  {
    if tail != [] {
      CommentMode(tail[1..]);
      assert forall i :: 1 <= i < |tail| ==> tail[i] == tail[1..][i - 1];
    }
  }

  /** The part of a scanned assignment before its value leaves the scanner in plain text. */
  lemma {:induction false} HeadMode(s: string, name: string, a: Value)
    requires ParseStatement(s) == Assign(name, a) && ModeAfter(s, Plain).Some?
    ensures ModeAfter(s[..a.start], Plain) == Some(Plain)
  {
    var head := s[..a.start];
    HeadOrdinary(s);
    SpacesOnly(s, AfterEquals(s).value);
    assert forall i :: 0 <= i < |head| ==> IsOrdinary(head[i]);
    ModeConcat(head, s[a.start..], Plain);
    assert head + s[a.start..] == s;
    OrdinaryMode(head);
  }

  lemma {:induction false} TailUnbroken(head: string, body: string, blank: string, tail: string)
    requires ModeAfter(head, Plain) == Some(Plain) && ModeAfter(body, Plain) == Some(Plain)
    requires (forall i :: 0 <= i < |blank| ==> IsOrdinary(blank[i])) && IsTail(tail)
    requires ModeAfter(head + (body + (blank + tail)), Plain).Some?
    ensures NoBreak(tail)
  {
    ModeConcat(head, body + (blank + tail), Plain);
    ModeConcat(body, blank + tail, Plain);
    ModeConcat(blank, tail, Plain);
    OrdinaryMode(blank);
    TailMode(tail);
  }

  lemma {:induction false} QuotedParts(s: string, name: string, a: Value)
    requires ParseStatement(s) == Assign(name, a) && IsQuoted(s[a.start..a.end])
    ensures a.start < |s| && IsQuote(s[a.start]) && ParseQuoted(s, a.start) == Some(a)
  {
    assert s[a.start..a.end][0] == s[a.start];
  }

  lemma {:induction false} FourParts(s: string, a: nat, b: nat, c: nat)
    requires a <= b <= c <= |s|
    ensures s[..a] + (s[a..b] + (s[b..c] + s[c..])) == s
  {
  }

  /** A quoted value leaves the scanner in plain text after its closing quote. */
  lemma {:induction false} QuotedBody(s: string, start: nat, close: nat)
    requires start < close < |s| && IsQuote(s[start]) && ClosingQuote(s, start + 1, s[start], false) == Some(close)
    ensures ModeAfter(s[start..close + 1], Plain) == Some(Plain)
  {
    ClosingMode(s, start + 1, s[start], false);
    assert s[start..close + 1][1..] == s[start + 1..close + 1];
  }

  lemma {:induction false} UnbrokenAfter(s: string, a: nat, b: nat, c: nat)
    requires a <= b <= c <= |s| && ModeAfter(s[..a], Plain) == Some(Plain) && ModeAfter(s[a..b], Plain) == Some(Plain)
    requires (forall i :: b <= i < c ==> IsSpace(s[i])) && IsTail(s[c..]) && ModeAfter(s, Plain).Some?
    ensures NoBreak(s[c..])
  {
    FourParts(s, a, b, c);
    TailUnbroken(s[..a], s[a..b], s[b..c], s[c..]);
  }

  /** A quoted value's token ends at the end of the statement or at a comment, after its quote and white space. */
  lemma {:induction false} QuotedShape(s: string, a: Value) returns (close: nat)
    requires a.start < |s| && IsQuote(s[a.start]) && ParseQuoted(s, a.start) == Some(a)
    ensures a.start < close < a.end <= |s| && ModeAfter(s[a.start..close + 1], Plain) == Some(Plain)
    ensures (forall i :: close + 1 <= i < a.end ==> IsSpace(s[i])) && IsTail(s[a.end..])
  {
    close := ClosingQuote(s, a.start + 1, s[a.start], false).value;
    QuotedBody(s, a.start, close);
    SpacesOnly(s, close + 1);
  }

  /** A quoted value's comment has no line break: the scanner is in plain text after the closing quote. */
  lemma {:induction false} QuotedTail(s: string, name: string, a: Value)
    requires ParseStatement(s) == Assign(name, a) && ModeAfter(s, Plain).Some? && IsQuoted(s[a.start..a.end])
    ensures NoBreak(s[a.end..])
  {
    HeadMode(s, name, a);
    QuotedParts(s, name, a);
    var close := QuotedShape(s, a);
    UnbrokenAfter(s, a.start, close + 1, a.end);
  }

  /** After a safe edit the statement still ends where its text ends. */
  lemma {:induction false} ModeSet(s: string, name: string, a: Value, v: string)
    requires ParseStatement(s) == Assign(name, a) && ModeAfter(s, Plain).Some?
    ensures var token, tail := s[a.start..a.end], s[a.end..];
            (IsQuoted(token) ==> NoBreak(tail)) &&
            (NoBreak(tail) ==> ModeAfter(Replaced(s, a.start, a.end, Encoded(token, v)), Plain) ==
                                 Some(if tail == [] then Plain else Comment))
  {
    var head, token, tail := s[..a.start], s[a.start..a.end], s[a.end..];
    var bytes := Encoded(token, v);
    HeadMode(s, name, a);
    if IsQuoted(token) { QuotedTail(s, name, a); }
    EncodedMode(token, v);
    TailMode(tail);
    ModeConcat(head, bytes, Plain);
    ModeConcat(head + bytes, tail, Plain);
  }
}
