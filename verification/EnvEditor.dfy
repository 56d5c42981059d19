/** Editing a whole file: what a reparse of the edited text reads. */
module EnvEditor {
  import opened Wrappers
  import opened EnvText
  import opened EnvEdits
  import opened EnvRoundTrip

  type Key = (string, nat)

  datatype Edit = Put(value: string) | Drop

  type Entry = (string, string)

  // ----- names and values of a file ----------------------------------------------

  /** What a statement adds to the names and values behind it. */
  function Prepended(body: string, rest: Option<seq<Entry>>): Option<seq<Entry>> {
    match ParseStatement(body)
    case Malformed => None
    case Blank => rest
    case Assign(name, v) => if rest.None? then None else Some([(name, v.text)] + rest.value)
  }

  function EntriesOf(lines: seq<Line>): Option<seq<Entry>> {
    if lines == [] then Some([]) else Prepended(lines[0].body, EntriesOf(lines[1..]))
  }

  /** The names and values of a text in order; None when it is malformed. */
  function Entries(s: string): Option<seq<Entry>> {
    if Cut(s).None? then None else EntriesOf(Cut(s).value)
  }

  /** What a definition before others should read as once the edits are made. */
  function Wanted(d: Definition, edits: map<Key, Edit>, others: seq<Entry>): seq<Entry> {
    var key := (d.name, d.ordinal);
    if key !in edits then [(d.name, d.value)] + others
    else
      match edits[key]
      case Drop => others
      case Put(v) => [(d.name, v)] + others
  }

  function Expected(defs: seq<Definition>, edits: map<Key, Edit>): seq<Entry> {
    if defs == [] then [] else Wanted(defs[0], edits, Expected(defs[1..], edits))
  }

  /** A statement kept, dropped whole, or with its value token replaced. */
  function EditedLine(line: Line, v: Value, key: Key, edits: map<Key, Edit>): string
    requires v.start <= v.end <= |line.body|
  {
    if key !in edits then line.body + line.term
    else
      match edits[key]
      case Drop => []
      case Put(x) => Replaced(line.body, v.start, v.end, Encoded(line.body[v.start..v.end], x)) + line.term
  }

  function Edited(lines: seq<Line>, seen: map<string, nat>, edits: map<Key, Edit>): string {
    if lines == [] then []
    else
      match ParseStatement(lines[0].body)
      case Assign(name, v) =>
        EditedLine(lines[0], v, (name, Count(seen, name)), edits) + Edited(lines[1..], Seen(seen, name), edits)
      case _ => lines[0].body + lines[0].term + Edited(lines[1..], seen, edits)
  }

  // ----- reparsing one statement before the rest ---------------------------------

  predicate IsTerm(term: string) { term == "\n" || term == "\r" || term == "\r\n" }

  lemma {:induction false} BlankLine(rest: string)
    requires rest != [] && rest[0] == '\n'
    ensures Entries(rest) == Entries(rest[1..])
  {
    assert rest[..0] == [] && rest[0..] == rest;
    if Cut(rest[1..]).Some? {
      assert ([Line([], rest[..1])] + Cut(rest[1..]).value)[1..] == Cut(rest[1..]).value;
    }
  }

  /** A statement that the scanner cuts off a text. */
  lemma {:induction false} CutHead(s: string, body: string, rest: string)
    requires s != [] && Scan(s, Plain) == Some(|body|) && s[..|body|] == body && s[Next(s)..] == rest
    ensures Entries(s) == Prepended(body, Entries(rest))
  {
    if Cut(rest).Some? {
      assert ([Line(body, s[|body|..Next(s)])] + Cut(rest).value)[1..] == Cut(rest).value;
    }
  }

  /** A statement with a line break parses on its own, even when its break merges with a following one. */
  lemma {:induction false} Prepend(body: string, term: string, rest: string)
    requires IsTerm(term) && ModeAfter(body, Plain) in {Some(Plain), Some(Comment)}
    ensures Entries(body + term + rest) == Prepended(body, Entries(rest))
  {
    var more := term + rest;
    var s := body + more;
    assert s == body + term + rest;
    ScanConcat(body, more, Plain);
    assert s[..|body|] == body && s[|body|..] == more;
    if term == "\r" && rest != [] && rest[0] == '\n' {
      BlankLine(rest);
      CutHead(s, body, rest[1..]);
    } else {
      assert BreakLength(more) == |term|;
      CutHead(s, body, rest);
    }
  }

  /** How a statement may stand before the rest of a file. */
  predicate Stands(mode: Option<Mode>, term: string, rest: string) {
    if IsTerm(term) then mode in {Some(Plain), Some(Comment)}
    else term == [] && rest == [] && mode.Some? && !IsOpen(mode.value)
  }

  lemma {:induction false} HeadEntries(body: string, term: string, rest: string)
    requires Stands(ModeAfter(body, Plain), term, rest) && body + term != []
    ensures Entries(body + term + rest) == Prepended(body, Entries(rest))
  {
    if IsTerm(term) {
      Prepend(body, term, rest);
    } else {
      ScanConcat(body, [], Plain);
      assert body + [] == body && body + term + rest == body && body[|body|..] == [];
      CutHead(body, body, []);
    }
  }

  /** Every statement is non-empty and ends in a line break outside its quotes, except perhaps the last one. */
  predicate WellCut(lines: seq<Line>) {
    lines == [] ||
    (lines[0].body + lines[0].term != [] && (IsTerm(lines[0].term) || |lines| == 1) &&
     Stands(ModeAfter(lines[0].body, Plain), lines[0].term, []) && WellCut(lines[1..]))
  }

  function Joined(lines: seq<Line>): string {
    if lines == [] then [] else lines[0].body + lines[0].term + Joined(lines[1..])
  }

  lemma {:induction false} CutLine(s: string)
    requires s != [] && Scan(s, Plain).Some?
    ensures var n := Scan(s, Plain).value; var body, term, rest := s[..n], s[n..Next(s)], s[Next(s)..];
            body + term + rest == s && body + term != [] && Stands(ModeAfter(body, Plain), term, []) &&
            (IsTerm(term) || rest == [])
  {
    ScanMode(s, Plain);
  }

  /** The scanner cuts a text into contiguous statements, each ended by a line break outside its quotes. */
  lemma {:induction false} CutIsWell(s: string)
    requires Cut(s).Some?
    ensures WellCut(Cut(s).value) && Joined(Cut(s).value) == s
    decreases |s|
  {
    if s != [] {
      var line, rest := Line(s[..Scan(s, Plain).value], s[Scan(s, Plain).value..Next(s)]), Cut(s[Next(s)..]).value;
      CutIsWell(s[Next(s)..]);
      CutLine(s);
      assert ([line] + rest)[1..] == rest;
    }
  }

  // ----- the reparse after an edit -----------------------------------------------

  predicate SafeHere(d: Definition, edits: map<Key, Edit>) {
    (d.name, d.ordinal) in edits && edits[(d.name, d.ordinal)].Put? ==>
      SafeEdit(d.token, d.comment, edits[(d.name, d.ordinal)].value)
  }

  /** The position of the first line break. */
  function FirstBreak(s: string): (n: nat)
    ensures n <= |s| && (n < |s| ==> IsBreak(s[n]))
  {
    if s == [] || IsBreak(s[0]) then 0 else 1 + FirstBreak(s[1..])
  }

  /** The text behind the first line break. */
  function Exposed(s: string): string { s[FirstBreak(s) + BreakLength(s[FirstBreak(s)..])..] }

  /** The replaced value's comment holds no line break. */
  predicate OneLine(d: Definition, edits: map<Key, Edit>) {
    (d.name, d.ordinal) in edits && edits[(d.name, d.ordinal)].Put? ==> IsQuoted(d.token) || NoBreak(d.comment)
  }

  predicate AllSafe(defs: seq<Definition>, edits: map<Key, Edit>) {
    defs == [] || (SafeHere(defs[0], edits) && AllSafe(defs[1..], edits))
  }

  predicate AllOneLine(defs: seq<Definition>, edits: map<Key, Edit>) {
    defs == [] || (OneLine(defs[0], edits) && AllOneLine(defs[1..], edits))
  }

  lemma {:induction false} ConsEqual(a: Entry, b: Entry, x: seq<Entry>, y: seq<Entry>)
    ensures [a] + x == [b] + y <==> a == b && x == y
  {
    assert ([a] + x)[0] == a && ([a] + x)[1..] == x;
    assert ([b] + y)[0] == b && ([b] + y)[1..] == y;
  }

  /** A value is read back after a replacement exactly when the replacement is safe. */
  lemma {:induction false} PutReads(body: string, name: string, a: Value, term: string, v: string, rest: string,
                                    x: seq<Entry>)
    requires ParseStatement(body) == Assign(name, a) && Stands(ModeAfter(body, Plain), term, rest)
    requires IsQuoted(body[a.start..a.end]) || NoBreak(body[a.end..])
    ensures var token, tail := body[a.start..a.end], body[a.end..];
            Entries(Replaced(body, a.start, a.end, Encoded(token, v)) + term + rest) == Some([(name, v)] + x) <==>
            SafeEdit(token, tail, v) && Entries(rest) == Some(x)
  {
    var token := body[a.start..a.end];
    var edited := Replaced(body, a.start, a.end, Encoded(token, v));
    ModeSet(body, name, a, v);
    StatementSet(body, name, a, v);
    assert edited != [] by { ValueSpaces(body, name, a); }
    HeadEntries(edited, term, rest);
    var after := ParseStatement(edited);
    if after.Assign? && Entries(rest).Some? {
      ConsEqual((after.name, after.value.text), (name, v), Entries(rest).value, x);
    }
  }

  lemma {:induction false} CommentScan(s: string)
    ensures Scan(s, Comment) == Some(FirstBreak(s))
  {
    if s != [] && !IsBreak(s[0]) { CommentScan(s[1..]); }
  }

  lemma {:induction false} BrokenScan(head: string, text: string)
    requires ModeAfter(head, Plain) == Some(Plain) && text != [] && text[0] == '#'
    ensures Scan(head + text, Plain) == Some(|head| + FirstBreak(text))
  {
    ScanConcat(head, text, Plain);
    CommentScan(text[1..]);
  }

  lemma {:induction false} NextExposed(head: string, text: string)
    requires text != [] && Scan(head + text, Plain) == Some(|head| + FirstBreak(text))
    ensures (head + text)[..|head| + FirstBreak(text)] == head + text[..FirstBreak(text)]
    ensures (head + text)[Next(head + text)..] == Exposed(text)
  {
    assert (head + text)[|head| + FirstBreak(text)..] == text[FirstBreak(text)..];
  }

  /** Replacing the value before a comment of several lines ends the statement at the comment's first line break. */
  lemma {:induction false} BrokenCut(head: string, text: string)
    requires ModeAfter(head, Plain) == Some(Plain) && text != [] && text[0] == '#'
    ensures Entries(head + text) == Prepended(head + text[..FirstBreak(text)], Entries(Exposed(text)))
  {
    BrokenScan(head, text);
    NextExposed(head, text);
    CutHead(head + text, head + text[..FirstBreak(text)], Exposed(text));
  }

  lemma {:induction false} BrokenHead(body: string, name: string, a: Value, v: string, tail: string)
    requires ParseStatement(body) == Assign(name, a) && ModeAfter(body, Plain).Some? && IsTail(tail) && tail != []
    requires !IsQuoted(body[a.start..a.end])
    ensures var head := body[..a.start] + Encoded(body[a.start..a.end], v); var after := ParseStatement(head + tail);
            ModeAfter(head, Plain) == Some(Plain) &&
            if IsPlain(v) then Garbled(after, name, v) else after.Assign? && after.name == name && after.value.text == v
  {
    var token := body[a.start..a.end];
    HeadMode(body, name, a);
    EncodedMode(token, v);
    ModeConcat(body[..a.start], Encoded(token, v), Plain);
    StatementGiven(body, name, a, token, v, tail);
  }

  /** A statement before a text, of which only the value is known. */
  lemma {:induction false} PrependedReads(after: Assignment, body: string, name: string, v: string, rest: Option<seq<Entry>>, x: seq<Entry>)
    requires ParseStatement(body) == after
    requires Garbled(after, name, v) || (after.Assign? && after.name == name && after.value.text == v)
    ensures Prepended(body, rest) == Some([(name, v)] + x) <==> !Garbled(after, name, v) && rest == Some(x)
  {
    if after.Assign? && rest.Some? { ConsEqual((after.name, after.value.text), (name, v), rest.value, x); }
  }

  /** So the value reads back exactly when it is written in quotes, and what the break exposes reads as the rest should. */
  lemma {:induction false} BrokenReads(body: string, name: string, a: Value, term: string, v: string, rest: string, x: seq<Entry>)
    requires ParseStatement(body) == Assign(name, a) && ModeAfter(body, Plain).Some?
    requires !IsQuoted(body[a.start..a.end]) && !NoBreak(body[a.end..])
    ensures var token, text := body[a.start..a.end], body[a.end..] + term + rest;
            Entries(Replaced(body, a.start, a.end, Encoded(token, v)) + term + rest) == Some([(name, v)] + x) <==>
            !IsPlain(v) && Entries(Exposed(text)) == Some(x)
  {
    var token, text := body[a.start..a.end], body[a.end..] + term + rest;
    var head, tail := body[..a.start] + Encoded(token, v), text[..FirstBreak(text)];
    BrokenTail(body[a.end..], term, rest);
    BrokenHead(body, name, a, v, tail);
    BrokenValue(head, text, name, v, x);
    EditedBefore(body, a.start, a.end, Encoded(token, v), term, rest);
  }

  lemma {:induction false} BrokenTail(comment: string, term: string, rest: string)
    requires comment != [] && comment[0] == '#'
    ensures var text := comment + term + rest; var tail := text[..FirstBreak(text)];
            text != [] && text[0] == '#' && IsTail(tail) && tail != []
  {
  }

  lemma {:induction false} EditedBefore(body: string, start: nat, end: nat, bytes: string, term: string, rest: string)
    requires start <= end <= |body|
    ensures body[..start] + bytes + (body[end..] + term + rest) == Replaced(body, start, end, bytes) + term + rest
  {
  }

  lemma {:induction false} BrokenValue(head: string, text: string, name: string, v: string, x: seq<Entry>)
    requires ModeAfter(head, Plain) == Some(Plain) && text != [] && text[0] == '#'
    requires var after := ParseStatement(head + text[..FirstBreak(text)]);
             if IsPlain(v) then Garbled(after, name, v) else after.Assign? && after.name == name && after.value.text == v
    ensures Entries(head + text) == Some([(name, v)] + x) <==> !IsPlain(v) && Entries(Exposed(text)) == Some(x)
  {
    var line := head + text[..FirstBreak(text)];
    BrokenCut(head, text);
    PrependedReads(ParseStatement(line), line, name, v, Entries(Exposed(text)), x);
  }

  lemma {:induction false} KeptReads(body: string, name: string, a: Value, term: string, rest: string, x: seq<Entry>)
    requires ParseStatement(body) == Assign(name, a) && Stands(ModeAfter(body, Plain), term, rest)
    ensures Entries(body + term + rest) == Some([(name, a.text)] + x) <==> Entries(rest) == Some(x)
  {
    assert body != [] by { ValueSpaces(body, name, a); }
    HeadEntries(body, term, rest);
    if Entries(rest).Some? { ConsEqual((name, a.text), (name, a.text), Entries(rest).value, x); }
  }

  /** A definition is the one its statement holds. */
  predicate Describes(d: Definition, body: string, name: string, a: Value) {
    ParseStatement(body) == Assign(name, a) && d.name == name && d.value == a.text &&
    d.token == body[a.start..a.end] && d.comment == body[a.end..]
  }

  /** Whether an edited statement, before a text, reads as it should: the definition as wanted, then the others. */
  predicate ReadsHere(d: Definition, edits: map<Key, Edit>, term: string, rest: string, others: seq<Entry>) {
    if OneLine(d, edits) then SafeHere(d, edits) && Entries(rest) == Some(others)
    else !IsPlain(edits[(d.name, d.ordinal)].value) && Entries(Exposed(d.comment + term + rest)) == Some(others)
  }

  /** What a head statement contributes once edited. */
  lemma {:induction false} HeadReads(line: Line, name: string, a: Value, d: Definition, edits: map<Key, Edit>,
                                     rest: string, x: seq<Entry>)
    requires Describes(d, line.body, name, a) && Stands(ModeAfter(line.body, Plain), line.term, rest)
    ensures Entries(EditedLine(line, a, (name, d.ordinal), edits) + rest) == Some(Wanted(d, edits, x)) <==>
            ReadsHere(d, edits, line.term, rest, x)
  {
    var key := (name, d.ordinal);
    if key !in edits {
      KeptReads(line.body, name, a, line.term, rest, x);
    } else if edits[key].Drop? {
      assert [] + rest == rest;
    } else if OneLine(d, edits) {
      PutReads(line.body, name, a, line.term, edits[key].value, rest, x);
    } else {
      BrokenReads(line.body, name, a, line.term, edits[key].value, rest, x);
    }
  }

  /**
   Every edit reads back. Where a replaced value's comment goes over several lines, its first line break ends the new
   statement, so that the value must be written in quotes and the lines behind the break, read before the rest of the
   edited file, must add nothing; everywhere else the replacement must be safe.
   */
  predicate Faithful(lines: seq<Line>, seen: map<string, nat>, edits: map<Key, Edit>, defs: seq<Definition>) {
    lines == [] ||
    match ParseStatement(lines[0].body)
    case Malformed => false
    case Blank => Faithful(lines[1..], seen, edits, defs)
    case Assign(name, _) =>
      defs != [] &&
      if OneLine(defs[0], edits) then SafeHere(defs[0], edits) && Faithful(lines[1..], Seen(seen, name), edits, defs[1..])
      else ReadsHere(defs[0], edits, lines[0].term, Edited(lines[1..], Seen(seen, name), edits), Expected(defs[1..], edits))
  }

  /** Where the next statement starts. */
  function Behind(line: Line, offset: nat): nat { offset + |line.body| + |line.term| }

  /** What a file's first statement contributes when it holds a definition. */
  lemma {:induction false} AssignHead(lines: seq<Line>, offset: nat, seen: map<string, nat>, name: string, a: Value,
                                      defs: seq<Definition>)
    requires lines != [] && ParseStatement(lines[0].body) == Assign(name, a)
    requires Definitions(lines, offset, seen) == Some(defs)
    ensures defs != [] && defs[0].ordinal == Count(seen, name) && Describes(defs[0], lines[0].body, name, a)
    ensures Definitions(lines[1..], Behind(lines[0], offset), Seen(seen, name)) == Some(defs[1..])
  {
  }

  /** What a file's first statement contributes when it holds none. */
  lemma {:induction false} BlankStep(lines: seq<Line>, offset: nat, seen: map<string, nat>, edits: map<Key, Edit>,
                                     defs: seq<Definition>)
    requires lines != [] && WellCut(lines) && ParseStatement(lines[0].body).Blank?
    requires Definitions(lines, offset, seen) == Some(defs)
    ensures Definitions(lines[1..], Behind(lines[0], offset), seen) == Some(defs)
    ensures Entries(Edited(lines, seen, edits)) == Entries(Edited(lines[1..], seen, edits))
  {
    HeadEntries(lines[0].body, lines[0].term, Edited(lines[1..], seen, edits));
  }

  lemma {:induction false} AssignStep(lines: seq<Line>, seen: map<string, nat>, edits: map<Key, Edit>, name: string, a: Value,
                                      defs: seq<Definition>)
    requires lines != [] && WellCut(lines) && ParseStatement(lines[0].body) == Assign(name, a)
    requires defs != [] && Describes(defs[0], lines[0].body, name, a) && defs[0].ordinal == Count(seen, name)
    ensures Entries(Edited(lines, seen, edits)) == Some(Expected(defs, edits)) <==>
            ReadsHere(defs[0], edits, lines[0].term, Edited(lines[1..], Seen(seen, name), edits), Expected(defs[1..], edits))
  {
    HeadReads(lines[0], name, a, defs[0], edits, Edited(lines[1..], Seen(seen, name), edits), Expected(defs[1..], edits));
  }

  lemma {:induction false} FaithfulStep(lines: seq<Line>, seen: map<string, nat>, edits: map<Key, Edit>, name: string, a: Value,
                                        defs: seq<Definition>)
    requires lines != [] && ParseStatement(lines[0].body) == Assign(name, a) && defs != []
    requires var rest := Edited(lines[1..], Seen(seen, name), edits);
             Entries(rest) == Some(Expected(defs[1..], edits)) <==> Faithful(lines[1..], Seen(seen, name), edits, defs[1..])
    ensures Faithful(lines, seen, edits, defs) <==>
            ReadsHere(defs[0], edits, lines[0].term, Edited(lines[1..], Seen(seen, name), edits), Expected(defs[1..], edits))
  {
  }

  /** Everything but the recursion. */
  lemma {:induction false} EditStep(lines: seq<Line>, offset: nat, seen: map<string, nat>, edits: map<Key, Edit>, name: string,
                                    a: Value, defs: seq<Definition>)
    requires lines != [] && WellCut(lines) && ParseStatement(lines[0].body) == Assign(name, a)
    requires Definitions(lines, offset, seen) == Some(defs) && defs != []
    requires var rest := Edited(lines[1..], Seen(seen, name), edits);
             Entries(rest) == Some(Expected(defs[1..], edits)) <==> Faithful(lines[1..], Seen(seen, name), edits, defs[1..])
    ensures Entries(Edited(lines, seen, edits)) == Some(Expected(defs, edits)) <==> Faithful(lines, seen, edits, defs)
  {
    AssignHead(lines, offset, seen, name, a, defs);
    AssignStep(lines, seen, edits, name, a, defs);
    FaithfulStep(lines, seen, edits, name, a, defs);
  }

  lemma {:induction false} AssignRest(lines: seq<Line>, offset: nat, seen: map<string, nat>, name: string, a: Value,
                                      defs: seq<Definition>)
    requires lines != [] && WellCut(lines) && ParseStatement(lines[0].body) == Assign(name, a)
    requires Definitions(lines, offset, seen) == Some(defs)
    ensures defs != [] && WellCut(lines[1..])
    ensures Definitions(lines[1..], Behind(lines[0], offset), Seen(seen, name)) == Some(defs[1..])
  {
  }

  lemma {:induction false} BlankRest(lines: seq<Line>, offset: nat, seen: map<string, nat>, defs: seq<Definition>)
    requires lines != [] && WellCut(lines) && ParseStatement(lines[0].body).Blank?
    requires Definitions(lines, offset, seen) == Some(defs)
    ensures WellCut(lines[1..])
    ensures Definitions(lines[1..], Behind(lines[0], offset), seen) == Some(defs)
  {
  }

  lemma {:induction false} BlankEdit(lines: seq<Line>, offset: nat, seen: map<string, nat>, edits: map<Key, Edit>,
                                     defs: seq<Definition>)
    requires lines != [] && WellCut(lines) && ParseStatement(lines[0].body).Blank?
    requires Definitions(lines, offset, seen) == Some(defs)
    requires Entries(Edited(lines[1..], seen, edits)) == Some(Expected(defs, edits)) <==> Faithful(lines[1..], seen, edits, defs)
    ensures Entries(Edited(lines, seen, edits)) == Some(Expected(defs, edits)) <==> Faithful(lines, seen, edits, defs)
  {
    BlankStep(lines, offset, seen, edits, defs);
  }

  /**
   Reparsing an edited file yields every other definition with the same name, value and order, no dropped one, and
   every replaced value exactly as it was set; it does so exactly when the edits are faithful.
   */
  lemma {:induction false} EditThenReparse(lines: seq<Line>, offset: nat, seen: map<string, nat>, edits: map<Key, Edit>,
                                           defs: seq<Definition>)
    requires WellCut(lines) && Definitions(lines, offset, seen) == Some(defs)
    ensures Entries(Edited(lines, seen, edits)) == Some(Expected(defs, edits)) <==> Faithful(lines, seen, edits, defs)
  {
    if lines != [] {
      var next := Behind(lines[0], offset);
      match ParseStatement(lines[0].body)
      case Blank =>
        BlankRest(lines, offset, seen, defs);
        EditThenReparse(lines[1..], next, seen, edits, defs);
        BlankEdit(lines, offset, seen, edits, defs);
      case Assign(name, a) =>
        AssignRest(lines, offset, seen, name, a, defs);
        EditThenReparse(lines[1..], next, Seen(seen, name), edits, defs[1..]);
        EditStep(lines, offset, seen, edits, name, a, defs);
    }
  }

  /** Without comments of several lines, edits are faithful exactly when every replacement is safe. */
  lemma {:induction false} FaithfulOneLine(lines: seq<Line>, offset: nat, seen: map<string, nat>, edits: map<Key, Edit>,
                                           defs: seq<Definition>)
    requires Definitions(lines, offset, seen) == Some(defs) && AllOneLine(defs, edits)
    ensures Faithful(lines, seen, edits, defs) <==> AllSafe(defs, edits)
  {
    if lines != [] {
      var next := Behind(lines[0], offset);
      match ParseStatement(lines[0].body)
      case Blank => FaithfulOneLine(lines[1..], next, seen, edits, defs);
      case Assign(name, a) =>
        AssignHead(lines, offset, seen, name, a, defs);
        FaithfulOneLine(lines[1..], next, Seen(seen, name), edits, defs[1..]);
    }
  }
}
