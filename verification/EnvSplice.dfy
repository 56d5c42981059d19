/** The serializer's splices: sorted right to left, they make all edits at once. */
module EnvSplice {
  import opened Wrappers
  import opened EnvText
  import opened EnvEdits
  import opened EnvEditor

  datatype Operation = Operation(name: string, ordinal: nat, delete: bool, optional: bool, value: Option<string>)

  datatype Replacement = Replacement(start: nat, end: nat, bytes: string)

  function KeyOf(d: Definition): Key { (d.name, d.ordinal) }

  function Min(a: nat, b: nat): nat { if a < b then a else b }

  function Apply(text: string, r: Replacement): string {
    text[..Min(r.start, |text|)] + r.bytes + text[Min(r.end, |text|)..]
  }

  /** Replacements applied one after the other, the first one first. */
  function Splice(text: string, reps: seq<Replacement>): string {
    if reps == [] then text else Apply(Splice(text, reps[..|reps| - 1]), reps[|reps| - 1])
  }

  /** A stable sort by descending start, as insertion. */
  function Insert(r: Replacement, reps: seq<Replacement>): seq<Replacement> {
    if reps == [] || reps[|reps| - 1].start >= r.start then reps + [r]
    else Insert(r, reps[..|reps| - 1]) + [reps[|reps| - 1]]
  }

  function Sorted(reps: seq<Replacement>): seq<Replacement> {
    if reps == [] then [] else Insert(reps[|reps| - 1], Sorted(reps[..|reps| - 1]))
  }

  // ----- operations --------------------------------------------------------------

  predicate Legal(op: Operation) { if op.delete then op.optional else op.value.Some? }

  function EditOf(op: Operation): Edit
    requires Legal(op)
  {
    if op.delete then Drop else Put(op.value.value)
  }

  function ChangeOf(d: Definition, e: Edit): Replacement {
    match e
    case Drop => Replacement(d.start, d.end, [])
    case Put(v) => Replacement(d.valueStart, d.valueEnd, Encoded(d.token, v))
  }

  function Table(defs: seq<Definition>): map<Key, Definition> {
    if defs == [] then map[] else Table(defs[..|defs| - 1])[KeyOf(defs[|defs| - 1]) := defs[|defs| - 1]]
  }

  predicate Known(table: map<Key, Definition>, op: Operation) { Legal(op) && (op.name, op.ordinal) in table }

  /** The replacements that operations ask for in order; None when one of them is refused. */
  function Requested(table: map<Key, Definition>, ops: seq<Operation>): Option<seq<Replacement>> {
    if ops == [] then Some([])
    else
      var op, before := ops[|ops| - 1], Requested(table, ops[..|ops| - 1]);
      if before.None? || !Known(table, op) then None
      else Some(before.value + [ChangeOf(table[(op.name, op.ordinal)], EditOf(op))])
  }

  function Updated(text: string, defs: seq<Definition>, ops: seq<Operation>): Option<string> {
    var reps := Requested(Table(defs), ops);
    if reps.None? then None else Some(Splice(text, Sorted(reps.value)))
  }

  predicate AllLegal(ops: seq<Operation>) { forall i :: 0 <= i < |ops| ==> Legal(ops[i]) }

  predicate AllKnown(table: map<Key, Definition>, ops: seq<Operation>) {
    AllLegal(ops) && forall i :: 0 <= i < |ops| ==> (ops[i].name, ops[i].ordinal) in table
  }

  /** Operations as edits, when they are legal and name distinct definitions. */
  function EditsOf(ops: seq<Operation>): map<Key, Edit>
    requires AllLegal(ops)
  {
    if ops == [] then map[]
    else
      var op := ops[|ops| - 1];
      EditsOf(ops[..|ops| - 1])[(op.name, op.ordinal) := EditOf(op)]
  }

  predicate Distinct(ops: seq<Operation>) {
    forall i, j :: 0 <= i < j < |ops| ==> (ops[i].name, ops[i].ordinal) != (ops[j].name, ops[j].ordinal)
  }

  // ----- definitions in order ----------------------------------------------------

  /** Every definition's token lies in its own range, and the ranges follow one another. */
  predicate Ordered(defs: seq<Definition>, from: nat) {
    defs == [] ||
    (from <= defs[0].start < defs[0].end && defs[0].start <= defs[0].valueStart <= defs[0].valueEnd <= defs[0].end &&
     (|defs| > 1 ==> defs[0].valueStart < defs[0].end) && Ordered(defs[1..], defs[0].end))
  }

  predicate Absent(k: Key, defs: seq<Definition>) {
    defs == [] || (KeyOf(defs[0]) != k && Absent(k, defs[1..]))
  }

  predicate Unique(defs: seq<Definition>) {
    defs == [] || (Absent(KeyOf(defs[0]), defs[1..]) && Unique(defs[1..]))
  }

  lemma {:induction false} OrderedFrom(defs: seq<Definition>, from: nat, lower: nat)
    requires Ordered(defs, from) && lower <= from
    ensures Ordered(defs, lower)
  {
  }

  /** The parser's definitions come in order, each token inside its own statement. */
  lemma {:induction false} DefinitionsOrdered(lines: seq<Line>, offset: nat, seen: map<string, nat>, defs: seq<Definition>)
    requires WellCut(lines) && Definitions(lines, offset, seen) == Some(defs)
    ensures Ordered(defs, offset)
  {
    if lines != [] {
      var next := offset + |lines[0].body| + |lines[0].term|;
      match ParseStatement(lines[0].body)
      case Blank =>
        DefinitionsOrdered(lines[1..], next, seen, defs);
        OrderedFrom(defs, next, offset);
      case Assign(name, v) =>
        DefinitionsOrdered(lines[1..], next, Seen(seen, name), defs[1..]);
    }
  }

  /** Ordinals count the definitions of a name, so no two definitions share name and ordinal. */
  lemma {:induction false} OrdinalsCount(lines: seq<Line>, offset: nat, seen: map<string, nat>, defs: seq<Definition>, k: Key)
    requires Definitions(lines, offset, seen) == Some(defs) && k.1 < Count(seen, k.0)
    ensures Absent(k, defs)
  {
    if lines != [] {
      var next := offset + |lines[0].body| + |lines[0].term|;
      match ParseStatement(lines[0].body)
      case Blank => OrdinalsCount(lines[1..], next, seen, defs, k);
      case Assign(name, v) => OrdinalsCount(lines[1..], next, Seen(seen, name), defs[1..], k);
    }
  }

  lemma {:induction false} DefinitionsUnique(lines: seq<Line>, offset: nat, seen: map<string, nat>, defs: seq<Definition>)
    requires Definitions(lines, offset, seen) == Some(defs)
    ensures Unique(defs)
  {
    if lines != [] {
      var next := offset + |lines[0].body| + |lines[0].term|;
      match ParseStatement(lines[0].body)
      case Blank => DefinitionsUnique(lines[1..], next, seen, defs);
      case Assign(name, v) =>
        OrdinalsCount(lines[1..], next, Seen(seen, name), defs[1..], (name, Count(seen, name)));
        DefinitionsUnique(lines[1..], next, Seen(seen, name), defs[1..]);
    }
  }

  // ----- the splices as one substitution -----------------------------------------

  /** The replacements of all edited definitions, from the last one to the first. */
  function Changes(defs: seq<Definition>, edits: map<Key, Edit>): seq<Replacement> {
    if defs == [] then []
    else if KeyOf(defs[0]) in edits then Changes(defs[1..], edits) + [ChangeOf(defs[0], edits[KeyOf(defs[0])])]
    else Changes(defs[1..], edits)
  }

  lemma {:induction false} SpliceLast(text: string, reps: seq<Replacement>, r: Replacement)
    ensures Splice(text, reps + [r]) == Apply(Splice(text, reps), r)
  {
    assert (reps + [r])[..|reps|] == reps;
  }

  /** Applying the replacement of one statement before text that is already edited. */
  lemma {:induction false} ApplyLine(pre: string, line: Line, v: Value, d: Definition, edits: map<Key, Edit>, rest: string)
    requires v.start <= v.end <= |line.body| && KeyOf(d) in edits
    requires d == Defined(line.body, d.name, v, d.ordinal, |pre|, |line.body| + |line.term|)
    ensures Apply(pre + line.body + line.term + rest, ChangeOf(d, edits[KeyOf(d)])) ==
            pre + EditedLine(line, v, KeyOf(d), edits) + rest
  {
    var text := pre + line.body + line.term + rest;
    match edits[KeyOf(d)]
    case Drop =>
      assert text[..|pre|] == pre && text[d.end..] == rest;
    case Put(x) =>
      ReplacedWithin(pre, line.body, v.start, v.end, Encoded(d.token, x), line.term, rest);
  }

  /** Replacing inside a statement, seen from the whole text. */
  lemma {:induction false} ReplacedWithin(pre: string, body: string, start: nat, end: nat, bytes: string, term: string, rest: string)
    requires start <= end <= |body|
    ensures Apply(pre + body + term + rest, Replacement(|pre| + start, |pre| + end, bytes)) ==
            pre + (Replaced(body, start, end, bytes) + term) + rest
  {
    var text := pre + body + term + rest;
    assert text[..|pre| + start] == pre + body[..start];
    assert text[|pre| + end..] == body[end..] + term + rest;
  }

  /** Substituting in one statement, once the text behind it is edited. */
  lemma {:induction false} LineEdit(pre: string, line: Line, v: Value, d: Definition, edits: map<Key, Edit>,
                                    later: seq<Replacement>, text: string, rest: string)
    requires v.start <= v.end <= |line.body|
    requires d == Defined(line.body, d.name, v, d.ordinal, |pre|, |line.body| + |line.term|)
    requires Splice(text, later) == pre + line.body + line.term + rest
    ensures Splice(text, if KeyOf(d) in edits then later + [ChangeOf(d, edits[KeyOf(d)])] else later) ==
            pre + EditedLine(line, v, KeyOf(d), edits) + rest
  {
    var k := KeyOf(d);
    if k in edits {
      SpliceLast(text, later, ChangeOf(d, edits[k]));
      ApplyLine(pre, line, v, d, edits, rest);
    } else {
      assert pre + line.body + line.term + rest == pre + (line.body + line.term) + rest;
    }
  }

  lemma {:induction false} Regroup(pre: string, a: string, b: string, c: string)
    ensures pre + (a + b + c) == (pre + a + b) + c && pre + (a + c) == (pre + a) + c
  {
  }

  /** Making the changes from last to first equals editing every statement on its own. */
  lemma {:induction false} ChangesEdit(pre: string, lines: seq<Line>, seen: map<string, nat>, edits: map<Key, Edit>,
                                       defs: seq<Definition>, text: string)
    requires Definitions(lines, |pre|, seen) == Some(defs) && text == pre + Joined(lines)
    ensures Splice(text, Changes(defs, edits)) == pre + Edited(lines, seen, edits)
    decreases lines
  {
    if lines != [] {
      var line, more := lines[0], lines[1..];
      var passed := pre + line.body + line.term;
      Regroup(pre, line.body, line.term, Joined(more));
      match ParseStatement(line.body)
      case Blank =>
        ChangesEdit(passed, more, seen, edits, defs, text);
        Regroup(pre, line.body, line.term, Edited(more, seen, edits));
      case Assign(name, v) =>
        var rest := Edited(more, Seen(seen, name), edits);
        ChangesEdit(passed, more, Seen(seen, name), edits, defs[1..], text);
        LineEdit(pre, line, v, defs[0], edits, Changes(defs[1..], edits), text, rest);
        Regroup(pre, EditedLine(line, v, KeyOf(defs[0]), edits), [], rest);
    }
  }

  // ----- sorting the requested replacements --------------------------------------

  predicate AllFrom(reps: seq<Replacement>, n: nat) { forall i :: 0 <= i < |reps| ==> n <= reps[i].start }

  lemma {:induction false} ChangesFrom(defs: seq<Definition>, edits: map<Key, Edit>, from: nat)
    requires Ordered(defs, from)
    ensures AllFrom(Changes(defs, edits), from)
  {
    if defs != [] { ChangesFrom(defs[1..], edits, defs[0].end); }
  }

  lemma {:induction false} AbsentChanges(defs: seq<Definition>, edits: map<Key, Edit>, k: Key, e: Edit)
    requires Absent(k, defs)
    ensures Changes(defs, edits[k := e]) == Changes(defs, edits)
  {
    if defs != [] { AbsentChanges(defs[1..], edits, k, e); }
  }

  lemma {:induction false} InsertLast(r: Replacement, reps: seq<Replacement>, last: Replacement)
    requires last.start < r.start
    ensures Insert(r, reps + [last]) == Insert(r, reps) + [last]
  {
    assert (reps + [last])[..|reps|] == reps;
  }

  predicate Holds(defs: seq<Definition>, d: Definition) { defs != [] && (defs[0] == d || Holds(defs[1..], d)) }

  lemma {:induction false} HeldPresent(defs: seq<Definition>, d: Definition)
    requires Holds(defs, d)
    ensures !Absent(KeyOf(d), defs)
  {
    if defs[0] != d { HeldPresent(defs[1..], d); }
  }

  lemma {:induction false} HeldFrom(defs: seq<Definition>, d: Definition, e: Edit, from: nat)
    requires Holds(defs, d) && Ordered(defs, from)
    ensures from <= ChangeOf(d, e).start
  {
    if defs[0] != d { HeldFrom(defs[1..], d, e, defs[0].end); }
  }

  /** One more edited definition is one more replacement, at its place in the order. */
  lemma {:induction false} InsertChange(defs: seq<Definition>, edits: map<Key, Edit>, d: Definition, e: Edit, from: nat)
    requires Ordered(defs, from) && Unique(defs) && Holds(defs, d) && KeyOf(d) !in edits
    ensures Changes(defs, edits[KeyOf(d) := e]) == Insert(ChangeOf(d, e), Changes(defs, edits))
  {
    var rest := Changes(defs[1..], edits);
    if defs[0] == d {
      AbsentChanges(defs[1..], edits, KeyOf(d), e);
      ChangesFrom(defs[1..], edits, d.end);
    } else {
      HeldPresent(defs[1..], d);
      InsertChange(defs[1..], edits, d, e, defs[0].end);
      if KeyOf(defs[0]) in edits {
        var own := ChangeOf(defs[0], edits[KeyOf(defs[0])]);
        HeldFrom(defs[1..], d, e, defs[0].end);
        InsertLast(ChangeOf(d, e), rest, own);
      }
    }
  }

  lemma {:induction false} InHolds(defs: seq<Definition>, d: Definition)
    requires d in defs
    ensures Holds(defs, d)
  {
    if defs[0] != d { InHolds(defs[1..], d); }
  }

  /** The table maps a name and ordinal to a definition of that name and ordinal. */
  lemma {:induction false} TableFinds(defs: seq<Definition>, k: Key)
    ensures k in Table(defs) <==> exists i :: 0 <= i < |defs| && KeyOf(defs[i]) == k
    ensures k in Table(defs) ==> Table(defs)[k] in defs && KeyOf(Table(defs)[k]) == k
  {
    if defs != [] { TableFinds(defs[..|defs| - 1], k); }
  }

  lemma {:induction false} EditsKeys(ops: seq<Operation>, k: Key)
    requires AllLegal(ops)
    ensures k in EditsOf(ops) <==> exists i :: 0 <= i < |ops| && (ops[i].name, ops[i].ordinal) == k
  {
    if ops != [] { EditsKeys(ops[..|ops| - 1], k); }
  }

  /** Every one of distinct operations is the edit of its definition: a deletion, or its value. */
  lemma {:induction false} EditsAre(ops: seq<Operation>, i: nat)
    requires AllLegal(ops) && Distinct(ops) && i < |ops|
    ensures (ops[i].name, ops[i].ordinal) in EditsOf(ops)
    ensures match EditsOf(ops)[(ops[i].name, ops[i].ordinal)]
            case Drop => ops[i].delete
            case Put(v) => !ops[i].delete && ops[i].value == Some(v)
  {
    var before := ops[..|ops| - 1];
    if i < |before| {
      EditsAre(before, i);
      assert before[i] == ops[i];
    }
  }

  /** A request is refused exactly when one of its operations is. */
  lemma {:induction false} RequestRefused(table: map<Key, Definition>, ops: seq<Operation>)
    ensures Requested(table, ops).Some? <==> AllKnown(table, ops)
  {
    if ops != [] {
      var before := ops[..|ops| - 1];
      RequestRefused(table, before);
      assert forall i :: 0 <= i < |before| ==> before[i] == ops[i];
    }
  }

  /** Sorted from right to left, the requested replacements are the changes of all edited definitions. */
  lemma {:induction false} SortedRequest(defs: seq<Definition>, ops: seq<Operation>, from: nat)
    requires Ordered(defs, from) && Unique(defs) && Distinct(ops)
    requires AllKnown(Table(defs), ops)
    ensures Requested(Table(defs), ops).Some?
    ensures Sorted(Requested(Table(defs), ops).value) == Changes(defs, EditsOf(ops))
  {
    if ops == [] {
      NoChanges(defs);
    } else {
      var op, before := ops[|ops| - 1], ops[..|ops| - 1];
      var k := (op.name, op.ordinal);
      assert Known(Table(defs), op);
      TableFinds(defs, k);
      var d := Table(defs)[k];
      SortedRequest(defs, before, from);
      EditsKeys(before, k);
      InHolds(defs, d);
      InsertChange(defs, EditsOf(before), d, EditOf(op), from);
      var reps := Requested(Table(defs), before).value;
      assert (reps + [ChangeOf(d, EditOf(op))])[..|reps|] == reps;
    }
  }

  lemma {:induction false} NoChanges(defs: seq<Definition>)
    ensures Changes(defs, map[]) == []
  {
    if defs != [] { NoChanges(defs[1..]); }
  }

  lemma {:induction false} SpliceEdits(lines: seq<Line>, defs: seq<Definition>, ops: seq<Operation>, text: string)
    requires WellCut(lines) && Definitions(lines, 0, map[]) == Some(defs) && text == Joined(lines)
    requires Distinct(ops) && AllKnown(Table(defs), ops)
    ensures Updated(text, defs, ops) == Some(Edited(lines, map[], EditsOf(ops)))
  {
    DefinitionsOrdered(lines, 0, map[], defs);
    DefinitionsUnique(lines, 0, map[], defs);
    SortedRequest(defs, ops, 0);
    assert [] + Joined(lines) == text && [] + Edited(lines, map[], EditsOf(ops)) == Edited(lines, map[], EditsOf(ops));
    ChangesEdit([], lines, map[], EditsOf(ops), defs, text);
  }

  /** The serializer refuses a request with an illegal or unknown operation and otherwise makes all edits at once. */
  lemma {:induction false} UpdatedIsEdited(text: string, lines: seq<Line>, defs: seq<Definition>, ops: seq<Operation>)
    requires Cut(text) == Some(lines) && Definitions(lines, 0, map[]) == Some(defs) && Distinct(ops)
    ensures Updated(text, defs, ops) ==
            if AllKnown(Table(defs), ops) then Some(Edited(lines, map[], EditsOf(ops))) else None
  {
    RequestRefused(Table(defs), ops);
    if AllKnown(Table(defs), ops) {
      CutIsWell(text);
      SpliceEdits(lines, defs, ops, text);
    }
  }

  predicate Descending(reps: seq<Replacement>) { forall i, j :: 0 <= i < j < |reps| ==> reps[i].start >= reps[j].start }

  lemma {:induction false} InsertAdds(r: Replacement, reps: seq<Replacement>)
    ensures multiset(Insert(r, reps)) == multiset(reps) + multiset{r}
  {
    if reps != [] {
      assert reps == reps[..|reps| - 1] + [reps[|reps| - 1]];
      if reps[|reps| - 1].start < r.start { InsertAdds(r, reps[..|reps| - 1]); }
    }
  }

  lemma {:induction false} InsertMember(r: Replacement, reps: seq<Replacement>, x: Replacement)
    ensures x in Insert(r, reps) <==> x == r || x in reps
  {
    if reps != [] && reps[|reps| - 1].start < r.start {
      InsertMember(r, reps[..|reps| - 1], x);
      assert reps == reps[..|reps| - 1] + [reps[|reps| - 1]];
    }
  }

  lemma {:induction false} DescendMore(reps: seq<Replacement>, last: Replacement)
    requires Descending(reps) && forall i :: 0 <= i < |reps| ==> reps[i].start >= last.start
    ensures Descending(reps + [last])
  {
  }

  lemma {:induction false} InsertDescends(r: Replacement, reps: seq<Replacement>)
    requires Descending(reps)
    ensures Descending(Insert(r, reps))
  {
    if reps == [] || reps[|reps| - 1].start >= r.start {
      DescendMore(reps, r);
    } else {
      var before, last := reps[..|reps| - 1], reps[|reps| - 1];
      var inner := Insert(r, before);
      InsertDescends(r, before);
      forall i | 0 <= i < |inner|
        ensures inner[i].start >= last.start
      {
        InsertMember(r, before, inner[i]);
      }
      DescendMore(inner, last);
    }
  }

  /** The sort puts every replacement once, by descending start. */
  lemma {:induction false} SortDescends(reps: seq<Replacement>)
    ensures Descending(Sorted(reps)) && multiset(Sorted(reps)) == multiset(reps)
  {
    if reps != [] {
      SortDescends(reps[..|reps| - 1]);
      InsertDescends(reps[|reps| - 1], Sorted(reps[..|reps| - 1]));
      InsertAdds(reps[|reps| - 1], Sorted(reps[..|reps| - 1]));
      assert reps == reps[..|reps| - 1] + [reps[|reps| - 1]];
    }
  }
}
