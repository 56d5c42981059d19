/** Two operations on one definition: what the splices then do, and when it is what one operation would do. */
module EnvRepeats {
  import opened Wrappers
  import opened EnvText
  import opened EnvEdits
  import opened EnvRoundTrip
  import opened EnvEditor
  import opened EnvSplice
  import opened EnvFile

  // ----- one replacement inside another ------------------------------------------

  /**
   A replacement, and then one that covers its place: the first leaves no trace exactly when it wrote as much as it took,
   or wrote less and nothing stands behind the second.
   */
  lemma {:induction false} CoveredReplacement(text: string, inner: Replacement, outer: Replacement)
    requires outer.start <= inner.start <= inner.end <= outer.end <= |text|
    ensures Apply(Apply(text, inner), outer) == Apply(text, outer) <==>
            |inner.bytes| == inner.end - inner.start || (|inner.bytes| <= inner.end - inner.start && outer.end == |text|)
  {
    var after := Apply(text, inner);
    var left := after[Min(outer.end, |after|)..];
    assert |after| == |text| - (inner.end - inner.start) + |inner.bytes|;
    assert after[..outer.start] == text[..outer.start];
    assert Apply(after, outer) == text[..outer.start] + outer.bytes + left;
    assert Apply(text, outer) == text[..outer.start] + outer.bytes + text[outer.end..];
    if |inner.bytes| == inner.end - inner.start {
      assert left == text[outer.end..];
    } else {
      assert |left| == |text| - outer.end <==> |inner.bytes| <= inner.end - inner.start && outer.end == |text|;
      if outer.end == |text| && |left| == 0 { assert left == text[outer.end..]; }
    }
  }

  /** Replacements behind a position leave what stands before it. */
  lemma {:induction false} KeepsFront(text: string, r: Replacement, n: nat)
    requires n <= r.start && n <= |text|
    ensures n <= |Apply(text, r)| && Apply(text, r)[..n] == text[..n]
  {
  }

  // ----- two edits of one statement ----------------------------------------------

  function Space(line: Line, v: Value, e: Edit): nat
    requires v.start <= v.end <= |line.body|
  {
    if e.Drop? then |line.body| + |line.term| else v.end - v.start
  }

  function Written(line: Line, v: Value, e: Edit): nat
    requires v.start <= v.end <= |line.body|
  {
    if e.Drop? then 0 else |Encoded(line.body[v.start..v.end], e.value)|
  }

  /** The place of the edit is where the text ends. */
  predicate AtEnd(line: Line, v: Value, e: Edit, rest: string)
    requires v.start <= v.end <= |line.body|
  {
    rest == [] && (e.Put? ==> v.end == |line.body| && line.term == [])
  }

  /** The first edit's bytes are as long as what they replace, or shorter with nothing behind the second edit. */
  predicate Harmless(line: Line, v: Value, inner: Edit, outer: Edit, rest: string)
    requires v.start <= v.end <= |line.body|
  {
    Written(line, v, inner) == Space(line, v, inner) ||
    (Written(line, v, inner) <= Space(line, v, inner) && AtEnd(line, v, outer, rest))
  }

  lemma {:induction false} LineTwice(pre: string, line: Line, v: Value, d: Definition, inner: Edit, outer: Edit, rest: string)
    requires v.start <= v.end <= |line.body| && (inner.Drop? ==> outer.Drop?)
    requires d == Defined(line.body, d.name, v, d.ordinal, |pre|, |line.body| + |line.term|)
    ensures var text := pre + line.body + line.term + rest;
            Apply(Apply(text, ChangeOf(d, inner)), ChangeOf(d, outer)) == Apply(text, ChangeOf(d, outer)) <==>
            Harmless(line, v, inner, outer, rest)
  {
    var text := pre + line.body + line.term + rest;
    assert |text| == |pre| + |line.body| + |line.term| + |rest|;
    CoveredReplacement(text, ChangeOf(d, inner), ChangeOf(d, outer));
  }

  // ----- one more edit of one definition among edits of others -------------------

  /** The changes of all edited definitions from the last one to the first, with one more edit before that of a key. */
  function Doubled(defs: seq<Definition>, edits: map<Key, Edit>, k: Key, inner: Edit): seq<Replacement> {
    if defs == [] then []
    else if KeyOf(defs[0]) !in edits then Doubled(defs[1..], edits, k, inner)
    else
      Doubled(defs[1..], edits, k, inner) + (if KeyOf(defs[0]) == k then [ChangeOf(defs[0], inner)] else []) +
      [ChangeOf(defs[0], edits[KeyOf(defs[0])])]
  }

  lemma {:induction false} AbsentDoubled(defs: seq<Definition>, edits: map<Key, Edit>, k: Key, inner: Edit)
    requires Absent(k, defs)
    ensures Doubled(defs, edits, k, inner) == Changes(defs, edits)
  {
    if defs != [] { AbsentDoubled(defs[1..], edits, k, inner); }
  }

  /** What the file becomes where the repeated edit leaves no trace. */
  predicate HarmlessIn(lines: seq<Line>, seen: map<string, nat>, edits: map<Key, Edit>, k: Key, inner: Edit)
    requires k in edits
  {
    lines != [] &&
    match ParseStatement(lines[0].body)
    case Malformed => false
    case Blank => HarmlessIn(lines[1..], seen, edits, k, inner)
    case Assign(name, v) =>
      if (name, Count(seen, name)) == k then
        Harmless(lines[0], v, inner, edits[k], Edited(lines[1..], Seen(seen, name), edits))
      else HarmlessIn(lines[1..], Seen(seen, name), edits, k, inner)
  }

  /** At the repeated definition: the text in front stays, and what follows is as it should be in harmless cases only. */
  lemma {:induction false} HereTwice(pre: string, line: Line, v: Value, d: Definition, edits: map<Key, Edit>, inner: Edit,
                                     later: seq<Replacement>, text: string, rest: string) returns (x: string)
    requires v.start <= v.end <= |line.body| && KeyOf(d) in edits && (inner.Drop? ==> edits[KeyOf(d)].Drop?)
    requires d == Defined(line.body, d.name, v, d.ordinal, |pre|, |line.body| + |line.term|)
    requires Splice(text, later) == pre + line.body + line.term + rest
    ensures Splice(text, later + [ChangeOf(d, inner)] + [ChangeOf(d, edits[KeyOf(d)])]) == pre + x
    ensures x == EditedLine(line, v, KeyOf(d), edits) + rest <==> Harmless(line, v, inner, edits[KeyOf(d)], rest)
  {
    var first, second := ChangeOf(d, inner), ChangeOf(d, edits[KeyOf(d)]);
    SpliceLast(text, later, first);
    SpliceLast(text, later + [first], second);
    x := TwiceFront(pre, pre + line.body + line.term + rest, first, second);
    LineTwice(pre, line, v, d, inner, edits[KeyOf(d)], rest);
    ApplyLine(pre, line, v, d, edits, rest);
    SameFront(pre, x, EditedLine(line, v, KeyOf(d), edits), rest);
  }

  lemma {:induction false} TwiceFront(pre: string, whole: string, first: Replacement, second: Replacement) returns (x: string)
    requires pre <= whole && |pre| <= first.start && |pre| <= second.start
    ensures Apply(Apply(whole, first), second) == pre + x
  {
    KeepsFront(whole, first, |pre|);
    KeepsFront(Apply(whole, first), second, |pre|);
    x := Apply(Apply(whole, first), second)[|pre|..];
  }

  lemma {:induction false} SameFront(pre: string, x: string, y: string, rest: string)
    ensures pre + x == pre + y + rest <==> x == y + rest
  {
    assert (pre + x)[|pre|..] == x && (pre + y + rest)[|pre|..] == y + rest;
  }

  lemma {:induction false} OnceHere(pre: string, line: Line, v: Value, d: Definition, edits: map<Key, Edit>,
                                    later: seq<Replacement>, text: string, rest: string)
    requires v.start <= v.end <= |line.body|
    requires d == Defined(line.body, d.name, v, d.ordinal, |pre|, |line.body| + |line.term|)
    requires Splice(text, later) == pre + line.body + line.term + rest
    ensures Splice(text, if KeyOf(d) in edits then later + [] + [ChangeOf(d, edits[KeyOf(d)])] else later) ==
            pre + (EditedLine(line, v, KeyOf(d), edits) + rest)
  {
    LineEdit(pre, line, v, d, edits, later, text, rest);
    assert later + [] == later;
    Regroup(pre, EditedLine(line, v, KeyOf(d), edits), [], rest);
  }

  lemma {:induction false} BlankFirst(pre: string, lines: seq<Line>, seen: map<string, nat>, defs: seq<Definition>)
    requires lines != [] && Definitions(lines, |pre|, seen) == Some(defs) && ParseStatement(lines[0].body).Blank?
    ensures Definitions(lines[1..], |pre + lines[0].body + lines[0].term|, seen) == Some(defs)
  {
  }

  lemma {:induction false} AssignFirst(pre: string, lines: seq<Line>, seen: map<string, nat>, name: string, v: Value, defs: seq<Definition>)
    requires lines != [] && Definitions(lines, |pre|, seen) == Some(defs) && ParseStatement(lines[0].body) == Assign(name, v)
    ensures defs != [] && defs[0] == Defined(lines[0].body, name, v, Count(seen, name), |pre|, |lines[0].body| + |lines[0].term|)
    ensures Definitions(lines[1..], |pre + lines[0].body + lines[0].term|, Seen(seen, name)) == Some(defs[1..])
  {
  }

  /** The statement that is edited twice, before others edited once. */
  lemma {:induction false} TwiceHere(pre: string, lines: seq<Line>, seen: map<string, nat>, edits: map<Key, Edit>,
                                     defs: seq<Definition>, text: string, k: Key, inner: Edit, name: string, v: Value)
    returns (x: string)
    requires lines != [] && ParseStatement(lines[0].body) == Assign(name, v) && defs != []
    requires defs[0] == Defined(lines[0].body, name, v, Count(seen, name), |pre|, |lines[0].body| + |lines[0].term|)
    requires k in edits && (inner.Drop? ==> edits[k].Drop?) && KeyOf(defs[0]) == k && Absent(k, defs[1..])
    requires var passed := pre + lines[0].body + lines[0].term;
             Splice(text, Changes(defs[1..], edits)) == passed + Edited(lines[1..], Seen(seen, name), edits)
    ensures Splice(text, Doubled(defs, edits, k, inner)) == pre + x
    ensures x == Edited(lines, seen, edits) <==> HarmlessIn(lines, seen, edits, k, inner)
  {
    AbsentDoubled(defs[1..], edits, k, inner);
    x := HereTwice(pre, lines[0], v, defs[0], edits, inner, Changes(defs[1..], edits), text, Edited(lines[1..], Seen(seen, name), edits));
  }

  /** A statement edited at most once, before one that is edited twice. */
  lemma {:induction false} TwiceBehind(pre: string, lines: seq<Line>, seen: map<string, nat>, edits: map<Key, Edit>,
                                       defs: seq<Definition>, text: string, k: Key, inner: Edit, name: string, v: Value, y: string)
    returns (x: string)
    requires lines != [] && ParseStatement(lines[0].body) == Assign(name, v) && defs != []
    requires defs[0] == Defined(lines[0].body, name, v, Count(seen, name), |pre|, |lines[0].body| + |lines[0].term|)
    requires k in edits && KeyOf(defs[0]) != k
    requires Splice(text, Doubled(defs[1..], edits, k, inner)) == pre + lines[0].body + lines[0].term + y
    requires y == Edited(lines[1..], Seen(seen, name), edits) <==> HarmlessIn(lines[1..], Seen(seen, name), edits, k, inner)
    ensures Splice(text, Doubled(defs, edits, k, inner)) == pre + x
    ensures x == Edited(lines, seen, edits) <==> HarmlessIn(lines, seen, edits, k, inner)
  {
    var own := EditedLine(lines[0], v, KeyOf(defs[0]), edits);
    OnceHere(pre, lines[0], v, defs[0], edits, Doubled(defs[1..], edits, k, inner), text, y);
    x := own + y;
    SameFront(own, y, Edited(lines[1..], Seen(seen, name), edits), []);
  }

  lemma {:induction false} BlankBefore(pre: string, lines: seq<Line>, seen: map<string, nat>, edits: map<Key, Edit>, k: Key, inner: Edit,
                                       y: string) returns (x: string)
    requires lines != [] && ParseStatement(lines[0].body).Blank? && k in edits
    requires y == Edited(lines[1..], seen, edits) <==> HarmlessIn(lines[1..], seen, edits, k, inner)
    ensures pre + lines[0].body + lines[0].term + y == pre + x
    ensures x == Edited(lines, seen, edits) <==> HarmlessIn(lines, seen, edits, k, inner)
  {
    x := lines[0].body + lines[0].term + y;
    Regroup(pre, lines[0].body, lines[0].term, y);
    SameFront(lines[0].body + lines[0].term, y, Edited(lines[1..], seen, edits), []);
  }

  /** All changes with one definition edited twice, as one text: it is the singly edited one in harmless cases only. */
  lemma {:induction false} DoubledEdit(pre: string, lines: seq<Line>, seen: map<string, nat>, edits: map<Key, Edit>,
                                       defs: seq<Definition>, text: string, k: Key, inner: Edit) returns (x: string)
    requires Definitions(lines, |pre|, seen) == Some(defs) && text == pre + Joined(lines) && Unique(defs)
    requires k in edits && (inner.Drop? ==> edits[k].Drop?) && !Absent(k, defs)
    ensures Splice(text, Doubled(defs, edits, k, inner)) == pre + x
    ensures x == Edited(lines, seen, edits) <==> HarmlessIn(lines, seen, edits, k, inner)
    decreases lines
  {
    var passed, more := pre + lines[0].body + lines[0].term, lines[1..];
    Regroup(pre, lines[0].body, lines[0].term, Joined(more));
    match ParseStatement(lines[0].body)
    case Blank =>
      BlankFirst(pre, lines, seen, defs);
      var y := DoubledEdit(passed, more, seen, edits, defs, text, k, inner);
      x := BlankBefore(pre, lines, seen, edits, k, inner, y);
    case Assign(name, v) =>
      AssignFirst(pre, lines, seen, name, v, defs);
      if KeyOf(defs[0]) == k {
        ChangesEdit(passed, more, Seen(seen, name), edits, defs[1..], text);
        x := TwiceHere(pre, lines, seen, edits, defs, text, k, inner, name, v);
      } else {
        var y := DoubledEdit(passed, more, Seen(seen, name), edits, defs[1..], text, k, inner);
        x := TwiceBehind(pre, lines, seen, edits, defs, text, k, inner, name, v, y);
      }
  }

  // ----- the requested replacements in order -------------------------------------

  /** A value stands behind the start of its statement. */
  predicate ValuesInside(defs: seq<Definition>) { forall i :: 0 <= i < |defs| ==> defs[i].start < defs[i].valueStart }

  lemma {:induction false} FirstInside(lines: seq<Line>, offset: nat, seen: map<string, nat>, name: string, v: Value, d: Definition)
    requires lines != [] && ParseStatement(lines[0].body) == Assign(name, v)
    requires d == Defined(lines[0].body, name, v, Count(seen, name), offset, |lines[0].body| + |lines[0].term|)
    ensures d.start < d.valueStart
  {
    ValueSpaces(lines[0].body, name, v);
  }

  lemma {:induction false} DefinitionsInside(pre: string, lines: seq<Line>, seen: map<string, nat>, defs: seq<Definition>)
    requires Definitions(lines, |pre|, seen) == Some(defs)
    ensures ValuesInside(defs)
    decreases lines
  {
    if lines != [] {
      var passed := pre + lines[0].body + lines[0].term;
      match ParseStatement(lines[0].body)
      case Blank =>
        BlankFirst(pre, lines, seen, defs);
        DefinitionsInside(passed, lines[1..], seen, defs);
      case Assign(name, v) =>
        AssignFirst(pre, lines, seen, name, v, defs);
        FirstInside(lines, |pre|, seen, name, v, defs[0]);
        DefinitionsInside(passed, lines[1..], Seen(seen, name), defs[1..]);
    }
  }

  /** Of two edits of one definition, in the order they were asked for: the one that is made first. */
  function InnerOf(first: Edit, second: Edit): Edit { if first.Drop? && second.Put? then second else first }

  function OuterOf(first: Edit, second: Edit): Edit { if first.Drop? && second.Put? then first else second }

  /** The definition is the first one: everything edited behind it comes before both of its edits. */
  lemma {:induction false} InsertHere(defs: seq<Definition>, edits: map<Key, Edit>, d: Definition, e: Edit, from: nat)
    requires defs != [] && defs[0] == d && Ordered(defs, from) && Unique(defs) && ValuesInside(defs) && KeyOf(d) in edits
    ensures var k := KeyOf(d);
            Insert(ChangeOf(d, e), Changes(defs, edits)) == Doubled(defs, edits[k := OuterOf(edits[k], e)], k, InnerOf(edits[k], e))
  {
    var k, rest, own := KeyOf(d), Changes(defs[1..], edits), ChangeOf(d, edits[KeyOf(d)]);
    AbsentDoubled(defs[1..], edits[k := OuterOf(edits[k], e)], k, InnerOf(edits[k], e));
    AbsentChanges(defs[1..], edits, k, OuterOf(edits[k], e));
    ChangesFrom(defs[1..], edits, d.end);
    assert (rest + [own])[..|rest|] == rest;
  }

  /** Asking for a definition that is edited already puts the value before the deletion, and else the new one last. */
  lemma {:induction false} InsertSame(defs: seq<Definition>, edits: map<Key, Edit>, d: Definition, e: Edit, from: nat)
    requires Ordered(defs, from) && Unique(defs) && ValuesInside(defs) && Holds(defs, d) && KeyOf(d) in edits
    ensures var k := KeyOf(d);
            Insert(ChangeOf(d, e), Changes(defs, edits)) == Doubled(defs, edits[k := OuterOf(edits[k], e)], k, InnerOf(edits[k], e))
  {
    if defs[0] == d {
      InsertHere(defs, edits, d, e, from);
    } else {
      var k, inner, rest := KeyOf(d), InnerOf(edits[KeyOf(d)], e), Changes(defs[1..], edits);
      var after := edits[k := OuterOf(edits[k], e)];
      HeldPresent(defs[1..], d);
      InsertSame(defs[1..], edits, d, e, defs[0].end);
      var later := Doubled(defs[1..], after, k, inner);
      assert later + [] == later;
      if KeyOf(defs[0]) in edits {
        HeldFrom(defs[1..], d, e, defs[0].end);
        InsertLast(ChangeOf(d, e), rest, ChangeOf(defs[0], edits[KeyOf(defs[0])]));
      }
    }
  }

  /** One more edited definition beside one that is edited twice. */
  lemma {:induction false} InsertOther(defs: seq<Definition>, edits: map<Key, Edit>, k: Key, inner: Edit, d: Definition, e: Edit, from: nat)
    requires Ordered(defs, from) && Unique(defs) && Holds(defs, d) && KeyOf(d) !in edits && k in edits
    ensures Doubled(defs, edits[KeyOf(d) := e], k, inner) == Insert(ChangeOf(d, e), Doubled(defs, edits, k, inner))
  {
    var rest := Doubled(defs[1..], edits, k, inner);
    assert rest + [] == rest;
    if defs[0] == d {
      SameDoubled(defs[1..], edits, k, inner, KeyOf(d), e);
      DoubledFrom(defs[1..], edits, k, inner, d.end);
    } else {
      HeldPresent(defs[1..], d);
      InsertOther(defs[1..], edits, k, inner, d, e, defs[0].end);
      if KeyOf(defs[0]) in edits {
        HeldFrom(defs[1..], d, e, defs[0].end);
        var r := ChangeOf(d, e);
        if KeyOf(defs[0]) == k {
          InsertLast(r, rest, ChangeOf(defs[0], inner));
          InsertLast(r, rest + [ChangeOf(defs[0], inner)], ChangeOf(defs[0], edits[k]));
        } else {
          InsertLast(r, rest, ChangeOf(defs[0], edits[KeyOf(defs[0])]));
          assert Insert(r, rest) + [] == Insert(r, rest);
        }
      } else {
        assert KeyOf(defs[0]) != KeyOf(d);
      }
    }
  }

  lemma {:induction false} SameDoubled(defs: seq<Definition>, edits: map<Key, Edit>, k: Key, inner: Edit, other: Key, e: Edit)
    requires Absent(other, defs)
    ensures Doubled(defs, edits[other := e], k, inner) == Doubled(defs, edits, k, inner)
  {
    if defs != [] { SameDoubled(defs[1..], edits, k, inner, other, e); }
  }

  lemma {:induction false} DoubledFrom(defs: seq<Definition>, edits: map<Key, Edit>, k: Key, inner: Edit, from: nat)
    requires Ordered(defs, from)
    ensures AllFrom(Doubled(defs, edits, k, inner), from)
  {
    if defs != [] { DoubledFrom(defs[1..], edits, k, inner, defs[0].end); }
  }

  // ----- requests that repeat one definition -------------------------------------

  function KeyAt(ops: seq<Operation>, i: nat): Key
    requires i < |ops|
  {
    (ops[i].name, ops[i].ordinal)
  }

  /** The i-th and the j-th operation are on one definition, all others on definitions of their own. */
  predicate RepeatsOnce(ops: seq<Operation>, i: nat, j: nat) {
    i < j < |ops| && KeyAt(ops, i) == KeyAt(ops, j) &&
    forall x, y :: 0 <= x < y < |ops| && (x != i || y != j) ==> KeyAt(ops, x) != KeyAt(ops, y)
  }

  /** The operation whose replacement is made first: of a deletion and a set the set, else the earlier one. */
  function InnerAt(ops: seq<Operation>, i: nat, j: nat): (x: nat)
    requires i < j < |ops|
    ensures x < |ops|
  {
    if ops[i].delete && !ops[j].delete then j else i
  }

  function Less(ops: seq<Operation>, x: nat): seq<Operation>
    requires x < |ops|
  {
    ops[..x] + ops[x + 1..]
  }

  lemma {:induction false} LessLegal(ops: seq<Operation>, x: nat)
    requires x < |ops| && AllLegal(ops)
    ensures AllLegal(Less(ops, x))
  {
  }

  lemma {:induction false} EditAt(ops: seq<Operation>, i: nat)
    requires AllLegal(ops) && i < |ops| && forall y :: i < y < |ops| ==> KeyAt(ops, y) != KeyAt(ops, i)
    ensures KeyAt(ops, i) in EditsOf(ops) && EditsOf(ops)[KeyAt(ops, i)] == EditOf(ops[i])
  {
    var n := |ops| - 1;
    if i < n {
      var before := ops[..n];
      assert forall y :: 0 <= y < n ==> before[y] == ops[y];
      assert KeyAt(ops, n) != KeyAt(ops, i);
      forall y | i < y < n
        ensures KeyAt(before, y) != KeyAt(before, i)
      {
        assert KeyAt(ops, y) != KeyAt(ops, i);
      }
      EditAt(before, i);
    }
  }

  /** What overrides an operation makes it of no account. */
  lemma {:induction false} Overridden(ops: seq<Operation>, i: nat, e: Edit)
    requires AllLegal(ops) && i < |ops| && AllLegal(Less(ops, i))
    ensures EditsOf(Less(ops, i))[KeyAt(ops, i) := e] == EditsOf(ops)[KeyAt(ops, i) := e]
  {
    var n := |ops| - 1;
    if i == n {
      assert Less(ops, i) == ops[..n];
    } else {
      var less := Less(ops, i);
      assert less[..n - 1] == Less(ops[..n], i) && less[n - 1] == ops[n];
      assert forall y :: 0 <= y < n ==> ops[..n][y] == ops[y];
      LessLegal(ops[..n], i);
      Overridden(ops[..n], i, e);
      BothUpdated(EditsOf(Less(ops[..n], i)), EditsOf(ops[..n]), KeyAt(ops, i), e, KeyAt(ops, n), EditOf(ops[n]));
    }
  }

  lemma {:induction false} BothUpdated(a: map<Key, Edit>, b: map<Key, Edit>, k: Key, e: Edit, other: Key, f: Edit)
    requires a[k := e] == b[k := e]
    ensures a[other := f][k := e] == b[other := f][k := e]
  {
    if other == k {
      assert a[other := f][k := e] == a[k := e] && b[other := f][k := e] == b[k := e];
    } else {
      assert a[other := f][k := e] == a[k := e][other := f] && b[other := f][k := e] == b[k := e][other := f];
    }
  }

  lemma {:induction false} FrontDistinct(ops: seq<Operation>, i: nat, j: nat)
    requires RepeatsOnce(ops, i, j)
    ensures Distinct(ops[..j])
    ensures j < |ops| - 1 ==> RepeatsOnce(ops[..|ops| - 1], i, j)
    ensures forall y :: i < y < j ==> KeyAt(ops[..j], y) != KeyAt(ops[..j], i)
  {
    forall x, y | 0 <= x < y < j
      ensures (ops[..j][x].name, ops[..j][x].ordinal) != (ops[..j][y].name, ops[..j][y].ordinal)
    {
      assert KeyAt(ops, x) != KeyAt(ops, y);
    }
    var before := ops[..|ops| - 1];
    forall x, y | 0 <= x < y < |before| && (x != i || y != j)
      ensures KeyAt(before, x) != KeyAt(before, y)
    {
      assert KeyAt(ops, x) != KeyAt(ops, y);
    }
    forall y | i < y < j
      ensures KeyAt(ops[..j], y) != KeyAt(ops[..j], i)
    {
      assert KeyAt(ops, i) != KeyAt(ops, y);
    }
  }

  lemma {:induction false} LessDistinct(ops: seq<Operation>, i: nat, j: nat, x: nat)
    requires RepeatsOnce(ops, i, j) && (x == i || x == j)
    ensures Distinct(Less(ops, x))
  {
    var less := Less(ops, x);
    forall p, q | 0 <= p < q < |less|
      ensures (less[p].name, less[p].ordinal) != (less[q].name, less[q].ordinal)
    {
      var p', q' := if p < x then p else p + 1, if q < x then q else q + 1;
      assert less[p] == ops[p'] && less[q] == ops[q'];
      assert KeyAt(ops, p') != KeyAt(ops, q');
    }
  }

  predicate Repeated(defs: seq<Definition>, ops: seq<Operation>, i: nat, j: nat) {
    Unique(defs) && ValuesInside(defs) && AllKnown(Table(defs), ops) && RepeatsOnce(ops, i, j)
  }

  /** The second operation on the definition is the last one. */
  lemma {:induction false} RepeatNow(defs: seq<Definition>, ops: seq<Operation>, i: nat, j: nat, from: nat)
    requires Ordered(defs, from) && Repeated(defs, ops, i, j) && j == |ops| - 1
    ensures Requested(Table(defs), ops).Some? && AllLegal(Less(ops, InnerAt(ops, i, j)))
    ensures var x := InnerAt(ops, i, j);
            Sorted(Requested(Table(defs), ops).value) == Doubled(defs, EditsOf(Less(ops, x)), KeyAt(ops, i), EditOf(ops[x]))
  {
    var before, op, k, x := ops[..j], ops[j], KeyAt(ops, i), InnerAt(ops, i, j);
    assert forall y :: 0 <= y < j ==> before[y] == ops[y];
    FrontDistinct(ops, i, j);
    SortedRequest(defs, before, from);
    EditAt(before, i);
    assert KeyAt(before, i) == k && Known(Table(defs), op);
    TableFinds(defs, k);
    var d := Table(defs)[k];
    InHolds(defs, d);
    InsertSame(defs, EditsOf(before), d, EditOf(op), from);
    RequestMore(Table(defs), ops);
    LessLegal(ops, x);
    LastRepeat(ops, i, j);
  }

  lemma {:induction false} LastRepeat(ops: seq<Operation>, i: nat, j: nat)
    requires AllLegal(ops) && RepeatsOnce(ops, i, j) && j == |ops| - 1 && AllLegal(ops[..j]) && AllLegal(Less(ops, InnerAt(ops, i, j)))
    requires var k := KeyAt(ops, i); k in EditsOf(ops[..j]) && EditsOf(ops[..j])[k] == EditOf(ops[i])
    ensures EditsOf(Less(ops, InnerAt(ops, i, j))) == EditsOf(ops[..j])[KeyAt(ops, i) := OuterOf(EditOf(ops[i]), EditOf(ops[j]))]
  {
    var before, less := ops[..j], Less(ops, InnerAt(ops, i, j));
    if InnerAt(ops, i, j) == i {
      assert less[..j - 1] == Less(before, i) && less[j - 1] == ops[j];
      LessLegal(before, i);
      Overridden(before, i, EditOf(ops[j]));
      assert KeyAt(before, i) == KeyAt(ops, i);
    } else {
      assert less == before;
    }
  }

  /** Sorted, the requested replacements are the changes of all edited definitions, with the repeated one in its place. */
  lemma {:induction false} SortedRepeat(defs: seq<Definition>, ops: seq<Operation>, i: nat, j: nat, from: nat)
    requires Ordered(defs, from) && Repeated(defs, ops, i, j)
    ensures Requested(Table(defs), ops).Some? && AllLegal(Less(ops, InnerAt(ops, i, j)))
    ensures var x := InnerAt(ops, i, j);
            Sorted(Requested(Table(defs), ops).value) == Doubled(defs, EditsOf(Less(ops, x)), KeyAt(ops, i), EditOf(ops[x]))
  {
    var n := |ops| - 1;
    if n == j {
      RepeatNow(defs, ops, i, j, from);
    } else {
      var before, op, x := ops[..n], ops[n], InnerAt(ops, i, j);
      assert forall y :: 0 <= y < n ==> before[y] == ops[y];
      FrontDistinct(ops, i, j);
      SortedRepeat(defs, before, i, j, from);
      RepeatLater(defs, ops, i, j, from);
    }
  }

  lemma {:induction false} RepeatLater(defs: seq<Definition>, ops: seq<Operation>, i: nat, j: nat, from: nat)
    requires Ordered(defs, from) && Repeated(defs, ops, i, j) && j < |ops| - 1
    requires var before := ops[..|ops| - 1]; var x := InnerAt(ops, i, j);
             Requested(Table(defs), before).Some? && AllLegal(Less(before, x)) && Legal(before[x]) &&
             Sorted(Requested(Table(defs), before).value) == Doubled(defs, EditsOf(Less(before, x)), KeyAt(ops, i), EditOf(ops[x]))
    ensures Requested(Table(defs), ops).Some? && AllLegal(Less(ops, InnerAt(ops, i, j)))
    ensures var x := InnerAt(ops, i, j);
            Sorted(Requested(Table(defs), ops).value) == Doubled(defs, EditsOf(Less(ops, x)), KeyAt(ops, i), EditOf(ops[x]))
  {
    var n, x := |ops| - 1, InnerAt(ops, i, j);
    var before, op, k := ops[..n], ops[n], KeyAt(ops, n);
    LessMore(ops, x);
    OthersApart(ops, i, j, x);
    assert Known(Table(defs), op);
    TableFinds(defs, k);
    InHolds(defs, Table(defs)[k]);
    InsertOther(defs, EditsOf(Less(before, x)), KeyAt(ops, i), EditOf(ops[x]), Table(defs)[k], EditOf(op), from);
    RequestMore(Table(defs), ops);
  }

  lemma {:induction false} LessMore(ops: seq<Operation>, x: nat)
    requires AllLegal(ops) && x < |ops| - 1 && AllLegal(Less(ops[..|ops| - 1], x))
    ensures AllLegal(Less(ops, x))
    ensures EditsOf(Less(ops, x)) == EditsOf(Less(ops[..|ops| - 1], x))[KeyAt(ops, |ops| - 1) := EditOf(ops[|ops| - 1])]
  {
    var n, less := |ops| - 1, Less(ops, x);
    LessLegal(ops, x);
    assert less[..n - 1] == Less(ops[..n], x) && less[n - 1] == ops[n];
  }

  lemma {:induction false} RequestMore(table: map<Key, Definition>, ops: seq<Operation>)
    requires ops != [] && Requested(table, ops[..|ops| - 1]).Some? && Known(table, ops[|ops| - 1])
    ensures var op, reps := ops[|ops| - 1], Requested(table, ops[..|ops| - 1]).value;
            var c := ChangeOf(table[(op.name, op.ordinal)], EditOf(op));
            Requested(table, ops) == Some(reps + [c]) && Sorted(reps + [c]) == Insert(c, Sorted(reps))
  {
    var op, reps := ops[|ops| - 1], Requested(table, ops[..|ops| - 1]).value;
    assert (reps + [ChangeOf(table[(op.name, op.ordinal)], EditOf(op))])[..|reps|] == reps;
  }

  /** The definition of a later operation is edited by no earlier one, and the repeated one is. */
  lemma {:induction false} OthersApart(ops: seq<Operation>, i: nat, j: nat, x: nat)
    requires AllLegal(ops) && RepeatsOnce(ops, i, j) && j < |ops| - 1 && (x == i || x == j)
    requires AllLegal(Less(ops[..|ops| - 1], x))
    ensures KeyAt(ops, |ops| - 1) !in EditsOf(Less(ops[..|ops| - 1], x)) && KeyAt(ops, i) in EditsOf(Less(ops[..|ops| - 1], x))
  {
    var n := |ops| - 1;
    var less := Less(ops[..n], x);
    EditsKeys(less, KeyAt(ops, n));
    EditsKeys(less, KeyAt(ops, i));
    forall p | 0 <= p < |less|
      ensures (less[p].name, less[p].ordinal) != KeyAt(ops, n)
    {
      var p' := if p < x then p else p + 1;
      assert less[p] == ops[p'] && KeyAt(ops, p') != KeyAt(ops, n);
    }
    var y := if x == i then j - 1 else i;
    assert less[y] == ops[if x == i then j else i];
  }

  // ----- the serializer ----------------------------------------------------------

  lemma {:induction false} KeyStays(ops: seq<Operation>, i: nat, j: nat)
    requires AllLegal(ops) && RepeatsOnce(ops, i, j) && AllLegal(Less(ops, InnerAt(ops, i, j)))
    ensures var x := InnerAt(ops, i, j); var edits := EditsOf(Less(ops, x)); var k := KeyAt(ops, i);
            k in edits && (EditOf(ops[x]).Drop? ==> edits[k].Drop?)
  {
    var x := InnerAt(ops, i, j);
    var less, y, z := Less(ops, x), if x == i then j - 1 else i, if x == i then j else i;
    LessDistinct(ops, i, j, x);
    assert less[y] == ops[z] && KeyAt(less, y) == KeyAt(ops, i);
    EditAt(less, y);
  }

  lemma {:induction false} LessKnown(table: map<Key, Definition>, ops: seq<Operation>, x: nat)
    requires AllKnown(table, ops) && x < |ops|
    ensures AllKnown(table, Less(ops, x))
  {
  }

  /**
   Two operations on one definition, among others on definitions of their own: the serializer makes of them what it makes
   without the one whose bytes are written first, exactly when those bytes are as long as what they replace, or shorter
   with nothing behind the place of the other one.
   */
  lemma {:induction false} RepeatedExactly(text: string, maximum: int, defs: seq<Definition>, ops: seq<Operation>, i: nat, j: nat)
    requires ParseSource(text, maximum) == Ok(defs) && AllKnown(Table(defs), ops) && RepeatsOnce(ops, i, j)
    ensures var x := InnerAt(ops, i, j); var less := Less(ops, x); var k := KeyAt(ops, i);
            AllLegal(less) && k in EditsOf(less) && Updated(text, defs, ops).Some? && Updated(text, defs, less).Some? &&
            (Updated(text, defs, ops) == Updated(text, defs, less) <==>
               HarmlessIn(Cut(text).value, map[], EditsOf(less), k, EditOf(ops[x])))
  {
    var x, k, lines := InnerAt(ops, i, j), KeyAt(ops, i), Cut(text).value;
    var less := Less(ops, x);
    CutIsWell(text);
    DefinitionsOrdered(lines, 0, map[], defs);
    DefinitionsUnique(lines, 0, map[], defs);
    DefinitionsInside([], lines, map[], defs);
    SortedRepeat(defs, ops, i, j, 0);
    LessDistinct(ops, i, j, x);
    LessKnown(Table(defs), ops, x);
    UpdatedIsEdited(text, lines, defs, less);
    KeyStays(ops, i, j);
    TableFinds(defs, k);
    InHolds(defs, Table(defs)[k]);
    HeldPresent(defs, Table(defs)[k]);
    assert [] + Joined(lines) == text;
    var y := DoubledEdit([], lines, map[], EditsOf(less), defs, text, k, EditOf(ops[x]));
    assert [] + y == y;
  }
}
