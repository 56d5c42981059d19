/** What validation is good for: the change it admits can be grouped, written, and read back. */
module ValidatedChanges {
  import opened Wrappers
  import opened EnvText
  import opened EnvEditor
  import opened EnvSplice
  import opened EnvRepeats
  import opened Validation
  import EnvFile
  import W = SourceWriter
  import P = ApplyPlan

  // ----- the staged items --------------------------------------------------------

  lemma {:induction false} PersistedAt(items: seq<Item>)
    ensures |Persisted(items)| == |items|
    ensures forall i :: 0 <= i < |items| ==>
              Persisted(items)[i] == P.Item(items[i].sourceId, OperationOf(items[i]), items[i].fingerprint)
  {
    if items != [] { PersistedAt(items[..|items| - 1]); }
  }

  /** An admitted item's source was read, and its bytes speak for the item. */
  lemma {:induction false} AdmittedBytes(s: Setting, item: Item, seen: map<string, Read>)
    requires ItemOk(s, item, seen)
    ensures item.sourceId in seen && seen[item.sourceId].Content? && item.sourceId in s.sources
    ensures BytesError(s, item, seen[item.sourceId].bytes).None?
  {
  }

  /** The items of one source agree on its bytes, so that the writes can be grouped. */
  lemma {:induction false} AdmittedGroups(s: Setting, items: seq<Item>, seen: map<string, Read>)
    requires Admitted(s, items, seen)
    ensures P.GroupsOf(Persisted(items)).Some?
  {
    var persisted := Persisted(items);
    PersistedAt(items);
    forall i, j | 0 <= i < j < |persisted| && persisted[i].sourceId == persisted[j].sourceId
      ensures persisted[i].fingerprint == persisted[j].fingerprint
    {
      AdmittedBytes(s, items[i], seen);
      AdmittedBytes(s, items[j], seen);
    }
    P.GroupingFails(persisted);
  }

  // ----- the serializer ----------------------------------------------------------

  /** A name that occurs has a definition with the next ordinal. */
  lemma {:induction false} FirstOf(pre: string, lines: seq<Line>, seen: map<string, nat>, defs: seq<Definition>, name: string)
    requires Definitions(lines, |pre|, seen) == Some(defs) && W.Occurrences(defs, name) > 0
    ensures exists i :: 0 <= i < |defs| && KeyOf(defs[i]) == (name, Count(seen, name))
    decreases lines
  {
    var passed := pre + lines[0].body + lines[0].term;
    match ParseStatement(lines[0].body)
    case Blank =>
      BlankFirst(pre, lines, seen, defs);
      FirstOf(passed, lines[1..], seen, defs, name);
    case Assign(own, v) =>
      AssignFirst(pre, lines, seen, own, v, defs);
      if own != name {
        FirstOf(passed, lines[1..], Seen(seen, own), defs[1..], name);
        var i :| 0 <= i < |defs[1..]| && KeyOf(defs[1..][i]) == (name, Count(seen, name));
        assert defs[i + 1] == defs[1..][i];
      } else {
        assert KeyOf(defs[0]) == (name, Count(seen, name));
      }
  }

  /** A source's only definition of a name is known under the ordinal 0. */
  lemma {:induction false} OnlyKnown(bytes: string, maximum: int, defs: seq<Definition>, name: string)
    requires EnvFile.ParseSource(bytes, maximum) == Ok(defs) && W.Occurrences(defs, name) == 1
    ensures (name, 0) in Table(defs)
  {
    FirstOf([], Cut(bytes).value, map[], defs, name);
    TableFinds(defs, (name, 0));
  }

  /** The operation is the one of some item on the source. */
  predicate Stems(items: seq<Item>, id: string, op: Operation) {
    exists i :: 0 <= i < |items| && items[i].sourceId == id && op == OperationOf(items[i])
  }

  /** The operations on a source come from its items. */
  lemma {:induction false} OpsFrom(items: seq<Item>, id: string)
    ensures forall op :: op in P.OpsFor(Persisted(items), id) ==> Stems(items, id, op)
  {
    if items != [] {
      var before, last := items[..|items| - 1], items[|items| - 1];
      OpsFrom(before, id);
      assert Persisted(items)[..|Persisted(items)| - 1] == Persisted(before);
      forall op | op in P.OpsFor(Persisted(items), id)
        ensures Stems(items, id, op)
      {
        if op in P.OpsFor(Persisted(before), id) {
          var i :| 0 <= i < |before| && before[i].sourceId == id && op == OperationOf(before[i]);
          assert items[i] == before[i];
        } else {
          assert last.sourceId == id && op == OperationOf(last);
        }
      }
    }
  }

  /** The bytes of a source were read and parsed as some definitions. */
  predicate ReadAs(s: Setting, seen: map<string, Read>, id: string, bytes: string, defs: seq<Definition>) {
    id in s.sources && id in seen && seen[id] == Content(bytes) && EnvFile.ParseSource(bytes, s.sources[id].maximum) == Ok(defs)
  }

  lemma {:induction false} AdmittedItem(s: Setting, item: Item, seen: map<string, Read>, bytes: string, defs: seq<Definition>)
    requires ItemOk(s, item, seen) && ItemFormed(item) && ReadAs(s, seen, item.sourceId, bytes, defs)
    ensures Known(Table(defs), OperationOf(item)) && W.Occurrences(defs, item.name) == 1
  {
    AdmittedBytes(s, item, seen);
    OnlyKnown(bytes, s.sources[item.sourceId].maximum, defs, item.name);
  }

  lemma {:induction false} OpsKnown(s: Setting, items: seq<Item>, seen: map<string, Read>, id: string, bytes: string, defs: seq<Definition>)
    requires Admitted(s, items, seen) && ReadAs(s, seen, id, bytes, defs)
    ensures var ops := P.OpsFor(Persisted(items), id); AllKnown(Table(defs), ops) && W.SingleDefinitions(defs, ops)
  {
    var ops := P.OpsFor(Persisted(items), id);
    OpsFrom(items, id);
    forall i | 0 <= i < |ops|
      ensures Known(Table(defs), ops[i]) && W.Occurrences(defs, ops[i].name) == 1
    {
      assert ops[i] in ops;
      var k :| 0 <= k < |items| && items[k].sourceId == id && ops[i] == OperationOf(items[k]);
      AdmittedItem(s, items[k], seen, bytes, defs);
    }
    assert forall i :: 0 <= i < |ops| ==> Known(Table(defs), ops[i]);
  }

  /**
   On the bytes that a source was validated with, the writer's serializer accepts the operations on it: validation refuses
   whatever it would refuse. Only the size of the result is left to the write.
   */
  lemma {:induction false} AdmittedWrites(s: Setting, items: seq<Item>, seen: map<string, Read>, i: nat)
    requires Admitted(s, items, seen) && i < |items|
    ensures var id := items[i].sourceId;
            id in s.sources && id in seen && seen[id].Content? &&
            W.RewriteText(seen[id].bytes, s.sources[id].maximum, P.OpsFor(Persisted(items), id)).Some?
  {
    var id := items[i].sourceId;
    AdmittedBytes(s, items[i], seen);
    var bytes, ops := seen[id].bytes, P.OpsFor(Persisted(items), id);
    var defs := EnvFile.ParseSource(bytes, s.sources[id].maximum).value;
    OpsKnown(s, items, seen, id, bytes, defs);
    OpsThere(items, i);
    RequestRefused(Table(defs), ops);
  }

  lemma {:induction false} OpsThere(items: seq<Item>, i: nat)
    requires i < |items|
    ensures OperationOf(items[i]) in P.OpsFor(Persisted(items), items[i].sourceId)
  {
    assert Persisted(items)[..|Persisted(items)| - 1] == Persisted(items[..|items| - 1]);
    if i < |items| - 1 { OpsThere(items[..|items| - 1], i); }
  }

  // ----- one operation a definition ----------------------------------------------

  predicate SameVariable(a: Item, b: Item) { a.sourceId == b.sourceId && a.name == b.name }

  /** No two items on the source name one variable. */
  predicate ApartOn(items: seq<Item>, id: string) {
    forall i, j :: 0 <= i < j < |items| && items[i].sourceId == id ==> !SameVariable(items[i], items[j])
  }

  /** The operations on a source are on distinct definitions exactly when its items name distinct variables. */
  lemma {:induction false} OpsDistinct(items: seq<Item>, id: string)
    ensures Distinct(P.OpsFor(Persisted(items), id)) <==> ApartOn(items, id)
  {
    if items != [] {
      var before, last := items[..|items| - 1], items[|items| - 1];
      var ops := P.OpsFor(Persisted(before), id);
      assert Persisted(items)[..|Persisted(items)| - 1] == Persisted(before);
      OpsDistinct(before, id);
      ApartMore(before, last, id);
      assert items == before + [last];
      if last.sourceId == id {
        DistinctMore(ops, OperationOf(last));
        NamesOf(before, last);
        assert P.OpsFor(Persisted(items), id) == ops + [OperationOf(last)];
      } else {
        assert P.OpsFor(Persisted(items), id) == ops + [] == ops;
      }
    }
  }

  lemma {:induction false} ApartMore(items: seq<Item>, last: Item, id: string)
    ensures ApartOn(items + [last], id) <==>
            ApartOn(items, id) && (last.sourceId == id ==> forall i :: 0 <= i < |items| ==> !SameVariable(items[i], last))
  {
    var more := items + [last];
    if ApartOn(more, id) {
      forall i, j | 0 <= i < j < |items| && items[i].sourceId == id
        ensures !SameVariable(items[i], items[j])
      {
        assert more[i] == items[i] && more[j] == items[j];
      }
      forall i | 0 <= i < |items| && last.sourceId == id
        ensures !SameVariable(items[i], last)
      {
        assert more[i] == items[i] && more[|items|] == last;
      }
    }
  }

  lemma {:induction false} DistinctMore(ops: seq<Operation>, op: Operation)
    ensures Distinct(ops + [op]) <==>
            Distinct(ops) && forall k :: 0 <= k < |ops| ==> (ops[k].name, ops[k].ordinal) != (op.name, op.ordinal)
  {
    var more := ops + [op];
    if Distinct(more) {
      forall i, j | 0 <= i < j < |ops|
        ensures (ops[i].name, ops[i].ordinal) != (ops[j].name, ops[j].ordinal)
      {
        assert more[i] == ops[i] && more[j] == ops[j];
      }
      forall k | 0 <= k < |ops|
        ensures (ops[k].name, ops[k].ordinal) != (op.name, op.ordinal)
      {
        assert more[k] == ops[k] && more[|ops|] == op;
      }
    }
  }

  /** The operations on a source name what its items name. */
  lemma {:induction false} NamesOf(items: seq<Item>, last: Item)
    ensures var ops, op := P.OpsFor(Persisted(items), last.sourceId), OperationOf(last);
            (forall k :: 0 <= k < |ops| ==> (ops[k].name, ops[k].ordinal) != (op.name, op.ordinal)) <==>
            forall i :: 0 <= i < |items| ==> !SameVariable(items[i], last)
  {
    var ops, op := P.OpsFor(Persisted(items), last.sourceId), OperationOf(last);
    OpsFrom(items, last.sourceId);
    if i :| 0 <= i < |items| && SameVariable(items[i], last) {
      OpsThere(items, i);
      var k :| 0 <= k < |ops| && ops[k] == OperationOf(items[i]);
    }
    if k :| 0 <= k < |ops| && (ops[k].name, ops[k].ordinal) == (op.name, op.ordinal) {
      assert ops[k] in ops;
      var i :| 0 <= i < |items| && items[i].sourceId == last.sourceId && ops[k] == OperationOf(items[i]);
      assert SameVariable(items[i], last);
    }
  }

  /** The request edits some variable twice. */
  predicate EditsTwice(items: seq<Item>) { exists i, j :: 0 <= i < j < |items| && SameVariable(items[i], items[j]) }

  /** Some change of a catalog entry's variable is admitted: it can be edited, its source has it once, and it has a value. */
  ghost predicate Editable(s: Setting, seen: map<string, Read>, id: string) {
    id in s.catalog &&
    var e := s.catalog[id];
    e.appId == s.appId && !e.observed && !e.requirement.Unknown? && e.sourceId in s.sources &&
    s.sources[e.sourceId].appId == s.appId && s.sources[e.sourceId].controlled && HasOnce(s, seen, e) &&
    (e.requirement.Optional? || exists v :: ValueOk(s, id, v))
  }

  predicate HasOnce(s: Setting, seen: map<string, Read>, e: CatalogEntry)
    requires e.sourceId in s.sources
  {
    e.sourceId in seen && seen[e.sourceId].Content? &&
    var parsed := EnvFile.ParseSource(seen[e.sourceId].bytes, s.sources[e.sourceId].maximum);
    parsed.Ok? && W.Occurrences(parsed.value, e.name) == 1
  }

  lemma {:induction false} EditableItem(s: Setting, seen: map<string, Read>, id: string) returns (item: Item)
    requires Editable(s, seen, id)
    ensures item.catalogId == id && item.sourceId == s.catalog[id].sourceId && item.name == s.catalog[id].name
    ensures item.appId == s.appId && ItemFormed(item) && ItemOk(s, item, seen)
  {
    var e := s.catalog[id];
    var delete := e.requirement.Optional?;
    var value := None;
    if !delete {
      var v :| ValueOk(s, id, v);
      value := Some(v);
    }
    item := Item(s.appId, e.sourceId, id, e.name, delete, value, e.requirement, false, e.strategy,
                 W.Fingerprint(e.sourceId, seen[e.sourceId].bytes));
  }

  lemma {:induction false} ItemEditable(s: Setting, seen: map<string, Read>, item: Item)
    requires ItemFormed(item) && ItemOk(s, item, seen)
    ensures Editable(s, seen, item.catalogId)
    ensures item.sourceId == s.catalog[item.catalogId].sourceId && item.name == s.catalog[item.catalogId].name
  {
    if !item.delete { assert ValueOk(s, item.catalogId, item.value.value); }
  }

  /** Two entries of the catalog stand for one variable of a source, and either can be edited. */
  ghost predicate EntriesClash(s: Setting, seen: map<string, Read>, a: string, b: string) {
    a != b && Editable(s, seen, a) && Editable(s, seen, b) &&
    s.catalog[a].sourceId == s.catalog[b].sourceId && s.catalog[a].name == s.catalog[b].name
  }

  lemma {:induction false} TwiceClash(s: Setting, items: seq<Item>, seen: map<string, Read>, i: nat, j: nat)
    requires Admitted(s, items, seen) && i < j < |items| && SameVariable(items[i], items[j])
    ensures EntriesClash(s, seen, items[i].catalogId, items[j].catalogId)
  {
    ItemEditable(s, seen, items[i]);
    ItemEditable(s, seen, items[j]);
    assert !SameTarget(items[i], items[j]);
  }

  lemma {:induction false} ClashTwice(s: Setting, seen: map<string, Read>, a: string, b: string) returns (items: seq<Item>)
    requires EntriesClash(s, seen, a, b)
    ensures Admitted(s, items, seen) && EditsTwice(items)
  {
    var first := EditableItem(s, seen, a);
    var second := EditableItem(s, seen, b);
    items := [first, second];
    assert SameVariable(items[0], items[1]);
  }

  /** Validation admits a request that edits a variable twice exactly when two editable catalog entries stand for it. */
  lemma {:induction false} TwiceAdmitted(s: Setting, seen: map<string, Read>)
    ensures (exists items: seq<Item> :: Admitted(s, items, seen) && EditsTwice(items)) <==>
            exists a, b :: EntriesClash(s, seen, a, b)
  {
    if items: seq<Item> :| Admitted(s, items, seen) && EditsTwice(items) {
      var i, j :| 0 <= i < j < |items| && SameVariable(items[i], items[j]);
      TwiceClash(s, items, seen, i, j);
    }
    if a, b :| EntriesClash(s, seen, a, b) {
      var items := ClashTwice(s, seen, a, b);
    }
  }

  // ----- reading back ------------------------------------------------------------

  lemma {:induction false} EditsFrom(ops: seq<Operation>, k: Key)
    requires AllLegal(ops) && k in EditsOf(ops)
    ensures exists op :: op in ops && Legal(op) && EditsOf(ops)[k] == EditOf(op)
  {
    var before, last := ops[..|ops| - 1], ops[|ops| - 1];
    assert ops == before + [last] && last in ops;
    if k != (last.name, last.ordinal) { EditsFrom(before, k); }
  }

  lemma {:induction false} ValuesNulFree(defs: seq<Definition>, edits: map<Key, Edit>)
    requires forall k :: k in edits && edits[k].Put? ==> '\0' !in edits[k].value
    ensures EnvFile.NulFree(defs, edits)
  {
    if defs != [] { ValuesNulFree(defs[1..], edits); }
  }

  lemma {:induction false} AdmittedNulFree(s: Setting, items: seq<Item>, seen: map<string, Read>, id: string, defs: seq<Definition>)
    requires Admitted(s, items, seen) && AllLegal(P.OpsFor(Persisted(items), id))
    ensures EnvFile.NulFree(defs, EditsOf(P.OpsFor(Persisted(items), id)))
  {
    var ops := P.OpsFor(Persisted(items), id);
    var edits := EditsOf(ops);
    OpsFrom(items, id);
    forall k | k in edits && edits[k].Put?
      ensures '\0' !in edits[k].value
    {
      EditsFrom(ops, k);
      var op :| op in ops && Legal(op) && edits[k] == EditOf(op);
      var i :| 0 <= i < |items| && items[i].sourceId == id && op == OperationOf(items[i]);
      AdmittedBytes(s, items[i], seen);
    }
    ValuesNulFree(defs, edits);
  }

  /** The text reads as the edits say. */
  predicate ReadsAs(text: string, maximum: int, defs: seq<Definition>, edits: map<Key, Edit>) {
    var after := EnvFile.ParseSource(text, maximum);
    after.Ok? && EnvFile.NamesValues(after.value) == Expected(defs, edits)
  }

  lemma {:induction false} FittingReads(bytes: string, maximum: nat, ops: seq<Operation>, defs: seq<Definition>)
    requires Distinct(ops) && W.RewriteText(bytes, maximum, ops).Some? && AllLegal(ops)
    requires EnvFile.ParseSource(bytes, maximum) == Ok(defs) && EnvFile.NulFree(defs, EditsOf(ops))
    ensures var text := W.RewriteText(bytes, maximum, ops).value;
            |text| <= maximum ==> (ReadsAs(text, maximum, defs, EditsOf(ops)) <==> Faithful(Cut(bytes).value, map[], EditsOf(ops), defs))
  {
    if |W.RewriteText(bytes, maximum, ops).value| <= maximum { W.RewriteReads(bytes, maximum, ops); }
  }

  /**
   An admitted change that names a source's variables once each: on the bytes it was validated with, a write that fits reads
   back as the change says exactly when the edits are faithful to the text around them.
   */
  lemma {:induction false} AdmittedReads(s: Setting, items: seq<Item>, seen: map<string, Read>, i: nat, bytes: string,
                                         defs: seq<Definition>)
    requires Admitted(s, items, seen) && i < |items| && ReadAs(s, seen, items[i].sourceId, bytes, defs)
    requires ApartOn(items, items[i].sourceId)
    ensures var id := items[i].sourceId; var ops := P.OpsFor(Persisted(items), id); var maximum := s.sources[id].maximum;
            var text := W.RewriteText(bytes, maximum, ops);
            AllLegal(ops) && text.Some? &&
            (|text.value| <= maximum ==>
               (ReadsAs(text.value, maximum, defs, EditsOf(ops)) <==> Faithful(Cut(bytes).value, map[], EditsOf(ops), defs)))
  {
    var id := items[i].sourceId;
    var ops, maximum := P.OpsFor(Persisted(items), id), s.sources[id].maximum;
    AdmittedWrites(s, items, seen, i);
    OpsKnown(s, items, seen, id, bytes, defs);
    OpsDistinct(items, id);
    AdmittedNulFree(s, items, seen, id, defs);
    FittingReads(bytes, maximum, ops, defs);
  }

  /** The catalog describes a variable of a source once. */
  predicate OneEntryPerVariable(catalog: map<string, CatalogEntry>) {
    forall a, b :: a in catalog && b in catalog && a != b ==>
      (catalog[a].sourceId, catalog[a].name) != (catalog[b].sourceId, catalog[b].name)
  }

  /** With one catalog entry per variable, every admitted change names each variable once. */
  lemma {:induction false} OneEntryApart(s: Setting, items: seq<Item>, seen: map<string, Read>, id: string)
    requires Admitted(s, items, seen) && OneEntryPerVariable(s.catalog)
    ensures ApartOn(items, id)
  {
    forall i, j | 0 <= i < j < |items| && items[i].sourceId == id
      ensures !SameVariable(items[i], items[j])
    {
      ItemEditable(s, seen, items[i]);
      ItemEditable(s, seen, items[j]);
      assert !SameTarget(items[i], items[j]);
    }
  }
}
