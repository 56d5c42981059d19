/** The rows of a keyed store of spool records, ordinary ones and at most one diagnostic, as values. */
module SpoolRows {
  import opened Wrappers
  import opened TextOrder
  import opened SpoolRecords

  predicate Ordinary(r: Record) { r.diagnostic.None? }

  // ----- keys --------------------------------------------------------------------

  predicate HasKey(rows: seq<Record>, key: string) {
    rows != [] && (rows[|rows| - 1].key == key || HasKey(rows[..|rows| - 1], key))
  }

  /** A key occurs once. */
  predicate UniqueKeys(rows: seq<Record>) {
    rows == [] || (UniqueKeys(rows[..|rows| - 1]) && !HasKey(rows[..|rows| - 1], rows[|rows| - 1].key))
  }

  function Without(rows: seq<Record>, key: string): seq<Record> {
    if rows == [] then [] else Without(rows[..|rows| - 1], key) + if rows[|rows| - 1].key == key then [] else [rows[|rows| - 1]]
  }

  lemma {:induction false} KeysMore(rows: seq<Record>, r: Record, key: string)
    ensures HasKey(rows + [r], key) <==> HasKey(rows, key) || r.key == key
    ensures UniqueKeys(rows + [r]) <==> UniqueKeys(rows) && !HasKey(rows, r.key)
    ensures Without(rows + [r], key) == Without(rows, key) + if r.key == key then [] else [r]
  {
    assert (rows + [r])[..|rows|] == rows;
  }

  lemma {:induction false} MemberMore(rows: seq<Record>, x: Record)
    requires rows != []
    ensures x in rows <==> x in rows[..|rows| - 1] || x == rows[|rows| - 1]
  {
    assert rows == rows[..|rows| - 1] + [rows[|rows| - 1]];
  }

  lemma {:induction false} MemberHas(rows: seq<Record>, r: Record)
    requires r in rows
    ensures HasKey(rows, r.key)
  {
    MemberMore(rows, r);
    if r != rows[|rows| - 1] { MemberHas(rows[..|rows| - 1], r); }
  }

  lemma {:induction false} HasMember(rows: seq<Record>, key: string) returns (r: Record)
    requires HasKey(rows, key)
    ensures r in rows && r.key == key
  {
    r := rows[|rows| - 1];
    if r.key != key { r := HasMember(rows[..|rows| - 1], key); }
  }

  lemma {:induction false} SameRecord(rows: seq<Record>, r: Record, x: Record)
    requires UniqueKeys(rows) && r in rows && x in rows && x.key == r.key
    ensures x == r
  {
    var before, last := rows[..|rows| - 1], rows[|rows| - 1];
    MemberMore(rows, r);
    MemberMore(rows, x);
    if r in before { MemberHas(before, r); }
    if x in before { MemberHas(before, x); }
    if r != last { SameRecord(before, r, x); }
  }

  lemma {:induction false} WithoutKeys(rows: seq<Record>, key: string, k: string)
    ensures HasKey(Without(rows, key), k) <==> HasKey(rows, k) && k != key
  {
    if rows != [] {
      var before, last := rows[..|rows| - 1], rows[|rows| - 1];
      WithoutKeys(before, key, k);
      KeysMore(Without(before, key), last, k);
      assert Without(before, key) + [] == Without(before, key);
    }
  }

  lemma {:induction false} WithoutUnique(rows: seq<Record>, key: string)
    requires UniqueKeys(rows)
    ensures UniqueKeys(Without(rows, key))
  {
    if rows != [] {
      var before, last := rows[..|rows| - 1], rows[|rows| - 1];
      WithoutUnique(before, key);
      WithoutKeys(before, key, last.key);
      KeysMore(Without(before, key), last, key);
      assert Without(before, key) + [] == Without(before, key);
    }
  }

  lemma {:induction false} WithoutMember(rows: seq<Record>, key: string, x: Record)
    ensures x in Without(rows, key) <==> x in rows && x.key != key
  {
    if rows != [] {
      WithoutMember(rows[..|rows| - 1], key, x);
      MemberMore(rows, x);
    }
  }

  lemma {:induction false} AbsentStays(rows: seq<Record>, key: string)
    requires !HasKey(rows, key)
    ensures Without(rows, key) == rows
  {
    if rows != [] { AbsentStays(rows[..|rows| - 1], key); }
  }

  // ----- the ordinary records ----------------------------------------------------

  /** The ordinary records besides a key's. */
  function Queue(rows: seq<Record>, key: string): seq<Record> {
    if rows == [] then []
    else
      var r := rows[|rows| - 1];
      Queue(rows[..|rows| - 1], key) + if r.key != key && Ordinary(r) then [r] else []
  }

  function CountOf(records: seq<Record>, x: Record): nat {
    if records == [] then 0 else CountOf(records[..|records| - 1], x) + if records[|records| - 1] == x then 1 else 0
  }

  /** The same records in some order. */
  ghost predicate Same(a: seq<Record>, b: seq<Record>) { forall x :: CountOf(a, x) == CountOf(b, x) }

  lemma {:induction false} CountMore(records: seq<Record>, r: Record, x: Record)
    ensures CountOf(records + [r], x) == CountOf(records, x) + if r == x then 1 else 0
  {
    assert (records + [r])[..|records|] == records;
  }

  lemma {:induction false} CountConcat(a: seq<Record>, b: seq<Record>, x: Record)
    ensures CountOf(a + b, x) == CountOf(a, x) + CountOf(b, x)
  {
    if b == [] {
      assert a + b == a;
    } else {
      var front := b[..|b| - 1];
      CountConcat(a, front, x);
      CountMore(a + front, b[|b| - 1], x);
      assert a + b == (a + front) + [b[|b| - 1]];
    }
  }

  lemma {:induction false} CountMember(records: seq<Record>, x: Record)
    ensures CountOf(records, x) > 0 <==> x in records
  {
    if records != [] {
      CountMember(records[..|records| - 1], x);
      MemberMore(records, x);
    }
  }

  /** How many ordinary records there are besides a key's, and their bytes. */
  function Others(rows: seq<Record>, key: string): nat { |Queue(rows, key)| }

  function OtherBytes(rows: seq<Record>, key: string): nat { Bytes(Queue(rows, key)) }

  lemma {:induction false} QueueMore(rows: seq<Record>, r: Record, key: string)
    ensures Queue(rows + [r], key) == Queue(rows, key) + if r.key != key && Ordinary(r) then [r] else []
  {
    assert (rows + [r])[..|rows|] == rows;
  }

  lemma {:induction false} BytesConcat(a: seq<Record>, b: seq<Record>)
    ensures Bytes(a + b) == Bytes(a) + Bytes(b)
  {
    if b == [] {
      assert a + b == a;
    } else {
      var front := b[..|b| - 1];
      BytesConcat(a, front);
      BytesMore(a + front, b[|b| - 1]);
      assert a + b == (a + front) + [b[|b| - 1]];
    }
  }

  lemma {:induction false} BytesAt(records: seq<Record>, i: nat)
    requires i < |records|
    ensures Bytes(records) == Bytes(records[..i] + records[i + 1..]) + records[i].size
  {
    BytesConcat(records[..i], records[i + 1..]);
    BytesMore(records[..i], records[i]);
    BytesConcat(records[..i + 1], records[i + 1..]);
    assert records[..i] + [records[i]] == records[..i + 1] && records[..i + 1] + records[i + 1..] == records;
  }

  lemma {:induction false} CountAt(records: seq<Record>, i: nat, x: Record)
    requires i < |records|
    ensures CountOf(records, x) == CountOf(records[..i] + records[i + 1..], x) + if records[i] == x then 1 else 0
  {
    CountConcat(records[..i], records[i + 1..], x);
    CountMore(records[..i], records[i], x);
    CountConcat(records[..i + 1], records[i + 1..], x);
    assert records[..i] + [records[i]] == records[..i + 1] && records[..i + 1] + records[i + 1..] == records;
  }

  /** Taking the same record from both leaves the same records. */
  lemma {:induction false} SameRest(a: seq<Record>, last: Record, b: seq<Record>, i: nat)
    requires Same(a + [last], b) && i < |b| && b[i] == last
    ensures Same(a, b[..i] + b[i + 1..])
  {
    forall x
      ensures CountOf(a, x) == CountOf(b[..i] + b[i + 1..], x)
    {
      CountMore(a, last, x);
      CountAt(b, i, x);
      assert CountOf(a + [last], x) == CountOf(b, x);
    }
  }

  /** The same records in another order have the same number and bytes. */
  lemma {:induction false} SameBytes(a: seq<Record>, b: seq<Record>)
    requires Same(a, b)
    ensures |a| == |b| && Bytes(a) == Bytes(b)
  {
    if a == [] {
      SameNone(b);
    } else {
      var last, front := a[|a| - 1], a[..|a| - 1];
      assert a == front + [last];
      CountMember(a, last);
      assert CountOf(a, last) == CountOf(b, last);
      CountMember(b, last);
      var i :| 0 <= i < |b| && b[i] == last;
      SameRest(front, last, b, i);
      SameBytes(front, b[..i] + b[i + 1..]);
      BytesAt(b, i);
    }
  }

  lemma {:induction false} CountIs(records: seq<Record>, x: Record)
    ensures multiset(records)[x] == CountOf(records, x)
  {
    if records != [] {
      CountIs(records[..|records| - 1], x);
      assert records == records[..|records| - 1] + [records[|records| - 1]];
    }
  }

  lemma {:induction false} SameMultiset(a: seq<Record>, b: seq<Record>)
    requires Same(a, b)
    ensures multiset(a) == multiset(b)
  {
    forall x: Record
      ensures multiset(a)[x] == multiset(b)[x]
    {
      CountIs(a, x);
      CountIs(b, x);
      assert CountOf(a, x) == CountOf(b, x);
    }
  }

  lemma {:induction false} SameNone(b: seq<Record>)
    requires Same([], b)
    ensures b == []
  {
    if b != [] {
      assert CountOf(b, b[|b| - 1]) > 0;
    }
  }

  lemma {:induction false} QueueMember(rows: seq<Record>, key: string, r: Record)
    ensures r in Queue(rows, key) <==> r in rows && Ordinary(r) && r.key != key
  {
    if rows != [] {
      QueueMember(rows[..|rows| - 1], key, r);
      MemberMore(rows, r);
    }
  }

  /** Removing a row takes its record out of the queue, and no other. */
  lemma {:induction false} QueueWithout(rows: seq<Record>, r: Record, key: string, x: Record)
    requires UniqueKeys(rows) && r in rows && Ordinary(r) && r.key != key
    ensures CountOf(Queue(rows, key), x) == CountOf(Queue(Without(rows, r.key), key), x) + if r == x then 1 else 0
  {
    var before, last := rows[..|rows| - 1], rows[|rows| - 1];
    MemberMore(rows, r);
    if last.key == r.key {
      if r in before { MemberHas(before, r); }
      AbsentStays(before, r.key);
      CountMore(Queue(before, key), last, x);
      assert before + [] == before;
    } else {
      QueueWithout(before, r, key, x);
      QueueCount(before, last, key, x);
      QueueCount(Without(before, r.key), last, key, x);
      assert before + [last] == rows;
    }
  }

  lemma {:induction false} QueueCount(rows: seq<Record>, r: Record, key: string, x: Record)
    ensures CountOf(Queue(rows + [r], key), x) == CountOf(Queue(rows, key), x) + if r == x && r.key != key && Ordinary(r) then 1 else 0
  {
    QueueMore(rows, r, key);
    CountMore(Queue(rows, key), r, x);
    assert Queue(rows, key) + [] == Queue(rows, key);
  }

  /** With the record put back at the end, it is the same queue. */
  lemma {:induction false} QueueSplit(rows: seq<Record>, r: Record, key: string)
    requires UniqueKeys(rows) && r in rows && Ordinary(r) && r.key != key
    ensures Same(Queue(rows, key), Queue(Without(rows, r.key), key) + [r])
  {
    forall x
      ensures CountOf(Queue(rows, key), x) == CountOf(Queue(Without(rows, r.key), key) + [r], x)
    {
      QueueWithout(rows, r, key, x);
      CountMore(Queue(Without(rows, r.key), key), r, x);
    }
  }

  /** Removing a row that is not ordinary, or the key's own, leaves the queue as it is. */
  lemma {:induction false} QueueStays(rows: seq<Record>, key: string, own: string)
    requires key == own || !HasKey(Queue(rows, own), key)
    ensures Queue(Without(rows, key), own) == Queue(rows, own)
  {
    if rows != [] {
      var before, last := rows[..|rows| - 1], rows[|rows| - 1];
      KeysMore(Queue(before, own), last, key);
      assert Queue(before, own) + [] == Queue(before, own);
      QueueStays(before, key, own);
      if last.key != key { QueueMore(Without(before, key), last, own); } else { assert Without(before, key) + [] == Without(before, key); }
    }
  }

  /** Without a key's record, the queue besides the empty key is the one besides that key. */
  lemma {:induction false} QueueOfOthers(rows: seq<Record>, key: string)
    requires !HasKey(rows, "")
    ensures Queue(Without(rows, key), "") == Queue(rows, key)
  {
    if rows != [] {
      var before, last := rows[..|rows| - 1], rows[|rows| - 1];
      QueueOfOthers(before, key);
      if last.key != key { QueueMore(Without(before, key), last, ""); } else { assert Without(before, key) + [] == Without(before, key); }
    }
  }

  /** Sorting loses and changes nothing. */
  lemma {:induction false} QueueInsert(sorted: seq<Record>, r: Record, key: string, x: Record)
    ensures CountOf(Queue(Insert(sorted, r), key), x) == CountOf(Queue(sorted + [r], key), x)
  {
    if sorted != [] && Older(r, sorted[|sorted| - 1]) {
      var before, last := sorted[..|sorted| - 1], sorted[|sorted| - 1];
      assert before + [last] == sorted;
      QueueInsert(before, r, key, x);
      QueueCount(before, r, key, x);
      QueueCount(before, last, key, x);
      QueueCount(sorted, r, key, x);
      QueueCount(Insert(before, r), last, key, x);
    }
  }

  lemma {:induction false} QueueSortedAt(rows: seq<Record>, key: string, x: Record)
    ensures CountOf(Queue(Chronological(rows), key), x) == CountOf(Queue(rows, key), x)
  {
    if rows != [] {
      var before, last := rows[..|rows| - 1], rows[|rows| - 1];
      assert before + [last] == rows;
      QueueSortedAt(before, key, x);
      QueueInsert(Chronological(before), last, key, x);
      QueueCount(Chronological(before), last, key, x);
      QueueCount(before, last, key, x);
    }
  }

  lemma {:induction false} QueueSorted(rows: seq<Record>, key: string)
    ensures Same(Queue(Chronological(rows), key), Queue(rows, key))
  {
    forall x
      ensures CountOf(Queue(Chronological(rows), key), x) == CountOf(Queue(rows, key), x)
    {
      QueueSortedAt(rows, key, x);
    }
  }

  lemma {:induction false} SortedMember(rows: seq<Record>, x: Record)
    ensures x in Chronological(rows) <==> x in rows
  {
    ChronologicalSorts(rows);
    assert x in multiset(Chronological(rows)) <==> x in multiset(rows);
  }

  lemma {:induction false} SortedKeys(rows: seq<Record>)
    requires UniqueKeys(rows)
    ensures UniqueKeys(Chronological(rows))
  {
    if rows != [] {
      var before, last := rows[..|rows| - 1], rows[|rows| - 1];
      var inner := Chronological(before);
      SortedKeys(before);
      if HasKey(inner, last.key) {
        var r := HasMember(inner, last.key);
        SortedMember(before, r);
        MemberHas(before, r);
      }
      InsertKeys(inner, last, last.key);
    }
  }

  lemma {:induction false} InsertKeys(sorted: seq<Record>, r: Record, key: string)
    ensures HasKey(Insert(sorted, r), key) <==> HasKey(sorted, key) || r.key == key
    ensures UniqueKeys(sorted) && !HasKey(sorted, r.key) ==> UniqueKeys(Insert(sorted, r))
  {
    if sorted == [] || !Older(r, sorted[|sorted| - 1]) {
      KeysMore(sorted, r, key);
    } else {
      var before, last := sorted[..|sorted| - 1], sorted[|sorted| - 1];
      InsertKeys(before, r, key);
      InsertKeys(before, r, last.key);
      KeysMore(Insert(before, r), last, key);
    }
  }

  // ----- the diagnostic ----------------------------------------------------------

  function Diagnostics(rows: seq<Record>): seq<Record> {
    if rows == [] then []
    else Diagnostics(rows[..|rows| - 1]) + if Ordinary(rows[|rows| - 1]) then [] else [rows[|rows| - 1]]
  }

  lemma {:induction false} DiagnosticsMore(rows: seq<Record>, r: Record)
    ensures Diagnostics(rows + [r]) == Diagnostics(rows) + if Ordinary(r) then [] else [r]
  {
    assert (rows + [r])[..|rows|] == rows;
  }

  lemma {:induction false} DiagnosticsAre(rows: seq<Record>, r: Record)
    ensures r in Diagnostics(rows) <==> r in rows && !Ordinary(r)
  {
    if rows != [] {
      DiagnosticsAre(rows[..|rows| - 1], r);
      MemberMore(rows, r);
    }
  }

  /** A key that no diagnostic has is not among the earlier ones either. */
  lemma {:induction false} NoDiagnostic(rows: seq<Record>, key: string)
    requires rows != [] && !HasKey(Diagnostics(rows), key)
    ensures !HasKey(Diagnostics(rows[..|rows| - 1]), key)
    ensures rows[|rows| - 1].key == key ==> Diagnostics(rows) == Diagnostics(rows[..|rows| - 1])
  {
    var before, last := rows[..|rows| - 1], rows[|rows| - 1];
    KeysMore(Diagnostics(before), last, key);
    assert Diagnostics(before) + [] == Diagnostics(before);
  }

  /** Removing a key that no diagnostic has leaves the diagnostics alone. */
  lemma {:induction false} DiagnosticsStay(rows: seq<Record>, key: string)
    requires !HasKey(Diagnostics(rows), key)
    ensures Diagnostics(Without(rows, key)) == Diagnostics(rows)
  {
    if rows != [] {
      var before, last := rows[..|rows| - 1], rows[|rows| - 1];
      NoDiagnostic(rows, key);
      DiagnosticsStay(before, key);
      if last.key == key {
        assert Without(before, key) + [] == Without(before, key);
      } else {
        DiagnosticsMore(Without(before, key), last);
      }
    }
  }

  /** Removing a record of another kind leaves the diagnostics alone; removing the only one leaves none. */
  lemma {:induction false} DiagnosticsBut(rows: seq<Record>, r: Record)
    requires UniqueKeys(rows) && r in rows && |Diagnostics(rows)| <= 1
    ensures Diagnostics(Without(rows, r.key)) == if Ordinary(r) then Diagnostics(rows) else []
    ensures !Ordinary(r) ==> Diagnostics(rows) == [r]
  {
    DiagnosticsAre(rows, r);
    if Ordinary(r) {
      OtherKind(rows, r);
      DiagnosticsStay(rows, r.key);
    } else {
      OnlyOneGone(rows, r);
    }
  }

  lemma {:induction false} OtherKind(rows: seq<Record>, r: Record)
    requires UniqueKeys(rows) && r in rows
    ensures Ordinary(r) ==> !HasKey(Diagnostics(rows), r.key)
    ensures !Ordinary(r) ==> forall own :: !HasKey(Queue(rows, own), r.key)
  {
    if Ordinary(r) && HasKey(Diagnostics(rows), r.key) {
      var d := HasMember(Diagnostics(rows), r.key);
      DiagnosticsAre(rows, d);
      SameRecord(rows, r, d);
    }
    forall own | !Ordinary(r)
      ensures !HasKey(Queue(rows, own), r.key)
    {
      if HasKey(Queue(rows, own), r.key) {
        var d := HasMember(Queue(rows, own), r.key);
        QueueMember(rows, own, d);
        SameRecord(rows, r, d);
      }
    }
  }

  lemma {:induction false} OnlyOneGone(rows: seq<Record>, r: Record)
    requires Diagnostics(rows) == [r]
    ensures Diagnostics(Without(rows, r.key)) == []
  {
    var before, last := rows[..|rows| - 1], rows[|rows| - 1];
    if Ordinary(last) {
      assert Diagnostics(before) + [] == Diagnostics(before);
      OnlyOneGone(before, r);
      if last.key != r.key { DiagnosticsMore(Without(before, r.key), last); } else { assert Without(before, r.key) + [] == Without(before, r.key); }
    } else {
      assert Diagnostics(before) == (Diagnostics(before) + [last])[..|Diagnostics(before)|] == [] && last == (Diagnostics(before) + [last])[0] == r;
      DiagnosticsStay(before, r.key);
      assert Without(before, r.key) + [] == Without(before, r.key);
    }
  }

  // ----- putting a row -----------------------------------------------------------

  function Put(rows: seq<Record>, r: Record): seq<Record> { Without(rows, r.key) + [r] }

  lemma {:induction false} PutKeys(rows: seq<Record>, r: Record)
    requires UniqueKeys(rows) && !HasKey(rows, "") && r.key != ""
    ensures UniqueKeys(Put(rows, r)) && !HasKey(Put(rows, r), "")
  {
    WithoutUnique(rows, r.key);
    WithoutKeys(rows, r.key, r.key);
    WithoutKeys(rows, r.key, "");
    KeysMore(Without(rows, r.key), r, "");
  }

  lemma {:induction false} PutMember(rows: seq<Record>, r: Record, x: Record)
    requires x.key != r.key
    ensures x in Put(rows, r) <==> x in rows
  {
    WithoutMember(rows, r.key, x);
  }

  /** A new ordinary record joins the others. */
  lemma {:induction false} PutOrdinary(rows: seq<Record>, r: Record)
    requires Ordinary(r) && r.key != "" && !HasKey(rows, "") && !HasKey(Diagnostics(rows), r.key)
    ensures Queue(Put(rows, r), "") == Queue(rows, r.key) + [r] && Queue(Put(rows, r), r.key) == Queue(rows, r.key)
    ensures Diagnostics(Put(rows, r)) == Diagnostics(rows)
  {
    QueueOfOthers(rows, r.key);
    QueueStays(rows, r.key, r.key);
    QueueMore(Without(rows, r.key), r, "");
    QueueMore(Without(rows, r.key), r, r.key);
    DiagnosticsStay(rows, r.key);
    DiagnosticsMore(Without(rows, r.key), r);
    assert Queue(rows, r.key) + [] == Queue(rows, r.key) && Diagnostics(rows) + [] == Diagnostics(rows);
  }

  /** A diagnostic in place of the one there was, or under a new key, is the only one. */
  lemma {:induction false} PutDiagnostic(rows: seq<Record>, found: Option<Record>, r: Record)
    requires UniqueKeys(rows) && !Ordinary(r)
    requires if found.Some? then found.value in rows && Diagnostics(rows) == [found.value] && r.key == found.value.key
             else Diagnostics(rows) == [] && !HasKey(rows, r.key)
    ensures Diagnostics(Put(rows, r)) == [r] && Queue(Put(rows, r), "") == Queue(rows, "")
  {
    DiagnosticsMore(Without(rows, r.key), r);
    QueueMore(Without(rows, r.key), r, "");
    if found.Some? {
      DiagnosticsAre(rows, found.value);
      OtherKind(rows, found.value);
      OnlyOneGone(rows, found.value);
      QueueStays(rows, r.key, "");
    } else {
      AbsentStays(rows, r.key);
    }
    assert Queue(rows, "") + [] == Queue(rows, "") && [] + [r] == [r];
  }

  /** A record put back under its key with its size and kind changes no count, no bytes, and no other diagnostic. */
  lemma {:induction false} PutBack(rows: seq<Record>, r: Record, later: Record)
    requires UniqueKeys(rows) && r in rows && r.key != "" && |Diagnostics(rows)| <= 1
    requires later.key == r.key && later.size == r.size && later.diagnostic == r.diagnostic
    ensures Others(Put(rows, later), "") == Others(rows, "") && OtherBytes(Put(rows, later), "") == OtherBytes(rows, "")
    ensures Diagnostics(Put(rows, later)) == if Ordinary(r) then Diagnostics(rows) else [later]
    ensures !Ordinary(r) ==> Diagnostics(rows) == [r]
  {
    if Ordinary(r) {
      PutBackOrdinary(rows, r, later);
    } else {
      DiagnosticsBut(rows, r);
      PutDiagnostic(rows, Some(r), later);
    }
  }

  lemma {:induction false} PutBackOrdinary(rows: seq<Record>, r: Record, later: Record)
    requires UniqueKeys(rows) && r in rows && r.key != "" && |Diagnostics(rows)| <= 1 && Ordinary(r)
    requires later.key == r.key && later.size == r.size && later.diagnostic == r.diagnostic
    ensures Others(Put(rows, later), "") == Others(rows, "") && OtherBytes(Put(rows, later), "") == OtherBytes(rows, "")
    ensures Diagnostics(Put(rows, later)) == Diagnostics(rows)
  {
    var rest := Without(rows, r.key);
    DiagnosticsBut(rows, r);
    DiagnosticsMore(rest, later);
    assert Diagnostics(rows) + [] == Diagnostics(rows);
    QueueMore(rest, later, "");
    QueueSplit(rows, r, "");
    SameBytes(Queue(rows, ""), Queue(rest, "") + [r]);
    BytesMore(Queue(rest, ""), r);
    BytesMore(Queue(rest, ""), later);
  }
}
