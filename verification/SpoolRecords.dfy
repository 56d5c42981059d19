/** Records of the telemetry spools: their order, and when a failed delivery is tried again. */
module SpoolRecords {
  import opened Wrappers
  import opened TextOrder

  /** A queued event; times are milliseconds. An eviction diagnostic carries the number of events it stands for. */
  datatype Record = Record(key: string, size: nat, enqueuedAt: int, attempts: nat, nextAttemptAt: Option<int>,
                           diagnostic: Option<nat>)

  // ----- order -------------------------------------------------------------------

  predicate Older(a: Record, b: Record) { a.enqueuedAt < b.enqueuedAt || (a.enqueuedAt == b.enqueuedAt && Below(a.key, b.key)) }

  function Insert(sorted: seq<Record>, r: Record): seq<Record> {
    if sorted == [] || !Older(r, sorted[|sorted| - 1]) then sorted + [r]
    else Insert(sorted[..|sorted| - 1], r) + [sorted[|sorted| - 1]]
  }

  /** A stable sort by time and key. */
  function Chronological(records: seq<Record>): seq<Record> {
    if records == [] then [] else Insert(Chronological(records[..|records| - 1]), records[|records| - 1])
  }

  predicate InOrder(records: seq<Record>) { forall i, j :: 0 <= i < j < |records| ==> !Older(records[j], records[i]) }

  lemma {:induction false} OlderTransitive(a: Record, b: Record, c: Record)
    requires !Older(b, a) && !Older(c, b)
    ensures !Older(c, a)
  {
    if a.enqueuedAt == b.enqueuedAt == c.enqueuedAt {
      Total(a.key, b.key);
      Total(b.key, c.key);
      if Below(c.key, a.key) {
        if a.key != b.key { Transitive(c.key, a.key, b.key); }
      }
    }
  }

  lemma {:induction false} InsertMember(sorted: seq<Record>, r: Record, x: Record)
    ensures x in Insert(sorted, r) <==> x == r || x in sorted
  {
    if sorted != [] && Older(r, sorted[|sorted| - 1]) {
      InsertMember(sorted[..|sorted| - 1], r, x);
      assert sorted == sorted[..|sorted| - 1] + [sorted[|sorted| - 1]];
    }
  }

  lemma {:induction false} OrderMore(sorted: seq<Record>, last: Record)
    requires InOrder(sorted) && forall i :: 0 <= i < |sorted| ==> !Older(last, sorted[i])
    ensures InOrder(sorted + [last])
  {
  }

  lemma {:induction false} InsertSorts(sorted: seq<Record>, r: Record)
    requires InOrder(sorted)
    ensures InOrder(Insert(sorted, r))
  {
    if sorted == [] {
      OrderMore(sorted, r);
    } else {
      var last, before := sorted[|sorted| - 1], sorted[..|sorted| - 1];
      if Older(r, last) {
        var inner := Insert(before, r);
        InsertSorts(before, r);
        Asymmetric(r, last);
        forall i | 0 <= i < |inner|
          ensures !Older(last, inner[i])
        {
          InsertMember(before, r, inner[i]);
          if inner[i] != r {
            var j :| 0 <= j < |before| && before[j] == inner[i];
            assert sorted[j] == inner[i];
          }
        }
        OrderMore(inner, last);
      } else {
        forall i | 0 <= i < |sorted|
          ensures !Older(r, sorted[i])
        {
          if i < |before| { OlderTransitive(sorted[i], last, r); }
        }
        OrderMore(sorted, r);
      }
    }
  }

  lemma {:induction false} InsertAdds(sorted: seq<Record>, r: Record)
    ensures multiset(Insert(sorted, r)) == multiset(sorted) + multiset{r}
  {
    if sorted != [] && Older(r, sorted[|sorted| - 1]) {
      InsertAdds(sorted[..|sorted| - 1], r);
      assert sorted == sorted[..|sorted| - 1] + [sorted[|sorted| - 1]];
    }
  }

  lemma {:induction false} Asymmetric(a: Record, b: Record)
    requires Older(a, b)
    ensures !Older(b, a)
  {
    if a.enqueuedAt == b.enqueuedAt && Below(b.key, a.key) {
      Transitive(a.key, b.key, a.key);
      Irreflexive(a.key);
    }
  }

  /** Earlier records come first, and of records of one time those with the smaller key. */
  predicate OldestFirst(records: seq<Record>) {
    forall i, j :: 0 <= i < j < |records| ==>
      records[i].enqueuedAt < records[j].enqueuedAt ||
      (records[i].enqueuedAt == records[j].enqueuedAt && !Below(records[j].key, records[i].key))
  }

  lemma {:induction false} ChronologicalSorts(records: seq<Record>)
    ensures InOrder(Chronological(records)) && multiset(Chronological(records)) == multiset(records)
    ensures OldestFirst(Chronological(records))
  {
    if records != [] {
      var before, last := records[..|records| - 1], records[|records| - 1];
      var sorted := Chronological(before);
      ChronologicalSorts(before);
      InsertSorts(sorted, last);
      InsertAdds(sorted, last);
      LastIs(records);
    }
  }

  lemma {:induction false} LastIs(records: seq<Record>)
    requires records != []
    ensures multiset(records) == multiset(records[..|records| - 1]) + multiset{records[|records| - 1]}
  {
    assert records == records[..|records| - 1] + [records[|records| - 1]];
  }

  function Unexpired(records: seq<Record>, cutoff: int): seq<Record> {
    if records == [] then []
    else Unexpired(records[..|records| - 1], cutoff) +
         if records[|records| - 1].enqueuedAt >= cutoff then [records[|records| - 1]] else []
  }

  function Bytes(records: seq<Record>): nat {
    if records == [] then 0 else Bytes(records[..|records| - 1]) + records[|records| - 1].size
  }

  lemma {:induction false} BytesMore(records: seq<Record>, r: Record)
    ensures Bytes(records + [r]) == Bytes(records) + r.size
  {
    assert (records + [r])[..|records|] == records;
  }

  // ----- retries -----------------------------------------------------------------

  function Pow2(n: nat): nat { if n == 0 then 1 else 2 * Pow2(n - 1) }

  lemma {:induction false} Pow2Range(n: nat)
    requires 1 <= n <= 10
    ensures 2 <= Pow2(n) <= 1024
  {
    if n > 1 {
      Pow2Range(n - 1);
      if n == 10 { assert Pow2(10) == 1024; }
      if n <= 9 { Pow2Below(n, 9); }
    }
  }

  lemma {:induction false} Pow2Below(n: nat, m: nat)
    requires n <= m
    ensures Pow2(n) <= Pow2(m)
  {
    if n < m { Pow2Below(n, m - 1); }
  }

  function BaseDelay(attempts: nat): nat {
    var d := 1000 * Pow2(if attempts < 10 then attempts else 10);
    if d < 900000 then d else 900000
  }

  /** Each base delay is twice the one before, from one second up to a quarter of an hour. */
  lemma {:induction false} BaseDelayDoubles(attempts: nat)
    ensures BaseDelay(0) == 1000
    ensures BaseDelay(attempts + 1) == if 2 * BaseDelay(attempts) < 900000 then 2 * BaseDelay(attempts) else 900000
  {
    assert Pow2(0) == 1 && Pow2(10) == 2 * Pow2(9);
    if attempts < 10 {
      assert Pow2(attempts + 1) == 2 * Pow2(attempts);
    } else {
      assert Pow2(10) == 1024;
    }
  }

  /** The delay after a failed attempt. */
  function Delay(attempts: nat, jitter: real): int { (BaseDelay(attempts) as real * jitter + 0.5).Floor }

  /** A retry waits for its base delay, shortened or lengthened by at most a half. */
  lemma {:induction false} DelayNear(attempts: nat, jitter: real)
    requires attempts >= 1 && 0.5 <= jitter <= 1.5
    ensures BaseDelay(attempts) <= 2 * Delay(attempts, jitter) <= 3 * BaseDelay(attempts)
  {
    var half := BaseDelay(attempts) / 2;
    BaseDelayEven(attempts);
    assert BaseDelay(attempts) == 2 * half;
    NearHalves(half, BaseDelay(attempts) as real, jitter, Delay(attempts, jitter));
  }

  lemma {:induction false} NearHalves(half: nat, base: real, jitter: real, delay: int)
    requires base == (2 * half) as real && 0.5 <= jitter <= 1.5 && delay == (base * jitter + 0.5).Floor
    ensures half <= delay <= 3 * half
  {
    Halves(half, base, jitter);
    Rounded(half, base * jitter, delay);
  }

  lemma {:induction false} Rounded(half: nat, exact: real, delay: int)
    requires half as real <= exact <= (3 * half) as real && delay == (exact + 0.5).Floor
    ensures half <= delay <= 3 * half
  {
  }

  lemma {:induction false} Halves(half: nat, base: real, jitter: real)
    requires base == (2 * half) as real && 0.5 <= jitter <= 1.5
    ensures half as real <= base * jitter <= (3 * half) as real
  {
    assert base * 0.5 <= base * jitter <= base * 1.5;
  }

  lemma {:induction false} BaseDelayEven(attempts: nat)
    ensures BaseDelay(attempts) % 2 == 0
  {
    var p := Pow2(if attempts < 10 then attempts else 10);
    assert 1000 * p == 2 * (500 * p);
  }

  /** A record after a failed delivery: one attempt more, and the next one half to one and a half base delays from now. */
  predicate PutOff(next: Record, r: Record, now: int) {
    next == r.(attempts := r.attempts + 1, nextAttemptAt := next.nextAttemptAt) && next.nextAttemptAt.Some? &&
    BaseDelay(r.attempts + 1) <= 2 * (next.nextAttemptAt.value - now) <= 3 * BaseDelay(r.attempts + 1)
  }

  /** Every retry waits between one second and 22.5 minutes. */
  lemma {:induction false} DelayRange(attempts: nat, jitter: real)
    requires attempts >= 1 && 0.5 <= jitter <= 1.5
    ensures 1000 <= Delay(attempts, jitter) <= 1350000
  {
    Pow2Range(if attempts < 10 then attempts else 10);
    var base := BaseDelay(attempts) as real;
    assert 2000.0 <= base <= 900000.0;
    Product(base, jitter);
  }

  lemma {:induction false} Product(base: real, jitter: real)
    requires 2000.0 <= base <= 900000.0 && 0.5 <= jitter <= 1.5
    ensures 1000.0 <= base * jitter <= 1350000.0
  {
    assert base * 0.5 <= base * jitter <= base * 1.5;
  }
}
