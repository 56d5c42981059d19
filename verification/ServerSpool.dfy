/** The file spool of telemetry events: oldest-first eviction, expiry, retries, and what becomes of every event. */
module ServerSpool {
  import opened Wrappers
  import opened SpoolRecords

  // ----- selections --------------------------------------------------------------

  function OtherKeys(records: seq<Record>, key: string): seq<Record> {
    if records == [] then []
    else OtherKeys(records[..|records| - 1], key) + if records[|records| - 1].key != key then [records[|records| - 1]] else []
  }

  /** The shortest prefix whose removal leaves at most `room` bytes, or everything. */
  function Evictions(records: seq<Record>, room: int): (k: nat)
    ensures k <= |records|
    decreases |records|
  {
    if records == [] || Bytes(records) <= room then 0 else 1 + Evictions(records[1..], room)
  }

  lemma {:induction false} EvictionsFit(records: seq<Record>, room: int)
    ensures var k := Evictions(records, room);
            (Bytes(records[k..]) <= room || k == |records|) &&
            forall j :: 0 <= j < k ==> Bytes(records[j..]) > room
    decreases |records|
  {
    if records != [] && Bytes(records) > room {
      EvictionsFit(records[1..], room);
      var k := Evictions(records[1..], room);
      assert records[1..][k..] == records[1 + k..];
      forall j | 0 <= j < 1 + k
        ensures Bytes(records[j..]) > room
      {
        if j > 0 { assert records[1..][j - 1..] == records[j..]; } else { assert records[0..] == records; }
      }
    } else {
      assert records[0..] == records;
    }
  }

  /** How often a key occurs. */
  function Count(records: seq<Record>, key: string): nat {
    if records == [] then 0
    else Count(records[..|records| - 1], key) + if records[|records| - 1].key == key then 1 else 0
  }

  function Expired(records: seq<Record>, cutoff: int): seq<Record> {
    if records == [] then []
    else Expired(records[..|records| - 1], cutoff) +
         if records[|records| - 1].enqueuedAt < cutoff then [records[|records| - 1]] else []
  }

  function SameKey(records: seq<Record>, key: string): seq<Record> {
    if records == [] then []
    else SameKey(records[..|records| - 1], key) + if records[|records| - 1].key == key then [records[|records| - 1]] else []
  }

  lemma {:induction false} CountMore(records: seq<Record>, r: Record, x: string)
    ensures Count(records + [r], x) == Count(records, x) + if r.key == x then 1 else 0
  {
    assert (records + [r])[..|records|] == records;
  }

  lemma {:induction false} CountConcat(a: seq<Record>, b: seq<Record>, x: string)
    ensures Count(a + b, x) == Count(a, x) + Count(b, x)
  {
    if b == [] {
      assert a + b == a;
    } else {
      CountConcat(a, b[..|b| - 1], x);
      assert a + b == a + b[..|b| - 1] + [b[|b| - 1]];
      CountMore(a + b[..|b| - 1], b[|b| - 1], x);
    }
  }

  lemma {:induction false} InsertCount(sorted: seq<Record>, r: Record, x: string)
    ensures Count(Insert(sorted, r), x) == Count(sorted, x) + if r.key == x then 1 else 0
  {
    if sorted == [] || !Older(r, sorted[|sorted| - 1]) {
      CountMore(sorted, r, x);
    } else {
      InsertCount(sorted[..|sorted| - 1], r, x);
      CountMore(Insert(sorted[..|sorted| - 1], r), sorted[|sorted| - 1], x);
    }
  }

  lemma {:induction false} ChronologicalCount(records: seq<Record>, x: string)
    ensures Count(Chronological(records), x) == Count(records, x)
  {
    if records != [] {
      ChronologicalCount(records[..|records| - 1], x);
      InsertCount(Chronological(records[..|records| - 1]), records[|records| - 1], x);
    }
  }

  lemma {:induction false} SplitByKey(records: seq<Record>, key: string, x: string)
    ensures Count(records, x) == Count(OtherKeys(records, key), x) + Count(SameKey(records, key), x)
  {
    if records != [] {
      var before, last := records[..|records| - 1], records[|records| - 1];
      SplitByKey(before, key, x);
      if last.key == key {
        assert OtherKeys(before, key) + [] == OtherKeys(before, key);
        CountMore(SameKey(before, key), last, x);
      } else {
        assert SameKey(before, key) + [] == SameKey(before, key);
        CountMore(OtherKeys(before, key), last, x);
      }
    }
  }

  lemma {:induction false} SplitByAge(records: seq<Record>, cutoff: int, x: string)
    ensures Count(records, x) == Count(Unexpired(records, cutoff), x) + Count(Expired(records, cutoff), x)
    ensures |records| == |Unexpired(records, cutoff)| + |Expired(records, cutoff)|
  {
    if records != [] {
      var before, last := records[..|records| - 1], records[|records| - 1];
      SplitByAge(before, cutoff, x);
      CountMore(Unexpired(before, cutoff), last, x);
      CountMore(Expired(before, cutoff), last, x);
      assert Unexpired(before, cutoff) + [] == Unexpired(before, cutoff) && Expired(before, cutoff) + [] == Expired(before, cutoff);
    }
  }

  /** Records that differ in their sizes only: reading measures every record anew. */
  predicate Remeasured(a: seq<Record>, b: seq<Record>) {
    |a| == |b| && forall i :: 0 <= i < |a| ==> a[i].(size := 0) == b[i].(size := 0)
  }

  lemma {:induction false} RemeasuredCount(a: seq<Record>, b: seq<Record>, x: string)
    requires Remeasured(a, b)
    ensures Count(a, x) == Count(b, x)
  {
    if a != [] {
      assert a[|a| - 1].(size := 0) == b[|b| - 1].(size := 0);
      RemeasuredCount(a[..|a| - 1], b[..|b| - 1], x);
    }
  }

  lemma {:induction false} BytesFirst(records: seq<Record>)
    requires records != []
    ensures Bytes(records) == records[0].size + Bytes(records[1..])
  {
    if |records| > 1 {
      BytesFirst(records[..|records| - 1]);
      assert records[..|records| - 1][1..] == records[1..][..|records| - 2];
    }
  }

  // ----- what becomes of every event ---------------------------------------------

  /** Accepted events, and those that left, by the way they left. */
  datatype Ledger = Ledger(accepted: seq<Record>, acknowledged: seq<Record>, expired: seq<Record>, evicted: seq<Record>,
                           replaced: seq<Record>)

  /** Every accepted event is queued, or left by acknowledgement, expiry, eviction or replacement. */
  predicate BalancedAt(records: seq<Record>, l: Ledger, x: string) {
    Count(l.accepted, x) ==
    Count(records, x) + Count(l.acknowledged, x) + Count(l.expired, x) + Count(l.evicted, x) + Count(l.replaced, x)
  }

  ghost predicate Balanced(records: seq<Record>, l: Ledger) { forall x :: BalancedAt(records, l, x) }

  /** The queue after an enqueue, and the events that left. */
  function EnqueueRest(read: seq<Record>, key: string, cutoff: int): seq<Record> {
    Unexpired(OtherKeys(Chronological(read), key), cutoff)
  }

  function EnqueueQueue(read: seq<Record>, candidate: Record, cutoff: int, room: int): seq<Record> {
    var alive := EnqueueRest(read, candidate.key, cutoff);
    alive[Evictions(alive, room)..] + [candidate]
  }

  function EnqueueLedger(l: Ledger, read: seq<Record>, candidate: Record, cutoff: int, room: int): Ledger {
    var alive := EnqueueRest(read, candidate.key, cutoff);
    l.(accepted := l.accepted + [candidate],
       expired := l.expired + Expired(OtherKeys(Chronological(read), candidate.key), cutoff),
       evicted := l.evicted + alive[..Evictions(alive, room)],
       replaced := l.replaced + SameKey(Chronological(read), candidate.key))
  }

  /** Queueing an event keeps the balance. */
  lemma {:induction false} EnqueueBalancesAt(read: seq<Record>, l: Ledger, candidate: Record, cutoff: int, room: int, x: string)
    requires BalancedAt(read, l, x)
    ensures BalancedAt(EnqueueQueue(read, candidate, cutoff, room), EnqueueLedger(l, read, candidate, cutoff, room), x)
  {
    var sorted := Chronological(read);
    var current := OtherKeys(sorted, candidate.key);
    var alive := Unexpired(current, cutoff);
    var k := Evictions(alive, room);
    ChronologicalCount(read, x);
    SplitByKey(sorted, candidate.key, x);
    SplitByAge(current, cutoff, x);
    SplitAt(alive, k, x);
    CountMore(alive[k..], candidate, x);
    CountMore(l.accepted, candidate, x);
    CountConcat(l.expired, Expired(current, cutoff), x);
    CountConcat(l.evicted, alive[..k], x);
    CountConcat(l.replaced, SameKey(sorted, candidate.key), x);
  }

  lemma {:induction false} SplitAt(records: seq<Record>, k: nat, x: string)
    requires k <= |records|
    ensures Count(records, x) == Count(records[..k], x) + Count(records[k..], x)
  {
    CountConcat(records[..k], records[k..], x);
    assert records == records[..k] + records[k..];
  }

  lemma {:induction false} EnqueueBalances(read: seq<Record>, l: Ledger, candidate: Record, cutoff: int, room: int)
    requires Balanced(read, l)
    ensures Balanced(EnqueueQueue(read, candidate, cutoff, room), EnqueueLedger(l, read, candidate, cutoff, room))
  {
    forall x: string
      ensures BalancedAt(EnqueueQueue(read, candidate, cutoff, room), EnqueueLedger(l, read, candidate, cutoff, room), x)
    {
      assert BalancedAt(read, l, x);
      EnqueueBalancesAt(read, l, candidate, cutoff, room, x);
    }
  }

  /** What a flush does with one event. */
  datatype Fate = TooOld | Acknowledged | Kept(record: Record)

  /** The ledger after one event met its fate. */
  function Settle(l: Ledger, r: Record, fate: Fate): Ledger {
    match fate
    case TooOld => l.(expired := l.expired + [r])
    case Acknowledged => l.(acknowledged := l.acknowledged + [r])
    case Kept(_) => l
  }

  function Retained(retained: seq<Record>, fate: Fate): seq<Record> {
    if fate.Kept? then retained + [fate.record] else retained
  }

  lemma {:induction false} SettleBalancesAt(retained: seq<Record>, r: Record, later: seq<Record>, l: Ledger, fate: Fate, x: string)
    requires BalancedAt(retained + ([r] + later), l, x) && (fate.Kept? ==> fate.record.key == r.key)
    ensures BalancedAt(Retained(retained, fate) + later, Settle(l, r, fate), x)
  {
    CountConcat(retained, [r] + later, x);
    CountConcat([r], later, x);
    CountMore([], r, x);
    assert [] + [r] == [r];
    CountConcat(Retained(retained, fate), later, x);
    match fate
    case TooOld => CountMore(l.expired, r, x);
    case Acknowledged => CountMore(l.acknowledged, r, x);
    case Kept(record) => CountMore(retained, record, x);
  }

  lemma {:induction false} SettleBalances(retained: seq<Record>, pending: seq<Record>, l: Ledger, fate: Fate)
    requires pending != [] && Balanced(retained + pending, l) && (fate.Kept? ==> fate.record.key == pending[0].key)
    ensures Balanced(Retained(retained, fate) + pending[1..], Settle(l, pending[0], fate))
  {
    forall x: string
      ensures BalancedAt(Retained(retained, fate) + pending[1..], Settle(l, pending[0], fate), x)
    {
      assert pending == [pending[0]] + pending[1..];
      assert BalancedAt(retained + pending, l, x);
      SettleBalancesAt(retained, pending[0], pending[1..], l, fate, x);
    }
  }

  // ----- the spool ---------------------------------------------------------------

  class Spool {
    const maxBytes: nat
    const maxAge: nat
    var records: seq<Record>
    ghost var ledger: Ledger
    /** The events handed to the collector, each with the key that it acknowledged, if any. */
    ghost var sent: seq<(Record, Option<string>)>

    ghost predicate Valid()
      reads this
    {
      Balanced(records, ledger)
    }

    constructor (maxBytes: nat, maxAge: nat)
      ensures Valid() && records == [] && this.maxBytes == maxBytes && this.maxAge == maxAge
    {
      this.maxBytes, this.maxAge, records, ledger, sent := maxBytes, maxAge, [], Ledger([], [], [], [], []), [];
    }

    /** What is older is too old. */
    function Cutoff(now: int): int { now - maxAge }

    method ReadRecords() returns (read: seq<Record>)
      requires Valid()
      ensures Remeasured(read, records) && Balanced(read, ledger)
    {
      read := [];
      for i := 0 to |records|
        invariant Remeasured(read, records[..i])
      {
        var size: nat := *;
        read := read + [records[i].(size := size)];
      }
      assert records[..|records|] == records;
      forall x
        ensures BalancedAt(read, ledger, x)
      {
        RemeasuredCount(read, records, x);
        assert BalancedAt(records, ledger, x);
      }
    }

    /**
     Queue an event. Expired events go, then the oldest ones until the event fits, no more than needed; the answer counts
     exactly the events that went.
     */
    method Enqueue(key: string, size: nat, now: int) returns (queued: bool, gone: nat, ghost read: seq<Record>)
      requires Valid()
      modifies this
      ensures Valid() && (queued <==> size <= maxBytes)
      ensures !queued ==> records == old(records) && ledger == old(ledger) && gone == 0
      ensures queued ==>
                var candidate := Record(key, size, now, 0, None, None); var cutoff := Cutoff(now);
                var alive := EnqueueRest(read, key, cutoff);
                Remeasured(read, old(records)) && Bytes(records) <= maxBytes &&
                records == EnqueueQueue(read, candidate, cutoff, maxBytes - size) &&
                ledger == EnqueueLedger(old(ledger), read, candidate, cutoff, maxBytes - size) &&
                gone == |OtherKeys(Chronological(read), key)| - |alive| + Evictions(alive, maxBytes - size)
    {
      read := [];
      if size > maxBytes { return false, 0, read; }
      var stored := ReadRecords();
      read := stored;
      var candidate, cutoff := Record(key, size, now, 0, None, None), Cutoff(now);
      var retained;
      retained, gone := MakeRoom(stored, candidate, cutoff);
      BytesMore(retained, candidate);
      EnqueueBalances(stored, ledger, candidate, cutoff, maxBytes - size);
      ledger := EnqueueLedger(ledger, stored, candidate, cutoff, maxBytes - size);
      records := retained + [candidate];
      queued := true;
    }

    /** Expire and evict until the candidate fits. */
    method MakeRoom(stored: seq<Record>, candidate: Record, cutoff: int) returns (retained: seq<Record>, gone: nat)
      requires candidate.size <= maxBytes
      ensures retained + [candidate] == EnqueueQueue(stored, candidate, cutoff, maxBytes - candidate.size)
      ensures Bytes(retained) + candidate.size <= maxBytes
      ensures var alive := EnqueueRest(stored, candidate.key, cutoff);
              gone == |OtherKeys(Chronological(stored), candidate.key)| - |alive| +
                      Evictions(alive, maxBytes - candidate.size)
    {
      var current := OtherKeys(Chronological(stored), candidate.key);
      var alive, bytes := Retain(current, cutoff);
      var dropped;
      retained, dropped := Shrink(alive, bytes, candidate.size);
      gone := |current| - |alive| + dropped;
    }

    /** The events that are not too old, with their bytes. */
    method Retain(current: seq<Record>, cutoff: int) returns (retained: seq<Record>, bytes: nat)
      ensures retained == Unexpired(current, cutoff) && bytes == Bytes(retained) && |retained| <= |current|
    {
      retained, bytes := [], 0;
      for i := 0 to |current|
        invariant retained == Unexpired(current[..i], cutoff) && bytes == Bytes(retained) && |retained| <= i
      {
        assert current[..i + 1][..i] == current[..i];
        if current[i].enqueuedAt >= cutoff {
          BytesMore(retained, current[i]);
          retained := retained + [current[i]];
          bytes := bytes + current[i].size;
        }
      }
      assert current[..|current|] == current;
    }

    /** Drop the oldest events until one of the given size fits. */
    method Shrink(alive: seq<Record>, bytes: nat, size: nat) returns (retained: seq<Record>, dropped: nat)
      requires bytes == Bytes(alive) && size <= maxBytes
      ensures dropped == Evictions(alive, maxBytes - size) && retained == alive[dropped..] && Bytes(retained) + size <= maxBytes
    {
      var left := bytes;
      retained, dropped := alive, 0;
      while |retained| > 0 && left + size > maxBytes
        invariant 0 <= dropped <= |alive| && retained == alive[dropped..] && left == Bytes(retained)
        invariant Evictions(alive, maxBytes - size) == dropped + Evictions(retained, maxBytes - size)
        decreases |retained|
      {
        BytesFirst(retained);
        left := left - retained[0].size;
        retained := retained[1..];
        dropped := dropped + 1;
      }
    }

    /** Hand an event to the collector. */
    method Deliver(r: Record) returns (acknowledgement: Option<string>)
      modifies this`sent
      ensures sent == old(sent) + [(r, acknowledgement)]
    {
      acknowledgement := *;
      sent := sent + [(r, acknowledgement)];
    }

    /**
     One event of a flush: a due one is handed to the collector, and goes if its own key is acknowledged; if not, it waits
     for its next attempt. Without a delivery it goes when it is too old, and stays as it is otherwise.
     */
    method Attempt(r: Record, now: int) returns (fate: Fate, ghost answer: Option<string>)
      modifies this`sent
      ensures fate.TooOld? <==> r.enqueuedAt < Cutoff(now)
      ensures sent == old(sent) + if Due(r, Cutoff(now), now) then [(r, answer)] else []
      ensures fate.Acknowledged? <==> Due(r, Cutoff(now), now) && answer == Some(r.key)
      ensures fate.Kept? ==> if Due(r, Cutoff(now), now) then PutOff(fate.record, r, now) else fate.record == r
      ensures !Due(r, Cutoff(now), now) ==> answer.None?
    {
      answer := None;
      if r.enqueuedAt < Cutoff(now) { return TooOld, answer; }
      if r.nextAttemptAt.Some? && r.nextAttemptAt.value != 0 && r.nextAttemptAt.value > now { return Kept(r), answer; }
      var acknowledgement := Deliver(r);
      answer := acknowledgement;
      if acknowledgement == Some(r.key) { return Acknowledged, answer; }
      var dice: nat := *;
      var jitter := 0.5 + (dice % 4294967296) as real / 4294967295.0;
      DelayNear(r.attempts + 1, jitter);
      return Kept(r.(attempts := r.attempts + 1, nextAttemptAt := Some(now + Delay(r.attempts + 1, jitter)))), answer;
    }

    /**
     Deliver everything that is due, oldest first, each once. Events leave only by the acknowledgement of their own key or
     by age; all others stay in order, the delivered ones with their next attempt.
     */
    method Flush(now: int) returns (delivered: nat, deferred: nat, ghost read: seq<Record>, ghost answers: seq<Option<string>>)
      requires Valid()
      modifies this
      ensures Valid() && |records| == deferred && Remeasured(read, old(records)) && |answers| == |Chronological(read)|
      ensures var sorted := Chronological(read);
              ledger == Flushed(old(ledger), sorted, answers, Cutoff(now)) && delivered == |Matched(sorted, answers)| &&
              sent == old(sent) + Sendings(sorted, answers, Cutoff(now), now) && Left(sorted, answers, records, Cutoff(now), now)
    {
      var stored := ReadRecords();
      read := stored;
      var sorted := Chronological(stored);
      var retained: seq<Record> := [];
      ghost var start, l := ledger, ledger;
      delivered, deferred, answers := 0, 0, [];
      SortedBalances(stored, l);
      assert [] + sorted[0..] == sorted;
      for i := 0 to |sorted|
        invariant Balanced(retained + sorted[i..], l)
        invariant |retained| == deferred && |answers| == i && delivered == |Matched(sorted[..i], answers)|
        invariant l == Flushed(start, sorted[..i], answers, Cutoff(now))
        invariant sent == old(sent) + Sendings(sorted[..i], answers, Cutoff(now), now)
        invariant Left(sorted[..i], answers, retained, Cutoff(now), now)
      {
        ghost var sendings := Sendings(sorted[..i], answers, Cutoff(now), now);
        var fate, answer := Attempt(sorted[i], now);
        SentMore(old(sent), sendings, if Due(sorted[i], Cutoff(now), now) then [(sorted[i], answer)] else []);
        BalancesNext(retained, sorted, i, l, fate);
        FlushedNext(start, sorted, i, answers, answer, fate, Cutoff(now));
        LeftNext(sorted, i, answers, answer, retained, fate, Cutoff(now), now);
        l := Settle(l, sorted[i], fate);
        answers := answers + [answer];
        match fate {
          case TooOld =>
          case Acknowledged => delivered := delivered + 1;
          case Kept(record) =>
            retained := retained + [record];
            deferred := deferred + 1;
        }
      }
      assert retained + sorted[|sorted|..] == retained && sorted[..|sorted|] == sorted;
      records, ledger := retained, l;
    }
  }

  // ----- what a flush does -------------------------------------------------------

  /** Neither too old nor waiting for its next attempt. */
  predicate Due(r: Record, cutoff: int, now: int) {
    r.enqueuedAt >= cutoff && !(r.nextAttemptAt.Some? && r.nextAttemptAt.value != 0 && r.nextAttemptAt.value > now)
  }

  /** The events that are due, in order, with the answers to them. */
  function Sendings(records: seq<Record>, answers: seq<Option<string>>, cutoff: int, now: int): seq<(Record, Option<string>)>
    requires |answers| == |records|
  {
    if records == [] then []
    else
      var n := |records| - 1;
      Sendings(records[..n], answers[..n], cutoff, now) + if Due(records[n], cutoff, now) then [(records[n], answers[n])] else []
  }

  /** What is left of some events: those that were neither too old nor acknowledged, in order, and put off when they were sent. */
  predicate Left(records: seq<Record>, answers: seq<Option<string>>, rest: seq<Record>, cutoff: int, now: int)
    requires |answers| == |records|
  {
    if records == [] then rest == []
    else
      var n := |records| - 1;
      var r, due := records[n], Due(records[n], cutoff, now);
      if r.enqueuedAt < cutoff || (due && answers[n] == Some(r.key)) then Left(records[..n], answers[..n], rest, cutoff, now)
      else
        rest != [] && (if due then PutOff(rest[|rest| - 1], r, now) else rest[|rest| - 1] == r) &&
        Left(records[..n], answers[..n], rest[..|rest| - 1], cutoff, now)
  }

  lemma {:induction false} SentMore(a: seq<(Record, Option<string>)>, b: seq<(Record, Option<string>)>, c: seq<(Record, Option<string>)>)
    ensures a + b + c == a + (b + c)
  {
  }

  lemma {:induction false} LeftNext(sorted: seq<Record>, i: nat, answers: seq<Option<string>>, answer: Option<string>,
                                    rest: seq<Record>, fate: Fate, cutoff: int, now: int)
    requires i < |sorted| && |answers| == i && Left(sorted[..i], answers, rest, cutoff, now)
    requires fate.TooOld? <==> sorted[i].enqueuedAt < cutoff
    requires fate.Acknowledged? <==> Due(sorted[i], cutoff, now) && answer == Some(sorted[i].key)
    requires fate.Kept? ==> if Due(sorted[i], cutoff, now) then PutOff(fate.record, sorted[i], now) else fate.record == sorted[i]
    ensures Left(sorted[..i + 1], answers + [answer], Retained(rest, fate), cutoff, now)
    ensures Sendings(sorted[..i + 1], answers + [answer], cutoff, now) ==
            Sendings(sorted[..i], answers, cutoff, now) + if Due(sorted[i], cutoff, now) then [(sorted[i], answer)] else []
  {
    assert sorted[..i + 1][..i] == sorted[..i] && (answers + [answer])[..i] == answers;
    if fate.Kept? { assert (rest + [fate.record])[..|rest|] == rest; }
  }

  /** The events that the collector acknowledged by their own key. */
  function Matched(records: seq<Record>, answers: seq<Option<string>>): seq<Record>
    requires |answers| == |records|
  {
    if records == [] then []
    else
      var n := |records| - 1;
      Matched(records[..n], answers[..n]) + if answers[n] == Some(records[n].key) then [records[n]] else []
  }

  /** A ledger after a flush of some events: what was acknowledged and what was too old is added, and nothing else. */
  function Flushed(l: Ledger, done: seq<Record>, answers: seq<Option<string>>, cutoff: int): Ledger
    requires |answers| == |done|
  {
    l.(acknowledged := l.acknowledged + Matched(done, answers), expired := l.expired + Expired(done, cutoff))
  }

  /** One more event settles the ledger as its acknowledgement and age say. */
  lemma {:induction false} FlushedNext(start: Ledger, sorted: seq<Record>, i: nat, answers: seq<Option<string>>,
                                       answer: Option<string>, fate: Fate, cutoff: int)
    requires i < |sorted| && |answers| == i
    requires (fate.TooOld? <==> sorted[i].enqueuedAt < cutoff) && (fate.Acknowledged? <==> answer == Some(sorted[i].key))
    ensures Matched(sorted[..i + 1], answers + [answer]) == Matched(sorted[..i], answers) + if fate.Acknowledged? then [sorted[i]] else []
    ensures Settle(Flushed(start, sorted[..i], answers, cutoff), sorted[i], fate) ==
            Flushed(start, sorted[..i + 1], answers + [answer], cutoff)
  {
    assert sorted[..i + 1][..i] == sorted[..i] && (answers + [answer])[..i] == answers;
  }

  lemma {:induction false} BalancesNext(retained: seq<Record>, sorted: seq<Record>, i: nat, l: Ledger, fate: Fate)
    requires i < |sorted| && Balanced(retained + sorted[i..], l) && (fate.Kept? ==> fate.record.key == sorted[i].key)
    ensures Balanced(Retained(retained, fate) + sorted[i + 1..], Settle(l, sorted[i], fate))
  {
    assert sorted[i..][1..] == sorted[i + 1..];
    SettleBalances(retained, sorted[i..], l, fate);
  }

  lemma {:induction false} SortedBalances(records: seq<Record>, l: Ledger)
    requires Balanced(records, l)
    ensures Balanced(Chronological(records), l)
  {
    forall x: string
      ensures BalancedAt(Chronological(records), l, x)
    {
      ChronologicalCount(records, x);
      assert BalancedAt(records, l, x);
    }
  }
}
