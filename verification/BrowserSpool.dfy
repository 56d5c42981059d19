/** The browser spool: bounds on what it holds, and the one diagnostic that counts evicted events. */
module BrowserSpool {
  import opened Wrappers
  import opened SpoolRecords
  import opened SpoolRows

  const MAX_SAFE: nat := 9007199254740991

  function Saturated(n: nat): nat { if n < MAX_SAFE then n else MAX_SAFE }

  lemma {:induction false} SaturatedSum(n: nat, m: nat)
    ensures Saturated(n + Saturated(m)) == Saturated(m + n)
  {
  }

  /** There is at most one diagnostic, and its count is the saturated sum of the evictions reported since its delivery. */
  predicate DiagnosticRight(rows: seq<Record>, reported: nat) {
    |Diagnostics(rows)| <= 1 &&
    (|Diagnostics(rows)| == 0 ==> reported == 0) &&
    (|Diagnostics(rows)| == 1 ==> reported > 0 && Diagnostics(rows)[0].diagnostic == Some(Saturated(reported)))
  }

  /** There is room for one more record of the size. */
  predicate Fits(records: seq<Record>, size: nat, maxEvents: nat, maxBytes: nat) {
    |records| < maxEvents && Bytes(records) + size <= maxBytes
  }

  /** The shortest prefix whose removal makes room for one more record of the size, or everything. */
  function Surplus(records: seq<Record>, size: nat, maxEvents: nat, maxBytes: nat): (k: nat)
    ensures k <= |records|
    decreases |records|
  {
    if records == [] || Fits(records, size, maxEvents, maxBytes) then 0 else 1 + Surplus(records[1..], size, maxEvents, maxBytes)
  }

  /** What stays of a queue: what is not too old, without its shortest prefix that has to go. */
  function Survivors(queue: seq<Record>, cutoff: int, size: nat, maxEvents: nat, maxBytes: nat): seq<Record> {
    var alive := Unexpired(queue, cutoff);
    alive[Surplus(alive, size, maxEvents, maxBytes)..]
  }

  /** Of the ordinary records besides a key's, those survive. */
  ghost predicate Survive(before: seq<Record>, after: seq<Record>, key: string, cutoff: int, size: nat, maxEvents: nat, maxBytes: nat) {
    multiset(Queue(after, key)) == multiset(Survivors(Queue(Chronological(before), key), cutoff, size, maxEvents, maxBytes))
  }

  /** The oldest go and no more than needed: before each of them went there was no room, and then there is. */
  lemma {:induction false} SurplusFits(records: seq<Record>, size: nat, maxEvents: nat, maxBytes: nat)
    requires size <= maxBytes && maxEvents > 0
    ensures var k := Surplus(records, size, maxEvents, maxBytes);
            Fits(records[k..], size, maxEvents, maxBytes) &&
            forall j :: 0 <= j < k ==> !Fits(records[j..], size, maxEvents, maxBytes)
    decreases |records|
  {
    assert records[0..] == records;
    if records != [] && !Fits(records, size, maxEvents, maxBytes) {
      var rest := records[1..];
      SurplusFits(rest, size, maxEvents, maxBytes);
      var k := Surplus(rest, size, maxEvents, maxBytes);
      assert rest[k..] == records[1 + k..];
      forall j | 0 <= j < 1 + k
        ensures !Fits(records[j..], size, maxEvents, maxBytes)
      {
        if j > 0 { assert rest[j - 1..] == records[j..]; }
      }
    }
  }

  predicate TooOld(r: Record, cutoff: int) { Ordinary(r) && r.enqueuedAt < cutoff }

  /** Of some records, those whose keys are gone were too old, or their own key answered their delivery. */
  ghost predicate Accounted(records: seq<Record>, rows: seq<Record>, sent: seq<(Record, Option<string>)>, cutoff: int) {
    forall r :: r in records && !HasKey(rows, r.key) ==> TooOld(r, cutoff) || (r, Some(r.key)) in sent
  }

  class Spool {
    const maxEvents: nat
    const maxBytes: nat
    const maxAge: nat
    var rows: seq<Record>
    /** Evictions reported since the diagnostic was last delivered. */
    ghost var reported: nat
    /** The records handed to the collector, each with the key that it acknowledged, if any. */
    ghost var sent: seq<(Record, Option<string>)>

    ghost predicate Valid()
      reads this
    {
      UniqueKeys(rows) && !HasKey(rows, "") && maxEvents > 0 &&
      Others(rows, "") <= maxEvents && OtherBytes(rows, "") <= maxBytes && DiagnosticRight(rows, reported)
    }

    constructor (maxEvents: nat, maxBytes: nat, maxAge: nat)
      requires maxEvents > 0
      ensures Valid() && rows == []
    {
      this.maxEvents, this.maxBytes, this.maxAge, rows, reported, sent := maxEvents, maxBytes, maxAge, [], 0, [];
    }

    /** What is older is too old. */
    function Cutoff(now: int): int { now - maxAge }

    // ----- queueing an event -----------------------------------------------------

    /** The ordinary records besides a key's, oldest first. */
    method Existing(key: string) returns (existing: seq<Record>)
      ensures existing == Queue(Chronological(rows), key) && Same(Queue(rows, key), existing)
      ensures |existing| == Others(rows, key)
    {
      var sorted := Chronological(rows);
      existing := [];
      for i := 0 to |sorted|
        invariant existing == Queue(sorted[..i], key)
      {
        QueueMore(sorted[..i], sorted[i], key);
        assert sorted[..i + 1] == sorted[..i] + [sorted[i]];
        if sorted[i].key != key && Ordinary(sorted[i]) { existing := existing + [sorted[i]]; }
      }
      assert sorted[..|sorted|] == sorted;
      QueueSorted(rows, key);
      SameBytes(Queue(rows, key), existing);
    }

    /** What an enqueue works on: the ordinary records besides its key's, in some order; the diagnostics are as before. */
    ghost predicate Working(left: seq<Record>, key: string, diagnostics: seq<Record>)
      reads this
    {
      UniqueKeys(rows) && !HasKey(rows, "") && Diagnostics(rows) == diagnostics && Same(Queue(rows, key), left)
    }

    /** Evict one of the records an enqueue works on. */
    method EvictAt(left: seq<Record>, i: nat, key: string, ghost diagnostics: seq<Record>)
      requires Working(left, key, diagnostics) && i < |left|
      modifies this`rows
      ensures Working(left[..i] + left[i + 1..], key, diagnostics)
    {
      EvictKeeps(rows, left, i, key);
      rows := Without(rows, left[i].key);
    }

    /** Remove a record that is too old, or keep it. */
    method ExpireOne(retained: seq<Record>, bytes: nat, existing: seq<Record>, i: nat, cutoff: int, key: string,
                     ghost diagnostics: seq<Record>)
      returns (left: seq<Record>, leftBytes: nat)
      requires i < |existing| && Working(retained + existing[i..], key, diagnostics)
      requires retained == Unexpired(existing[..i], cutoff) && bytes == Bytes(retained)
      modifies this`rows
      ensures Working(left + existing[i + 1..], key, diagnostics)
      ensures left == Unexpired(existing[..i + 1], cutoff) && leftBytes == Bytes(left)
      ensures |left| == |retained| + if existing[i].enqueuedAt >= cutoff then 1 else 0
    {
      Middle(retained, existing, i);
      assert existing[..i + 1][..i] == existing[..i];
      if existing[i].enqueuedAt >= cutoff {
        BytesMore(retained, existing[i]);
        left, leftBytes := retained + [existing[i]], bytes + existing[i].size;
      } else {
        EvictAt(retained + existing[i..], |retained|, key, diagnostics);
        left, leftBytes := retained, bytes;
      }
    }

    /** Remove what is too old. */
    method Expire(existing: seq<Record>, cutoff: int, key: string, ghost diagnostics: seq<Record>)
      returns (retained: seq<Record>, retainedBytes: nat, evicted: nat)
      requires Working(existing, key, diagnostics)
      modifies this`rows
      ensures Working(retained, key, diagnostics) && retainedBytes == Bytes(retained)
      ensures retained == Unexpired(existing, cutoff) && evicted + |retained| == |existing|
    {
      retained, retainedBytes, evicted := [], 0, 0;
      assert [] + existing[0..] == existing;
      for i := 0 to |existing|
        invariant Working(retained + existing[i..], key, diagnostics)
        invariant retained == Unexpired(existing[..i], cutoff) && retainedBytes == Bytes(retained)
        invariant evicted + |retained| == i
      {
        retained, retainedBytes := ExpireOne(retained, retainedBytes, existing, i, cutoff, key, diagnostics);
        if existing[i].enqueuedAt < cutoff { evicted := evicted + 1; }
      }
      assert retained + existing[|existing|..] == retained && existing[..|existing|] == existing;
    }

    method EvictOldest(left: seq<Record>, bytes: nat, key: string, ghost diagnostics: seq<Record>)
      returns (rest: seq<Record>, restBytes: nat)
      requires Working(left, key, diagnostics) && bytes == Bytes(left) && left != []
      modifies this`rows
      ensures rest == left[1..] && Working(rest, key, diagnostics) && restBytes == Bytes(rest)
    {
      BytesAt(left, 0);
      EvictAt(left, 0, key, diagnostics);
      rest, restBytes := left[1..], bytes - left[0].size;
      assert left[..0] + left[1..] == rest;
    }

    /** Remove the oldest records until there is room for one more. */
    method MakeRoom(all: seq<Record>, bytes: nat, size: nat, key: string, ghost diagnostics: seq<Record>)
      returns (retained: seq<Record>, evicted: nat)
      requires Working(all, key, diagnostics) && bytes == Bytes(all) && size <= maxBytes && maxEvents > 0
      modifies this`rows
      ensures Working(retained, key, diagnostics) && |retained| < maxEvents && Bytes(retained) + size <= maxBytes
      ensures evicted == Surplus(all, size, maxEvents, maxBytes) && retained == all[evicted..]
    {
      var retainedBytes := bytes;
      retained, evicted := all, 0;
      while |retained| >= maxEvents || (|retained| > 0 && retainedBytes + size > maxBytes)
        invariant Working(retained, key, diagnostics) && retainedBytes == Bytes(retained)
        invariant evicted <= |all| && retained == all[evicted..]
        invariant Surplus(all, size, maxEvents, maxBytes) == evicted + Surplus(retained, size, maxEvents, maxBytes)
        decreases |retained|
      {
        retained, retainedBytes := EvictOldest(retained, retainedBytes, key, diagnostics);
        evicted := evicted + 1;
      }
    }

    /** Of the records an enqueue works on, remove those that are too old and then the oldest ones. */
    method Shrink(existing: seq<Record>, key: string, size: nat, cutoff: int, ghost diagnostics: seq<Record>) returns (evicted: nat)
      requires Working(existing, key, diagnostics) && size <= maxBytes && maxEvents > 0
      modifies this`rows
      ensures UniqueKeys(rows) && !HasKey(rows, "") && Diagnostics(rows) == diagnostics
      ensures Others(rows, key) < maxEvents && OtherBytes(rows, key) + size <= maxBytes
      ensures Others(rows, key) + evicted == |existing|
      ensures multiset(Queue(rows, key)) == multiset(Survivors(existing, cutoff, size, maxEvents, maxBytes))
    {
      var alive, bytes, expired := Expire(existing, cutoff, key, diagnostics);
      var retained, dropped := MakeRoom(alive, bytes, size, key, diagnostics);
      evicted := expired + dropped;
      SameBytes(Queue(rows, key), retained);
      SameMultiset(Queue(rows, key), retained);
    }

    /** Make room for one more record besides a key's. */
    method Trim(key: string, size: nat, cutoff: int) returns (evicted: nat)
      requires Valid() && size <= maxBytes
      modifies this`rows
      ensures UniqueKeys(rows) && !HasKey(rows, "") && Diagnostics(rows) == Diagnostics(old(rows))
      ensures Others(rows, key) < maxEvents && OtherBytes(rows, key) + size <= maxBytes
      ensures Others(rows, key) + evicted == Others(old(rows), key)
      ensures Survive(old(rows), rows, key, cutoff, size, maxEvents, maxBytes)
    {
      var existing := Existing(key);
      evicted := Shrink(existing, key, size, cutoff, Diagnostics(rows));
    }

    /** Store an ordinary record under its key; there is room for it. */
    method Add(record: Record)
      requires UniqueKeys(rows) && !HasKey(rows, "") && DiagnosticRight(rows, reported)
      requires Ordinary(record) && record.key != "" && !HasKey(Diagnostics(rows), record.key)
      requires Others(rows, record.key) < maxEvents && OtherBytes(rows, record.key) + record.size <= maxBytes
      modifies this`rows
      ensures Valid() && Diagnostics(rows) == Diagnostics(old(rows)) && record in rows
      ensures Queue(rows, record.key) == Queue(old(rows), record.key)
    {
      PutKeys(rows, record);
      PutOrdinary(rows, record);
      BytesMore(Queue(rows, record.key), record);
      rows := Put(rows, record);
    }

    /**
     Queue an event. The store never holds more ordinary records or bytes than allowed, and the diagnostic stays; events
     go by age, then oldest first and no more than needed.
     */
    method Enqueue(key: string, size: nat, now: int) returns (queued: bool, evicted: nat)
      requires Valid() && key != "" && !HasKey(Diagnostics(rows), key)
      modifies this`rows
      ensures Valid() && Diagnostics(rows) == Diagnostics(old(rows))
      ensures queued <==> size <= maxBytes
      ensures !queued ==> rows == old(rows) && evicted == 0
      ensures queued ==> Record(key, size, now, 0, None, None) in rows
      ensures queued ==> Others(rows, key) + evicted == Others(old(rows), key)
      ensures queued ==> Survive(old(rows), rows, key, Cutoff(now), size, maxEvents, maxBytes)
    {
      if size > maxBytes { return false, 0; }
      evicted := Trim(key, size, Cutoff(now));
      Add(Record(key, size, now, 0, None, None));
      queued := true;
    }

    // ----- the diagnostic --------------------------------------------------------

    /** Store the diagnostic with a new sum, in place of the one that was found. */
    method StoreDiagnostic(found: Option<Record>, r: Record, evicted: nat)
      requires Valid() && r.key != "" && r.diagnostic == Some(Saturated(reported + evicted)) && evicted > 0
      requires if found.Some? then found.value in rows && Diagnostics(rows) == [found.value] && r.key == found.value.key
               else Diagnostics(rows) == [] && !HasKey(rows, r.key)
      modifies this`rows, this`reported
      ensures Valid() && reported == old(reported) + evicted && Diagnostics(rows) == [r] && Queue(rows, "") == Queue(old(rows), "")
    {
      DiagnosticStored(rows, found, r, reported + evicted);
      rows, reported := Put(rows, r), reported + evicted;
    }

    /** Report evictions: one diagnostic holds their saturated sum. */
    method RecordEvictionDiagnostic(evicted: int, newId: string)
      requires Valid() && newId != "" && !HasKey(rows, newId)
      modifies this`rows, this`reported
      ensures Valid()
      ensures if 0 < evicted <= MAX_SAFE then
                reported == old(reported) + evicted && |Diagnostics(rows)| == 1 && Queue(rows, "") == Queue(old(rows), "")
              else rows == old(rows) && reported == old(reported)
    {
      if evicted <= 0 || evicted > MAX_SAFE { return; }
      var found := FindDiagnostic();
      SaturatedSum(evicted, reported);
      if found.Some? {
        MemberHas(rows, found.value);
        var sum := Saturated(evicted + found.value.diagnostic.value);
        StoreDiagnostic(found, Record(found.value.key, 0, 0, 0, None, Some(sum)), evicted);
      } else {
        StoreDiagnostic(found, Record(newId, 0, 0, 0, None, Some(Saturated(evicted))), evicted);
      }
    }

    /** The diagnostic in the store. */
    method FindDiagnostic() returns (found: Option<Record>)
      requires |Diagnostics(rows)| <= 1
      ensures if found.Some? then found.value in rows && Diagnostics(rows) == [found.value] && found.value.diagnostic.Some?
              else Diagnostics(rows) == []
    {
      for i := 0 to |rows|
        invariant forall j :: 0 <= j < i ==> Ordinary(rows[j])
      {
        if !Ordinary(rows[i]) {
          DiagnosticsAre(rows, rows[i]);
          return Some(rows[i]);
        }
      }
      if Diagnostics(rows) != [] { DiagnosticsAre(rows, Diagnostics(rows)[0]); }
      return None;
    }

    // ----- delivering ------------------------------------------------------------

    /** Remove one record. */
    method Drop(r: Record)
      requires Valid() && r in rows
      modifies this`rows, this`reported
      ensures Valid() && reported == (if Ordinary(r) then old(reported) else 0) && rows == Without(old(rows), r.key)
      ensures Others(rows, "") <= Others(old(rows), "") && OtherBytes(rows, "") <= OtherBytes(old(rows), "")
    {
      DropKeeps(rows, r);
      rows := Without(rows, r.key);
      if !Ordinary(r) { reported := 0; }
    }

    /** Put a record back with a later attempt. */
    method Defer(r: Record, next: int)
      requires Valid() && r in rows
      modifies this`rows
      ensures Valid()
      ensures rows == Put(old(rows), r.(attempts := r.attempts + 1, nextAttemptAt := Some(next)))
      ensures Others(rows, "") == Others(old(rows), "") && OtherBytes(rows, "") == OtherBytes(old(rows), "")
    {
      var later := r.(attempts := r.attempts + 1, nextAttemptAt := Some(next));
      if r.key == "" { MemberHas(rows, r); }
      PutKeys(rows, later);
      PutBack(rows, r, later);
      rows := Put(rows, later);
    }

    /** Hand a record to the collector. */
    method Deliver(r: Record) returns (acknowledgement: Option<string>)
      modifies this`sent
      ensures sent == old(sent) + [(r, acknowledgement)]
    {
      acknowledgement := *;
      sent := sent + [(r, acknowledgement)];
    }

    /** Put a record back with its next attempt, half to one and a half base delays from now. */
    method Retry(r: Record, now: int) returns (ghost later: Record)
      requires Valid() && r in rows
      modifies this`rows
      ensures Valid() && PutOff(later, r, now) && rows == Put(old(rows), later)
      ensures Others(rows, "") == Others(old(rows), "") && OtherBytes(rows, "") == OtherBytes(old(rows), "")
    {
      var random: real := *;
      var jitter := 0.5 + if 0.0 <= random < 1.0 then random else 0.0;
      var next := now + Delay(r.attempts + 1, jitter);
      later := r.(attempts := r.attempts + 1, nextAttemptAt := Some(next));
      DelayNear(r.attempts + 1, jitter);
      Defer(r, next);
    }

    /** Hand a record to the collector: it goes if its own key is acknowledged, and if not, it waits for its next attempt. */
    method DeliverOne(r: Record, now: int) returns (delivered: nat, deferred: nat, ghost answer: Option<string>, ghost later: Record)
      requires Valid() && r in rows
      modifies this
      ensures Valid() && Others(rows, "") <= Others(old(rows), "") && OtherBytes(rows, "") <= OtherBytes(old(rows), "")
      ensures reported == if !Ordinary(r) && delivered == 1 then 0 else old(reported)
      ensures sent == old(sent) + [(r, answer)] && delivered + deferred == 1 && (delivered == 1 <==> answer == Some(r.key))
      ensures if delivered == 1 then rows == Without(old(rows), r.key)
              else PutOff(later, r, now) && rows == Put(old(rows), later)
      ensures later.key == r.key
    {
      delivered, deferred, later := 0, 0, r;
      var acknowledgement := Deliver(r);
      answer := acknowledgement;
      if acknowledgement == Some(r.key) {
        Drop(r);
        delivered := 1;
      } else {
        later := Retry(r, now);
        deferred := 1;
      }
    }

    /**
     One record of a flush. One that is due is handed to the collector: it goes if its own key is acknowledged, and if not,
     it waits for its next attempt. Without a delivery it goes when it is too old, which the diagnostic never is, and stays
     as it is otherwise. No other record is touched.
     */
    method FlushOne(r: Record, now: int) returns (delivered: nat, deferred: nat, ghost answer: Option<string>, ghost later: Record)
      requires Valid() && r in rows
      modifies this
      ensures Valid() && Others(rows, "") <= Others(old(rows), "") && OtherBytes(rows, "") <= OtherBytes(old(rows), "")
      ensures reported == if !Ordinary(r) && delivered == 1 then 0 else old(reported)
      ensures sent == if Due(r, Cutoff(now), now) then old(sent) + [(r, answer)] else old(sent)
      ensures Outcome(r, answer, delivered, deferred, Cutoff(now), now) && later.key == r.key
      ensures if TooOld(r, Cutoff(now)) || delivered == 1 then rows == Without(old(rows), r.key)
              else if !Due(r, Cutoff(now), now) then rows == old(rows)
              else PutOff(later, r, now) && rows == Put(old(rows), later)
    {
      delivered, deferred, answer, later := 0, 0, None, r;
      if Ordinary(r) && r.enqueuedAt < Cutoff(now) {
        Drop(r);
        return;
      }
      if r.nextAttemptAt.Some? && r.nextAttemptAt.value != 0 && r.nextAttemptAt.value > now {
        deferred := 1;
        return;
      }
      delivered, deferred, answer, later := DeliverOne(r, now);
    }

    /** The record at a position of a flush; those behind it stay, and all so far are accounted for. */
    method FlushAt(sorted: seq<Record>, i: nat, now: int, ghost answers: seq<Option<string>>, ghost so: Sums,
                   ghost start: seq<(Record, Option<string>)>)
      returns (delivered: nat, deferred: nat, ghost answer: Option<string>, ghost after: Sums)
      requires Valid() && UniqueKeys(sorted) && i < |sorted| && Pending(sorted, i, rows)
      requires |answers| == i && so == Tally(sorted[..i], answers, Cutoff(now), now) && sent == start + so.sent
      requires Accounted(sorted[..i], rows, so.sent, Cutoff(now))
      modifies this
      ensures Valid() && Pending(sorted, i + 1, rows) && Accounted(sorted[..i + 1], rows, after.sent, Cutoff(now))
      ensures Others(rows, "") <= Others(old(rows), "") && OtherBytes(rows, "") <= OtherBytes(old(rows), "")
      ensures reported == old(reported) || (reported == 0 && delivered == 1)
      ensures after == Tally(sorted[..i + 1], answers + [answer], Cutoff(now), now) && sent == start + after.sent
      ensures after.delivered == so.delivered + delivered && after.deferred == so.deferred + deferred
    {
      ghost var before, later := rows, sorted[i];
      delivered, deferred, answer, later := FlushOne(sorted[i], now);
      ghost var more := if Due(sorted[i], Cutoff(now), now) then [(sorted[i], answer)] else [];
      TallyNext(sorted, i, answers, answer, Cutoff(now), now);
      SentMore(start, so.sent, more);
      after := Tally(sorted[..i + 1], answers + [answer], Cutoff(now), now);
      StepSame(before, rows, sorted[i], later);
      PendingNext(sorted, i, before, rows);
      AccountedNext(sorted, i, before, rows, so.sent, more, Cutoff(now));
    }

    /** Deliver the records in order. */
    method FlushSorted(sorted: seq<Record>, now: int) returns (delivered: nat, deferred: nat, ghost answers: seq<Option<string>>)
      requires Valid() && UniqueKeys(sorted) && Pending(sorted, 0, rows)
      modifies this
      ensures Valid() && |answers| == |sorted|
      ensures Others(rows, "") <= Others(old(rows), "") && OtherBytes(rows, "") <= OtherBytes(old(rows), "")
      ensures reported == old(reported) || (reported == 0 && delivered > 0)
      ensures var all := Tally(sorted, answers, Cutoff(now), now);
              sent == old(sent) + all.sent && delivered == all.delivered && deferred == all.deferred &&
              Accounted(sorted, rows, all.sent, Cutoff(now))
    {
      delivered, deferred, answers := 0, 0, [];
      ghost var so := Sums([], 0, 0);
      for i := 0 to |sorted|
        invariant Valid() && Pending(sorted, i, rows) && Accounted(sorted[..i], rows, so.sent, Cutoff(now))
        invariant Others(rows, "") <= Others(old(rows), "") && OtherBytes(rows, "") <= OtherBytes(old(rows), "")
        invariant reported == old(reported) || (reported == 0 && delivered > 0)
        invariant |answers| == i && so == Tally(sorted[..i], answers, Cutoff(now), now)
        invariant sent == old(sent) + so.sent && delivered == so.delivered && deferred == so.deferred
      {
        var d, f, answer, after := FlushAt(sorted, i, now, answers, so, old(sent));
        so, answers := after, answers + [answer];
        delivered, deferred := delivered + d, deferred + f;
      }
      assert sorted[..|sorted|] == sorted;
    }

    /**
     Deliver everything that is due, oldest first, each once. The bounds hold on, the diagnostic goes only when delivered,
     and every record whose key goes was too old or answered its own delivery.
     */
    method Flush(now: int) returns (delivered: nat, deferred: nat, ghost answers: seq<Option<string>>)
      requires Valid()
      modifies this
      ensures Valid()
      ensures Others(rows, "") <= Others(old(rows), "") && OtherBytes(rows, "") <= OtherBytes(old(rows), "")
      ensures reported == old(reported) || (reported == 0 && delivered > 0)
      ensures |answers| == |Chronological(old(rows))|
      ensures var all := Tally(Chronological(old(rows)), answers, Cutoff(now), now);
              sent == old(sent) + all.sent && delivered == all.delivered && deferred == all.deferred &&
              Accounted(old(rows), rows, all.sent, Cutoff(now))
    {
      ghost var before := rows;
      AllPending(rows);
      SortedKeys(rows);
      delivered, deferred, answers := FlushSorted(Chronological(rows), now);
      AccountedAll(before, rows, Tally(Chronological(before), answers, Cutoff(now), now).sent, Cutoff(now));
    }
  }

  // ----- what a flush does -------------------------------------------------------

  /** Neither too old nor waiting for its next attempt. */
  predicate Due(r: Record, cutoff: int, now: int) {
    !TooOld(r, cutoff) && !(r.nextAttemptAt.Some? && r.nextAttemptAt.value != 0 && r.nextAttemptAt.value > now)
  }

  /** How a flush counts one record. */
  predicate Outcome(r: Record, answer: Option<string>, delivered: nat, deferred: nat, cutoff: int, now: int) {
    delivered == (if Due(r, cutoff, now) && answer == Some(r.key) then 1 else 0) &&
    deferred == if TooOld(r, cutoff) then 0 else 1 - delivered
  }

  /** What was handed to the collector, and how many records were delivered and deferred. */
  datatype Sums = Sums(sent: seq<(Record, Option<string>)>, delivered: nat, deferred: nat)

  /** Over some records: those that are due, in order, with the answers to them; what is neither too old nor delivered is deferred. */
  function Tally(records: seq<Record>, answers: seq<Option<string>>, cutoff: int, now: int): Sums
    requires |answers| == |records|
  {
    if records == [] then Sums([], 0, 0)
    else
      var n := |records| - 1;
      var r, answer, before := records[n], answers[n], Tally(records[..n], answers[..n], cutoff, now);
      if TooOld(r, cutoff) then before
      else if !Due(r, cutoff, now) then before.(deferred := before.deferred + 1)
      else if answer == Some(r.key) then before.(sent := before.sent + [(r, answer)], delivered := before.delivered + 1)
      else before.(sent := before.sent + [(r, answer)], deferred := before.deferred + 1)
  }

  lemma {:induction false} TallyNext(sorted: seq<Record>, i: nat, answers: seq<Option<string>>, answer: Option<string>, cutoff: int, now: int)
    requires i < |sorted| && |answers| == i
    ensures var before, after := Tally(sorted[..i], answers, cutoff, now), Tally(sorted[..i + 1], answers + [answer], cutoff, now);
            after.sent == before.sent + (if Due(sorted[i], cutoff, now) then [(sorted[i], answer)] else []) &&
            before.delivered <= after.delivered && before.deferred <= after.deferred &&
            Outcome(sorted[i], answer, after.delivered - before.delivered, after.deferred - before.deferred, cutoff, now)
  {
    assert sorted[..i + 1][..i] == sorted[..i] && (answers + [answer])[..i] == answers;
  }

  lemma {:induction false} SentMore(a: seq<(Record, Option<string>)>, b: seq<(Record, Option<string>)>, c: seq<(Record, Option<string>)>)
    ensures a + b + c == a + (b + c)
  {
  }

  /** One step of a flush touches no other record, and a key that is put back is still there. */
  lemma {:induction false} StepSame(before: seq<Record>, after: seq<Record>, r: Record, later: Record)
    requires r in before && later.key == r.key
    requires after == Without(before, r.key) || after == before || after == Put(before, later)
    ensures SameBut(before, after, r.key) && (after == before || after == Put(before, later) ==> HasKey(after, r.key))
  {
    MemberHas(before, r);
    WithoutSame(before, r.key);
    PutSame(before, later);
  }

  /** A store with its diagnostic replaced. */
  lemma {:induction false} DiagnosticStored(rows: seq<Record>, found: Option<Record>, r: Record, sum: nat)
    requires UniqueKeys(rows) && !HasKey(rows, "") && r.key != "" && r.diagnostic == Some(Saturated(sum)) && sum > 0
    requires if found.Some? then found.value in rows && Diagnostics(rows) == [found.value] && r.key == found.value.key
             else Diagnostics(rows) == [] && !HasKey(rows, r.key)
    ensures var after := Put(rows, r);
            UniqueKeys(after) && !HasKey(after, "") && Diagnostics(after) == [r] && Queue(after, "") == Queue(rows, "") &&
            DiagnosticRight(after, sum) && Others(after, "") == Others(rows, "") && OtherBytes(after, "") == OtherBytes(rows, "")
  {
    PutKeys(rows, r);
    PutDiagnostic(rows, found, r);
  }

  // ----- what the steps keep -----------------------------------------------------

  lemma {:induction false} EvictKeeps(rows: seq<Record>, left: seq<Record>, i: nat, key: string)
    requires UniqueKeys(rows) && !HasKey(rows, "") && i < |left| && Same(Queue(rows, key), left)
    ensures var after := Without(rows, left[i].key);
            UniqueKeys(after) && !HasKey(after, "") && Diagnostics(after) == Diagnostics(rows) &&
            Same(Queue(after, key), left[..i] + left[i + 1..])
  {
    var r := left[i];
    CountMember(left, r);
    assert CountOf(Queue(rows, key), r) == CountOf(left, r);
    CountMember(Queue(rows, key), r);
    QueueMember(rows, key, r);
    WithoutUnique(rows, r.key);
    WithoutKeys(rows, r.key, "");
    OtherKind(rows, r);
    DiagnosticsStay(rows, r.key);
    QueueSplit(rows, r, key);
    forall x
      ensures CountOf(Queue(Without(rows, r.key), key) + [r], x) == CountOf(left, x)
    {
      assert CountOf(Queue(rows, key), x) == CountOf(left, x);
    }
    SameRest(Queue(Without(rows, r.key), key), r, left, i);
  }

  lemma {:induction false} Middle(front: seq<Record>, all: seq<Record>, i: nat)
    requires i < |all|
    ensures var s := front + all[i..];
            s[|front|] == all[i] && s[..|front|] + s[|front| + 1..] == front + all[i + 1..] &&
            (front + [all[i]]) + all[i + 1..] == s
  {
    var s := front + all[i..];
    assert s[..|front|] == front && s[|front| + 1..] == all[i + 1..];
  }

  lemma {:induction false} DropKeeps(rows: seq<Record>, r: Record)
    requires UniqueKeys(rows) && !HasKey(rows, "") && r in rows && |Diagnostics(rows)| <= 1
    ensures var after := Without(rows, r.key);
            UniqueKeys(after) && !HasKey(after, "") && Diagnostics(after) == (if Ordinary(r) then Diagnostics(rows) else []) &&
            Others(after, "") <= Others(rows, "") && OtherBytes(after, "") <= OtherBytes(rows, "")
  {
    WithoutUnique(rows, r.key);
    WithoutKeys(rows, r.key, "");
    DiagnosticsBut(rows, r);
    if Ordinary(r) {
      if r.key == "" { MemberHas(rows, r); }
      QueueSplit(rows, r, "");
      SameBytes(Queue(rows, ""), Queue(Without(rows, r.key), "") + [r]);
      BytesMore(Queue(Without(rows, r.key), ""), r);
    } else {
      OtherKind(rows, r);
      QueueStays(rows, r.key, "");
    }
  }

  /** Rows that differ in the records of one key only. */
  ghost predicate SameBut(before: seq<Record>, after: seq<Record>, key: string) {
    forall x: Record :: x.key != key ==> (x in after <==> x in before)
  }

  lemma {:induction false} WithoutSame(rows: seq<Record>, key: string)
    ensures SameBut(rows, Without(rows, key), key) && !HasKey(Without(rows, key), key)
  {
    WithoutKeys(rows, key, key);
    forall x: Record | x.key != key
      ensures x in Without(rows, key) <==> x in rows
    {
      WithoutMember(rows, key, x);
    }
  }

  lemma {:induction false} PutSame(rows: seq<Record>, r: Record)
    ensures SameBut(rows, Put(rows, r), r.key) && HasKey(Put(rows, r), r.key)
  {
    KeysMore(Without(rows, r.key), r, r.key);
    forall x: Record | x.key != r.key
      ensures x in Put(rows, r) <==> x in rows
    {
      PutMember(rows, r, x);
    }
  }

  lemma {:induction false} KeysKept(before: seq<Record>, after: seq<Record>, key: string)
    requires SameBut(before, after, key)
    ensures forall k :: k != key && HasKey(before, k) ==> HasKey(after, k)
  {
    forall k | k != key && HasKey(before, k)
      ensures HasKey(after, k)
    {
      var r := HasMember(before, k);
      MemberHas(after, r);
    }
  }

  /** The records from a position on are still in the store. */
  ghost predicate Pending(sorted: seq<Record>, i: nat, rows: seq<Record>) { forall j :: i <= j < |sorted| ==> sorted[j] in rows }

  lemma {:induction false} AllPending(rows: seq<Record>)
    ensures Pending(Chronological(rows), 0, rows)
  {
    var sorted := Chronological(rows);
    forall j | 0 <= j < |sorted|
      ensures sorted[j] in rows
    {
      SortedMember(rows, sorted[j]);
    }
  }

  /** The records still to come are not the one at hand. */
  lemma {:induction false} PendingNext(sorted: seq<Record>, i: nat, before: seq<Record>, after: seq<Record>)
    requires UniqueKeys(sorted) && i < |sorted| && SameBut(before, after, sorted[i].key) && Pending(sorted, i, before)
    ensures Pending(sorted, i + 1, after)
  {
    forall j | i < j < |sorted|
      ensures sorted[j] in after
    {
      Apart(sorted, i, j);
    }
  }

  lemma {:induction false} AccountedNext(sorted: seq<Record>, i: nat, before: seq<Record>, after: seq<Record>,
                                         sent: seq<(Record, Option<string>)>, more: seq<(Record, Option<string>)>, cutoff: int)
    requires UniqueKeys(sorted) && i < |sorted| && SameBut(before, after, sorted[i].key)
    requires Accounted(sorted[..i], before, sent, cutoff)
    requires !HasKey(after, sorted[i].key) ==> TooOld(sorted[i], cutoff) || (sorted[i], Some(sorted[i].key)) in more
    ensures Accounted(sorted[..i + 1], after, sent + more, cutoff)
  {
    KeysKept(before, after, sorted[i].key);
    forall r | r in sorted[..i + 1] && !HasKey(after, r.key)
      ensures TooOld(r, cutoff) || (r, Some(r.key)) in sent + more
    {
      if r in sorted[..i] {
        var j :| 0 <= j < i && sorted[j] == r;
        Apart(sorted, j, i);
      }
    }
  }

  lemma {:induction false} AccountedAll(records: seq<Record>, rows: seq<Record>, sent: seq<(Record, Option<string>)>, cutoff: int)
    requires var sorted := Chronological(records); Accounted(sorted[..|sorted|], rows, sent, cutoff)
    ensures Accounted(records, rows, sent, cutoff)
  {
    var sorted := Chronological(records);
    assert sorted[..|sorted|] == sorted;
    forall r | r in records && !HasKey(rows, r.key)
      ensures TooOld(r, cutoff) || (r, Some(r.key)) in sent
    {
      SortedMember(records, r);
    }
  }

  lemma {:induction false} Apart(rows: seq<Record>, i: nat, j: nat)
    requires UniqueKeys(rows) && i < j < |rows|
    ensures rows[i].key != rows[j].key
  {
    if j < |rows| - 1 {
      Apart(rows[..|rows| - 1], i, j);
    } else {
      assert rows[i] == rows[..j][i];
      MemberHas(rows[..j], rows[i]);
    }
  }
}
