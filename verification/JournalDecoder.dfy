/**
 The decoder of the apply journal. Every event reads the whole journal before it is recorded, and reading refuses a journal
 in which one entry is out of range.
 */
module JournalDecoder {
  import opened Wrappers
  import opened ApplyMachine
  import opened Recovery

  const MAX_SAFE: int := 9007199254740991

  datatype Entry = Entry(record: Record, sequence: Option<int>)

  datatype JournalError = JournalInvalid

  predicate InRange(n: int) { 1 <= n <= MAX_SAFE }

  predicate Decodes(e: Entry) { e.sequence.Some? ==> InRange(e.sequence.value) }

  predicate Readable(journal: seq<Entry>) { forall i :: 0 <= i < |journal| ==> Decodes(journal[i]) }

  function Records(journal: seq<Entry>): seq<Record> {
    if journal == [] then [] else [journal[0].record] + Records(journal[1..])
  }

  function Others(journal: seq<Entry>, runId: string): seq<Entry> {
    if journal == [] then []
    else if journal[0].record.runId == runId then Others(journal[1..], runId) else [journal[0]] + Others(journal[1..], runId)
  }

  /** The journal after an event of a run, with its sequence number. */
  function Persisted(journal: seq<Entry>, runId: string, changeId: string, appId: string, state: State, sequence: int)
    : Result<seq<Entry>, JournalError>
  {
    if !Readable(journal) then Err(JournalInvalid)
    else
      var existing := RecordOf(Records(journal), runId);
      var written := (existing.Some? && existing.value.hasWrites) || MayHaveWritten(state);
      Ok(Others(journal, runId) + [Entry(Record(runId, changeId, appId, state, written), Some(sequence))])
  }

  lemma {:induction false} OthersRecords(journal: seq<Entry>, last: Entry)
    ensures Records(Others(journal, last.record.runId) + [last]) == Without(Records(journal), last.record.runId) + [last.record]
  {
    if journal == [] {
      assert [last][1..] == [];
    } else {
      OthersRecords(journal[1..], last);
      var rest := Others(journal[1..], last.record.runId) + [last];
      if journal[0].record.runId != last.record.runId {
        assert Others(journal, last.record.runId) + [last] == [journal[0]] + rest;
        assert ([journal[0]] + rest)[1..] == rest;
      }
    }
  }

  /** What is recorded, once the journal can be read: exactly the step that recovery is about. */
  lemma {:induction false} PersistedRecords(journal: seq<Entry>, runId: string, changeId: string, appId: string, state: State,
                                            sequence: int)
    requires Readable(journal)
    ensures Persisted(journal, runId, changeId, appId, state, sequence).Ok?
    ensures Records(Persisted(journal, runId, changeId, appId, state, sequence).value) ==
            Recorded(Records(journal), runId, changeId, appId, state)
  {
    var after := Persisted(journal, runId, changeId, appId, state, sequence).value;
    OthersRecords(journal, after[|after| - 1]);
  }

  lemma {:induction false} OthersReadable(journal: seq<Entry>, runId: string)
    requires Readable(journal)
    ensures Readable(Others(journal, runId))
  {
    if journal != [] {
      OthersReadable(journal[1..], runId);
      if journal[0].record.runId != runId {
        var rest := Others(journal[1..], runId);
        assert forall i :: 0 < i < |rest| + 1 ==> Others(journal, runId)[i] == rest[i - 1];
      }
    }
  }

  /** An event leaves a journal that can be read exactly when its number is in range. */
  lemma {:induction false} StaysReadable(journal: seq<Entry>, runId: string, changeId: string, appId: string, state: State,
                                         sequence: int)
    requires Readable(journal)
    ensures Readable(Persisted(journal, runId, changeId, appId, state, sequence).value) <==> InRange(sequence)
  {
    var after := Persisted(journal, runId, changeId, appId, state, sequence).value;
    OthersReadable(journal, runId);
    assert after[..|after| - 1] == Others(journal, runId) && after[|after| - 1].sequence == Some(sequence);
  }

  // ----- a run's events ----------------------------------------------------------

  /** The journal after the events of a run, numbered upwards. */
  function PersistedAll(journal: seq<Entry>, runId: string, changeId: string, appId: string, states: seq<State>, first: int)
    : Result<seq<Entry>, JournalError>
    decreases |states|
  {
    if states == [] then Ok(journal)
    else
      var next := Persisted(journal, runId, changeId, appId, states[0], first);
      if next.Err? then next else PersistedAll(next.value, runId, changeId, appId, states[1..], first + 1)
  }

  /** All events of a run are recorded exactly when the number of each but the last is in range. */
  lemma {:induction false} RecordedExactly(journal: seq<Entry>, runId: string, changeId: string, appId: string, states: seq<State>,
                                           first: int)
    requires Readable(journal)
    ensures PersistedAll(journal, runId, changeId, appId, states, first).Ok? <==>
            |states| <= 1 || (1 <= first && first + |states| - 2 <= MAX_SAFE)
    decreases |states|
  {
    if states != [] {
      var next := Persisted(journal, runId, changeId, appId, states[0], first).value;
      StaysReadable(journal, runId, changeId, appId, states[0], first);
      if InRange(first) {
        RecordedExactly(next, runId, changeId, appId, states[1..], first + 1);
      } else if |states| > 1 {
        assert Persisted(next, runId, changeId, appId, states[1], first + 1).Err?;
      }
    }
  }

  /** A run's first event has the number 0: after it nothing more is recorded, of this run or of any other. */
  lemma {:induction false} FirstEventSpoils(journal: seq<Entry>, runId: string, changeId: string, appId: string, states: seq<State>)
    requires Readable(journal) && states != []
    ensures PersistedAll(journal, runId, changeId, appId, states, 0).Ok? <==> |states| == 1
    ensures var spoiled := Persisted(journal, runId, changeId, appId, states[0], 0);
            spoiled.Ok? &&
            forall run, change, app, state, sequence :: Persisted(spoiled.value, run, change, app, state, sequence) == Err(JournalInvalid)
  {
    RecordedExactly(journal, runId, changeId, appId, states, 0);
    StaysReadable(journal, runId, changeId, appId, states[0], 0);
  }

  class Journal {
    var entries: seq<Entry>

    constructor ()
      ensures entries == []
    {
      entries := [];
    }

    /** Read the journal, entry by entry. */
    method Read() returns (r: Result<seq<Entry>, JournalError>)
      ensures r == if Readable(entries) then Ok(entries) else Err(JournalInvalid)
    {
      var result: seq<Entry> := [];
      for i := 0 to |entries|
        invariant result == entries[..i] && Readable(result)
      {
        if entries[i].sequence.Some? && !(1 <= entries[i].sequence.value <= MAX_SAFE) { return Err(JournalInvalid); }
        result := result + [entries[i]];
      }
      assert entries[..|entries|] == entries;
      return Ok(result);
    }

    /** Record an event, or leave the journal as it is when it cannot be read. */
    method PersistEvent(runId: string, changeId: string, appId: string, state: State, sequence: int)
      returns (r: Result<(), JournalError>)
      modifies this
      ensures var after := Persisted(old(entries), runId, changeId, appId, state, sequence);
              if after.Ok? then r == Ok(()) && entries == after.value else r == Err(after.error) && entries == old(entries)
    {
      var read := Read();
      if read.Err? { return Err(read.error); }
      var existing := RecordOf(Records(read.value), runId);
      var written := (existing.Some? && existing.value.hasWrites) || MayHaveWritten(state);
      var kept: seq<Entry> := [];
      for i := 0 to |read.value|
        invariant kept == Others(read.value[..i], runId)
      {
        OthersMore(read.value, i, runId);
        if read.value[i].record.runId != runId { kept := kept + [read.value[i]]; }
      }
      assert read.value[..|read.value|] == read.value;
      entries := kept + [Entry(Record(runId, changeId, appId, state, written), Some(sequence))];
      return Ok(());
    }
  }

  lemma {:induction false} OthersMore(journal: seq<Entry>, i: nat, runId: string)
    requires i < |journal|
    ensures Others(journal[..i + 1], runId) ==
            Others(journal[..i], runId) + if journal[i].record.runId != runId then [journal[i]] else []
    decreases i
  {
    if i == 0 {
      assert journal[..1][1..] == [] && journal[..1][0] == journal[0];
    } else {
      OthersMore(journal[1..], i - 1, runId);
      assert journal[..i + 1][1..] == journal[1..][..i] && journal[..i][1..] == journal[1..][..i - 1];
      assert [journal[0]] + (Others(journal[1..][..i - 1], runId) + [journal[i]]) ==
             [journal[0]] + Others(journal[1..][..i - 1], runId) + [journal[i]];
    }
  }
}
