/** Calls of apply by run id: settled runs answer from memory, running ones are joined, only others start an execution. */
module ApplyOnce {
  import opened Wrappers

  /** What concurrent callers and executions do, one synchronous step at a time. */
  datatype Event<T> = Call(runId: string) | Resolve(runId: string, result: T) | Reject(runId: string)

  datatype Answer<T> = Remembered(result: T) | JoinedRun | StartedRun

  /** The results of settled runs and the runs in progress. */
  datatype Book<T> = Book(results: map<string, T>, runs: set<string>)

  function AnswerTo<T>(b: Book<T>, runId: string): Answer<T> {
    if runId in b.results then Remembered(b.results[runId]) else if runId in b.runs then JoinedRun else StartedRun
  }

  /** An execution settles only while it runs. */
  predicate Possible<T>(b: Book<T>, e: Event<T>) { e.Call? || e.runId in b.runs }

  function Next<T>(b: Book<T>, e: Event<T>): Book<T> {
    match e
    case Call(id) => if AnswerTo(b, id).StartedRun? then b.(runs := b.runs + {id}) else b
    case Resolve(id, result) => Book(b.results[id := result], b.runs - {id})
    case Reject(id) => b.(runs := b.runs - {id})
  }

  /** The book after a history; None when an event was not possible. */
  function After<T>(history: seq<Event<T>>): Option<Book<T>> {
    if history == [] then Some(Book(map[], {}))
    else
      var b, e := After(history[..|history| - 1]), history[|history| - 1];
      if b.None? || !Possible(b.value, e) then None else Some(Next(b.value, e))
  }

  /** How many executions of a run a history starts. */
  function Starts<T>(history: seq<Event<T>>, id: string): nat
    requires After(history).Some?
  {
    if history == [] then 0
    else
      var before, e := history[..|history| - 1], history[|history| - 1];
      Starts(before, id) + if e == Call(id) && AnswerTo(After(before).value, id).StartedRun? then 1 else 0
  }

  function Rejections<T>(history: seq<Event<T>>, id: string): nat {
    if history == [] then 0
    else Rejections(history[..|history| - 1], id) + if history[|history| - 1] == Reject(id) then 1 else 0
  }

  /** Every execution is rejected, still running, or settled: a run has at most one that is running or settled. */
  lemma {:induction false} ExecutionsAccounted<T>(history: seq<Event<T>>, id: string)
    requires After(history).Some?
    ensures var b := After(history).value;
            !(id in b.results && id in b.runs) &&
            Starts(history, id) == Rejections(history, id) + (if id in b.runs then 1 else 0) + if id in b.results then 1 else 0
  {
    if history != [] { ExecutionsAccounted(history[..|history| - 1], id); }
  }

  /** A settled run keeps its result and is never executed again, whatever is called later. */
  lemma {:induction false} NeverAgain<T>(history: seq<Event<T>>, more: seq<Event<T>>, id: string)
    requires After(history + more).Some? && After(history).Some? && id in After(history).value.results
    ensures id in After(history + more).value.results &&
            After(history + more).value.results[id] == After(history).value.results[id]
    ensures Starts(history + more, id) == Starts(history, id)
  {
    if more == [] {
      assert history + more == history;
    } else {
      var before := more[..|more| - 1];
      assert (history + more)[..|history + more| - 1] == history + before;
      NeverAgain(history, before, id);
      ExecutionsAccounted(history + before, id);
    }
  }

  class Runs<T> {
    var results: map<string, T>
    var runs: set<string>

    constructor ()
      ensures Contents() == Book(map[], {})
    {
      results, runs := map[], {};
    }

    ghost function Contents(): Book<T>
      reads this
    {
      Book(results, runs)
    }

    /** The synchronous start of apply: answer from memory, join, or start an execution. */
    method Apply(runId: string) returns (a: Answer<T>)
      modifies this`runs
      ensures a == AnswerTo(old(Contents()), runId) && Contents() == Next(old(Contents()), Call(runId))
    {
      if runId in results { return Remembered(results[runId]); }
      if runId in runs { return JoinedRun; }
      runs := runs + {runId};
      return StartedRun;
    }

    /** What follows the awaited execution: remember a result, and forget the running entry either way. */
    method Settle(runId: string, outcome: Option<T>)
      modifies this
      ensures Contents() == Next(old(Contents()), if outcome.Some? then Resolve(runId, outcome.value) else Reject(runId))
    {
      if outcome.Some? { results := results[runId := outcome.value]; }
      runs := runs - {runId};
    }
  }
}
