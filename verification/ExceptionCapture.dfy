/** Capturing exceptions once: deferral, delivery, and event ids, over one shared state for the process. */
module ExceptionCapture {
  import opened Wrappers

  /** Error objects by identity; secondary occurrences are fresh ones. */
  type Error = nat

  type EventId = nat

  // ----- contexts ----------------------------------------------------------------

  datatype Level = Warning | ErrorLevel | Fatal

  function Rank(l: Option<Level>): nat {
    match l
    case None => 0
    case Some(Warning) => 1
    case Some(ErrorLevel) => 2
    case Some(Fatal) => 3
  }

  const GENERIC: set<string> := {
    "INTERNAL_ERROR", "REQUEST_FAILED", "UNHANDLED_BROWSER_EXCEPTION", "UNHANDLED_OPS_EXCEPTION",
    "UNHANDLED_PROMISE_REJECTION", "UNHANDLED_SERVER_ERROR", "PROCESS_UNCAUGHT_EXCEPTION", "PROCESS_UNHANDLED_REJECTION"
  }

  datatype Context = Context(code: string, source: Option<string>, level: Option<Level>, tags: map<string, string>)

  function Merge(earlier: Option<Context>, later: Context): Context {
    if earlier.None? then later
    else
      var e := earlier.value;
      var level := if later.level.Some? && Rank(later.level) > Rank(e.level) then later.level else e.level;
      var code := if later.code in GENERIC && e.code !in GENERIC then e.code else later.code;
      var source := if later.source == Some("process") && later.code in GENERIC then e.source
                    else if later.source.Some? then later.source else e.source;
      Context(code, if source.Some? then source else later.source, level, e.tags + later.tags)
  }

  function MergeAll(contexts: seq<Context>): Option<Context> {
    if contexts == [] then None else Some(Merge(MergeAll(contexts[..|contexts| - 1]), contexts[|contexts| - 1]))
  }

  /** However often an error is captured on its way: the gravest level and the last telling code survive. */
  lemma {:induction false} MergeKeeps(contexts: seq<Context>, i: nat)
    requires i < |contexts|
    ensures var m := MergeAll(contexts).value;
            Rank(m.level) >= Rank(contexts[i].level) &&
            (contexts[i].code !in GENERIC ==> m.code !in GENERIC) &&
            ((contexts[i].code !in GENERIC && forall j :: i < j < |contexts| ==> contexts[j].code in GENERIC) ==>
               m.code == contexts[i].code) &&
            contexts[i].tags.Keys <= m.tags.Keys
  {
    if i < |contexts| - 1 { MergeKeeps(contexts[..|contexts| - 1], i); }
  }

  /** A source that says more than that a process ended. */
  predicate TellingSource(c: Context) { c.source.Some? && !(c.source == Some("process") && c.code in GENERIC) }

  /** The last source that says more than that a process ended survives, and of every tag the last value. */
  lemma {:induction false} MergeLast(contexts: seq<Context>, i: nat, tag: string)
    requires i < |contexts|
    ensures var m := MergeAll(contexts).value;
            (TellingSource(contexts[i]) && (forall j :: i < j < |contexts| ==> !TellingSource(contexts[j])) ==>
               m.source == contexts[i].source) &&
            (tag in contexts[i].tags && (forall j :: i < j < |contexts| ==> tag !in contexts[j].tags) ==>
               tag in m.tags && m.tags[tag] == contexts[i].tags[tag])
  {
    if i < |contexts| - 1 { MergeLast(contexts[..|contexts| - 1], i, tag); }
  }

  /** Nothing is invented: level, code and tags come from some of the contexts. */
  lemma {:induction false} MergeInvents(contexts: seq<Context>, tag: string)
    requires contexts != []
    ensures var m := MergeAll(contexts).value;
            (exists i :: 0 <= i < |contexts| && contexts[i].level == m.level) && (exists i :: 0 <= i < |contexts| && contexts[i].code == m.code) &&
            (tag in m.tags ==> exists i :: 0 <= i < |contexts| && tag in contexts[i].tags)
  {
    var before, n := contexts[..|contexts| - 1], |contexts| - 1;
    if before == [] {
      assert MergeAll(contexts) == Some(contexts[0]);
    } else {
      MergeInvents(before, tag);
      var e := MergeAll(before).value;
      var i :| 0 <= i < n && before[i].level == e.level;
      var j :| 0 <= j < n && before[j].code == e.code;
      assert contexts[i].level == e.level && contexts[j].code == e.code;
      if tag in e.tags {
        var k :| 0 <= k < n && tag in before[k].tags;
        assert tag in contexts[k].tags;
      }
    }
  }

  // ----- the shared state --------------------------------------------------------

  datatype Status = InFlight | Succeeded | Failed

  datatype Delivery = Delivery(key: Error, error: Error, eventId: EventId, context: Context, status: Status)

  /** A capture that waits for its terminal owner, or is about to be delivered. */
  class Pending {
    const key: Error
    const error: Error
    const eventId: EventId
    var context: Context
    var scheduled: bool

    constructor (key: Error, error: Error, eventId: EventId, context: Context)
      ensures this.key == key && this.error == error && this.eventId == eventId && this.context == context && !scheduled
    {
      this.key, this.error, this.eventId, this.context, scheduled := key, error, eventId, context, false;
    }
  }

  /** At most one delivery of a key is in flight or succeeded: any earlier one failed. */
  predicate OncePerKey(log: seq<Delivery>) {
    forall i, j :: 0 <= i < j < |log| && log[i].key == log[j].key ==> log[i].status == Failed
  }

  /** The delivered marks are exactly the keys of deliveries that have not failed. */
  ghost predicate MarksRight(log: seq<Delivery>, delivered: set<Error>) {
    (forall i :: 0 <= i < |log| && log[i].status != Failed ==> log[i].key in delivered) &&
    (forall k :: k in delivered ==> exists i :: 0 <= i < |log| && log[i].key == k && log[i].status != Failed)
  }

  predicate IdsRight(log: seq<Delivery>, eventIds: map<Error, EventId>) {
    forall i :: 0 <= i < |log| ==> log[i].key in eventIds && eventIds[log[i].key] == log[i].eventId
  }

  lemma {:induction false} LogMore(log: seq<Delivery>, delivered: set<Error>, d: Delivery)
    requires OncePerKey(log) && MarksRight(log, delivered) && d.key !in delivered
    ensures OncePerKey(log + [d])
    ensures MarksRight(log + [d], if d.status == Failed then delivered else delivered + {d.key})
  {
    var after := log + [d];
    assert after[|log|] == d;
    forall k | k in delivered
      ensures exists i :: 0 <= i < |after| && after[i].key == k && after[i].status != Failed
    {
      var i :| 0 <= i < |log| && log[i].key == k && log[i].status != Failed;
      assert after[i] == log[i];
    }
  }

  /** A delivery in flight settles: a failure clears its key's mark, and no other delivery relies on that mark. */
  lemma {:induction false} LogSettles(log: seq<Delivery>, delivered: set<Error>, i: nat, status: Status)
    requires OncePerKey(log) && MarksRight(log, delivered) && i < |log| && log[i].status == InFlight
    ensures var after := log[i := log[i].(status := status)];
            OncePerKey(after) && MarksRight(after, if status == Failed then delivered - {log[i].key} else delivered)
  {
    var after := log[i := log[i].(status := status)];
    forall j | 0 <= j < |log| && j != i && log[j].key == log[i].key
      ensures log[j].status == Failed
    {
    }
    forall k | k in delivered && (status != Failed || k != log[i].key)
      ensures exists j :: 0 <= j < |after| && after[j].key == k && after[j].status != Failed
    {
      var j :| 0 <= j < |log| && log[j].key == k && log[j].status != Failed;
      assert after[j].key == k;
    }
  }

  class Capturer {
    var eventIds: map<Error, EventId>
    var delivered: set<Error>
    var byError: map<Error, Pending>
    var deferred: set<Pending>
    /** All deliveries so far. */
    ghost var log: seq<Delivery>

    ghost predicate Valid()
      reads this, deferred
    {
      // The map and the set hold the same captures, none of them dispatched.
      (forall k :: k in byError ==> byError[k] in deferred && byError[k].key == k) &&
      (forall c :: c in deferred ==> c.key in byError && byError[c.key] == c && !c.scheduled) &&
      (forall c :: c in deferred ==> c.key !in delivered && c.key in eventIds && eventIds[c.key] == c.eventId) &&
      OncePerKey(log) && MarksRight(log, delivered) && IdsRight(log, eventIds)
    }

    constructor ()
      ensures Valid() && log == [] && deferred == {}
    {
      eventIds, delivered, byError, deferred, log := map[], {}, map[], {}, [];
    }

    /** Hand a capture over. The reporter may throw at once; otherwise its delivery is in flight. */
    method Dispatch(c: Pending)
      requires Valid() && c in deferred
      modifies this, c
      ensures Valid() && deferred == old(deferred) - {c} && byError == old(byError) - {c.key}
      ensures c.context == old(c.context) && c.scheduled && eventIds == old(eventIds)
      ensures exists status :: status in {InFlight, Failed} &&
                log == old(log) + [Delivery(c.key, c.error, c.eventId, old(c.context), status)]
    {
      c.scheduled := true;
      byError := byError - {c.key};
      deferred := deferred - {c};
      delivered := delivered + {c.key};
      var thrown: bool := *;
      ghost var status := if thrown then Failed else InFlight;
      LogMore(log, old(delivered), Delivery(c.key, c.error, c.eventId, c.context, status));
      log := log + [Delivery(c.key, c.error, c.eventId, c.context, status)];
      if thrown { delivered := delivered - {c.key}; }
    }

    /** The delivery of a dispatched capture succeeds or fails. */
    method Settle(c: Pending, ghost i: nat, ok: bool)
      requires Valid() && i < |log| && log[i].status == InFlight && log[i].key == c.key
      modifies this`log, this`delivered
      ensures Valid() && log == old(log)[i := old(log)[i].(status := if ok then Succeeded else Failed)]
    {
      ghost var status := if ok then Succeeded else Failed;
      LogSettles(log, delivered, i, status);
      if !ok { delivered := delivered - {c.key}; }
      log := log[i := log[i].(status := status)];
    }

    /** The occurrence that a capture is about: the error's own, or a separate one. */
    function KeyFor(error: Error, distinct: bool, force: bool, secondary: Error): Error
      reads this
    {
      if distinct || (force && (error in delivered || error in byError)) then secondary else error
    }

    /** The context collected for a key so far. */
    ghost function ContextOf(key: Error): Option<Context>
      reads this, byError.Values
    {
      if key in byError then Some(byError[key].context) else None
    }

    /** The captures of other keys are as they were. */
    twostate predicate OthersSame(key: Error)
      reads this, byError.Values
    {
      forall k :: k != key ==>
        (k in byError <==> k in old(byError)) && (k in byError ==> byError[k] == old(byError)[k] && byError[k].context == old(byError[k].context))
    }

    /** The waiting capture of an occurrence, with one more context; a new one if none waits. */
    method Collect(key: Error, error: Error, id: EventId, context: Context) returns (c: Pending)
      requires Valid() && key !in delivered && key in eventIds && eventIds[key] == id
      modifies this`byError, this`deferred, deferred
      ensures Valid() && c in deferred && c.key == key && byError == old(byError)[key := c] && deferred == old(deferred) + {c}
      ensures if key in old(byError) then c == old(byError)[key] else fresh(c) && c.error == error
      ensures c.eventId == id && c.context == Merge(old(ContextOf(key)), context) && OthersSame(key)
    {
      if key in byError {
        c := byError[key];
        c.context := Merge(Some(c.context), context);
      } else {
        c := new Pending(key, error, id, context);
        byError := byError[key := c];
        deferred := deferred + {c};
      }
    }

    /**
     Capture an error. `secondary` is the fresh identity of a separate occurrence, `newId` a fresh event id; `key` is the
     occurrence that the capture is about. An occurrence whose delivery is in flight or succeeded is not delivered again;
     an occurrence once seen keeps its event id.
     */
    method CaptureOnce(error: Error, distinct: bool, force: bool, defer: bool, context: Context, secondary: Error,
                       newId: EventId) returns (id: EventId, ghost key: Error)
      requires Valid() && secondary !in eventIds && secondary !in delivered && secondary !in byError
      modifies this, deferred
      ensures Valid() && fresh(deferred - old(deferred)) && OthersSame(key)
      // A separate occurrence is one that was asked for, or forced while the error's own is delivered or waits.
      ensures distinct ==> key == secondary
      ensures force && (error in old(delivered) || error in old(byError)) ==> key == secondary
      ensures !distinct && !force ==> key == error
      ensures !distinct && error !in old(delivered) && error !in old(byError) ==> key == error
      ensures eventIds == old(eventIds)[key := id] && id == if key in old(eventIds) then old(eventIds)[key] else newId
      ensures key in old(delivered) ==> log == old(log) && deferred == old(deferred) && byError == old(byError)
      ensures key !in old(delivered) && defer ==>
                log == old(log) && key in byError && byError[key].context == Merge(old(ContextOf(key)), context) &&
                if key in old(byError) then byError[key] == old(byError)[key] else byError[key].error == error
      ensures key !in old(delivered) && !defer ==>
                var start := if key in old(byError) then old(byError)[key].error else error;
                key !in byError && |log| == |old(log)| + 1 && old(log) <= log &&
                StartedAs(log[|log| - 1], Delivery(key, start, id, Merge(old(ContextOf(key)), context), InFlight))
    {
      var occurrence := KeyFor(error, distinct, force, secondary);
      key := occurrence;
      id := if occurrence in eventIds then eventIds[occurrence] else newId;
      eventIds := eventIds[occurrence := id];
      if occurrence in delivered { return; }
      var c := Collect(occurrence, error, id, context);
      if !defer { Dispatch(c); }
    }

    /** The deliveries that the waiting captures are to become. */
    ghost function Wanted(): map<Pending, Delivery>
      reads this, deferred
    {
      map c | c in deferred :: Delivery(c.key, c.error, c.eventId, c.context, InFlight)
    }

    /** Hand over one of the captures that are left. */
    method DispatchNext(c: Pending, ghost order: seq<Pending>, ghost before: nat, ghost wanted: map<Pending, Delivery>)
      requires Valid() && c in deferred && before <= |log| && Left(wanted, order, deferred)
      requires Started(log[before..], order, wanted) && Wanted() == map x | x in deferred :: wanted[x]
      modifies this, c
      ensures Valid() && deferred == old(deferred) - {c} && eventIds == old(eventIds) && old(log) <= log
      ensures Left(wanted, order + [c], deferred) && Started(log[before..], order + [c], wanted)
      ensures Wanted() == map x | x in deferred :: wanted[x]
    {
      ghost var was, earlier := log, Wanted();
      assert earlier[c] == wanted[c];
      Dispatch(c);
      assert log[before..] == was[before..] + [log[|was|]];
      StartedMore(was[before..], order, wanted, log[|was|], c);
      forall x | x in deferred
        ensures Wanted()[x] == wanted[x]
      {
        assert earlier[x] == wanted[x];
      }
    }

    /**
     One round of flush: everything deferred is handed over. `order` has each deferred capture once; the new deliveries are
     theirs, each with its own key, error, event id and merged context.
     */
    method DispatchDeferred() returns (ghost order: seq<Pending>)
      requires Valid()
      modifies this, deferred
      ensures Valid() && deferred == {} && byError == map[] && eventIds == old(eventIds) && old(log) <= log
      ensures Left(old(Wanted()), order, {}) && Started(log[|old(log)|..], order, old(Wanted()))
    {
      ghost var wanted := Wanted();
      order := [];
      while deferred != {}
        invariant Valid() && deferred <= old(deferred) && eventIds == old(eventIds) && old(log) <= log
        invariant Left(wanted, order, deferred) && Started(log[|old(log)|..], order, wanted)
        invariant Wanted() == map x | x in deferred :: wanted[x]
        decreases deferred
      {
        var c :| c in deferred;
        DispatchNext(c, order, |old(log)|, wanted);
        order := order + [c];
      }
      assert forall k :: k !in byError;
    }
  }

  /** Of some captures, each is handed over once or still waits. */
  ghost predicate Left(wanted: map<Pending, Delivery>, order: seq<Pending>, waiting: set<Pending>) {
    wanted.Keys == (set c | c in order) + waiting && (set c | c in order) !! waiting &&
    forall i, j :: 0 <= i < j < |order| ==> order[i] != order[j]
  }

  /** A delivery that was started as wanted, and may have failed at once. */
  predicate StartedAs(d: Delivery, wanted: Delivery) { d.status in {InFlight, Failed} && d == wanted.(status := d.status) }

  ghost predicate Started(deliveries: seq<Delivery>, order: seq<Pending>, wanted: map<Pending, Delivery>) {
    |deliveries| == |order| &&
    forall i :: 0 <= i < |order| ==> order[i] in wanted && StartedAs(deliveries[i], wanted[order[i]])
  }

  lemma {:induction false} StartedMore(deliveries: seq<Delivery>, order: seq<Pending>, wanted: map<Pending, Delivery>, d: Delivery, c: Pending)
    requires Started(deliveries, order, wanted) && c in wanted && StartedAs(d, wanted[c])
    ensures Started(deliveries + [d], order + [c], wanted)
  {
  }
}
