/** Which definition of a variable is effective: the order of definitions, and who is shadowed by whom. */
module Precedence {
  datatype Definition = Definition(id: string, name: string, sourceId: string, sourceOrder: nat, ordinal: nat, rank: int,
                                   consumers: seq<string>)

  /** An empty list of consumers means all of them. */
  predicate Intersects(a: seq<string>, b: seq<string>) {
    a == [] || b == [] || exists i :: 0 <= i < |a| && a[i] in b
  }

  predicate Serves(d: Definition, consumer: string) { d.consumers == [] || consumer in d.consumers }

  predicate IsHigher(a: Definition, b: Definition) {
    if a.rank != b.rank then a.rank > b.rank
    else if a.sourceId == b.sourceId then a.ordinal > b.ordinal
    else a.sourceOrder > b.sourceOrder
  }

  /** Definitions as the inventory reads them: sources in their order, each with one rank, ordinals counting a name. */
  predicate WellRead(all: seq<Definition>) {
    (forall i, j :: 0 <= i < j < |all| ==> all[i].id != all[j].id) &&
    (forall i, j :: 0 <= i < |all| && 0 <= j < |all| ==>
       (all[i].sourceId == all[j].sourceId <==> all[i].sourceOrder == all[j].sourceOrder) &&
       (all[i].sourceId == all[j].sourceId ==> all[i].rank == all[j].rank)) &&
    (forall i, j :: 0 <= i < j < |all| && all[i].name == all[j].name && all[i].sourceId == all[j].sourceId ==>
       all[i].ordinal != all[j].ordinal)
  }

  /** The order is a strict total order on the definitions of a name. */
  lemma {:induction false} StrictTotal(all: seq<Definition>, a: Definition, b: Definition, c: Definition)
    requires WellRead(all) && a in all && b in all && c in all && a.name == b.name == c.name
    ensures !IsHigher(a, a)
    ensures IsHigher(a, b) && IsHigher(b, c) ==> IsHigher(a, c)
    ensures a != b ==> (IsHigher(a, b) <==> !IsHigher(b, a))
  {
  }

  /** The higher rank wins; at one rank the later source, and within a source the later definition. */
  lemma {:induction false} HigherIs(all: seq<Definition>, a: Definition, b: Definition)
    requires WellRead(all) && a in all && b in all
    ensures IsHigher(a, b) <==>
            a.rank > b.rank ||
            (a.rank == b.rank && (a.sourceOrder > b.sourceOrder || (a.sourceOrder == b.sourceOrder && a.ordinal > b.ordinal)))
  {
  }

  /** Two lists of consumers meet exactly when some consumer is served through both. */
  lemma {:induction false} IntersectsIs(a: Definition, b: Definition)
    ensures Intersects(a.consumers, b.consumers) <==> exists consumer :: Serves(a, consumer) && Serves(b, consumer)
  {
    if Intersects(a.consumers, b.consumers) {
      var consumer := if a.consumers == [] then if b.consumers == [] then "" else b.consumers[0]
                      else if b.consumers == [] then a.consumers[0]
                      else var i :| 0 <= i < |a.consumers| && a.consumers[i] in b.consumers; a.consumers[i];
      assert Serves(a, consumer) && Serves(b, consumer);
    }
    if consumer :| Serves(a, consumer) && Serves(b, consumer) { ServeBoth(a, b, consumer); }
  }

  // ----- who is effective --------------------------------------------------------

  predicate Shadows(c: Definition, d: Definition) {
    c.name == d.name && c.id != d.id && Intersects(c.consumers, d.consumers) && IsHigher(c, d)
  }

  predicate Effective(all: seq<Definition>, d: Definition) { forall i :: 0 <= i < |all| ==> !Shadows(all[i], d) }

  lemma {:induction false} ServeBoth(a: Definition, b: Definition, consumer: string)
    requires Serves(a, consumer) && Serves(b, consumer)
    ensures Intersects(a.consumers, b.consumers)
  {
    if a.consumers != [] && b.consumers != [] {
      var i :| 0 <= i < |a.consumers| && a.consumers[i] == consumer;
    }
  }

  /** A consumer never sees two effective definitions of one name. */
  lemma {:induction false} AtMostOneEffective(all: seq<Definition>, a: Definition, b: Definition, consumer: string)
    requires WellRead(all) && a in all && b in all && a.name == b.name
    requires Serves(a, consumer) && Serves(b, consumer) && Effective(all, a) && Effective(all, b)
    ensures a == b
  {
    if a != b {
      ServeBoth(a, b, consumer);
      ServeBoth(b, a, consumer);
      StrictTotal(all, a, b, a);
    }
  }

  /** The highest definition of a name. */
  function Highest(all: seq<Definition>, name: string): (d: Definition)
    requires exists i :: 0 <= i < |all| && all[i].name == name
    ensures d in all && d.name == name
  {
    var last, before := all[|all| - 1], all[..|all| - 1];
    if exists i :: 0 <= i < |before| && before[i].name == name then
      var d := Highest(before, name);
      if last.name == name && IsHigher(last, d) then last else d
    else last
  }

  lemma {:induction false} WellReadPrefix(all: seq<Definition>)
    requires WellRead(all) && all != []
    ensures WellRead(all[..|all| - 1])
  {
  }

  lemma {:induction false} HighestIsHighest(all: seq<Definition>, name: string, d: Definition)
    requires WellRead(all) && d in all && d.name == name
    ensures d == Highest(all, name) || IsHigher(Highest(all, name), d)
  {
    var last, before := all[|all| - 1], all[..|all| - 1];
    assert all == before + [last];
    if exists i :: 0 <= i < |before| && before[i].name == name {
      var h := Highest(before, name);
      WellReadPrefix(all);
      if d in before { HighestIsHighest(before, name, d); }
      if last.name == name { StrictTotal(all, last, h, d); }
    }
  }

  /** The highest definition of every name is effective. */
  lemma {:induction false} HighestIsEffective(all: seq<Definition>, name: string)
    requires WellRead(all) && exists i :: 0 <= i < |all| && all[i].name == name
    ensures Effective(all, Highest(all, name))
  {
    var h := Highest(all, name);
    forall i | 0 <= i < |all|
      ensures !Shadows(all[i], h)
    {
      if all[i].name == name {
        HighestIsHighest(all, name, all[i]);
        StrictTotal(all, all[i], h, h);
      }
    }
  }

  // ----- whom the effective definitions serve ------------------------------------

  predicate Candidate(d: Definition, name: string, consumer: string) { d.name == name && Serves(d, consumer) }

  /** The highest among a name's definitions for a consumer. */
  predicate HighestFor(all: seq<Definition>, h: Definition, name: string, consumer: string) {
    h in all && Candidate(h, name, consumer) &&
    forall i :: 0 <= i < |all| && Candidate(all[i], name, consumer) && all[i] != h ==> IsHigher(h, all[i])
  }

  /** There is one, when any definition of the name serves the consumer. */
  lemma {:induction false} HighestForExists(all: seq<Definition>, name: string, consumer: string) returns (h: Definition)
    requires WellRead(all) && exists i :: 0 <= i < |all| && Candidate(all[i], name, consumer)
    ensures HighestFor(all, h, name, consumer)
  {
    var last, before := all[|all| - 1], all[..|all| - 1];
    assert all == before + [last];
    if exists i :: 0 <= i < |before| && Candidate(before[i], name, consumer) {
      WellReadPrefix(all);
      h := HighestForExists(before, name, consumer);
      if Candidate(last, name, consumer) {
        if IsHigher(last, h) {
          forall i | 0 <= i < |all| && Candidate(all[i], name, consumer) && all[i] != last
            ensures IsHigher(last, all[i])
          {
            if all[i] != h { StrictTotal(all, last, h, all[i]); }
          }
          h := last;
        } else {
          StrictTotal(all, last, h, h);
        }
      }
    } else {
      h := last;
    }
  }

  /**
   A consumer has an effective definition of a name exactly when nothing that does not serve the consumer shadows the
   highest definition that does: no such definition has a consumer in common with it and ranks above it.
   */
  lemma {:induction false} ServedExactly(all: seq<Definition>, h: Definition, name: string, consumer: string)
    requires WellRead(all) && HighestFor(all, h, name, consumer)
    ensures (exists d :: d in all && Candidate(d, name, consumer) && Effective(all, d)) <==>
            !exists i :: 0 <= i < |all| && !Serves(all[i], consumer) && Shadows(all[i], h)
  {
    if exists i :: 0 <= i < |all| && !Serves(all[i], consumer) && Shadows(all[i], h) {
      var i :| 0 <= i < |all| && !Serves(all[i], consumer) && Shadows(all[i], h);
      forall d | d in all && Candidate(d, name, consumer) && d != h
        ensures !Effective(all, d)
      {
        OnlyHighest(all, h, name, consumer, d);
      }
    } else {
      forall i | 0 <= i < |all|
        ensures !Shadows(all[i], h)
      {
        if Shadows(all[i], h) {
          assert Candidate(all[i], name, consumer);
          StrictTotal(all, h, all[i], h);
        }
      }
      assert Effective(all, h);
    }
  }

  /** No other definition that serves the consumer is effective. */
  lemma {:induction false} OnlyHighest(all: seq<Definition>, h: Definition, name: string, consumer: string, d: Definition)
    requires WellRead(all) && HighestFor(all, h, name, consumer)
    requires d in all && Candidate(d, name, consumer) && d != h
    ensures !Effective(all, d)
  {
    ServeBoth(h, d, consumer);
    var i :| 0 <= i < |all| && all[i] == h;
    assert Shadows(all[i], d);
  }

  /** A consumer can be left without any: its only definition is shadowed by one that serves another consumer. */
  lemma {:induction false} ConsumerLeftOut()
    ensures var low := Definition("a", "X", "s", 0, 0, 1, ["api", "job"]);
            var high := Definition("b", "X", "t", 1, 0, 2, ["job"]);
            WellRead([low, high]) && Serves(low, "api") && !Serves(high, "api") && !Effective([low, high], low)
  {
    var low := Definition("a", "X", "s", 0, 0, 1, ["api", "job"]);
    var high := Definition("b", "X", "t", 1, 0, 2, ["job"]);
    assert high.consumers[0] in low.consumers by { assert low.consumers[1] == "job"; }
    assert Shadows([low, high][1], low);
  }

  // ----- the computation ---------------------------------------------------------

  function Named(all: seq<Definition>, name: string): seq<Definition> {
    if all == [] then []
    else Named(all[..|all| - 1], name) + if all[|all| - 1].name == name then [all[|all| - 1]] else []
  }

  lemma {:induction false} NamedHolds(all: seq<Definition>, name: string, d: Definition)
    ensures d in Named(all, name) <==> d in all && d.name == name
  {
    if all != [] {
      NamedHolds(all[..|all| - 1], name, d);
      assert all == all[..|all| - 1] + [all[|all| - 1]];
    }
  }

  lemma {:induction false} NamedMore(all: seq<Definition>, d: Definition, name: string)
    ensures Named(all + [d], name) == Named(all, name) + if d.name == name then [d] else []
  {
    assert (all + [d])[..|all|] == all;
  }

  function Lookup(grouped: map<string, seq<Definition>>, name: string): seq<Definition> {
    if name in grouped then grouped[name] else []
  }

  /** A table of the definitions by name. */
  ghost predicate Groups(grouped: map<string, seq<Definition>>, all: seq<Definition>) {
    forall name: string :: Lookup(grouped, name) == Named(all, name)
  }

  lemma {:induction false} GroupsMore(grouped: map<string, seq<Definition>>, all: seq<Definition>, d: Definition)
    requires Groups(grouped, all)
    ensures Groups(grouped[d.name := Lookup(grouped, d.name) + [d]], all + [d])
  {
    forall name: string
      ensures Lookup(grouped[d.name := Lookup(grouped, d.name) + [d]], name) == Named(all + [d], name)
    {
      NamedMore(all, d, name);
      assert Lookup(grouped, name) == Named(all, name);
      assert Named(all, name) + [] == Named(all, name);
    }
  }

  /** The definitions by name, in order. */
  method GroupByName(all: seq<Definition>) returns (grouped: map<string, seq<Definition>>)
    ensures Groups(grouped, all)
  {
    grouped := map[];
    for k := 0 to |all|
      invariant Groups(grouped, all[..k])
    {
      var d := all[k];
      GroupsMore(grouped, all[..k], d);
      assert all[..k] + [d] == all[..k + 1];
      grouped := grouped[d.name := Lookup(grouped, d.name) + [d]];
    }
    assert all[..|all|] == all;
  }

  /** Whether a definition is shadowed by another of its group. */
  method IsShadowed(d: Definition, group: seq<Definition>) returns (shadowed: bool)
    requires forall m :: 0 <= m < |group| ==> group[m].name == d.name
    ensures shadowed <==> exists m :: 0 <= m < |group| && Shadows(group[m], d)
  {
    for j := 0 to |group|
      invariant forall m :: 0 <= m < j ==> !Shadows(group[m], d)
    {
      if group[j].id != d.id && Intersects(group[j].consumers, d.consumers) && IsHigher(group[j], d) {
        assert Shadows(group[j], d);
        return true;
      }
    }
    return false;
  }

  /** Group the definitions by name, then compare every one with its group. */
  method ResolveEffective(all: seq<Definition>) returns (effective: seq<bool>)
    ensures |effective| == |all| && forall i :: 0 <= i < |all| ==> effective[i] == Effective(all, all[i])
  {
    var grouped := GroupByName(all);
    effective := [];
    for i := 0 to |all|
      invariant |effective| == i && forall j :: 0 <= j < i ==> effective[j] == Effective(all, all[j])
    {
      var group := Lookup(grouped, all[i].name);
      forall m | 0 <= m < |group|
        ensures group[m].name == all[i].name
      {
        NamedHolds(all, all[i].name, group[m]);
      }
      var shadowed := IsShadowed(all[i], group);
      GroupDecides(all, all[i], group);
      effective := effective + [!shadowed];
    }
  }

  lemma {:induction false} GroupDecides(all: seq<Definition>, d: Definition, group: seq<Definition>)
    requires group == Named(all, d.name)
    ensures Effective(all, d) <==> !exists m :: 0 <= m < |group| && Shadows(group[m], d)
  {
    forall c | c in all && c.name == d.name
      ensures c in group
    {
      NamedHolds(all, d.name, c);
    }
    forall m | 0 <= m < |group|
      ensures group[m] in all
    {
      NamedHolds(all, d.name, group[m]);
    }
  }
}
