/** The writes of a change: its items grouped by source. */
module ApplyPlan {
  import opened Wrappers
  import opened SourceWriter
  import opened EnvSplice

  datatype Item = Item(sourceId: string, operation: Operation, fingerprint: Fingerprint)

  datatype Change = Change(changeId: string, appId: string, digest: string, expiresAt: int, sourceIds: seq<string>,
                           actionIds: seq<string>, checkIds: seq<string>, items: seq<Item>)

  datatype Group = Group(sourceId: string, expected: Fingerprint, operations: seq<Operation>)

  // ----- grouping the items by source --------------------------------------------

  /** All operations on a source, in order. */
  function OpsFor(items: seq<Item>, id: string): seq<Operation> {
    if items == [] then []
    else
      var last := items[|items| - 1];
      OpsFor(items[..|items| - 1], id) + if last.sourceId == id then [last.operation] else []
  }

  predicate Agreeing(items: seq<Item>) {
    forall i, j :: 0 <= i < j < |items| && items[i].sourceId == items[j].sourceId ==>
      items[i].fingerprint == items[j].fingerprint
  }

  /** The group of a source. */
  function GroupFor(groups: seq<Group>, id: string): (g: Option<Group>)
    ensures g.Some? ==> g.value in groups && g.value.sourceId == id
  {
    if groups == [] then None else if groups[0].sourceId == id then Some(groups[0]) else GroupFor(groups[1..], id)
  }

  predicate OnePerSource(groups: seq<Group>) {
    groups == [] || (GroupFor(groups[1..], groups[0].sourceId).None? && OnePerSource(groups[1..]))
  }

  function SourceIdsOf(groups: seq<Group>): seq<string> {
    if groups == [] then [] else SourceIdsOf(groups[..|groups| - 1]) + [groups[|groups| - 1].sourceId]
  }

  function Joined(g: Option<Group>, item: Item): Group {
    match g
    case None => Group(item.sourceId, item.fingerprint, [item.operation])
    case Some(g) => g.(operations := g.operations + [item.operation])
  }

  function AddItem(groups: seq<Group>, item: Item): seq<Group> {
    if groups == [] then [Joined(None, item)]
    else if groups[0].sourceId == item.sourceId then [Joined(Some(groups[0]), item)] + groups[1..]
    else [groups[0]] + AddItem(groups[1..], item)
  }

  function GroupsOf(items: seq<Item>): Option<seq<Group>> {
    if items == [] then Some([])
    else
      var item, before := items[|items| - 1], GroupsOf(items[..|items| - 1]);
      if before.None? then None
      else
        var g := GroupFor(before.value, item.sourceId);
        if g.Some? && g.value.expected != item.fingerprint then None else Some(AddItem(before.value, item))
  }

  lemma {:induction false} GroupAfterAdd(groups: seq<Group>, item: Item, id: string)
    ensures GroupFor(AddItem(groups, item), id) ==
            if id == item.sourceId then Some(Joined(GroupFor(groups, id), item)) else GroupFor(groups, id)
  {
    if groups != [] && groups[0].sourceId != item.sourceId { GroupAfterAdd(groups[1..], item, id); }
  }

  lemma {:induction false} AddKeepsOne(groups: seq<Group>, item: Item)
    requires OnePerSource(groups)
    ensures OnePerSource(AddItem(groups, item))
  {
    if groups != [] && groups[0].sourceId != item.sourceId {
      AddKeepsOne(groups[1..], item);
      GroupAfterAdd(groups[1..], item, groups[0].sourceId);
    }
  }

  lemma {:induction false} GroupsOnePer(items: seq<Item>)
    requires GroupsOf(items).Some?
    ensures OnePerSource(GroupsOf(items).value)
  {
    if items != [] {
      GroupsOnePer(items[..|items| - 1]);
      AddKeepsOne(GroupsOf(items[..|items| - 1]).value, items[|items| - 1]);
    }
  }

  /** Every touched source has exactly one group, which holds all its operations in order. */
  lemma {:induction false} GroupsHoldAll(items: seq<Item>, id: string)
    requires GroupsOf(items).Some?
    ensures var groups := GroupsOf(items).value; var g := GroupFor(groups, id);
            OnePerSource(groups) && OpsFor(items, id) == (if g.Some? then g.value.operations else []) &&
            (g.None? <==> forall k :: 0 <= k < |items| ==> items[k].sourceId != id) &&
            (g.Some? ==> g.value.operations != [])
  {
    if items != [] {
      var before, item := items[..|items| - 1], items[|items| - 1];
      GroupsHoldAll(before, id);
      AddKeepsOne(GroupsOf(before).value, item);
      GroupAfterAdd(GroupsOf(before).value, item, id);
      assert forall k :: 0 <= k < |before| ==> before[k] == items[k];
    }
  }

  /** The group of a source expects the fingerprint that every one of its items names. */
  lemma {:induction false} GroupExpects(items: seq<Item>, k: nat)
    requires GroupsOf(items).Some? && k < |items|
    ensures var g := GroupFor(GroupsOf(items).value, items[k].sourceId);
            g.Some? && g.value.expected == items[k].fingerprint
  {
    var before, item := items[..|items| - 1], items[|items| - 1];
    GroupAfterAdd(GroupsOf(before).value, item, items[k].sourceId);
    if k < |before| { GroupExpects(before, k); }
  }

  /** Grouping fails exactly when two items of one source expect different bytes. */
  lemma {:induction false} GroupingFails(items: seq<Item>)
    ensures GroupsOf(items).Some? <==> Agreeing(items)
  {
    if items != [] {
      var before, item := items[..|items| - 1], items[|items| - 1];
      GroupingFails(before);
      if GroupsOf(before).Some? {
        GroupsHoldAll(before, item.sourceId);
        forall k | 0 <= k < |before|
          ensures before[k] == items[k] && GroupFor(GroupsOf(before).value, items[k].sourceId).Some? &&
                  GroupFor(GroupsOf(before).value, items[k].sourceId).value.expected == items[k].fingerprint
        {
          GroupExpects(before, k);
        }
      }
      assert Agreeing(items) ==> Agreeing(before);
    }
  }

  lemma {:induction false} AgreeingPrefix(items: seq<Item>, n: nat)
    requires n <= |items|
    ensures Agreeing(items) ==> Agreeing(items[..n])
  {
  }

  lemma {:induction false} AddAt(groups: seq<Group>, item: Item, at: nat)
    requires at <= |groups| && forall i :: 0 <= i < at ==> groups[i].sourceId != item.sourceId
    requires at < |groups| ==> groups[at].sourceId == item.sourceId
    ensures GroupFor(groups, item.sourceId) == if at < |groups| then Some(groups[at]) else None
    ensures AddItem(groups, item) ==
            if at < |groups| then groups[at := Joined(Some(groups[at]), item)] else groups + [Joined(None, item)]
  {
    if at > 0 {
      AddAt(groups[1..], item, at - 1);
      assert groups == [groups[0]] + groups[1..];
    }
  }

  /** Grouping one more item whose source's group, if any, is at the given place. */
  lemma {:induction false} GroupsNext(items: seq<Item>, item: Item, groups: seq<Group>, at: nat)
    requires GroupsOf(items) == Some(groups)
    requires at <= |groups| && forall i :: 0 <= i < at ==> groups[i].sourceId != item.sourceId
    requires at < |groups| ==> groups[at].sourceId == item.sourceId
    ensures GroupsOf(items + [item]) ==
            if at == |groups| then Some(groups + [Joined(None, item)])
            else if groups[at].expected != item.fingerprint then None
            else Some(groups[at := Joined(Some(groups[at]), item)])
  {
    assert (items + [item])[..|items|] == items;
    AddAt(groups, item, at);
  }

  lemma {:induction false} GroupsRefused(items: seq<Item>, n: nat)
    requires n <= |items| && GroupsOf(items[..n]).None?
    ensures GroupsOf(items).None?
  {
    GroupingFails(items[..n]);
    AgreeingPrefix(items, n);
    GroupingFails(items);
  }

  /** The place of a source's group; the number of groups when it has none. */
  method PlaceOf(groups: seq<Group>, id: string) returns (at: nat)
    ensures at <= |groups| && forall i :: 0 <= i < at ==> groups[i].sourceId != id
    ensures at < |groups| ==> groups[at].sourceId == id
  {
    at := 0;
    while at < |groups| && groups[at].sourceId != id
      invariant at <= |groups| && forall i :: 0 <= i < at ==> groups[i].sourceId != id
    {
      at := at + 1;
    }
  }

  /** The writes of a change: one per touched source; None when two items expect different bytes of one source. */
  method SourceOperations(items: seq<Item>) returns (r: Option<seq<Group>>)
    ensures r == GroupsOf(items)
  {
    var groups: seq<Group> := [];
    for n := 0 to |items|
      invariant GroupsOf(items[..n]) == Some(groups)
    {
      var item := items[n];
      var at := PlaceOf(groups, item.sourceId);
      GroupsNext(items[..n], item, groups, at);
      assert items[..n + 1] == items[..n] + [item];
      if at == |groups| {
        groups := groups + [Joined(None, item)];
      } else if groups[at].expected != item.fingerprint {
        GroupsRefused(items, n + 1);
        return None;
      } else {
        groups := groups[at := Joined(Some(groups[at]), item)];
      }
    }
    assert items[..|items|] == items;
    return Some(groups);
  }

  lemma {:induction false} SourceIdsAt(groups: seq<Group>)
    ensures |SourceIdsOf(groups)| == |groups|
    ensures forall i :: 0 <= i < |groups| ==> SourceIdsOf(groups)[i] == groups[i].sourceId
  {
    if groups != [] { SourceIdsAt(groups[..|groups| - 1]); }
  }

  lemma {:induction false} OneDistinct(groups: seq<Group>, i: nat, j: nat)
    requires OnePerSource(groups) && i < j < |groups|
    ensures groups[i].sourceId != groups[j].sourceId
  {
    if i == 0 {
      Present(groups[1..], j - 1);
    } else {
      OneDistinct(groups[1..], i - 1, j - 1);
    }
  }

  lemma {:induction false} Present(groups: seq<Group>, j: nat)
    requires j < |groups|
    ensures GroupFor(groups, groups[j].sourceId).Some?
  {
    if j > 0 { Present(groups[1..], j - 1); }
  }

  /** The writes of a change name exactly the touched sources, each once. */
  lemma {:induction false} TouchedOnce(items: seq<Item>, id: string)
    requires GroupsOf(items).Some?
    ensures var ids := SourceIdsOf(GroupsOf(items).value);
            (id in ids <==> exists k :: 0 <= k < |items| && items[k].sourceId == id) &&
            forall i, j :: 0 <= i < j < |ids| ==> ids[i] != ids[j]
  {
    var groups := GroupsOf(items).value;
    GroupsHoldAll(items, id);
    SourceIdsAt(groups);
    forall i, j | 0 <= i < j < |groups|
      ensures groups[i].sourceId != groups[j].sourceId
    {
      OneDistinct(groups, i, j);
    }
    if id in SourceIdsOf(groups) {
      var j :| 0 <= j < |groups| && groups[j].sourceId == id;
      Present(groups, j);
    }
  }
}
