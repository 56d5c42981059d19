/**
 The check that a value is JSON: a depth-first walk on an explicit stack, with exit markers instead of a visited set.
 Objects are nodes of a finite heap, which may be shared and cyclic.
 */
module JsonValue {
  datatype Value = Null | Bool(b: bool) | Text(s: string) | Number(finite: bool) | Other | Obj(ref: nat)

  datatype Key = LengthKey | IndexKey(i: nat) | NameKey(name: string) | SymbolKey(id: nat)

  datatype Property = Property(enumerable: bool, accessor: bool, value: Value)

  /** An object: its own keys in order, with their properties; `length` matters for arrays only. */
  datatype Node = Node(isArray: bool, ordinaryPrototype: bool, length: nat, keys: seq<Key>, props: map<Key, Property>)

  type Heap = map<nat, Node>

  // ----- acceptable nodes --------------------------------------------------------

  predicate DataProperty(n: Node, k: Key) { k in n.props && n.props[k].enumerable && !n.props[k].accessor }

  predicate IsDenseArray(n: Node) {
    n.ordinaryPrototype && |n.keys| == n.length + 1 && LengthKey in n.keys &&
    forall i :: 0 <= i < n.length ==> DataProperty(n, IndexKey(i))
  }

  predicate IsPlainObject(n: Node) {
    n.ordinaryPrototype &&
    forall j :: 0 <= j < |n.keys| ==> !n.keys[j].SymbolKey? && DataProperty(n, n.keys[j])
  }

  predicate Acceptable(n: Node) { if n.isArray then IsDenseArray(n) else IsPlainObject(n) }

  function Children(n: Node): seq<Value>
    requires Acceptable(n)
  {
    if n.isArray then seq(n.length, i requires 0 <= i < n.length => n.props[IndexKey(i)].value)
    else seq(|n.keys|, j requires 0 <= j < |n.keys| => n.props[n.keys[j]].value)
  }

  predicate LeafOk(v: Value) { v.Null? || v.Bool? || v.Text? || (v.Number? && v.finite) }

  /** A heap as the engine keeps it: every node lists its own keys once, and every reference leads to a node. */
  ghost predicate WellFormed(h: Heap) {
    forall r :: r in h ==>
      (forall i, j :: 0 <= i < j < |h[r].keys| ==> h[r].keys[i] != h[r].keys[j]) &&
      (forall k :: k in h[r].props <==> k in h[r].keys) &&
      (forall k :: k in h[r].props && h[r].props[k].value.Obj? ==> h[r].props[k].value.ref in h)
  }

  predicate Known(h: Heap, v: Value) { v.Obj? ==> v.ref in h }

  lemma {:induction false} ChildrenKnown(h: Heap, r: nat)
    requires WellFormed(h) && r in h && Acceptable(h[r])
    ensures forall i :: 0 <= i < |Children(h[r])| ==> Known(h, Children(h[r])[i])
  {
  }

  function Indices(n: nat): (s: set<Key>)
    ensures |s| == n && forall k :: k in s <==> k.IndexKey? && k.i < n
  {
    if n == 0 then {} else Indices(n - 1) + {IndexKey(n - 1)}
  }

  function KeySet(keys: seq<Key>): (s: set<Key>)
    ensures forall k :: k in s <==> k in keys
  {
    if keys == [] then {} else KeySet(keys[..|keys| - 1]) + {keys[|keys| - 1]}
  }

  lemma {:induction false} DistinctCount(keys: seq<Key>)
    requires forall i, j :: 0 <= i < j < |keys| ==> keys[i] != keys[j]
    ensures |KeySet(keys)| == |keys|
  {
    if keys != [] { DistinctCount(keys[..|keys| - 1]); }
  }

  /** Counting the keys is enough: an accepted array has every index, its length, and nothing else. */
  lemma {:induction false} DenseExactly(h: Heap, r: nat)
    requires WellFormed(h) && r in h && h[r].isArray && Acceptable(h[r])
    ensures forall k :: k in h[r].keys <==> k == LengthKey || (k.IndexKey? && k.i < h[r].length)
  {
    var n := h[r];
    var wanted := Indices(n.length) + {LengthKey};
    DistinctCount(n.keys);
    forall k | k in wanted
      ensures k in KeySet(n.keys)
    {
      if k.IndexKey? { assert DataProperty(n, IndexKey(k.i)); }
    }
    SubsetOfSameSize(wanted, KeySet(n.keys));
  }

  lemma {:induction false} SubsetOfSameSize(a: set<Key>, b: set<Key>)
    requires a <= b && |a| == |b|
    ensures a == b
  {
    assert b == a + (b - a);
  }

  // ----- what the check decides --------------------------------------------------

  /** No object on the path comes again below v, and everything below v is acceptable. */
  ghost predicate Good(h: Heap, v: Value, path: set<nat>)
    requires WellFormed(h) && Known(h, v)
    decreases h.Keys - path
  {
    LeafOk(v) ||
    (v.Obj? && v.ref !in path && Acceptable(h[v.ref]) && AllGood(h, v.ref, path, 0))
  }

  /** The children of an object from the k-th on are good below it. */
  ghost predicate AllGood(h: Heap, r: nat, path: set<nat>, k: nat)
    requires WellFormed(h) && r in h && r !in path && Acceptable(h[r]) && k <= |Children(h[r])|
    decreases h.Keys - path, 0, |Children(h[r])| - k
  {
    k == |Children(h[r])| ||
    ((ChildrenKnown(h, r); Good(h, Children(h[r])[k], path + {r})) && AllGood(h, r, path, k + 1))
  }

  // ----- walks -------------------------------------------------------------------

  /** A walk below v: objects, each a child of the one before. */
  ghost predicate Walk(h: Heap, v: Value, w: seq<nat>)
    requires WellFormed(h) && Known(h, v)
    decreases |w|, 0, 0
  {
    w == [] ||
    (v == Obj(w[0]) && (|w| == 1 || (Acceptable(h[w[0]]) && ChildWalk(h, w[0], w[1..], 0))))
  }

  /** A walk below one of the children of an object from the k-th on. */
  ghost predicate ChildWalk(h: Heap, r: nat, w: seq<nat>, k: nat)
    requires WellFormed(h) && r in h && Acceptable(h[r]) && k <= |Children(h[r])|
    decreases |w|, 1, |Children(h[r])| - k
  {
    k < |Children(h[r])| &&
    ((ChildrenKnown(h, r); Walk(h, Children(h[r])[k], w)) || ChildWalk(h, r, w, k + 1))
  }

  predicate NodeOk(n: Node) {
    Acceptable(n) && forall i :: 0 <= i < |Children(n)| ==> Children(n)[i].Obj? || LeafOk(Children(n)[i])
  }

  /** A walk repeats no object, stays off the path, and ends at an acceptable object whose plain children are fine. */
  ghost predicate FineWalk(h: Heap, path: set<nat>, w: seq<nat>) {
    (forall i, j :: 0 <= i < j < |w| ==> w[i] != w[j]) && (forall i :: 0 <= i < |w| ==> w[i] !in path) &&
    (w != [] ==> w[|w| - 1] in h && NodeOk(h[w[|w| - 1]]))
  }

  lemma {:induction false} FineCons(h: Heap, r: nat, path: set<nat>, w: seq<nat>)
    requires r !in path && FineWalk(h, path + {r}, w) && w != []
    ensures FineWalk(h, path, [r] + w)
  {
  }

  /** On a good value every walk is fine. */
  lemma {:induction false} GoodWalks(h: Heap, v: Value, path: set<nat>, w: seq<nat>)
    requires WellFormed(h) && Known(h, v) && Good(h, v, path) && Walk(h, v, w)
    ensures FineWalk(h, path, w)
    decreases |w|, 0, 0
  {
    if |w| == 1 {
      GoodNode(h, w[0], path, 0);
    } else if |w| > 1 {
      GoodChildWalk(h, w[0], path, w[1..], 0);
      FineCons(h, w[0], path, w[1..]);
      assert w == [w[0]] + w[1..];
    }
  }

  lemma {:induction false} GoodNode(h: Heap, r: nat, path: set<nat>, k: nat)
    requires WellFormed(h) && r in h && r !in path && Acceptable(h[r]) && k <= |Children(h[r])| && AllGood(h, r, path, k)
    ensures forall i :: k <= i < |Children(h[r])| ==> Children(h[r])[i].Obj? || LeafOk(Children(h[r])[i])
    decreases |Children(h[r])| - k
  {
    if k < |Children(h[r])| { GoodNode(h, r, path, k + 1); }
  }

  lemma {:induction false} GoodChildWalk(h: Heap, r: nat, path: set<nat>, w: seq<nat>, k: nat)
    requires WellFormed(h) && r in h && r !in path && Acceptable(h[r]) && k <= |Children(h[r])| && AllGood(h, r, path, k)
    requires ChildWalk(h, r, w, k)
    ensures FineWalk(h, path + {r}, w)
    decreases |w|, 1, |Children(h[r])| - k
  {
    ChildrenKnown(h, r);
    if Walk(h, Children(h[r])[k], w) {
      GoodWalks(h, Children(h[r])[k], path + {r}, w);
    } else {
      GoodChildWalk(h, r, path, w, k + 1);
    }
  }

  /** A bad walk below a child is a bad walk below its object. */
  lemma {:induction false} LongerWalk(h: Heap, r: nat, path: set<nat>, w: seq<nat>)
    requires r !in path && !FineWalk(h, path + {r}, w) && w != []
    ensures !FineWalk(h, path, [r] + w)
  {
    var u := [r] + w;
    assert forall i :: 0 <= i < |w| ==> w[i] == u[i + 1];
    assert u[0] == r && u[|u| - 1] == w[|w| - 1];
  }

  /** An object that is not good has a walk that is not fine. */
  lemma {:induction false} BadWalk(h: Heap, v: Value, path: set<nat>) returns (w: seq<nat>)
    requires WellFormed(h) && Known(h, v) && v.Obj? && !Good(h, v, path)
    ensures Walk(h, v, w) && !FineWalk(h, path, w) && w != []
    decreases h.Keys - path
  {
    var r := v.ref;
    w := [r];
    if r !in path && NodeOk(h[r]) {
      var child := BadChildWalk(h, r, path, 0);
      w := [r] + child;
      assert w[1..] == child;
      LongerWalk(h, r, path, child);
    }
  }

  lemma {:induction false} BadChildWalk(h: Heap, r: nat, path: set<nat>, k: nat) returns (w: seq<nat>)
    requires WellFormed(h) && r in h && r !in path && NodeOk(h[r]) && k <= |Children(h[r])| && !AllGood(h, r, path, k)
    ensures ChildWalk(h, r, w, k) && !FineWalk(h, path + {r}, w) && w != []
    decreases h.Keys - path, 0, |Children(h[r])| - k
  {
    ChildrenKnown(h, r);
    if Good(h, Children(h[r])[k], path + {r}) {
      w := BadChildWalk(h, r, path, k + 1);
    } else {
      w := BadWalk(h, Children(h[r])[k], path + {r});
    }
  }

  /**
   The meaning of the check: a value is JSON exactly when it is a fine leaf, or an object from which every walk repeats
   no object and meets only plain objects, dense arrays and fine leaves. Sharing is allowed, cycles are not.
   */
  lemma {:induction false} GoodIsAcyclic(h: Heap, v: Value)
    requires WellFormed(h) && Known(h, v)
    ensures Good(h, v, {}) <==> LeafOk(v) || (v.Obj? && forall w :: Walk(h, v, w) ==> FineWalk(h, {}, w))
  {
    if Good(h, v, {}) {
      forall w | Walk(h, v, w)
        ensures FineWalk(h, {}, w)
      {
        GoodWalks(h, v, {}, w);
      }
    } else if v.Obj? {
      var w := BadWalk(h, v, {});
    }
  }

  // ----- the stack ---------------------------------------------------------------

  datatype Item = Visit(value: Value) | Exit(ref: nat)

  predicate KnownItem(h: Heap, item: Item) { if item.Visit? then Known(h, item.value) else item.ref in h }

  predicate KnownStack(h: Heap, stack: seq<Item>) { forall i :: 0 <= i < |stack| ==> KnownItem(h, stack[i]) }

  /** What the rest of the loop answers: every pending value is good below the objects then active. */
  ghost predicate Pending(h: Heap, stack: seq<Item>, active: set<nat>)
    requires WellFormed(h) && KnownStack(h, stack)
  {
    stack == [] ||
    var rest := stack[..|stack| - 1];
    match stack[|stack| - 1]
    case Exit(r) => Pending(h, rest, active - {r})
    case Visit(v) => Good(h, v, active) && Pending(h, rest, active)
  }

  /** How many turns of the loop a value takes. */
  ghost function Turns(h: Heap, v: Value, path: set<nat>): (n: nat)
    requires WellFormed(h) && Known(h, v)
    ensures n > 0
    decreases h.Keys - path
  {
    if v.Obj? && v.ref !in path && Acceptable(h[v.ref]) then 2 + AllTurns(h, v.ref, path, 0) else 1
  }

  ghost function AllTurns(h: Heap, r: nat, path: set<nat>, k: nat): nat
    requires WellFormed(h) && r in h && r !in path && Acceptable(h[r]) && k <= |Children(h[r])|
    decreases h.Keys - path, 0, |Children(h[r])| - k
  {
    if k == |Children(h[r])| then 0
    else (ChildrenKnown(h, r); Turns(h, Children(h[r])[k], path + {r})) + AllTurns(h, r, path, k + 1)
  }

  /** The turns that are left. */
  ghost function Work(h: Heap, stack: seq<Item>, active: set<nat>): nat
    requires WellFormed(h) && KnownStack(h, stack)
  {
    if stack == [] then 0
    else
      var rest := stack[..|stack| - 1];
      match stack[|stack| - 1]
      case Exit(r) => 1 + Work(h, rest, active - {r})
      case Visit(v) => Turns(h, v, active) + Work(h, rest, active)
  }

  /** An object's children from the k-th on, the k-th on top. */
  function Pushed(children: seq<Value>, k: nat): seq<Item>
    requires k <= |children|
    decreases |children| - k
  {
    if k == |children| then [] else Pushed(children, k + 1) + [Visit(children[k])]
  }

  lemma {:induction false} Top(h: Heap, stack: seq<Item>, item: Item, active: set<nat>)
    requires WellFormed(h) && KnownStack(h, stack) && KnownItem(h, item)
    ensures KnownStack(h, stack + [item])
    ensures var after := if item.Exit? then active - {item.ref} else active;
            Pending(h, stack + [item], active) == ((item.Visit? ==> Good(h, item.value, active)) && Pending(h, stack, after)) &&
            Work(h, stack + [item], active) == (if item.Visit? then Turns(h, item.value, active) else 1) + Work(h, stack, after)
  {
    assert (stack + [item])[..|stack|] == stack;
  }

  /** Pushing an object's children above its exit marker asks for exactly them, and counts exactly their turns. */
  lemma {:induction false} PushedMeans(h: Heap, stack: seq<Item>, r: nat, active: set<nat>, k: nat)
    requires WellFormed(h) && r in h && r !in active && Acceptable(h[r]) && k <= |Children(h[r])| && KnownStack(h, stack)
    ensures var all := stack + [Exit(r)] + Pushed(Children(h[r]), k);
            KnownStack(h, all) &&
            Pending(h, all, active + {r}) == (AllGood(h, r, active, k) && Pending(h, stack, active)) &&
            Work(h, all, active + {r}) == AllTurns(h, r, active, k) + 1 + Work(h, stack, active)
    decreases |Children(h[r])| - k
  {
    var c := Children(h[r]);
    if k == |c| {
      Top(h, stack, Exit(r), active + {r});
      assert active + {r} - {r} == active && stack + [Exit(r)] + [] == stack + [Exit(r)];
    } else {
      ChildrenKnown(h, r);
      PushedMeans(h, stack, r, active, k + 1);
      var below := stack + [Exit(r)] + Pushed(c, k + 1);
      Top(h, below, Visit(c[k]), active + {r});
      assert stack + [Exit(r)] + Pushed(c, k) == below + [Visit(c[k])];
    }
  }

  /** Push the children in reverse, checking an array's elements on the way; None when one is not a plain element. */
  method PushChildren(n: Node, stack: seq<Item>) returns (ok: bool, all: seq<Item>)
    ensures ok == Acceptable(n)
    ensures ok ==> all == stack + Pushed(Children(n), 0)
  {
    all := stack;
    if n.isArray {
      if !n.ordinaryPrototype || |n.keys| != n.length + 1 || LengthKey !in n.keys { return false, all; }
      var index := n.length;
      while index > 0
        invariant 0 <= index <= n.length && forall i :: index <= i < n.length ==> DataProperty(n, IndexKey(i))
        invariant |all| == |stack| + n.length - index && all[..|stack|] == stack
        invariant forall i :: index <= i < n.length ==> all[|stack| + n.length - 1 - i] == Visit(n.props[IndexKey(i)].value)
      {
        index := index - 1;
        if !DataProperty(n, IndexKey(index)) { return false, all; }
        all := all + [Visit(n.props[IndexKey(index)].value)];
      }
      PushedIs(all, stack, Children(n));
      ok := true;
    } else {
      ok := IsPlainObject(n);
      if !ok { return; }
      var index := |n.keys|;
      while index > 0
        invariant 0 <= index <= |n.keys| && |all| == |stack| + |n.keys| - index && all[..|stack|] == stack
        invariant forall i :: index <= i < |n.keys| ==> all[|stack| + |n.keys| - 1 - i] == Visit(n.props[n.keys[i]].value)
      {
        index := index - 1;
        assert DataProperty(n, n.keys[index]);
        all := all + [Visit(n.props[n.keys[index]].value)];
      }
      PushedIs(all, stack, Children(n));
    }
  }

  lemma {:induction false} PushedAt(children: seq<Value>, k: nat)
    requires k <= |children|
    ensures |Pushed(children, k)| == |children| - k
    ensures forall i :: k <= i < |children| ==> Pushed(children, k)[|children| - 1 - i] == Visit(children[i])
    decreases |children| - k
  {
    if k < |children| { PushedAt(children, k + 1); }
  }

  lemma {:induction false} PushedIs(all: seq<Item>, stack: seq<Item>, children: seq<Value>)
    requires |all| == |stack| + |children| && all[..|stack|] == stack
    requires forall i :: 0 <= i < |children| ==> all[|stack| + |children| - 1 - i] == Visit(children[i])
    ensures all == stack + Pushed(children, 0)
  {
    PushedAt(children, 0);
    forall j | 0 <= j < |children|
      ensures all[|stack| + j] == Pushed(children, 0)[j]
    {
      var i := |children| - 1 - j;
      assert all[|stack| + |children| - 1 - i] == Visit(children[i]);
    }
    assert forall j :: 0 <= j < |stack| ==> all[j] == all[..|stack|][j];
  }

  /** The check: it ends on every heap, cyclic or shared, and answers whether the value is good. */
  method IsJsonValue(h: Heap, value: Value) returns (r: bool)
    requires WellFormed(h) && Known(h, value)
    ensures r == Good(h, value, {})
  {
    var active: set<nat> := {};
    var pending := [Visit(value)];
    assert pending[..0] == [];
    while pending != []
      invariant KnownStack(h, pending) && Pending(h, pending, active) == Good(h, value, {})
      decreases Work(h, pending, active)
    {
      var item := pending[|pending| - 1];
      pending := pending[..|pending| - 1];
      match item {
        case Exit(ref) => active := active - {ref};
        case Visit(current) =>
          if !LeafOk(current) {
            if !current.Obj? || current.ref in active { return false; }
            EnterMeans(h, pending, current.ref, active);
            var ok, all := PushChildren(h[current.ref], pending + [Exit(current.ref)]);
            if !ok { return false; }
            active := active + {current.ref};
            pending := all;
          }
      }
    }
    return true;
  }

  lemma {:induction false} EnterMeans(h: Heap, stack: seq<Item>, r: nat, active: set<nat>)
    requires WellFormed(h) && r in h && r !in active && KnownStack(h, stack)
    ensures Acceptable(h[r]) ==>
              var all := stack + [Exit(r)] + Pushed(Children(h[r]), 0);
              KnownStack(h, all) && Pending(h, all, active + {r}) == (Good(h, Obj(r), active) && Pending(h, stack, active)) &&
              Work(h, all, active + {r}) < Turns(h, Obj(r), active) + Work(h, stack, active)
  {
    if Acceptable(h[r]) { PushedMeans(h, stack, r, active, 0); }
  }
}
