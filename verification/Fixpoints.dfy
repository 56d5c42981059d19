/** Two fixpoints over the bindings of a source file: taint propagation, and the bindings that carry a capability. */
module Fixpoints {
  type Symbol = string

  // ----- taint -------------------------------------------------------------------

  /** For every binding, the bindings whose definitions refer to it. */
  type Graph = map<Symbol, seq<Symbol>>

  function Dependents(g: Graph, x: Symbol): seq<Symbol> { if x in g then g[x] else [] }

  /** A chain of dependents from a seed. */
  predicate Chain(seeds: set<Symbol>, g: Graph, p: seq<Symbol>) {
    p != [] && p[0] in seeds && forall i :: 0 < i < |p| ==> LinkAt(g, p, i)
  }

  predicate LinkAt(g: Graph, p: seq<Symbol>, i: int)
    requires 0 < i < |p|
  {
    p[i] in Dependents(g, p[i - 1])
  }

  ghost predicate Reachable(seeds: set<Symbol>, g: Graph, x: Symbol) {
    exists p :: Chain(seeds, g, p) && p[|p| - 1] == x
  }

  lemma {:induction false} ReachMore(seeds: set<Symbol>, g: Graph, x: Symbol, y: Symbol)
    requires Reachable(seeds, g, x) && y in Dependents(g, x)
    ensures Reachable(seeds, g, y)
  {
    var p :| Chain(seeds, g, p) && p[|p| - 1] == x;
    var q := p + [y];
    forall i | 0 < i < |q|
      ensures LinkAt(g, q, i)
    {
      if i < |p| { assert LinkAt(g, p, i); }
    }
    assert Chain(seeds, g, q) && q[|q| - 1] == y;
  }

  /** A set that holds the seeds and the dependents of its members holds every reachable binding. */
  lemma {:induction false} ClosedHoldsChain(seeds: set<Symbol>, g: Graph, s: set<Symbol>, p: seq<Symbol>)
    requires seeds <= s && (forall x :: x in s ==> AllIn(Dependents(g, x), s)) && Chain(seeds, g, p)
    ensures p[|p| - 1] in s
  {
    if |p| > 1 {
      var q := p[..|p| - 1];
      forall i | 0 < i < |q|
        ensures LinkAt(g, q, i)
      {
        assert LinkAt(g, p, i);
      }
      ClosedHoldsChain(seeds, g, s, q);
      assert LinkAt(g, p, |p| - 1);
    }
  }

  function Everything(seeds: set<Symbol>, g: Graph): set<Symbol> {
    seeds + set x, i | x in g && 0 <= i < |g[x]| :: g[x][i]
  }

  /** Taint the dependents of one binding; new ones become pending. */
  method Visit(next: seq<Symbol>, tainted: set<Symbol>, pending: seq<Symbol>) returns (t: set<Symbol>, p: seq<Symbol>)
    ensures forall x :: x in t <==> x in tainted || x in next
    ensures forall x :: x in p <==> x in pending || (x in t && x !in tainted)
    ensures t == tainted ==> p == pending
  {
    t, p := tainted, pending;
    for k := 0 to |next|
      invariant forall x :: x in t <==> x in tainted || x in next[..k]
      invariant forall x :: x in p <==> x in pending || (x in t && x !in tainted)
      invariant t == tainted ==> p == pending
    {
      if next[k] !in t {
        t := t + {next[k]};
        p := p + [next[k]];
      }
    }
  }

  /** Everything tainted is reachable, and what is not pending has passed its taint on. */
  ghost predicate Propagating(roots: set<Symbol>, g: Graph, tainted: set<Symbol>, pending: seq<Symbol>) {
    roots <= tainted <= Everything(roots, g) && (forall x :: x in pending ==> x in tainted) &&
    (forall x {:trigger Reachable(roots, g, x)} :: x in tainted ==> Reachable(roots, g, x)) &&
    (forall x :: x in tainted && x !in pending ==> AllIn(Dependents(g, x), tainted))
  }

  lemma {:induction false} VisitKeeps(roots: set<Symbol>, g: Graph, before: set<Symbol>, waiting: seq<Symbol>, current: Symbol,
                                      tainted: set<Symbol>, pending: seq<Symbol>)
    requires Propagating(roots, g, before, waiting + [current])
    requires forall x :: x in tainted <==> x in before || x in Dependents(g, current)
    requires forall x :: x in pending <==> x in waiting || (x in tainted && x !in before)
    ensures Propagating(roots, g, tainted, pending)
  {
    forall x | x in tainted && x !in before
      ensures Reachable(roots, g, x) && x in Everything(roots, g)
    {
      assert current in waiting + [current];
      ReachMore(roots, g, current, x);
      InEverything(roots, g, current, x);
    }
    forall x | x in tainted && x !in pending
      ensures AllIn(Dependents(g, x), tainted)
    {
      if x != current { assert x in before && x !in waiting + [current]; }
    }
  }

  lemma {:induction false} SeedsPropagate(roots: set<Symbol>, g: Graph, seeds: seq<Symbol>)
    requires forall s :: s in roots <==> s in seeds
    ensures Propagating(roots, g, roots, seeds)
  {
    forall x | x in roots
      ensures Reachable(roots, g, x)
    {
      assert Chain(roots, g, [x]) && [x][0] == x;
    }
  }

  lemma {:induction false} PropagatedAll(roots: set<Symbol>, g: Graph, tainted: set<Symbol>, x: Symbol)
    requires Propagating(roots, g, tainted, [])
    ensures x in tainted <==> Reachable(roots, g, x)
  {
    if Reachable(roots, g, x) {
      var p :| Chain(roots, g, p) && p[|p| - 1] == x;
      ClosedHoldsChain(roots, g, tainted, p);
    }
  }

  lemma {:induction false} TaintBounded(roots: set<Symbol>, g: Graph, before: set<Symbol>, after: set<Symbol>,
                                        p: seq<Symbol>, q: seq<Symbol>)
    requires Propagating(roots, g, before, p) && Propagating(roots, g, after, q) && before <= after && before != after
    ensures |Everything(roots, g) - after| < |Everything(roots, g) - before|
  {
    Shrinks(Everything(roots, g), before, after);
  }

  /** Taint propagation returns exactly the bindings that are reachable from the seeds. */
  method PropagateTaint(seeds: seq<Symbol>, g: Graph) returns (tainted: set<Symbol>)
    ensures forall x :: x in tainted <==> Reachable((set s | s in seeds), g, x)
  {
    ghost var roots := set s | s in seeds;
    tainted := set s | s in seeds;
    var pending := seeds;
    SeedsPropagate(roots, g, seeds);
    while pending != []
      invariant Propagating(roots, g, tainted, pending)
      decreases |Everything(roots, g) - tainted|, |pending|
    {
      var current, waiting := pending[|pending| - 1], pending[..|pending| - 1];
      ghost var before, all := tainted, pending;
      assert all == waiting + [current];
      tainted, pending := Visit(Dependents(g, current), tainted, waiting);
      VisitKeeps(roots, g, before, waiting, current, tainted, pending);
      if tainted != before { TaintBounded(roots, g, before, tainted, all, pending); }
    }
    forall x
      ensures x in tainted <==> Reachable(roots, g, x)
    {
      PropagatedAll(roots, g, tainted, x);
    }
  }

  predicate AllIn(xs: seq<Symbol>, s: set<Symbol>) { forall i :: 0 <= i < |xs| ==> xs[i] in s }

  lemma {:induction false} InEverything(seeds: set<Symbol>, g: Graph, x: Symbol, y: Symbol)
    requires y in Dependents(g, x)
    ensures y in Everything(seeds, g)
  {
  }

  lemma {:induction false} Shrinks(all: set<Symbol>, before: set<Symbol>, after: set<Symbol>)
    requires before < after <= all
    ensures |all - after| < |all - before|
  {
    var x :| x in after && x !in before;
    assert all - after <= all - before - {x};
    SubsetSize(all - after, all - before - {x});
  }

  lemma {:induction false} SubsetSize(a: set<Symbol>, b: set<Symbol>)
    requires a <= b
    ensures |a| <= |b|
  {
    assert b == a + (b - a);
  }

  // ----- capabilities and factories ----------------------------------------------

  /** Bindings that are given a value, here named by a number. */
  datatype Definition = Definition(bindings: seq<Symbol>, value: nat)

  type Carry = (nat, set<Symbol>, set<Symbol>) -> bool

  /** The definitions of a file and what makes a value carry a capability, yield one when called, or be a factory. */
  datatype Setup = Setup(facades: set<Symbol>, definitions: seq<Definition>, returned: seq<Definition>,
                         carries: Carry, gives: Carry, identity: Carry)

  ghost predicate Monotone(f: Carry) {
    forall v, c, d, c', d' :: c <= c' && d <= d' && f(v, c, d) ==> f(v, c', d')
  }

  predicate Has(s: set<Symbol>, bindings: seq<Symbol>) { forall i :: 0 <= i < |bindings| ==> bindings[i] in s }

  predicate CapabilityRule(u: Setup, d: Definition, c: set<Symbol>, f: set<Symbol>) { u.carries(d.value, c, f) ==> Has(c, d.bindings) }

  predicate FactoryRule(u: Setup, d: Definition, c: set<Symbol>, f: set<Symbol>) { u.gives(d.value, c, f) ==> Has(f, d.bindings) }

  predicate IdentityRule(u: Setup, d: Definition, f: set<Symbol>) { u.identity(d.value, {}, f) ==> Has(f, d.bindings) }

  /** Capabilities and factories that no definition extends. */
  predicate Closed(u: Setup, c: set<Symbol>, f: set<Symbol>) {
    u.facades <= c &&
    (forall i :: 0 <= i < |u.definitions| ==> CapabilityRule(u, u.definitions[i], c, f)) &&
    (forall i :: 0 <= i < |u.returned| ==> FactoryRule(u, u.returned[i], c, f)) &&
    (forall i :: 0 <= i < |u.definitions| ==> IdentityRule(u, u.definitions[i], f))
  }

  /** Every closed pair holds these. */
  ghost predicate Below(u: Setup, c: set<Symbol>, f: set<Symbol>) {
    forall c', f' :: Closed(u, c', f') ==> c <= c' && f <= f'
  }

  ghost predicate Least(u: Setup, c: set<Symbol>, f: set<Symbol>) { Closed(u, c, f) && Below(u, c, f) }

  /** The least pair does not depend on the order of the definitions. */
  lemma {:induction false} OrderIrrelevant(u: Setup, w: Setup, c: set<Symbol>, f: set<Symbol>, c': set<Symbol>, f': set<Symbol>)
    requires Least(u, c, f) && Least(w, c', f')
    requires u.facades == w.facades && u.carries == w.carries && u.gives == w.gives && u.identity == w.identity
    requires (forall d :: d in u.definitions <==> d in w.definitions) && (forall d :: d in u.returned <==> d in w.returned)
    ensures c == c' && f == f'
  {
    SameClosed(u, w, c', f');
    SameClosed(w, u, c, f);
  }

  lemma {:induction false} SameClosed(u: Setup, w: Setup, c: set<Symbol>, f: set<Symbol>)
    requires u.facades == w.facades && u.carries == w.carries && u.gives == w.gives && u.identity == w.identity
    requires (forall d :: d in u.definitions ==> d in w.definitions) && (forall d :: d in u.returned ==> d in w.returned)
    requires Closed(w, c, f)
    ensures Closed(u, c, f)
  {
    forall i | 0 <= i < |u.definitions|
      ensures CapabilityRule(u, u.definitions[i], c, f) && IdentityRule(u, u.definitions[i], f)
    {
      assert u.definitions[i] in u.definitions && u.definitions[i] in w.definitions;
      var j :| 0 <= j < |w.definitions| && w.definitions[j] == u.definitions[i];
      assert CapabilityRule(w, w.definitions[j], c, f) && IdentityRule(w, w.definitions[j], f);
    }
    forall i | 0 <= i < |u.returned|
      ensures FactoryRule(u, u.returned[i], c, f)
    {
      assert u.returned[i] in u.returned && u.returned[i] in w.returned;
      var j :| 0 <= j < |w.returned| && w.returned[j] == u.returned[i];
      assert FactoryRule(w, w.returned[j], c, f);
    }
  }

  function Bindings(defs: seq<Definition>): set<Symbol> {
    set i, j | 0 <= i < |defs| && 0 <= j < |defs[i].bindings| :: defs[i].bindings[j]
  }

  function Universe(u: Setup): set<Symbol> { u.facades + Bindings(u.definitions) + Bindings(u.returned) }

  /** Add bindings to a set. */
  method AddAll(s: set<Symbol>, bindings: seq<Symbol>) returns (t: set<Symbol>, grew: bool)
    ensures forall x :: x in t <==> x in s || x in bindings
    ensures s <= t && Has(t, bindings) && (grew <==> t != s)
  {
    t, grew := s, false;
    for i := 0 to |bindings|
      invariant forall x :: x in t <==> x in s || x in bindings[..i]
      invariant grew <==> t != s
    {
      if bindings[i] !in t {
        t := t + {bindings[i]};
        grew := true;
      }
    }
    assert bindings[..|bindings|] == bindings;
  }

  lemma {:induction false} Bound(u: Setup, bindings: seq<Symbol>, s: set<Symbol>)
    requires s <= Universe(u)
    requires exists d :: (d in u.definitions || d in u.returned) && d.bindings == bindings
    ensures forall x :: x in s || x in bindings ==> x in Universe(u)
  {
    var d :| (d in u.definitions || d in u.returned) && d.bindings == bindings;
    forall x | x in bindings
      ensures x in Universe(u)
    {
      var j :| 0 <= j < |d.bindings| && d.bindings[j] == x;
      if d in u.definitions {
        var i :| 0 <= i < |u.definitions| && u.definitions[i] == d;
        assert u.definitions[i].bindings[j] in Bindings(u.definitions);
      } else {
        var i :| 0 <= i < |u.returned| && u.returned[i] == d;
        assert u.returned[i].bindings[j] in Bindings(u.returned);
      }
    }
  }

  /** The pass that adds capabilities. */
  method CapabilityPass(u: Setup, c: set<Symbol>, f: set<Symbol>) returns (c': set<Symbol>, changed: bool)
    requires Monotone(u.carries) && c <= Universe(u) && Below(u, c, f)
    ensures c <= c' <= Universe(u) && Below(u, c', f) && (changed <==> c' != c)
    ensures !changed ==> forall j :: 0 <= j < |u.definitions| ==> CapabilityRule(u, u.definitions[j], c, f)
  {
    c', changed := c, false;
    for i := 0 to |u.definitions|
      invariant c <= c' <= Universe(u) && Below(u, c', f) && (changed <==> c' != c)
      invariant !changed ==> forall j :: 0 <= j < i ==> CapabilityRule(u, u.definitions[j], c, f)
    {
      var d := u.definitions[i];
      if !Has(c', d.bindings) && u.carries(d.value, c', f) {
        forall a, b | Closed(u, a, b)
          ensures Has(a, d.bindings)
        {
          assert CapabilityRule(u, u.definitions[i], a, b);
        }
        Bound(u, d.bindings, c');
        var grew: bool;
        c', grew := AddAll(c', d.bindings);
        changed := changed || grew;
      }
    }
  }

  /** The pass that adds factories whose returned values carry a capability. */
  method FactoryPass(u: Setup, c: set<Symbol>, f: set<Symbol>) returns (f': set<Symbol>, changed: bool)
    requires Monotone(u.gives) && f <= Universe(u) && Below(u, c, f)
    ensures f <= f' <= Universe(u) && Below(u, c, f') && (changed <==> f' != f)
    ensures !changed ==> forall j :: 0 <= j < |u.returned| ==> FactoryRule(u, u.returned[j], c, f)
  {
    f', changed := f, false;
    for i := 0 to |u.returned|
      invariant f <= f' <= Universe(u) && Below(u, c, f') && (changed <==> f' != f)
      invariant !changed ==> forall j :: 0 <= j < i ==> FactoryRule(u, u.returned[j], c, f)
    {
      var d := u.returned[i];
      if !Has(f', d.bindings) && u.gives(d.value, c, f') {
        forall a, b | Closed(u, a, b)
          ensures Has(b, d.bindings)
        {
          assert FactoryRule(u, u.returned[i], a, b);
        }
        Bound(u, d.bindings, f');
        var grew: bool;
        f', grew := AddAll(f', d.bindings);
        changed := changed || grew;
      }
    }
  }

  /** The pass that adds bindings of factories. */
  method IdentityPass(u: Setup, c: set<Symbol>, f: set<Symbol>) returns (f': set<Symbol>, changed: bool)
    requires Monotone(u.identity) && f <= Universe(u) && Below(u, c, f)
    ensures f <= f' <= Universe(u) && Below(u, c, f') && (changed <==> f' != f)
    ensures !changed ==> forall j :: 0 <= j < |u.definitions| ==> IdentityRule(u, u.definitions[j], f)
  {
    f', changed := f, false;
    for i := 0 to |u.definitions|
      invariant f <= f' <= Universe(u) && Below(u, c, f') && (changed <==> f' != f)
      invariant !changed ==> forall j :: 0 <= j < i ==> IdentityRule(u, u.definitions[j], f)
    {
      var d := u.definitions[i];
      if !Has(f', d.bindings) && u.identity(d.value, {}, f') {
        forall a, b | Closed(u, a, b)
          ensures Has(b, d.bindings)
        {
          assert IdentityRule(u, u.definitions[i], b);
        }
        Bound(u, d.bindings, f');
        var grew: bool;
        f', grew := AddAll(f', d.bindings);
        changed := changed || grew;
      }
    }
  }

  /** The fixpoint ends and returns the least closed pair of capabilities and factories. */
  method EscapableCapabilityBindings(u: Setup) returns (capabilities: set<Symbol>, factories: set<Symbol>)
    requires Monotone(u.carries) && Monotone(u.gives) && Monotone(u.identity)
    ensures Least(u, capabilities, factories)
  {
    capabilities, factories := u.facades, {};
    var changed := true;
    while changed
      invariant u.facades <= capabilities <= Universe(u) && factories <= Universe(u)
      invariant Below(u, capabilities, factories) && (!changed ==> Closed(u, capabilities, factories))
      decreases |Universe(u) - capabilities| + |Universe(u) - factories|, changed
    {
      ghost var c, f := capabilities, factories;
      var more: bool;
      capabilities, changed := CapabilityPass(u, capabilities, factories);
      factories, more := FactoryPass(u, capabilities, factories);
      changed := changed || more;
      ghost var between := factories;
      factories, more := IdentityPass(u, capabilities, factories);
      changed := changed || more;
      if changed { Smaller(Universe(u), c, capabilities, f, factories); }
    }
  }

  lemma {:induction false} Smaller(all: set<Symbol>, c: set<Symbol>, c': set<Symbol>, f: set<Symbol>, f': set<Symbol>)
    requires c <= c' <= all && f <= f' <= all && (c' != c || f' != f)
    ensures |all - c'| + |all - f'| < |all - c| + |all - f|
  {
    if c' != c { Shrinks(all, c, c'); }
    if f' != f { Shrinks(all, f, f'); }
  }
}
