/**
 Where the scan takes a deferred error for handed off although the return that does it is thrown away: by a
 finalizer of the boundary, or by a disposal beside the return.
 */
module FlowHandOffs {
  import opened Wrappers
  import opened FlowSyntax
  import opened FlowAnalysis
  import opened FlowSemantics
  import opened FlowTheorems

  function DeferralOf(x: Name): Stmt {
    Expression(FacadeCall(Some(x), true, ProvisionalMode, false, {}), false)
  }

  /** catch (err) { capture(err, { deferUntilHandled: true }); return; } finally { ... } */
  function DeferredReturn(err: Name, block: seq<Stmt>): Boundary {
    CatchBlock(Some(err), [DeferralOf(err), Return(None, false)], false, Finally(block))
  }

  function Deferred(holders: set<Name>): Machine { Machine(holders, Ledger(true, false, false, false)) }

  /** The body hands the error off, whatever the finalizer does next. */
  lemma {:induction false} DeferredReturnRun(err: Name, block: seq<Stmt>, outer: set<Name>, o: Oracle)
    requires o != []
    ensures RunBoundary(DeferredReturn(err, block), outer, o) ==
            FinishBody(Finally(block), Ended(Done(Deferred(outer), Returned, false, o[1..]), true))
  {
    var b := DeferredReturn(err, block);
    var m, ss := Caught(b, outer), b.body;
    var m' := Deferred(m.holders);
    assert ss[1..] == [ss[1]];
    PlainPair(ss[0], ss[1]);
    assert m.holders - {} == m.holders && m.(holders := m.holders - {}) == m;
    assert Rebind(m.holders, {}, o[0]) == m.holders;
    assert Exec(ss[0], m, o, []) == Done(m', Normal, false, o[1..]);
    assert Exec(ss[1], m', o[1..], []) == Done(m', Returned, false, o[1..]);
    assert ExecList([ss[1]], m', o[1..]) == Done(m', Returned, false, o[1..]);
    assert ListHandsOff([ss[1]], m', o[1..]);
    assert ExecList(ss, m, o) == Done(m', Returned, false, o[1..]) && ListHandsOff(ss, m, o);
    NoDisposal(ss, m, o);
    assert Reinstate(m.holders, m.holders, {}) == m.holders;
    assert Reinstate(m.holders, outer, {err}) == outer;
  }

  predicate EvidencedRun(b: Boundary, outer: set<Name>, o: Oracle) {
    var run := RunBoundary(b, outer, o);
    run.step.Done? ==> Evidenced(run)
  }

  predicate KeepingRun(block: seq<Stmt>, m: Machine, o: Oracle) {
    var r := ExecBlock(block, m, o);
    r.Done? ==> r.jump.Normal? || Excused(r)
  }

  lemma {:induction false} FinalizerDecidesRun(err: Name, block: seq<Stmt>, outer: set<Name>, o: Oracle)
    requires o != []
    ensures EvidencedRun(DeferredReturn(err, block), outer, o) <==> KeepingRun(block, Deferred(outer), o[1..])
  {
    DeferredReturnRun(err, block, outer, o);
  }

  /** The runs of such a boundary all have evidence exactly when its finalizer never ends abruptly without an excuse. */
  lemma {:induction false} FinalizerDecides(err: Name, block: seq<Stmt>, outer: set<Name>)
    ensures (forall o: Oracle :: EvidencedRun(DeferredReturn(err, block), outer, o)) <==>
            (forall o: Oracle :: KeepingRun(block, Deferred(outer), o))
  {
    var b := DeferredReturn(err, block);
    if forall o: Oracle :: EvidencedRun(b, outer, o) {
      forall o: Oracle
        ensures KeepingRun(block, Deferred(outer), o)
      {
        var all := [Pick(false)] + o;
        assert all[1..] == o;
        FinalizerDecidesRun(err, block, outer, all);
      }
    }
    if forall o: Oracle :: KeepingRun(block, Deferred(outer), o) {
      forall o: Oracle
        ensures EvidencedRun(b, outer, o)
      {
        if o == [] {
          NothingRuns(err, block, outer);
        } else {
          FinalizerDecidesRun(err, block, outer, o);
        }
      }
    }
  }

  lemma {:induction false} NothingRuns(err: Name, block: seq<Stmt>, outer: set<Name>)
    ensures RunBoundary(DeferredReturn(err, block), outer, []).step.Starved?
  {
    var b := DeferredReturn(err, block);
    var m := Caught(b, outer);
    PlainPair(b.body[0], b.body[1]);
    assert ExecList(b.body, m.(holders := m.holders - {}), []).Starved?;
  }

  // ----- the scan accepts it -----------------------------------------------------

  const ThrowBlock := [Throw(Literal, false)]

  /** Throwing a literal from the state that the scan gives a return it takes for handed off. */
  lemma {:induction false} ThrowOutcome(a: FlowState)
    requires !a.protection.Unprotected?
    ensures var out := AnalyzeBlock(ThrowBlock, a, [], false);
            out.states == [] && !out.unsafe && |out.abrupt| == 1 && out.abrupt[0].kind.Throwing? &&
            !out.abrupt[0].exactOriginal && out.abrupt[0].state.protection == a.protection
  {
    var s := ThrowBlock[0];
    PlainSingle(s);
    var a1 := a.(aliases := a.aliases - {});
    var o := AnalyzeStmt(s, a1, [], false);
    assert AnalyzeExpr(Literal, a1).abrupt == [] && |AnalyzeExpr(Literal, a1).states| == 1;
    var states := AnalyzeExpr(Literal, a1).states;
    assert states[1..] == [] && Throws(states, false) == [Abrupt(Throwing, states[0], None, false, false, true)];
    assert |o.abrupt| == 1 && o.abrupt[0].kind.Throwing? && !o.abrupt[0].exactOriginal;
    OneState(s, a1, [], false);
    assert ThrowBlock[1..] == [];
    assert AnalyzeList([], [], [], false) == Outcome([], [], false);
    var list := AnalyzeList(ThrowBlock, [a1], [], false);
    assert list.abrupt == o.abrupt + [] == o.abrupt;
    NoScope(list.states, list.abrupt, a);
    assert list.abrupt + [] == list.abrupt;
  }

  /** The body as the scan sees it: one return, taken for handed off. */
  lemma {:induction false} DeferredReturnOutcome(err: Name)
    ensures var out := AnalyzeBlock(DeferredReturn(err, ThrowBlock).body, FlowState({err}, Unprotected, false), [], true);
            out.states == [] && !out.unsafe &&
            out.abrupt == [Abrupt(Returning, FlowState({err}, Owned, false), None, false, false, true)]
  {
    var ss := DeferredReturn(err, ThrowBlock).body;
    var a := FlowState({err}, Unprotected, false);
    var a' := a.(protection := Provisional);
    var q := Abrupt(Returning, FlowState({err}, Owned, false), None, false, false, true);
    PlainPair(ss[0], ss[1]);
    assert a.aliases - {} == a.aliases;
    assert AnalyzeStmt(ss[0], a, [], true) == Outcome([a'], [], false);
    OneState(ss[0], a, [], true);
    BareReturn(a', [], true, false);
    OneState(ss[1], a', [], true);
    assert ss[1..] == [ss[1]] && [ss[1]][1..] == [];
    assert AnalyzeList([ss[1]], [a'], [], true) == Outcome([], [q], false);
    assert AnalyzeList(ss, [a], [], true) == Outcome([], [q], false);
    NoScope([], [q], a);
    assert [q] + [] == [q];
  }

  /** The finalizer's throw passes for handed off. */
  lemma {:induction false} ThrowPasses(q: Abrupt)
    requires q.state.protection.Owned?
    ensures Accepts(ApplyFinalizer(Finally(ThrowBlock), Outcome([], [q], false), []))
  {
    ThrowOutcome(q.state);
    assert [q][1..] == [];
    var thrown := AnalyzeBlock(ThrowBlock, q.state, [], false);
    assert Resumed(q, []) == [];
    assert FinishAbrupt(ThrowBlock, [q], []).abrupt == thrown.abrupt;
    assert FinishStates(ThrowBlock, [], []) == Nothing;
  }

  lemma {:induction false} DiscardedAccepted(err: Name)
    ensures BoundaryHasEvidence(DeferredReturn(err, ThrowBlock), [])
  {
    var q := Abrupt(Returning, FlowState({err}, Owned, false), None, false, false, true);
    var q' := q.(state := q.state.(aliases := q.state.aliases - {err}));
    DeferredReturnOutcome(err);
    assert [q][1..] == [] && DropNameAbrupt([q], err) == [q'];
    assert WithoutName(Outcome([], [q], false), Some(err)) == Outcome([], [q'], false);
    ThrowPasses(q');
  }

  /** A finalizer that throws discards the return that hands the error off, and the scan accepts it. */
  lemma {:induction false} DiscardedHandOffDeceives(err: Name, outer: set<Name>)
    ensures BoundaryHasEvidence(DeferredReturn(err, ThrowBlock), [])
    ensures exists o: Oracle :: !EvidencedRun(DeferredReturn(err, ThrowBlock), outer, o)
  {
    DiscardedAccepted(err);
    FinalizerDecides(err, ThrowBlock, outer);
    ThrowRun(Deferred(outer));
    assert !KeepingRun(ThrowBlock, Deferred(outer), [Pick(false)]);
  }

  lemma {:induction false} ThrowRun(m: Machine)
    ensures ExecBlock(ThrowBlock, m, [Pick(false)]) == Done(m, Thrown(false), false, [])
  {
    var o := [Pick(false)];
    PlainSingle(ThrowBlock[0]);
    assert m.(holders := m.holders - {}) == m && Reinstate(m.holders, m.holders, {}) == m.holders;
    assert o[1..] == [];
    assert Exec(ThrowBlock[0], m, o, []) == Done(m, Thrown(false), false, []);
    assert ExecList(ThrowBlock, m, o) == Done(m, Thrown(false), false, []);
    NoDisposal(ThrowBlock, m, o);
  }
}
