/**
 * The LR(0) canonical collection that buildDFA produces: a list of states
 * numbered by position, the first the closure of {S' -> . S}, item sets
 * pairwise different, every state's transitions exactly its goto successors,
 * and every later state reached from an earlier one.
 *
 * Building and Scanning are the invariants of buildDFA's two loops; the
 * lemmas below carry them from one step to the next, and the last lemmas
 * show that the states are exactly the item sets reachable from the start.
 */
module Collection {
  import opened Common
  import opened Sets
  import opened Lr0

  /** The item set of state 0: the closure of {(0, 0)}. */
  ghost function StartItems(g: seq<Production>, nt: set<string>): set<Item> {
    ClosureOf(g, nt, {Item(0, 0)})
  }

  predicate Distinct(sts: seq<State>) {
    forall i, j :: 0 <= i < j < |sts| ==> sts[i].items != sts[j].items
  }

  /** Each state carries its own position as id and a non-empty set of items of g. */
  ghost predicate WellFormed(g: seq<Production>, sts: seq<State>) {
    forall k :: 0 <= k < |sts| ==> sts[k].id == k && ValidItems(g, sts[k].items) && sts[k].items != {}
  }

  /** State k has a transition on exactly the symbols after its dots, each to the state holding goto. */
  ghost predicate Complete(g: seq<Production>, nt: set<string>, sts: seq<State>, k: int)
    requires 0 <= k < |sts|
  {
    sts[k].transitions.Keys == NextSymbols(g, sts[k].items)
    && forall x :: x in sts[k].transitions ==>
         sts[k].transitions[x] < |sts| && sts[sts[k].transitions[x]].items == GotoOf(g, nt, sts[k].items, x)
  }

  /** Some earlier state has a transition to state k. */
  ghost predicate Reached(sts: seq<State>, k: int) {
    exists j, x :: 0 <= j < k && j < |sts| && x in sts[j].transitions && sts[j].transitions[x] == k
  }

  ghost predicate Canonical(g: seq<Production>, nt: set<string>, sts: seq<State>) {
    |sts| > 0 && sts[0].items == StartItems(g, nt) && WellFormed(g, sts) && Distinct(sts)
    && (forall k :: 0 <= k < |sts| ==> Complete(g, nt, sts, k))
    && (forall k :: 0 < k < |sts| ==> Reached(sts, k))
  }

  // ---------------------------------------------------------------------------
  // The loop invariants

  /** States before p are processed, the others have no transitions yet. */
  ghost predicate Settled(g: seq<Production>, nt: set<string>, sts: seq<State>, p: int) {
    0 <= p <= |sts| && |sts| > 0 && sts[0].items == StartItems(g, nt) && WellFormed(g, sts) && Distinct(sts)
    && (forall k :: 0 <= k < p ==> Complete(g, nt, sts, k))
    && (forall k :: p <= k < |sts| ==> sts[k].transitions == map[])
  }

  /** The invariant of the outer loop. */
  ghost predicate Building(g: seq<Production>, nt: set<string>, sts: seq<State>, p: int) {
    Settled(g, nt, sts, p) && forall k :: 0 < k < |sts| ==> Reached(sts, k)
  }

  /** Every transition in tr is on a symbol after a dot of state p and leads to its goto set. */
  ghost predicate GotoTargets(g: seq<Production>, nt: set<string>, sts: seq<State>, p: int, tr: map<string, nat>)
    requires 0 <= p < |sts|
  {
    tr.Keys <= NextSymbols(g, sts[p].items)
    && forall x :: x in tr ==> tr[x] < |sts| && sts[tr[x]].items == GotoOf(g, nt, sts[p].items, x)
  }

  predicate Targeted(tr: map<string, nat>, k: int) {
    exists x :: x in tr && tr[x] == k
  }

  lemma TargetedInsert(tr: map<string, nat>, x: string, v: nat)
    requires x !in tr
    ensures forall k :: Targeted(tr, k) ==> Targeted(tr[x := v], k)
    ensures Targeted(tr[x := v], v)
  {
    forall k | Targeted(tr, k)
      ensures Targeted(tr[x := v], k)
    {
      var y :| y in tr && tr[y] == k;
      assert y in tr[x := v] && tr[x := v][y] == k;
    }
    assert x in tr[x := v];
  }

  /**
   * The invariant of the inner loop over the next symbols of state p: tr holds
   * the transitions found so far; a state not yet reached is one created from state p.
   */
  ghost predicate Scanning(g: seq<Production>, nt: set<string>, sts: seq<State>, p: int, tr: map<string, nat>) {
    p < |sts| && Settled(g, nt, sts, p) && GotoTargets(g, nt, sts, p, tr)
    && forall k :: 0 < k < |sts| ==> Reached(sts, k) || (p < k && Targeted(tr, k))
  }

  lemma BuildingInit(g: seq<Production>, nt: set<string>, start: set<Item>)
    requires start == StartItems(g, nt) && ValidItems(g, start)
    ensures Building(g, nt, [State(0, start, map[])], 0)
  {
    ClosureContains(g, nt, {Item(0, 0)});
  }

  lemma ScanningInit(g: seq<Production>, nt: set<string>, sts: seq<State>, p: int)
    requires Building(g, nt, sts, p) && p < |sts|
    ensures Scanning(g, nt, sts, p, map[])
  {
  }

  /** Recording one more transition of state p, on x to a state holding goto(p, x). */
  lemma TargetsInsert(g: seq<Production>, nt: set<string>, sts: seq<State>, p: int, tr: map<string, nat>, x: string, v: nat)
    requires 0 <= p < |sts| && GotoTargets(g, nt, sts, p, tr)
    requires x in NextSymbols(g, sts[p].items)
    requires v < |sts| && sts[v].items == GotoOf(g, nt, sts[p].items, x)
    ensures GotoTargets(g, nt, sts, p, tr[x := v])
  {
  }

  /** The goto set on x is already state id: the transition goes there. */
  lemma ScanFound(g: seq<Production>, nt: set<string>, sts: seq<State>, p: int, tr: map<string, nat>, x: string, id: int)
    requires Scanning(g, nt, sts, p, tr)
    requires x in NextSymbols(g, sts[p].items) && x !in tr
    requires 0 <= id < |sts| && sts[id].items == GotoOf(g, nt, sts[p].items, x)
    ensures Scanning(g, nt, sts, p, tr[x := id])
  {
    TargetsInsert(g, nt, sts, p, tr, x, id);
    TargetedInsert(tr, x, id);
  }

  /** Appending a state with a new non-empty item set and no transitions. */
  lemma SettledGrow(g: seq<Production>, nt: set<string>, sts: seq<State>, p: int, items: set<Item>)
    requires Settled(g, nt, sts, p) && p < |sts|
    requires ValidItems(g, items) && items != {}
    requires forall i :: 0 <= i < |sts| ==> sts[i].items != items
    ensures var sts' := sts + [State(|sts|, items, map[])];
            Settled(g, nt, sts', p)
            && (forall k :: 0 <= k < |sts| ==> sts'[k] == sts[k])
  {
    var sts' := sts + [State(|sts|, items, map[])];
    assert forall k :: 0 <= k < |sts| ==> sts'[k] == sts[k];
    forall k | 0 <= k < p
      ensures Complete(g, nt, sts', k)
    {
      assert Complete(g, nt, sts, k);
    }
  }

  /** Appending a state keeps what the old ones hold about their transitions. */
  lemma TargetsGrow(g: seq<Production>, nt: set<string>, sts: seq<State>, p: int, tr: map<string, nat>, st: State)
    requires 0 <= p < |sts| && GotoTargets(g, nt, sts, p, tr)
    ensures var sts' := sts + [st];
            GotoTargets(g, nt, sts', p, tr)
            && forall k :: 0 < k < |sts| && Reached(sts, k) ==> Reached(sts', k)
  {
    var sts' := sts + [st];
    assert forall k :: 0 <= k < |sts| ==> sts'[k] == sts[k];
    forall k | 0 < k < |sts| && Reached(sts, k)
      ensures Reached(sts', k)
    {
      var j, y :| 0 <= j < k && j < |sts| && y in sts[j].transitions && sts[j].transitions[y] == k;
      assert sts'[j] == sts[j];
    }
  }

  /** The goto set on x is new: it becomes the last state, and the transition goes there. */
  lemma ScanNew(g: seq<Production>, nt: set<string>, sts: seq<State>, p: int, tr: map<string, nat>, x: string)
    requires Scanning(g, nt, sts, p, tr)
    requires x in NextSymbols(g, sts[p].items) && x !in tr
    requires forall i :: 0 <= i < |sts| ==> sts[i].items != GotoOf(g, nt, sts[p].items, x)
    ensures var sts' := sts + [State(|sts|, GotoOf(g, nt, sts[p].items, x), map[])];
            sts'[p] == sts[p] && Scanning(g, nt, sts', p, tr[x := |sts|])
  {
    var items := GotoOf(g, nt, sts[p].items, x);
    var st := State(|sts|, items, map[]);
    var sts' := sts + [st];
    GotoValid(g, nt, sts[p].items, x);
    GotoEmptyIff(g, nt, sts[p].items, x);
    SettledGrow(g, nt, sts, p, items);
    TargetsGrow(g, nt, sts, p, tr, st);
    TargetsInsert(g, nt, sts', p, tr, x, |sts|);
    TargetedInsert(tr, x, |sts|);
  }

  /** Replacing one state's transitions keeps every fact that does not mention them. */
  lemma RetargetKeeps(g: seq<Production>, nt: set<string>, sts: seq<State>, p: int, tr: map<string, nat>)
    requires 0 <= p < |sts| && WellFormed(g, sts) && Distinct(sts)
    ensures var sts' := sts[p := State(p, sts[p].items, tr)];
            WellFormed(g, sts') && Distinct(sts')
            && forall k :: 0 <= k < |sts| && k != p && Complete(g, nt, sts, k) ==> Complete(g, nt, sts', k)
  {
    var sts' := sts[p := State(p, sts[p].items, tr)];
    assert forall k :: 0 <= k < |sts| ==> sts'[k].items == sts[k].items;
  }

  /** Once state p has the transitions tr, the states reached before or targeted by tr are reached. */
  lemma RetargetReached(sts: seq<State>, p: int, tr: map<string, nat>)
    requires 0 <= p < |sts| && sts[p].transitions == map[]
    ensures var sts' := sts[p := State(p, sts[p].items, tr)];
            forall k :: Reached(sts, k) || (p < k && Targeted(tr, k)) ==> Reached(sts', k)
  {
    var sts' := sts[p := State(p, sts[p].items, tr)];
    forall k | Reached(sts, k) || (p < k && Targeted(tr, k))
      ensures Reached(sts', k)
    {
      if Reached(sts, k) {
        var j, y :| 0 <= j < k && j < |sts| && y in sts[j].transitions && sts[j].transitions[y] == k;
        assert y in sts'[j].transitions && sts'[j].transitions[y] == k;
      } else {
        var y :| y in tr && tr[y] == k;
        assert y in sts'[p].transitions && sts'[p].transitions[y] == k;
      }
    }
  }

  /** With all its next symbols scanned, state p is complete. */
  lemma RetargetComplete(g: seq<Production>, nt: set<string>, sts: seq<State>, p: int, tr: map<string, nat>)
    requires 0 <= p < |sts| && GotoTargets(g, nt, sts, p, tr) && tr.Keys == NextSymbols(g, sts[p].items)
    ensures Complete(g, nt, sts[p := State(p, sts[p].items, tr)], p)
  {
    var sts' := sts[p := State(p, sts[p].items, tr)];
    assert forall k :: 0 <= k < |sts| ==> sts'[k].items == sts[k].items;
  }

  /** State p gets the transitions found; the outer loop moves on. */
  lemma ScanEnd(g: seq<Production>, nt: set<string>, sts: seq<State>, p: int, tr: map<string, nat>)
    requires Scanning(g, nt, sts, p, tr) && tr.Keys == NextSymbols(g, sts[p].items)
    ensures Building(g, nt, sts[p := State(p, sts[p].items, tr)], p + 1)
  {
    RetargetKeeps(g, nt, sts, p, tr);
    RetargetComplete(g, nt, sts, p, tr);
    RetargetReached(sts, p, tr);
  }

  lemma BuildingEnd(g: seq<Production>, nt: set<string>, sts: seq<State>)
    requires Building(g, nt, sts, |sts|)
    ensures Canonical(g, nt, sts)
  {
  }

  // ---------------------------------------------------------------------------
  // Termination: there are only so many item sets

  ghost function ItemSets(sts: seq<State>): set<set<Item>> {
    set k | 0 <= k < |sts| :: sts[k].items
  }

  lemma {:induction false} ItemSetsSize(sts: seq<State>)
    requires Distinct(sts)
    ensures |ItemSets(sts)| == |sts|
    decreases |sts|
  {
    if sts != [] {
      var front := sts[..|sts| - 1];
      assert Distinct(front);
      ItemSetsSize(front);
      assert ItemSets(sts) == ItemSets(front) + {sts[|sts| - 1].items};
      assert sts[|sts| - 1].items !in ItemSets(front);
    }
  }

  /** Distinct sets of items of g are at most as many as the subsets of all items. */
  lemma StatesBounded(g: seq<Production>, sts: seq<State>)
    requires Distinct(sts) && WellFormed(g, sts)
    ensures |sts| <= |PowerSet(AllItems(g))|
  {
    ItemSetsSize(sts);
    assert ItemSets(sts) <= PowerSet(AllItems(g));
    SubsetCardinality(ItemSets(sts), PowerSet(AllItems(g)));
  }

  // ---------------------------------------------------------------------------
  // The states are exactly the reachable item sets

  /** The item set reached from the start by following the symbols xs. */
  ghost function ItemsAfter(g: seq<Production>, nt: set<string>, xs: seq<string>): set<Item>
    decreases |xs|
  {
    if xs == [] then StartItems(g, nt)
    else GotoOf(g, nt, ItemsAfter(g, nt, xs[..|xs| - 1]), xs[|xs| - 1])
  }

  /** Every non-empty item set reachable from the start is some state. */
  lemma {:induction false} CanonicalHasReachable(g: seq<Production>, nt: set<string>, sts: seq<State>, xs: seq<string>)
    requires Canonical(g, nt, sts) && ItemsAfter(g, nt, xs) != {}
    ensures exists k :: 0 <= k < |sts| && sts[k].items == ItemsAfter(g, nt, xs)
    decreases |xs|
  {
    if xs != [] {
      var front, x := xs[..|xs| - 1], xs[|xs| - 1];
      var before := ItemsAfter(g, nt, front);
      GotoEmptyIff(g, nt, before, x);
      EmptySets(g, nt, x);
      assert before != {};
      CanonicalHasReachable(g, nt, sts, front);
      var k :| 0 <= k < |sts| && sts[k].items == before;
      assert Complete(g, nt, sts, k);
      var j := sts[k].transitions[x];
      assert sts[j].items == ItemsAfter(g, nt, xs);
    } else {
      assert sts[0].items == ItemsAfter(g, nt, xs);
    }
  }

  /** Every state's item set is reachable from the start. */
  lemma {:induction false} CanonicalReachable(g: seq<Production>, nt: set<string>, sts: seq<State>, k: int)
    requires Canonical(g, nt, sts) && 0 <= k < |sts|
    ensures exists xs :: ItemsAfter(g, nt, xs) == sts[k].items
    decreases k
  {
    if k == 0 {
      assert ItemsAfter(g, nt, []) == sts[0].items;
    } else {
      assert Reached(sts, k);
      var j, x :| 0 <= j < k && j < |sts| && x in sts[j].transitions && sts[j].transitions[x] == k;
      CanonicalReachable(g, nt, sts, j);
      var ys :| ItemsAfter(g, nt, ys) == sts[j].items;
      assert Complete(g, nt, sts, j);
      assert (ys + [x])[..|ys|] == ys;
      assert ItemsAfter(g, nt, ys + [x]) == sts[k].items;
    }
  }
}
