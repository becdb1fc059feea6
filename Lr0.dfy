/**
 * LR(0) item sets over a production list: the closure of an item set, the
 * successor set on a symbol (goto), and the laws they obey.  These are the
 * reference definitions against which GrammarAnalyzer's closure, gotoState
 * and buildDFA are proved.
 */
module Lr0 {
  import opened Common
  import opened Sets

  /** A DFA state: its number, its item set, and its outgoing transitions symbol -> state number. */
  datatype State = State(id: nat, items: set<Item>, transitions: map<string, nat>)

  /** Production ids are dense and 0-based: production i has id i. */
  predicate DenseIds(g: seq<Production>) {
    forall i :: 0 <= i < |g| ==> g[i].id == i
  }

  /** The item names a production of g, with the dot at most at the end. */
  predicate ValidItem(g: seq<Production>, it: Item) {
    it.prodIndex < |g| && it.dotPos <= |g[it.prodIndex].rhs|
  }

  predicate ValidItems(g: seq<Production>, items: set<Item>) {
    forall it :: it in items ==> ValidItem(g, it)
  }

  /** Every item of g: productions x (|rhs| + 1) dot positions. */
  ghost function AllItems(g: seq<Production>): (u: set<Item>)
    ensures forall it :: it in u <==> ValidItem(g, it)
  {
    set p, d | 0 <= p < |g| && 0 <= d <= |g[p].rhs| :: Item(p, d)
  }

  /** There is a symbol right after the dot. */
  predicate HasNext(g: seq<Production>, it: Item) {
    it.prodIndex < |g| && it.dotPos < |g[it.prodIndex].rhs|
  }

  function NextSymbol(g: seq<Production>, it: Item): string
    requires HasNext(g, it)
  {
    g[it.prodIndex].rhs[it.dotPos]
  }

  /** The item is complete: its dot is at the end of a production of g. */
  predicate Completed(g: seq<Production>, it: Item) {
    it.prodIndex < |g| && it.dotPos == |g[it.prodIndex].rhs|
  }

  /** it has the dot before the non-terminal g[q].lhs, so (q, 0) belongs to the closure. */
  predicate Forces(g: seq<Production>, nt: set<string>, it: Item, q: int) {
    HasNext(g, it) && NextSymbol(g, it) in nt && 0 <= q < |g| && g[q].lhs == NextSymbol(g, it)
  }

  /** One round of closure: the (q, 0) items forced by the items of I. */
  ghost function Expand(g: seq<Production>, nt: set<string>, items: set<Item>): set<Item> {
    set it, q | it in items && 0 <= q < |g| && Forces(g, nt, it, q) :: Item(q, 0)
  }

  /** The items with the dot at the start. */
  ghost function DotZero(g: seq<Production>): set<Item> {
    set q | 0 <= q < |g| :: Item(q, 0)
  }

  /** Nothing is left to add: every non-terminal after a dot is already expanded. */
  ghost predicate Closed(g: seq<Production>, nt: set<string>, items: set<Item>) {
    forall it, q :: it in items && Forces(g, nt, it, q) ==> Item(q, 0) in items
  }

  lemma ExpandBounds(g: seq<Production>, nt: set<string>, items: set<Item>)
    ensures Expand(g, nt, items) <= DotZero(g)
    ensures Expand(g, nt, items) <= items <==> Closed(g, nt, items)
  {
    if Expand(g, nt, items) <= items {
      forall it, q | it in items && Forces(g, nt, it, q)
        ensures Item(q, 0) in items
      {
        assert Item(q, 0) in Expand(g, nt, items);
      }
    }
  }

  /** A round that adds something leaves fewer dot-0 items to add. */
  lemma ClosureStepShrinks(g: seq<Production>, nt: set<string>, items: set<Item>)
    requires items + Expand(g, nt, items) != items
    ensures |DotZero(g) - (items + Expand(g, nt, items))| < |DotZero(g) - items|
  {
    var next := items + Expand(g, nt, items);
    ExpandBounds(g, nt, items);
    StrictSubsetWitness(items, next);
    var x :| x in next && x !in items;
    assert x in DotZero(g) - items;
    StrictSubsetCardinality(DotZero(g) - next, DotZero(g) - items);
  }

  /** closure(I): add forced items round by round until a round adds nothing. */
  ghost function ClosureOf(g: seq<Production>, nt: set<string>, items: set<Item>): set<Item>
    decreases |DotZero(g) - items|
  {
    var next := items + Expand(g, nt, items);
    if next == items then items
    else
      ClosureStepShrinks(g, nt, items);
      ClosureOf(g, nt, next)
  }

  lemma {:induction false} ClosureContains(g: seq<Production>, nt: set<string>, items: set<Item>)
    ensures items <= ClosureOf(g, nt, items)
    decreases |DotZero(g) - items|
  {
    var next := items + Expand(g, nt, items);
    if next != items {
      ExpandBounds(g, nt, items);
      ClosureStepShrinks(g, nt, items);
      ClosureContains(g, nt, next);
    }
  }

  lemma {:induction false} ClosureIsClosed(g: seq<Production>, nt: set<string>, items: set<Item>)
    ensures Closed(g, nt, ClosureOf(g, nt, items))
    decreases |DotZero(g) - items|
  {
    var next := items + Expand(g, nt, items);
    ExpandBounds(g, nt, items);
    if next != items {
      ClosureStepShrinks(g, nt, items);
      ClosureIsClosed(g, nt, next);
    }
  }

  /** Closure only adds items with the dot at the start. */
  lemma {:induction false} ClosureAddsDotZero(g: seq<Production>, nt: set<string>, items: set<Item>)
    ensures ClosureOf(g, nt, items) <= items + DotZero(g)
    decreases |DotZero(g) - items|
  {
    var next := items + Expand(g, nt, items);
    ExpandBounds(g, nt, items);
    if next != items {
      ClosureStepShrinks(g, nt, items);
      ClosureAddsDotZero(g, nt, next);
    }
  }

  /** The closure is the least closed superset. */
  lemma {:induction false} ClosureLeast(g: seq<Production>, nt: set<string>, items: set<Item>, k: set<Item>)
    requires items <= k && Closed(g, nt, k)
    ensures ClosureOf(g, nt, items) <= k
    decreases |DotZero(g) - items|
  {
    var next := items + Expand(g, nt, items);
    ExpandBounds(g, nt, items);
    if next != items {
      ClosureStepShrinks(g, nt, items);
      assert next <= k;
      ClosureLeast(g, nt, next, k);
    }
  }

  lemma ClosureOfClosed(g: seq<Production>, nt: set<string>, items: set<Item>)
    requires Closed(g, nt, items)
    ensures ClosureOf(g, nt, items) == items
  {
    ExpandBounds(g, nt, items);
  }

  /** closure(closure(I)) == closure(I). */
  lemma ClosureIdempotent(g: seq<Production>, nt: set<string>, items: set<Item>)
    ensures ClosureOf(g, nt, ClosureOf(g, nt, items)) == ClosureOf(g, nt, items)
  {
    ClosureIsClosed(g, nt, items);
    ClosureOfClosed(g, nt, ClosureOf(g, nt, items));
  }

  lemma ClosureValid(g: seq<Production>, nt: set<string>, items: set<Item>)
    requires ValidItems(g, items)
    ensures ValidItems(g, ClosureOf(g, nt, items))
  {
    ClosureAddsDotZero(g, nt, items);
  }

  // ---------------------------------------------------------------------------
  // goto

  /** The items of I with X after the dot, their dot moved past X. */
  ghost function Advance(g: seq<Production>, items: set<Item>, x: string): set<Item> {
    set it | it in items && HasNext(g, it) && NextSymbol(g, it) == x :: Item(it.prodIndex, it.dotPos + 1)
  }

  /** gotoState(I, X) = closure of the advanced items. */
  ghost function GotoOf(g: seq<Production>, nt: set<string>, items: set<Item>, x: string): set<Item> {
    ClosureOf(g, nt, Advance(g, items, x))
  }

  /** The symbols standing right after a dot in I. */
  ghost function NextSymbols(g: seq<Production>, items: set<Item>): set<string> {
    set it | it in items && HasNext(g, it) :: NextSymbol(g, it)
  }

  /** goto(I, X) is empty exactly when no item of I has X right after its dot. */
  lemma GotoEmptyIff(g: seq<Production>, nt: set<string>, items: set<Item>, x: string)
    ensures GotoOf(g, nt, items, x) == {} <==> x !in NextSymbols(g, items)
  {
    var adv := Advance(g, items, x);
    ClosureContains(g, nt, adv);
    if x in NextSymbols(g, items) {
      var it :| it in items && HasNext(g, it) && NextSymbol(g, it) == x;
      assert Item(it.prodIndex, it.dotPos + 1) in adv;
    } else {
      assert adv == {};
      assert Expand(g, nt, {}) == {};
    }
  }

  /** Every item of goto(I, X) either has the dot at the start or comes from an item of I with X after the dot. */
  lemma GotoKernel(g: seq<Production>, nt: set<string>, items: set<Item>, x: string, it: Item)
    requires it in GotoOf(g, nt, items, x)
    ensures it.dotPos == 0 || (Item(it.prodIndex, it.dotPos - 1) in items
                               && HasNext(g, Item(it.prodIndex, it.dotPos - 1))
                               && NextSymbol(g, Item(it.prodIndex, it.dotPos - 1)) == x)
  {
    ClosureAddsDotZero(g, nt, Advance(g, items, x));
  }

  lemma GotoValid(g: seq<Production>, nt: set<string>, items: set<Item>, x: string)
    ensures ValidItems(g, GotoOf(g, nt, items, x))
  {
    ClosureValid(g, nt, Advance(g, items, x));
  }

  // ---------------------------------------------------------------------------
  // One element at a time: how the sets above grow as the loops visit items

  /** The dot-0 items that `it` forces through productions 0 .. q-1. */
  ghost function ForcedBelow(g: seq<Production>, nt: set<string>, it: Item, q: int): set<Item> {
    set q' | 0 <= q' < q && q' < |g| && Forces(g, nt, it, q') :: Item(q', 0)
  }

  lemma ForcedBelowZero(g: seq<Production>, nt: set<string>, it: Item, base: set<Item>)
    ensures base == base + ForcedBelow(g, nt, it, 0)
  {
  }

  lemma ForcedBelowStep(g: seq<Production>, nt: set<string>, it: Item, q: int)
    requires 0 <= q < |g|
    ensures ForcedBelow(g, nt, it, q + 1)
         == ForcedBelow(g, nt, it, q) + (if Forces(g, nt, it, q) then {Item(q, 0)} else {})
  {
  }

  lemma ExpandInsert(g: seq<Production>, nt: set<string>, s: set<Item>, it: Item)
    ensures Expand(g, nt, s + {it}) == Expand(g, nt, s) + ForcedBelow(g, nt, it, |g|)
  {
    forall x | x in ForcedBelow(g, nt, it, |g|)
      ensures x in Expand(g, nt, s + {it})
    {
      var q :| 0 <= q < |g| && Forces(g, nt, it, q) && x == Item(q, 0);
    }
    forall x | x in Expand(g, nt, s + {it})
      ensures x in Expand(g, nt, s) + ForcedBelow(g, nt, it, |g|)
    {
      var y, q :| y in s + {it} && 0 <= q < |g| && Forces(g, nt, y, q) && x == Item(q, 0);
      if y != it {
        assert x in Expand(g, nt, s);
      }
    }
  }

  lemma AdvanceInsert(g: seq<Production>, s: set<Item>, it: Item, x: string)
    ensures Advance(g, s + {it}, x)
         == Advance(g, s, x) + (if HasNext(g, it) && NextSymbol(g, it) == x then {Item(it.prodIndex, it.dotPos + 1)} else {})
  {
  }

  /** gotoState's loop body: visiting `it` adds its advanced item when X follows its dot. */
  lemma AdvanceVisit(g: seq<Production>, done: set<Item>, it: Item, x: string, j: set<Item>)
    requires j == Advance(g, done, x) && it.prodIndex < |g|
    ensures it.dotPos < |g[it.prodIndex].rhs| && g[it.prodIndex].rhs[it.dotPos] == x
            ==> j + {Item(it.prodIndex, it.dotPos + 1)} == Advance(g, done + {it}, x)
    ensures !(it.dotPos < |g[it.prodIndex].rhs| && g[it.prodIndex].rhs[it.dotPos] == x)
            ==> j == Advance(g, done + {it}, x)
  {
    AdvanceInsert(g, done, it, x);
  }

  lemma NextSymbolsInsert(g: seq<Production>, s: set<Item>, it: Item)
    ensures NextSymbols(g, s + {it}) == NextSymbols(g, s) + (if HasNext(g, it) then {NextSymbol(g, it)} else {})
  {
  }

  /** buildDFA's first loop body, in the shape of the code. */
  lemma NextSymbolsVisit(g: seq<Production>, done: set<Item>, it: Item, syms: set<string>)
    requires syms == NextSymbols(g, done) && it.prodIndex < |g|
    ensures it.dotPos < |g[it.prodIndex].rhs| ==>
              syms + {g[it.prodIndex].rhs[it.dotPos]} == NextSymbols(g, done + {it})
    ensures !(it.dotPos < |g[it.prodIndex].rhs|) ==> syms == NextSymbols(g, done + {it})
  {
    NextSymbolsInsert(g, done, it);
  }

  /** closure's innermost loop body: production q of B contributes (q, 0) when its lhs is B. */
  lemma ForcedVisit(g: seq<Production>, nt: set<string>, it: Item, q: int, base: set<Item>, acc: set<Item>)
    requires DenseIds(g) && 0 <= q < |g| && HasNext(g, it) && NextSymbol(g, it) in nt
    requires acc == base + ForcedBelow(g, nt, it, q)
    ensures g[q].lhs == NextSymbol(g, it) ==> acc + {Item(g[q].id, 0)} == base + ForcedBelow(g, nt, it, q + 1)
    ensures g[q].lhs == NextSymbol(g, it) && Item(g[q].id, 0) in acc ==> acc == base + ForcedBelow(g, nt, it, q + 1)
    ensures g[q].lhs != NextSymbol(g, it) ==> acc == base + ForcedBelow(g, nt, it, q + 1)
  {
    ForcedBelowStep(g, nt, it, q);
  }

  /** After the productions are scanned for `it`, `it` counts as expanded. */
  lemma ExpandVisit(g: seq<Production>, nt: set<string>, cur: set<Item>, done: set<Item>, it: Item, next: set<Item>)
    requires next == cur + Expand(g, nt, done) + ForcedBelow(g, nt, it, |g|)
    ensures next == cur + Expand(g, nt, done + {it})
  {
    ExpandInsert(g, nt, done, it);
  }

  /** An item without a non-terminal after its dot adds nothing. */
  lemma ExpandSkip(g: seq<Production>, nt: set<string>, cur: set<Item>, done: set<Item>, it: Item, next: set<Item>)
    requires !HasNext(g, it) || NextSymbol(g, it) !in nt
    requires next == cur + Expand(g, nt, done)
    ensures next == cur + Expand(g, nt, done + {it})
  {
    ExpandInsert(g, nt, done, it);
    ForcedBelowNone(g, nt, it, |g|);
  }

  /** An item with no non-terminal after its dot forces nothing. */
  lemma ForcedBelowNone(g: seq<Production>, nt: set<string>, it: Item, q: int)
    requires !HasNext(g, it) || NextSymbol(g, it) !in nt
    ensures ForcedBelow(g, nt, it, q) == {}
  {
  }

  /** The number of closure rounds from `items` that add something. */
  ghost function Rounds(g: seq<Production>, nt: set<string>, items: set<Item>): nat
    decreases |DotZero(g) - items|
  {
    var next := items + Expand(g, nt, items);
    if next == items then 0
    else
      ClosureStepShrinks(g, nt, items);
      1 + Rounds(g, nt, next)
  }

  /** One round either reaches the closure or leaves one adding round fewer. */
  lemma ClosureRoundStep(g: seq<Production>, nt: set<string>, items: set<Item>)
    ensures var next := items + Expand(g, nt, items);
            if next != items then ClosureOf(g, nt, next) == ClosureOf(g, nt, items) && Rounds(g, nt, next) < Rounds(g, nt, items)
            else ClosureOf(g, nt, items) == items
  {
  }

  lemma RoundValid(g: seq<Production>, nt: set<string>, items: set<Item>)
    requires ValidItems(g, items)
    ensures ValidItems(g, items + Expand(g, nt, items))
  {
    ExpandBounds(g, nt, items);
  }

  lemma AdvanceValid(g: seq<Production>, items: set<Item>, x: string)
    ensures ValidItems(g, Advance(g, items, x))
  {
  }

  lemma EmptySets(g: seq<Production>, nt: set<string>, x: string)
    ensures Expand(g, nt, {}) == {} && Advance(g, {}, x) == {} && NextSymbols(g, {}) == {}
  {
  }
}
