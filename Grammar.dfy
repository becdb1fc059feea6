/**
 * GrammarAnalyzer: loads a grammar, computes the simplified First and Follow
 * sets, builds the LR(0) canonical collection and fills the SLR(1) tables.
 *
 * The class keeps the C++ member fields; each method computes in locals and
 * writes the fields it owns.  Its contracts tie the new fields to the
 * reference definitions of the Lr0, FirstFollow and SlrTable modules.
 */
module Grammar {
  import opened Common
  import opened Text
  import opened Sets
  import opened Lr0
  import opened FirstFollow
  import opened Propagation
  import opened Collection
  import opened SlrTable
  import Ordering

  // ---------------------------------------------------------------------------
  // The grammar file format

  /**
   * The production the loader builds from one non-empty line: the first word
   * is the lhs, the second (the arrow) is skipped unchecked, the others form
   * the rhs.  A line of blanks gives the lhs "" and an empty rhs.
   */
  function LineProduction(id: nat, line: string): Production {
    var ws := Words(line);
    Production(id, if |ws| > 0 then ws[0] else "", if |ws| > 2 then ws[2..] else [])
  }

  /** The productions of the non-empty lines, numbered from 0 in line order. */
  function LoadedProductions(lines: seq<string>): seq<Production> {
    if lines == [] then []
    else
      var ps := LoadedProductions(lines[..|lines| - 1]);
      if lines[|lines| - 1] == "" then ps else ps + [LineProduction(|ps|, lines[|lines| - 1])]
  }

  /** The loader numbers the productions it reads 0, 1, 2, ... */
  lemma {:induction false} LoadedIdsDense(lines: seq<string>)
    ensures DenseIds(LoadedProductions(lines))
    decreases |lines|
  {
    if lines != [] {
      LoadedIdsDense(lines[..|lines| - 1]);
    }
  }

  /** What reading line k adds to the productions read from the lines before it. */
  lemma LoadedStep(lines: seq<string>, k: int)
    requires 0 <= k < |lines|
    ensures var ps := LoadedProductions(lines[..k]);
            var next := LoadedProductions(lines[..k + 1]);
            var prod := LineProduction(|ps|, lines[k]);
            if lines[k] == "" then next == ps
            else next == ps + [prod] && next[0] == (if ps == [] then prod else ps[0])
                 && LhsSymbols(next) == LhsSymbols(ps) + {prod.lhs}
  {
    assert lines[..k + 1][..k] == lines[..k];
    var ps := LoadedProductions(lines[..k]);
    LhsSymbolsSnoc(ps, LineProduction(|ps|, lines[k]));
  }

  /** A grammar symbol as the file format can carry it: non-empty, without blanks. */
  predicate WordShaped(p: Production) {
    IsWord(p.lhs) && forall k :: 0 <= k < |p.rhs| ==> IsWord(p.rhs[k])
  }

  lemma {:induction false} WordsOfSpaced(syms: seq<string>)
    requires forall k :: 0 <= k < |syms| ==> IsWord(syms[k])
    ensures Words(Spaced(syms)) == syms
    decreases |syms|
  {
    if syms != [] {
      WordsOfSpaced(syms[1..]);
      WordsAfterSpace(syms[0] + Spaced(syms[1..]));
      assert " " + syms[0] + Spaced(syms[1..]) == " " + (syms[0] + Spaced(syms[1..]));
      WordsOfWord(syms[0], Spaced(syms[1..]));
    }
  }

  /** The loader reads back the line Production::toString writes. */
  lemma LineRoundTrip(p: Production)
    requires WordShaped(p)
    ensures LineProduction(p.id, ProductionText(p)) == p
  {
    var ws := Words(ProductionText(p));
    LineWords(p);
    assert ws[2..] == p.rhs;
  }

  /** The words of a toString line: the lhs, the arrow, then the rhs symbols. */
  lemma LineWords(p: Production)
    requires WordShaped(p)
    ensures Words(ProductionText(p)) == [p.lhs] + (["->"] + p.rhs)
  {
    var tail := Spaced(p.rhs);
    assert Words("->" + tail) == ["->"] + p.rhs by {
      WordsOfSpaced(p.rhs);
      WordsOfWord("->", tail);
    }
    assert Words(" ->" + tail) == ["->"] + p.rhs by {
      WordsAfterSpace("->" + tail);
      assert " ->" + tail == " " + ("->" + tail);
    }
    assert p.lhs + " ->" + tail == p.lhs + (" ->" + tail);
    WordsOfWord(p.lhs, " ->" + tail);
  }

  /** The toString lines of the productions, one per production, in order. */
  function TextLines(ps: seq<Production>): seq<string> {
    if ps == [] then [] else TextLines(ps[..|ps| - 1]) + [ProductionText(ps[|ps| - 1])]
  }

  /** Writing a grammar one toString line per production and loading it gives the grammar back. */
  lemma {:induction false} LoadRoundTrip(ps: seq<Production>)
    requires DenseIds(ps)
    requires forall i :: 0 <= i < |ps| ==> WordShaped(ps[i])
    ensures LoadedProductions(TextLines(ps)) == ps
    decreases |ps|
  {
    if ps != [] {
      var n := |ps| - 1;
      var front, lines := TextLines(ps[..n]), TextLines(ps);
      LoadRoundTrip(ps[..n]);
      assert lines[..|lines| - 1] == front;
      assert lines[|lines| - 1] != "";
      LineRoundTrip(ps[n]);
      SplitLast(ps);
    }
  }

  /** The rhs symbols of productions 0 .. p-1, and of the first i symbols of production p. */
  ghost function SymbolsBefore(g: seq<Production>, p: int, i: int): set<string> {
    (set q, j | 0 <= q < p && q < |g| && 0 <= j < |g[q].rhs| :: g[q].rhs[j])
    + (set j | 0 <= p < |g| && 0 <= j < i && j < |g[p].rhs| :: g[p].rhs[j])
  }

  lemma SymbolsBeforeNext(g: seq<Production>, p: int)
    requires 0 <= p < |g|
    ensures SymbolsBefore(g, p, |g[p].rhs|) == SymbolsBefore(g, p + 1, 0)
  {
  }

  lemma SymbolsBeforeAll(g: seq<Production>)
    ensures SymbolsBefore(g, |g|, 0) == RhsSymbols(g)
  {
  }

  /** The terminal-classification loop of loadGrammar: every rhs symbol that is not in nts. */
  method CollectTerminals(g: seq<Production>, nts: set<string>) returns (ts: set<string>)
    ensures ts == RhsSymbols(g) - nts
  {
    ts := {};
    for p := 0 to |g|
      invariant ts == SymbolsBefore(g, p, 0) - nts
    {
      for i := 0 to |g[p].rhs|
        invariant ts == SymbolsBefore(g, p, i) - nts
      {
        assert SymbolsBefore(g, p, i + 1) == SymbolsBefore(g, p, i) + {g[p].rhs[i]};
        if g[p].rhs[i] !in nts {
          ts := ts + {g[p].rhs[i]};
        }
      }
      SymbolsBeforeNext(g, p);
    }
    SymbolsBeforeAll(g);
  }

  /** buildDFA's search for an existing state: the first one holding exactly these items, or -1. */
  method FindState(sts: seq<State>, items: set<Item>) returns (id: int)
    ensures -1 <= id < |sts|
    ensures id == -1 ==> forall i :: 0 <= i < |sts| ==> sts[i].items != items
    ensures id >= 0 ==> sts[id].items == items && forall i :: 0 <= i < id ==> sts[i].items != items
  {
    for i := 0 to |sts|
      invariant forall j :: 0 <= j < i ==> sts[j].items != items
    {
      if sts[i].items == items {
        return i;
      }
    }
    return -1;
  }

  // ---------------------------------------------------------------------------
  // The loops of buildSLRTable, one state's row at a time

  /** The shift / GOTO loop over a state's transitions, in increasing symbol order. */
  method FillShifts(t: set<string>, tr: map<string, nat>, row0: map<string, Action>, grow0: map<string, nat>)
    returns (row: map<string, Action>, grow: map<string, nat>, ok: bool)
    ensures RowFill(row, grow, ok) == ShiftFill(t, tr, tr.Keys, row0, grow0)
  {
    row, grow := row0, grow0;
    var rest := tr.Keys;
    while rest != {}
      invariant rest <= tr.Keys
      invariant ShiftFill(t, tr, rest, row, grow) == ShiftFill(t, tr, tr.Keys, row0, grow0)
      decreases |rest|
    {
      var x := Smallest(rest);
      if x in t {
        if x in row {
          return row, grow, false;
        }
        row := row[x := Shift(tr[x])];
      } else {
        grow := grow[x := tr[x]];
      }
      rest := rest - {x};
    }
    return row, grow, true;
  }

  /** The reduce loop of one completed item over the Follow set of its lhs. */
  method FillReduce(p: nat, follow: set<string>, row0: map<string, Action>) returns (row: map<string, Action>, ok: bool)
    ensures Cells(row, ok) == ReduceFill(p, follow, row0)
  {
    row := row0;
    var rest := follow;
    while rest != {}
      invariant ReduceFill(p, rest, row) == ReduceFill(p, follow, row0)
      decreases |rest|
    {
      var a := Smallest(rest);
      if a in row && (row[a].Shift? || (row[a].Reduce? && row[a].prod != p)) {
        return row, false;
      }
      row := row[a := Reduce(p)];
      rest := rest - {a};
    }
    return row, true;
  }

  /** The item loop of one state: accept for a completed start item, the reduces for any other completed item. */
  method FillItems(g: seq<Production>, start: string, follow: map<string, set<string>>,
                   items: set<Item>, row0: map<string, Action>) returns (row: map<string, Action>, ok: bool)
    requires ValidItems(g, items)
    ensures Cells(row, ok) == ItemsFill(g, start, follow, items, row0)
  {
    row := row0;
    var rest := items;
    while rest != {}
      invariant rest <= items
      invariant ItemsFill(g, start, follow, rest, row) == ItemsFill(g, start, follow, items, row0)
      decreases |rest|
    {
      var it := SmallestItem(rest);
      if it.dotPos == |g[it.prodIndex].rhs| {
        var lhs := g[it.prodIndex].lhs;
        if lhs == start {
          row := row["#" := Accept];
        } else {
          var reduced;
          row, reduced := FillReduce(it.prodIndex, Get(follow, lhs), row);
          if !reduced {
            return row, false;
          }
        }
      }
      rest := rest - {it};
    }
    return row, true;
  }

  // ---------------------------------------------------------------------------
  // The analyzer

  class GrammarAnalyzer {
    var grammar: seq<Production>
    var terminals: set<string>
    var nonTerminals: set<string>
    var startSymbol: string
    var firstSets: map<string, set<string>>
    var followSets: map<string, set<string>>
    var states: seq<State>
    var actionTable: map<nat, map<string, Action>>
    var gotoTable: map<nat, map<string, nat>>

    constructor ()
      ensures grammar == [] && terminals == {} && nonTerminals == {} && startSymbol == ""
      ensures firstSets == map[] && followSets == map[]
      ensures states == [] && actionTable == map[] && gotoTable == map[]
    {
      grammar := [];
      terminals := {};
      nonTerminals := {};
      startSymbol := "";
      firstSets := map[];
      followSets := map[];
      states := [];
      actionTable := map[];
      gotoTable := map[];
    }

    /**
     * loadGrammar, with the file given as its lines.  The productions are
     * appended, numbered from 0 again; the first one read sets the start
     * symbol; every rhs symbol of the whole grammar that is not a lhs becomes
     * a terminal, and "#" is always added.
     */
    method LoadGrammar(lines: seq<string>)
      modifies this`grammar, this`startSymbol, this`nonTerminals, this`terminals
      ensures grammar == old(grammar) + LoadedProductions(lines)
      ensures startSymbol == if LoadedProductions(lines) == [] then old(startSymbol) else LoadedProductions(lines)[0].lhs
      ensures nonTerminals == old(nonTerminals) + LhsSymbols(LoadedProductions(lines))
      ensures terminals == old(terminals) + (RhsSymbols(grammar) - nonTerminals) + {"#"}
    {
      var g := grammar;
      var known := terminals;
      var start := startSymbol;
      var nts := nonTerminals;
      var id := 0;
      ghost var g0, s0, n0 := g, start, nts;
      ghost var ps: seq<Production> := [];
      for k := 0 to |lines|
        invariant ps == LoadedProductions(lines[..k])
        invariant g == g0 + ps && id == |ps|
        invariant start == if ps == [] then s0 else ps[0].lhs
        invariant nts == n0 + LhsSymbols(ps)
      {
        LoadedStep(lines, k);
        if lines[k] != "" {
          var prod := LineProduction(id, lines[k]);
          var lhs := prod.lhs;
          if id == 0 {
            start := lhs;
          }
          UnionSnoc(n0, LhsSymbols(ps), lhs);
          nts := nts + {lhs};
          var rhs := prod.rhs;
          AppendSnoc(g0, ps, prod);
          g := g + [Production(id, lhs, rhs)];
          id := id + 1;
          ps := ps + [prod];
        }
      }
      assert lines[..|lines|] == lines;
      grammar, startSymbol, nonTerminals := g, start, nts;
      var ts := CollectTerminals(grammar, nonTerminals);
      terminals := known + ts + {"#"};
    }
  
    /**
     * One pass of computeFirst's loop over the productions: the insertion of
     * each production with a non-empty rhs, in order; `changed` reports
     * whether some set grew.
     */
    method FirstPass(fs0: map<string, set<string>>) returns (fs: map<string, set<string>>, changed: bool)
      ensures fs == ApplyAll(fs0, FirstRules(grammar, terminals))
      ensures changed == Grew(fs0, FirstRules(grammar, terminals))
    {
      var g, t := grammar, terminals;
      fs, changed := fs0, false;
      for i := 0 to |g|
        invariant fs == ApplyAll(fs0, FirstRulesBefore(g, t, i))
        invariant changed == Grew(fs0, FirstRulesBefore(g, t, i))
      {
        FirstPassStep(g, t, fs0, i);
        var x := g[i].lhs;
        var oldSize := |Get(fs, x)|;
        if |g[i].rhs| > 0 {
          var y := g[i].rhs[0];
          var grown: set<string>;
          if y in t {
            grown := Get(fs, x) + {y};
          } else {
            grown := Get(fs, x) + Get(fs, y);
          }
          fs := fs[x := grown];
          if |grown| > oldSize {
            changed := true;
          }
        }
      }
    }

    /**
     * computeFirst: passes over the productions, each adding First(rhs[0]) to
     * First(lhs), until a pass grows no set.  The result is the fixed point
     * FirstSets of the First rules started from the sets already present.
     */
    method ComputeFirst()
      modifies this`firstSets
      ensures firstSets == FirstSets(grammar, terminals, old(firstSets))
    {
      ghost var rules := FirstRules(grammar, terminals);
      var fs := firstSets;
      ghost var f0 := fs;
      var changed := true;
      while changed
        invariant changed ==> Fixpoint(rules, fs) == Fixpoint(rules, f0)
        invariant !changed ==> fs == Fixpoint(rules, f0)
        decreases if changed then Passes(rules, fs) + 1 else 0
      {
        FixpointStep(rules, fs);
        fs, changed := FirstPass(fs);
      }
      firstSets := fs;
    }

    /**
     * One pass of computeFollow's loop: every position of every production in
     * order; at a non-terminal B, Follow(B) gets the next symbol when it is a
     * terminal, First of the next symbol when it is not, and Follow(lhs) when
     * B ends the production.  `changed` reports whether some set grew.
     */
    method FollowPass(fol0: map<string, set<string>>) returns (fol: map<string, set<string>>, changed: bool)
      ensures fol == ApplyAll(fol0, FollowRules(grammar, terminals, firstSets))
      ensures changed == Grew(fol0, FollowRules(grammar, terminals, firstSets))
    {
      var g, t, first := grammar, terminals, firstSets;
      fol, changed := fol0, false;
      for p := 0 to |g|
        invariant fol == ApplyAll(fol0, FollowRulesBefore(g, t, first, p))
        invariant changed == Grew(fol0, FollowRulesBefore(g, t, first, p))
      {
        var a := g[p].lhs;
        FollowPassNext(g, t, first, p);
        for i := 0 to |g[p].rhs|
          invariant fol == ApplyAll(fol0, FollowRulesBefore(g, t, first, p) + ProdFollowRules(g, t, first, p, i))
          invariant changed == Grew(fol0, FollowRulesBefore(g, t, first, p) + ProdFollowRules(g, t, first, p, i))
        {
          FollowPassStep(g, t, first, fol0, p, i);
          var b := g[p].rhs[i];
          if b !in t {
            var oldSize := |Get(fol, b)|;
            var grown: set<string>;
            if i + 1 < |g[p].rhs| {
              var beta := g[p].rhs[i + 1];
              if beta in t {
                grown := Get(fol, b) + {beta};
              } else {
                grown := Get(fol, b) + Get(first, beta);
              }
            } else {
              grown := Get(fol, b) + Get(fol, a);
            }
            fol := fol[b := grown];
            if |grown| > oldSize {
              changed := true;
            }
          }
        }
      }
    }

    /**
     * computeFollow: "#" goes into Follow(start), then passes until a pass
     * grows no set.  The result is the fixed point FollowSets of the Follow
     * rules started from the sets already present.
     */
    method ComputeFollow()
      modifies this`followSets
      ensures followSets == FollowSets(grammar, terminals, firstSets, startSymbol, old(followSets))
    {
      ghost var rules := FollowRules(grammar, terminals, firstSets);
      var fol := followSets;
      fol := fol[startSymbol := Get(fol, startSymbol) + {"#"}];
      ghost var f0 := fol;
      var changed := true;
      while changed
        invariant changed ==> Fixpoint(rules, fol) == Fixpoint(rules, f0)
        invariant !changed ==> fol == Fixpoint(rules, f0)
        decreases if changed then Passes(rules, fol) + 1 else 0
      {
        FixpointStep(rules, fol);
        fol, changed := FollowPass(fol);
      }
      followSets := fol;
    }

    /**
     * The scan of closure's innermost loop for an item with the non-terminal
     * B after its dot: each production of B adds (id, 0) unless present.
     */
    method ExpandItem(it: Item, next0: set<Item>, changed0: bool) returns (next: set<Item>, changed: bool)
      requires DenseIds(grammar) && HasNext(grammar, it) && NextSymbol(grammar, it) in nonTerminals
      ensures next == next0 + ForcedBelow(grammar, nonTerminals, it, |grammar|)
      ensures changed == (changed0 || next != next0)
    {
      var g, nt := grammar, nonTerminals;
      var b := g[it.prodIndex].rhs[it.dotPos];
      next, changed := next0, changed0;
      ForcedBelowZero(g, nt, it, next0);
      for q := 0 to |g|
        invariant next == next0 + ForcedBelow(g, nt, it, q)
        invariant changed == (changed0 || next != next0)
      {
        ForcedVisit(g, nt, it, q, next0, next);
        if g[q].lhs == b {
          var newItem := Item(g[q].id, 0);
          if newItem !in next {
            next := next + {newItem};
            changed := true;
          }
        }
      }
    }

    /**
     * One round of closure's loop: every item of `cur` with a non-terminal B
     * after its dot adds (q, 0) for each production q of B; `changed` reports
     * whether an item was new.
     */
    method ClosureRound(cur: set<Item>) returns (next: set<Item>, changed: bool)
      requires DenseIds(grammar) && ValidItems(grammar, cur)
      ensures next == cur + Expand(grammar, nonTerminals, cur)
      ensures changed == (next != cur)
    {
      var g, nt := grammar, nonTerminals;
      next, changed := cur, false;
      var rest := cur;
      ghost var done: set<Item> := {};
      EmptySets(g, nt, "");
      while rest != {}
        invariant rest + done == cur && rest !! done
        invariant next == cur + Expand(g, nt, done)
        invariant changed == (next != cur)
        decreases |rest|
      {
        var it :| it in rest;
        VisitOne(rest, done, cur, it);
        if it.dotPos < |g[it.prodIndex].rhs| && g[it.prodIndex].rhs[it.dotPos] in nt {
          ghost var before := next;
          next, changed := ExpandItem(it, next, changed);
          GrowChain(cur, before, next);
          ExpandVisit(g, nt, cur, done, it, next);
        } else {
          ExpandSkip(g, nt, cur, done, it, next);
        }
        rest, done := rest - {it}, done + {it};
      }
    }

    /** closure: rounds until a round adds no item. */
    method Closure(items: set<Item>) returns (r: set<Item>)
      requires DenseIds(grammar) && ValidItems(grammar, items)
      ensures r == ClosureOf(grammar, nonTerminals, items)
    {
      r := items;
      var changed := true;
      while changed
        invariant ValidItems(grammar, r)
        invariant changed ==> ClosureOf(grammar, nonTerminals, r) == ClosureOf(grammar, nonTerminals, items)
        invariant !changed ==> r == ClosureOf(grammar, nonTerminals, items)
        decreases if changed then Rounds(grammar, nonTerminals, r) + 1 else 0
      {
        ClosureRoundStep(grammar, nonTerminals, r);
        RoundValid(grammar, nonTerminals, r);
        r, changed := ClosureRound(r);
      }
    }

    /** gotoState: the items with X after the dot, advanced, then closed. */
    method GotoState(items: set<Item>, x: string) returns (r: set<Item>)
      requires DenseIds(grammar) && ValidItems(grammar, items)
      ensures r == GotoOf(grammar, nonTerminals, items, x)
    {
      var g := grammar;
      var j: set<Item> := {};
      var rest := items;
      ghost var done: set<Item> := {};
      EmptySets(g, nonTerminals, x);
      while rest != {}
        invariant rest + done == items && rest !! done
        invariant j == Advance(g, done, x)
        decreases |rest|
      {
        var it :| it in rest;
        VisitOne(rest, done, items, it);
        AdvanceVisit(g, done, it, x, j);
        if it.dotPos < |g[it.prodIndex].rhs| && g[it.prodIndex].rhs[it.dotPos] == x {
          j := j + {Item(it.prodIndex, it.dotPos + 1)};
        }
        rest, done := rest - {it}, done + {it};
      }
      AdvanceValid(g, items, x);
      r := Closure(j);
    }
  
    /** buildDFA's first loop: the symbols right after a dot. */
    method NextSymbolsOf(items: set<Item>) returns (syms: set<string>)
      requires ValidItems(grammar, items)
      ensures syms == NextSymbols(grammar, items)
    {
      var g := grammar;
      syms := {};
      var rest := items;
      ghost var done: set<Item> := {};
      EmptySets(g, nonTerminals, "");
      while rest != {}
        invariant rest + done == items && rest !! done
        invariant syms == NextSymbols(g, done)
        decreases |rest|
      {
        var it :| it in rest;
        VisitOne(rest, done, items, it);
        NextSymbolsVisit(g, done, it, syms);
        if it.dotPos < |g[it.prodIndex].rhs| {
          syms := syms + {g[it.prodIndex].rhs[it.dotPos]};
        }
        rest, done := rest - {it}, done + {it};
      }
    }

    /**
     * buildDFA's inner loop body for the symbol x of state p: the goto set is
     * looked up among the states and appended when it is new; id is the
     * state the transition on x goes to.
     */
    method ScanSymbol(sts0: seq<State>, p: int, tr: map<string, nat>, x: string) returns (sts: seq<State>, id: nat)
      requires DenseIds(grammar) && Scanning(grammar, nonTerminals, sts0, p, tr)
      requires x in NextSymbols(grammar, sts0[p].items) && x !in tr
      ensures Scanning(grammar, nonTerminals, sts, p, tr[x := id])
      ensures sts[p] == sts0[p] && |sts| >= |sts0|
    {
      var g, nt := grammar, nonTerminals;
      sts := sts0;
      var items := sts[p].items;
      var next := GotoState(items, x);
      GotoEmptyIff(g, nt, items, x);
      if next == {} {
        // buildDFA's "continue" on an empty goto: unreachable, as x is a next symbol of items (GotoEmptyIff)
        assert false;
      }
      var found := FindState(sts, next);
      if found == -1 {
        ScanNew(g, nt, sts, p, tr, x);
        id := |sts|;
        sts := sts + [State(id, next, map[])];
      } else {
        ScanFound(g, nt, sts, p, tr, x, found);
        id := found;
      }
    }

    /**
     * One round of buildDFA's outer loop: state p gets a transition on each of
     * its next symbols, in increasing order.
     */
    method ProcessState(sts0: seq<State>, p: int) returns (sts: seq<State>)
      requires DenseIds(grammar) && Building(grammar, nonTerminals, sts0, p) && p < |sts0|
      ensures Building(grammar, nonTerminals, sts, p + 1) && |sts| >= |sts0|
    {
      var g, nt := grammar, nonTerminals;
      sts := sts0;
      var items := sts[p].items;
      var syms := NextSymbolsOf(items);
      var rest := syms;
      var tr: map<string, nat> := map[];
      ScanningInit(g, nt, sts, p);
      while rest != {}
        invariant Scanning(g, nt, sts, p, tr)
        invariant sts[p].items == items && |sts| >= |sts0|
        invariant rest + tr.Keys == syms && rest !! tr.Keys
        decreases |rest|
      {
        var x := Smallest(rest);
        var id: nat;
        sts, id := ScanSymbol(sts, p, tr, x);
        VisitKey(rest, tr, syms, x, id);
        tr := tr[x := id];
        rest := rest - {x};
      }
      ScanEnd(g, nt, sts, p, tr);
      sts := sts[p := State(p, items, tr)];
    }

    /** buildDFA: state 0 is the closure of {(0, 0)}; states are processed in order until none is left. */
    method BuildDFA()
      requires DenseIds(grammar) && |grammar| > 0 && states == []
      modifies this`states
      ensures Canonical(grammar, nonTerminals, states)
    {
      var g, nt := grammar, nonTerminals;
      assert ValidItems(g, {Item(0, 0)});
      var startSet := Closure({Item(0, 0)});
      ClosureValid(g, nt, {Item(0, 0)});
      var sts := [State(0, startSet, map[])];
      BuildingInit(g, nt, startSet);
      var processed := 0;
      ghost var bound := |PowerSet(AllItems(g))|;
      StatesBounded(g, sts);
      while processed < |sts|
        invariant Building(g, nt, sts, processed)
        invariant |sts| <= bound
        decreases bound - |sts|, |sts| - processed
      {
        sts := ProcessState(sts, processed);
        processed := processed + 1;
        StatesBounded(g, sts);
      }
      BuildingEnd(g, nt, sts);
      states := sts;
    }

    /**
     * buildSLRTable: the states in order, each filling its ACTION and GOTO
     * rows; the first refused cell returns false with the tables as written so far.
     */
    method BuildSLRTable() returns (ok: bool)
      requires AllValid(grammar, states)
      modifies this`actionTable, this`gotoTable
      ensures var f := TableFill(grammar, terminals, startSymbol, followSets, states, 0, old(actionTable), old(gotoTable));
              actionTable == f.action && gotoTable == f.goto && ok == f.ok
    {
      var g, t, start, follow, sts := grammar, terminals, startSymbol, followSets, states;
      var action: map<nat, map<string, Action>> := actionTable;
      var goto: map<nat, map<string, nat>> := gotoTable;
      ghost var whole := TableFill(g, t, start, follow, sts, 0, action, goto);
      var i: nat := 0;
      while i < |sts|
        invariant i <= |sts|
        invariant TableFill(g, t, start, follow, sts, i, action, goto) == whole
      {
        var row, grow, shifted := FillShifts(t, sts[i].transitions, RowOf(action, i), RowOf(goto, i));
        if shifted {
          var reduced;
          row, reduced := FillItems(g, start, follow, sts[i].items, row);
          shifted := reduced;
        }
        action, goto := action[i := row], goto[i := grow];
        if !shifted {
          actionTable, gotoTable := action, goto;
          return false;
        }
        i := i + 1;
      }
      actionTable, gotoTable := action, goto;
      return true;
    }

    /** build: First sets, Follow sets, the canonical collection, then the tables. */
    method Build() returns (ok: bool)
      requires DenseIds(grammar) && |grammar| > 0 && states == []
      modifies this`firstSets, this`followSets, this`states, this`actionTable, this`gotoTable
      ensures firstSets == FirstSets(grammar, terminals, old(firstSets))
      ensures followSets == FollowSets(grammar, terminals, firstSets, startSymbol, old(followSets))
      ensures Canonical(grammar, nonTerminals, states) && AllValid(grammar, states)
      ensures var f := TableFill(grammar, terminals, startSymbol, followSets, states, 0, old(actionTable), old(gotoTable));
              actionTable == f.action && gotoTable == f.goto && ok == f.ok
    {
      ComputeFirst();
      ComputeFollow();
      BuildDFA();
      ok := BuildSLRTable();
    }
}
}
