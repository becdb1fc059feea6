/**
 * The simplified First and Follow rules of the analyzer, as closure
 * conditions on maps from symbols to sets of terminals (a symbol absent from a
 * map has the empty set), and as the rule lists that computeFirst and
 * computeFollow apply pass after pass.
 */
module FirstFollow {
  import opened Common
  import opened Sets
  import opened Propagation

  /** The symbols that are some production's left-hand side. */
  ghost function LhsSymbols(g: seq<Production>): set<string> {
    set p | 0 <= p < |g| :: g[p].lhs
  }

  lemma LhsSymbolsSnoc(g: seq<Production>, p: Production)
    ensures LhsSymbols(g + [p]) == LhsSymbols(g) + {p.lhs}
  {
    assert (g + [p])[|g|] == p;
    assert forall q :: 0 <= q < |g| ==> (g + [p])[q] == g[q];
  }

  /** The symbols used in some right-hand side. */
  ghost function RhsSymbols(g: seq<Production>): set<string> {
    set p, i | 0 <= p < |g| && 0 <= i < |g[p].rhs| :: g[p].rhs[i]
  }

  // ---------------------------------------------------------------------------
  // First

  /**
   * The First rule for production p: a non-empty right-hand side starting with
   * a terminal puts that terminal in First(lhs); starting with a non-terminal
   * Y, it puts First(Y) in First(lhs).  Nothing looks past the first symbol.
   */
  ghost predicate FirstRuleHolds(g: seq<Production>, t: set<string>, m: map<string, set<string>>, p: int)
    requires 0 <= p < |g|
  {
    |g[p].rhs| > 0 ==>
      if g[p].rhs[0] in t then g[p].rhs[0] in Get(m, g[p].lhs)
      else Get(m, g[p].rhs[0]) <= Get(m, g[p].lhs)
  }

  ghost predicate FirstClosed(g: seq<Production>, t: set<string>, m: map<string, set<string>>) {
    forall p :: 0 <= p < |g| ==> FirstRuleHolds(g, t, m, p)
  }

  /** The insertion computeFirst performs for a production with a non-empty rhs. */
  function FirstRuleAt(g: seq<Production>, t: set<string>, p: int): Rule
    requires 0 <= p < |g| && |g[p].rhs| > 0
  {
    var y := g[p].rhs[0];
    if y in t then Rule(g[p].lhs, {y}, None) else Rule(g[p].lhs, {}, Some(y))
  }

  /** Applying the rule of production p is computeFirst's insertion for p. */
  lemma FirstRuleApply(g: seq<Production>, t: set<string>, m: map<string, set<string>>, p: int)
    requires 0 <= p < |g| && |g[p].rhs| > 0
    ensures var x, y := g[p].lhs, g[p].rhs[0];
            Apply(m, FirstRuleAt(g, t, p)) == if y in t then m[x := Get(m, x) + {y}] else m[x := Get(m, x) + Get(m, y)]
  {
    var y := g[p].rhs[0];
    if y in t {
      assert Added(m, FirstRuleAt(g, t, p)) == {y};
    } else {
      assert Added(m, FirstRuleAt(g, t, p)) == Get(m, y);
    }
  }

  /** The insertions of productions 0 .. i-1; productions with an empty rhs are skipped. */
  function FirstRulesBefore(g: seq<Production>, t: set<string>, i: int): seq<Rule>
    requires 0 <= i <= |g|
    decreases i
  {
    if i == 0 then []
    else FirstRulesBefore(g, t, i - 1) + (if |g[i - 1].rhs| == 0 then [] else [FirstRuleAt(g, t, i - 1)])
  }

  function FirstRules(g: seq<Production>, t: set<string>): seq<Rule> {
    FirstRulesBefore(g, t, |g|)
  }

  /**
   * Visiting production i in a pass from m0 performs computeFirst's insertion
   * for it, and the pass so far leaves m0's sets as they were exactly when
   * they were so before and this insertion grew nothing.
   */
  lemma FirstPassStep(g: seq<Production>, t: set<string>, m0: map<string, set<string>>, i: int)
    requires 0 <= i < |g|
    ensures var m := ApplyAll(m0, FirstRulesBefore(g, t, i));
            var next := ApplyAll(m0, FirstRulesBefore(g, t, i + 1));
            var x := g[i].lhs;
            if |g[i].rhs| == 0 then next == m && FirstRulesBefore(g, t, i + 1) == FirstRulesBefore(g, t, i)
            else
              var y := g[i].rhs[0];
              var s := if y in t then Get(m, x) + {y} else Get(m, x) + Get(m, y);
              next == m[x := s]
              && Grew(m0, FirstRulesBefore(g, t, i + 1)) == (Grew(m0, FirstRulesBefore(g, t, i)) || |s| > |Get(m, x)|)
  {
    if |g[i].rhs| > 0 {
      var done := FirstRulesBefore(g, t, i);
      var r := FirstRuleAt(g, t, i);
      assert FirstRulesBefore(g, t, i + 1) == done + [r];
      ApplyAllSnoc(m0, done, r);
      GrewSnoc(m0, done, r);
      FirstRuleApply(g, t, ApplyAll(m0, done), i);
    } else {
      assert FirstRulesBefore(g, t, i + 1) == FirstRulesBefore(g, t, i);
    }
  }

  lemma {:induction false} FirstRulesMembers(g: seq<Production>, t: set<string>, i: int)
    requires 0 <= i <= |g|
    ensures forall r :: r in FirstRulesBefore(g, t, i) <==>
                        exists p :: 0 <= p < i && |g[p].rhs| > 0 && r == FirstRuleAt(g, t, p)
    ensures Consts(FirstRulesBefore(g, t, i)) <= t
    decreases i
  {
    if i > 0 {
      FirstRulesMembers(g, t, i - 1);
    }
  }

  /** A map satisfies the First rules exactly when no insertion of computeFirst would change it. */
  lemma FirstRulesMeaning(g: seq<Production>, t: set<string>, m: map<string, set<string>>)
    ensures AllHold(m, FirstRules(g, t)) <==> FirstClosed(g, t, m)
  {
    FirstRulesMembers(g, t, |g|);
    if AllHold(m, FirstRules(g, t)) {
      forall p | 0 <= p < |g|
        ensures FirstRuleHolds(g, t, m, p)
      {
        if |g[p].rhs| > 0 {
          assert Holds(m, FirstRuleAt(g, t, p));
        }
      }
    }
    if FirstClosed(g, t, m) {
      forall r | r in FirstRules(g, t)
        ensures Holds(m, r)
      {
        var p :| 0 <= p < |g| && |g[p].rhs| > 0 && r == FirstRuleAt(g, t, p);
        assert FirstRuleHolds(g, t, m, p);
      }
    }
  }

  /** What computeFirst leaves behind, starting from the map m. */
  ghost function FirstSets(g: seq<Production>, t: set<string>, m: map<string, set<string>>): map<string, set<string>> {
    Fixpoint(FirstRules(g, t), m)
  }

  lemma FirstSetsClosed(g: seq<Production>, t: set<string>, m: map<string, set<string>>)
    ensures FirstClosed(g, t, FirstSets(g, t, m))
  {
    FixpointHolds(FirstRules(g, t), m);
    FirstRulesMeaning(g, t, FirstSets(g, t, m));
  }

  /** Nothing computeFirst finds already there is lost. */
  lemma FirstSetsAbove(g: seq<Production>, t: set<string>, m: map<string, set<string>>)
    ensures Below(m, FirstSets(g, t, m))
  {
    FixpointAbove(FirstRules(g, t), m);
  }

  /** The result is the least map above m that satisfies the First rules. */
  lemma FirstSetsLeast(g: seq<Production>, t: set<string>, m: map<string, set<string>>, above: map<string, set<string>>)
    requires FirstClosed(g, t, above) && Below(m, above)
    ensures Below(FirstSets(g, t, m), above)
  {
    FirstRulesMeaning(g, t, above);
    FixpointLeast(FirstRules(g, t), m, above);
  }

  /** Running computeFirst again on its own result changes no set. */
  lemma FirstSetsStable(g: seq<Production>, t: set<string>, m: map<string, set<string>>)
    ensures SameSets(FirstSets(g, t, FirstSets(g, t, m)), FirstSets(g, t, m))
  {
    FixpointHolds(FirstRules(g, t), m);
    FixpointOfHolding(FirstRules(g, t), FirstSets(g, t, m));
  }

  /** Starting from sets of terminals, the First sets hold terminals only. */
  lemma FirstSetsTerminals(g: seq<Production>, t: set<string>, m: map<string, set<string>>)
    requires Values(m) <= t
    ensures Values(FirstSets(g, t, m)) <= t
  {
    FirstRulesMembers(g, t, |g|);
    FixpointBounded(FirstRules(g, t), m, t);
  }

  // ---------------------------------------------------------------------------
  // Follow

  /**
   * The Follow rule for the symbol B at position i of production p, when B
   * is not a terminal: a terminal right after B is in Follow(B); a
   * non-terminal X right after B puts First(X) in Follow(B); at the end of the
   * production, Follow(lhs) is in Follow(B).  Nothing looks past the next
   * symbol.
   */
  ghost predicate FollowRuleHolds(g: seq<Production>, t: set<string>, first: map<string, set<string>>,
                                  follow: map<string, set<string>>, p: int, i: int)
    requires 0 <= p < |g| && 0 <= i < |g[p].rhs|
  {
    var b := g[p].rhs[i];
    b !in t ==>
      if i + 1 < |g[p].rhs| then
        if g[p].rhs[i + 1] in t then g[p].rhs[i + 1] in Get(follow, b)
        else Get(first, g[p].rhs[i + 1]) <= Get(follow, b)
      else Get(follow, g[p].lhs) <= Get(follow, b)
  }

  ghost predicate FollowClosed(g: seq<Production>, t: set<string>, first: map<string, set<string>>,
                               follow: map<string, set<string>>) {
    forall p, i :: 0 <= p < |g| && 0 <= i < |g[p].rhs| ==> FollowRuleHolds(g, t, first, follow, p, i)
  }

  /** The insertion computeFollow performs for position i of production p. */
  function FollowRuleAt(g: seq<Production>, t: set<string>, first: map<string, set<string>>, p: int, i: int): Rule
    requires 0 <= p < |g| && 0 <= i < |g[p].rhs|
  {
    var b := g[p].rhs[i];
    if i + 1 < |g[p].rhs| then
      if g[p].rhs[i + 1] in t then Rule(b, {g[p].rhs[i + 1]}, None)
      else Rule(b, Get(first, g[p].rhs[i + 1]), None)
    else Rule(b, {}, Some(g[p].lhs))
  }

  /** Applying the rule of position i of production p is computeFollow's insertion for it. */
  lemma FollowRuleApply(g: seq<Production>, t: set<string>, first: map<string, set<string>>,
                        m: map<string, set<string>>, p: int, i: int)
    requires 0 <= p < |g| && 0 <= i < |g[p].rhs|
    ensures var b := g[p].rhs[i];
            Apply(m, FollowRuleAt(g, t, first, p, i))
            == if i + 1 < |g[p].rhs| then
                 if g[p].rhs[i + 1] in t then m[b := Get(m, b) + {g[p].rhs[i + 1]}]
                 else m[b := Get(m, b) + Get(first, g[p].rhs[i + 1])]
               else m[b := Get(m, b) + Get(m, g[p].lhs)]
  {
    var r := FollowRuleAt(g, t, first, p, i);
    if i + 1 < |g[p].rhs| {
      assert Added(m, r) == r.consts;
    } else {
      assert Added(m, r) == Get(m, g[p].lhs);
    }
  }

  /** The insertions for positions 0 .. i-1 of production p; terminal positions are skipped. */
  function ProdFollowRules(g: seq<Production>, t: set<string>, first: map<string, set<string>>, p: int, i: int): seq<Rule>
    requires 0 <= p < |g| && 0 <= i <= |g[p].rhs|
    decreases i
  {
    if i == 0 then []
    else
      ProdFollowRules(g, t, first, p, i - 1)
      + (if g[p].rhs[i - 1] in t then [] else [FollowRuleAt(g, t, first, p, i - 1)])
  }

  /** The insertions of productions 0 .. p-1. */
  function FollowRulesBefore(g: seq<Production>, t: set<string>, first: map<string, set<string>>, p: int): seq<Rule>
    requires 0 <= p <= |g|
    decreases p
  {
    if p == 0 then []
    else FollowRulesBefore(g, t, first, p - 1) + ProdFollowRules(g, t, first, p - 1, |g[p - 1].rhs|)
  }

  function FollowRules(g: seq<Production>, t: set<string>, first: map<string, set<string>>): seq<Rule> {
    FollowRulesBefore(g, t, first, |g|)
  }

  /**
   * Visiting position i of production p in a pass from m0: a terminal is
   * skipped; for a non-terminal B the pass performs computeFollow's insertion
   * into Follow(B), and the flag records whether Follow(B) grew.
   */
  lemma FollowPassStep(g: seq<Production>, t: set<string>, first: map<string, set<string>>,
                       m0: map<string, set<string>>, p: int, i: int)
    requires 0 <= p < |g| && 0 <= i < |g[p].rhs|
    ensures var done := FollowRulesBefore(g, t, first, p);
            var rs := done + ProdFollowRules(g, t, first, p, i);
            var rs' := done + ProdFollowRules(g, t, first, p, i + 1);
            var m := ApplyAll(m0, rs);
            var rhs, b := g[p].rhs, g[p].rhs[i];
            if b in t then rs' == rs
            else
              var s := if i + 1 < |rhs| then
                         if rhs[i + 1] in t then Get(m, b) + {rhs[i + 1]} else Get(m, b) + Get(first, rhs[i + 1])
                       else Get(m, b) + Get(m, g[p].lhs);
              ApplyAll(m0, rs') == m[b := s]
              && Grew(m0, rs') == (Grew(m0, rs) || |s| > |Get(m, b)|)
  {
    var done := FollowRulesBefore(g, t, first, p);
    var rs := done + ProdFollowRules(g, t, first, p, i);
    if g[p].rhs[i] !in t {
      var r := FollowRuleAt(g, t, first, p, i);
      assert done + ProdFollowRules(g, t, first, p, i + 1) == rs + [r];
      ApplyAllSnoc(m0, rs, r);
      GrewSnoc(m0, rs, r);
      FollowRuleApply(g, t, first, ApplyAll(m0, rs), p, i);
    }
  }

  /** The positions of production p, once visited, complete the rules of productions 0 .. p. */
  lemma FollowPassNext(g: seq<Production>, t: set<string>, first: map<string, set<string>>, p: int)
    requires 0 <= p < |g|
    ensures FollowRulesBefore(g, t, first, p) + ProdFollowRules(g, t, first, p, 0) == FollowRulesBefore(g, t, first, p)
    ensures FollowRulesBefore(g, t, first, p) + ProdFollowRules(g, t, first, p, |g[p].rhs|)
         == FollowRulesBefore(g, t, first, p + 1)
  {
    assert FollowRulesBefore(g, t, first, p) + [] == FollowRulesBefore(g, t, first, p);
  }

  /** The insertion r is the one for the non-terminal at position i of production p. */
  ghost predicate FollowOrigin(g: seq<Production>, t: set<string>, first: map<string, set<string>>, r: Rule, p: int, i: int) {
    0 <= p < |g| && 0 <= i < |g[p].rhs| && g[p].rhs[i] !in t && r == FollowRuleAt(g, t, first, p, i)
  }

  lemma ConstsOfFollowRule(g: seq<Production>, t: set<string>, first: map<string, set<string>>, p: int, i: int)
    requires 0 <= p < |g| && 0 <= i < |g[p].rhs|
    ensures FollowRuleAt(g, t, first, p, i).consts <= t + Values(first)
  {
    if i + 1 < |g[p].rhs| {
      GetInValues(first, g[p].rhs[i + 1]);
    }
  }

  lemma {:induction false} ProdFollowRulesMembers(g: seq<Production>, t: set<string>, first: map<string, set<string>>, p: int, i: int)
    requires 0 <= p < |g| && 0 <= i <= |g[p].rhs|
    ensures forall r :: r in ProdFollowRules(g, t, first, p, i) <==>
                        exists j :: 0 <= j < i && FollowOrigin(g, t, first, r, p, j)
    ensures Consts(ProdFollowRules(g, t, first, p, i)) <= t + Values(first)
    decreases i
  {
    if i > 0 {
      ProdFollowRulesMembers(g, t, first, p, i - 1);
      ConstsOfFollowRule(g, t, first, p, i - 1);
      forall r
        ensures r in ProdFollowRules(g, t, first, p, i) <==> exists j :: 0 <= j < i && FollowOrigin(g, t, first, r, p, j)
      {
        if exists j :: 0 <= j < i && FollowOrigin(g, t, first, r, p, j) {
          var j :| 0 <= j < i && FollowOrigin(g, t, first, r, p, j);
          if j < i - 1 {
            assert r in ProdFollowRules(g, t, first, p, i - 1);
          }
        }
        if r in ProdFollowRules(g, t, first, p, i) && r !in ProdFollowRules(g, t, first, p, i - 1) {
          assert FollowOrigin(g, t, first, r, p, i - 1);
        }
      }
    }
  }

  lemma {:induction false} FollowRulesMembers(g: seq<Production>, t: set<string>, first: map<string, set<string>>, p: int)
    requires 0 <= p <= |g|
    ensures forall r :: r in FollowRulesBefore(g, t, first, p) <==>
                        exists q, j :: 0 <= q < p && FollowOrigin(g, t, first, r, q, j)
    ensures Consts(FollowRulesBefore(g, t, first, p)) <= t + Values(first)
    decreases p
  {
    if p > 0 {
      FollowRulesMembers(g, t, first, p - 1);
      ProdFollowRulesMembers(g, t, first, p - 1, |g[p - 1].rhs|);
    }
  }

  /** A map satisfies the Follow rules exactly when no insertion of computeFollow would change it. */
  lemma FollowRulesMeaning(g: seq<Production>, t: set<string>, first: map<string, set<string>>,
                           m: map<string, set<string>>)
    ensures AllHold(m, FollowRules(g, t, first)) <==> FollowClosed(g, t, first, m)
  {
    FollowRulesMembers(g, t, first, |g|);
    if AllHold(m, FollowRules(g, t, first)) {
      forall p, i | 0 <= p < |g| && 0 <= i < |g[p].rhs|
        ensures FollowRuleHolds(g, t, first, m, p, i)
      {
        if g[p].rhs[i] !in t {
          assert FollowOrigin(g, t, first, FollowRuleAt(g, t, first, p, i), p, i);
          assert Holds(m, FollowRuleAt(g, t, first, p, i));
        }
      }
    }
    if FollowClosed(g, t, first, m) {
      forall r | r in FollowRules(g, t, first)
        ensures Holds(m, r)
      {
        var q, j :| 0 <= q < |g| && FollowOrigin(g, t, first, r, q, j);
        assert FollowRuleHolds(g, t, first, m, q, j);
      }
    }
  }

  /** computeFollow's first statement: "#" goes into Follow(start). */
  function FollowStart(m: map<string, set<string>>, start: string): map<string, set<string>> {
    m[start := Get(m, start) + {"#"}]
  }

  /** What computeFollow leaves behind, starting from the map m. */
  ghost function FollowSets(g: seq<Production>, t: set<string>, first: map<string, set<string>>, start: string,
                            m: map<string, set<string>>): map<string, set<string>> {
    Fixpoint(FollowRules(g, t, first), FollowStart(m, start))
  }

  lemma FollowSetsClosed(g: seq<Production>, t: set<string>, first: map<string, set<string>>, start: string,
                         m: map<string, set<string>>)
    ensures FollowClosed(g, t, first, FollowSets(g, t, first, start, m))
  {
    FixpointHolds(FollowRules(g, t, first), FollowStart(m, start));
    FollowRulesMeaning(g, t, first, FollowSets(g, t, first, start, m));
  }

  /** "#" is in Follow(start), and nothing computeFollow finds already there is lost. */
  lemma FollowSetsAbove(g: seq<Production>, t: set<string>, first: map<string, set<string>>, start: string,
                        m: map<string, set<string>>)
    ensures "#" in Get(FollowSets(g, t, first, start, m), start)
    ensures Below(m, FollowSets(g, t, first, start, m))
  {
    var m1 := FollowStart(m, start);
    FixpointAbove(FollowRules(g, t, first), m1);
    assert Below(m, m1);
    BelowTransitive(m, m1, FollowSets(g, t, first, start, m));
  }

  /** The result is the least map above m, with "#" in Follow(start), that satisfies the Follow rules. */
  lemma FollowSetsLeast(g: seq<Production>, t: set<string>, first: map<string, set<string>>, start: string,
                        m: map<string, set<string>>, above: map<string, set<string>>)
    requires FollowClosed(g, t, first, above) && Below(m, above) && "#" in Get(above, start)
    ensures Below(FollowSets(g, t, first, start, m), above)
  {
    FollowRulesMeaning(g, t, first, above);
    assert Below(FollowStart(m, start), above);
    FixpointLeast(FollowRules(g, t, first), FollowStart(m, start), above);
  }

  /** Running computeFollow again on its own result changes no set. */
  lemma FollowSetsStable(g: seq<Production>, t: set<string>, first: map<string, set<string>>, start: string,
                         m: map<string, set<string>>)
    ensures SameSets(FollowSets(g, t, first, start, FollowSets(g, t, first, start, m)), FollowSets(g, t, first, start, m))
  {
    var f := FollowSets(g, t, first, start, m);
    FollowSetsClosed(g, t, first, start, m);
    FollowSetsAbove(g, t, first, start, m);
    BelowReflexive(f);
    FollowSetsLeast(g, t, first, start, f, f);
    FollowSetsAbove(g, t, first, start, f);
  }

  /** From terminal First sets and terminal Follow sets, with "#" a terminal, the Follow sets hold terminals only. */
  lemma FollowSetsTerminals(g: seq<Production>, t: set<string>, first: map<string, set<string>>, start: string,
                            m: map<string, set<string>>)
    requires Values(first) <= t && Values(m) <= t && "#" in t
    ensures Values(FollowSets(g, t, first, start, m)) <= t
  {
    FollowRulesMembers(g, t, first, |g|);
    var m1 := FollowStart(m, start);
    assert Values(m1) <= t by {
      forall a | a in Values(m1)
        ensures a in t
      {
        var k :| k in m1 && a in m1[k];
        if k != start {
          assert a in Values(m);
        } else {
          GetInValues(m, start);
        }
      }
    }
    FixpointBounded(FollowRules(g, t, first), m1, t);
  }
}
