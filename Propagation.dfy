/**
 * The scheme computeFirst and computeFollow share: a list of rules
 * "target gets consts, plus the set of `from`", applied in order pass after
 * pass until a whole pass changes nothing.
 *
 * Fixpoint is the reference definition of that iteration.  The lemmas show it
 * terminates, satisfies every rule, only adds to the map it starts from, adds
 * nothing the rules do not force, and adds no element from outside.
 */
module Propagation {
  import opened Common
  import opened Sets

  /** target := target + consts + (from's set, when there is a from). */
  datatype Rule = Rule(target: string, consts: set<string>, from: Option<string>)

  function Added(m: map<string, set<string>>, r: Rule): set<string> {
    r.consts + (match r.from case None => {} case Some(k) => Get(m, k))
  }

  /** One insertion step: the target's set grows by what the rule adds. */
  function Apply(m: map<string, set<string>>, r: Rule): map<string, set<string>> {
    m[r.target := Get(m, r.target) + Added(m, r)]
  }

  /** One pass: the rules applied in order. */
  function ApplyAll(m: map<string, set<string>>, rs: seq<Rule>): map<string, set<string>>
    decreases |rs|
  {
    if rs == [] then m else Apply(ApplyAll(m, rs[..|rs| - 1]), rs[|rs| - 1])
  }

  ghost predicate Holds(m: map<string, set<string>>, r: Rule) {
    Added(m, r) <= Get(m, r.target)
  }

  ghost predicate AllHold(m: map<string, set<string>>, rs: seq<Rule>) {
    forall r :: r in rs ==> Holds(m, r)
  }

  ghost function Targets(rs: seq<Rule>): set<string> {
    set r | r in rs :: r.target
  }

  ghost function Consts(rs: seq<Rule>): set<string> {
    set r, a | r in rs && a in r.consts :: a
  }

  /** Every element a pass can put anywhere: the constants and what m already holds. */
  ghost function Bound(rs: seq<Rule>, m: map<string, set<string>>): set<string> {
    Consts(rs) + Values(m)
  }

  /** The (target, element) pairs not yet present. */
  ghost function Measure(rs: seq<Rule>, m: map<string, set<string>>): nat {
    |Product(Targets(rs), Bound(rs, m)) - Pairs(Targets(rs), m)|
  }

  // ---------------------------------------------------------------------------
  // One step and one pass

  lemma ApplyAllSnoc(m: map<string, set<string>>, rs: seq<Rule>, r: Rule)
    ensures ApplyAll(m, rs + [r]) == Apply(ApplyAll(m, rs), r)
  {
    assert (rs + [r])[..|rs|] == rs;
  }

  lemma GetInValues(m: map<string, set<string>>, k: string)
    ensures Get(m, k) <= Values(m)
  {
  }

  lemma SameSetsValues(m1: map<string, set<string>>, m2: map<string, set<string>>)
    requires SameSets(m1, m2)
    ensures Values(m1) == Values(m2)
  {
    forall a | a in Values(m1)
      ensures a in Values(m2)
    {
      var k :| k in m1 && a in m1[k];
      assert a in Get(m2, k);
    }
    forall a | a in Values(m2)
      ensures a in Values(m1)
    {
      var k :| k in m2 && a in m2[k];
      assert a in Get(m1, k);
    }
  }

  /** A step only grows its target, and its growth shows in the target's size. */
  lemma ApplyFacts(m: map<string, set<string>>, r: Rule)
    ensures Below(m, Apply(m, r))
    ensures forall k :: k != r.target ==> Get(Apply(m, r), k) == Get(m, k)
    ensures |Get(Apply(m, r), r.target)| > |Get(m, r.target)| <==> !SameSets(m, Apply(m, r))
    ensures SameSets(m, Apply(m, r)) <==> Holds(m, r)
    ensures Values(Apply(m, r)) <= r.consts + Values(m)
  {
    var n := Apply(m, r);
    SupersetGrows(Get(m, r.target), Get(n, r.target));
    if Holds(m, r) {
      assert Get(n, r.target) == Get(m, r.target);
      assert SameSets(m, n);
    } else {
      assert Get(n, r.target) != Get(m, r.target);
    }
    forall a | a in Values(n)
      ensures a in r.consts + Values(m)
    {
      var k :| k in n && a in n[k];
      if k != r.target {
        assert a in Get(m, k);
      } else if r.from.Some? {
        GetInValues(m, r.from.value);
        GetInValues(m, r.target);
      } else {
        GetInValues(m, r.target);
      }
    }
  }

  lemma HoldsTransfer(m1: map<string, set<string>>, m2: map<string, set<string>>, r: Rule)
    requires SameSets(m1, m2)
    ensures Holds(m1, r) == Holds(m2, r)
  {
    assert forall k :: Get(m1, k) == Get(m2, k);
  }

  lemma {:induction false} ApplyAllFacts(m: map<string, set<string>>, rs: seq<Rule>)
    ensures Below(m, ApplyAll(m, rs))
    ensures forall k :: k !in Targets(rs) ==> Get(ApplyAll(m, rs), k) == Get(m, k)
    ensures Values(ApplyAll(m, rs)) <= Bound(rs, m)
    decreases |rs|
  {
    if rs != [] {
      var front, r := rs[..|rs| - 1], rs[|rs| - 1];
      var a := ApplyAll(m, front);
      ApplyAllFacts(m, front);
      ApplyFacts(a, r);
      BelowTransitive(m, a, Apply(a, r));
      assert Consts(front) <= Consts(rs) by {
        forall x | x in Consts(front)
          ensures x in Consts(rs)
        {
          var q, y :| q in front && y in q.consts && x == y;
          assert q in rs;
        }
      }
      assert r.consts <= Consts(rs);
      assert Targets(front) <= Targets(rs);
      assert r.target in Targets(rs);
    }
  }

  /** The pass changes nothing exactly when each step, up to the last, changes nothing. */
  lemma ApplyAllStep(m: map<string, set<string>>, rs: seq<Rule>, r: Rule)
    ensures var a := ApplyAll(m, rs);
            ApplyAll(m, rs + [r]) == Apply(a, r)
            && (SameSets(m, Apply(a, r))
                <==> SameSets(m, a) && |Get(Apply(a, r), r.target)| <= |Get(a, r.target)|)
  {
    var a := ApplyAll(m, rs);
    ApplyAllSnoc(m, rs, r);
    ApplyAllFacts(m, rs);
    ApplyFacts(a, r);
    if SameSets(m, Apply(a, r)) {
      BelowTransitive(a, Apply(a, r), m);
      BelowTransitive(Apply(a, r), m, a);
    }
    if SameSets(m, a) && SameSets(a, Apply(a, r)) {
      BelowTransitive(m, a, Apply(a, r));
      BelowTransitive(Apply(a, r), a, m);
    }
  }

  /** Some step of the pass grew the set of its target: the `changed` flag of the loops. */
  function Grew(m: map<string, set<string>>, rs: seq<Rule>): bool
    decreases |rs|
  {
    if rs == [] then false
    else
      var a, r := ApplyAll(m, rs[..|rs| - 1]), rs[|rs| - 1];
      Grew(m, rs[..|rs| - 1]) || |Get(Apply(a, r), r.target)| > |Get(a, r.target)|
  }

  lemma GrewSnoc(m: map<string, set<string>>, rs: seq<Rule>, r: Rule)
    ensures var a := ApplyAll(m, rs);
            Grew(m, rs + [r]) == (Grew(m, rs) || |Get(Apply(a, r), r.target)| > |Get(a, r.target)|)
  {
    assert (rs + [r])[..|rs|] == rs;
  }

  /** The flag is set exactly when the pass changed some set. */
  lemma {:induction false} GrewIff(m: map<string, set<string>>, rs: seq<Rule>)
    ensures Grew(m, rs) <==> !SameSets(m, ApplyAll(m, rs))
    decreases |rs|
  {
    if rs == [] {
      BelowReflexive(m);
    } else {
      var front, r := rs[..|rs| - 1], rs[|rs| - 1];
      assert rs == front + [r];
      GrewIff(m, front);
      ApplyAllStep(m, front, r);
    }
  }

  /** A pass that changes nothing means every rule already holds. */
  lemma {:induction false} UnchangedPassHolds(m: map<string, set<string>>, rs: seq<Rule>)
    requires SameSets(m, ApplyAll(m, rs))
    ensures AllHold(m, rs)
    decreases |rs|
  {
    if rs != [] {
      var front, r := rs[..|rs| - 1], rs[|rs| - 1];
      assert rs == front + [r];
      ApplyAllStep(m, front, r);
      var a := ApplyAll(m, front);
      ApplyFacts(a, r);
      UnchangedPassHolds(m, front);
      HoldsTransfer(m, a, r);
      forall q | q in rs
        ensures Holds(m, q)
      {
        if q != r {
          assert q in front;
        }
      }
    }
  }

  /** A map above m that satisfies every rule stays above m through a pass. */
  lemma {:induction false} PassStaysBelow(m: map<string, set<string>>, rs: seq<Rule>, above: map<string, set<string>>)
    requires AllHold(above, rs) && Below(m, above)
    ensures Below(ApplyAll(m, rs), above)
    decreases |rs|
  {
    if rs != [] {
      var front, r := rs[..|rs| - 1], rs[|rs| - 1];
      assert AllHold(above, front) by {
        forall q | q in front
          ensures Holds(above, q)
        {
          assert q in rs;
        }
      }
      PassStaysBelow(m, front, above);
      var a := ApplyAll(m, front);
      assert Holds(above, r);
      assert Get(a, r.target) <= Get(above, r.target);
      match r.from {
        case None =>
        case Some(k) => assert Get(a, k) <= Get(above, k);
      }
    }
  }

  lemma MeasureShrinks(rs: seq<Rule>, m: map<string, set<string>>)
    ensures Measure(rs, ApplyAll(m, rs)) <= Measure(rs, m)
    ensures !SameSets(m, ApplyAll(m, rs)) ==> Measure(rs, ApplyAll(m, rs)) < Measure(rs, m)
  {
    var n := ApplyAll(m, rs);
    var ts := Targets(rs);
    ApplyAllFacts(m, rs);
    assert Bound(rs, n) <= Bound(rs, m);
    var pm, pn := Pairs(ts, m), Pairs(ts, n);
    var big, small := Product(ts, Bound(rs, m)), Product(ts, Bound(rs, n));
    PairsMonotone(ts, m, n);
    assert small <= big;
    forall pr | pr in pn
      ensures pr in big
    {
      var k, x :| k in ts && x in Get(n, k) && pr == (k, x);
      GetInValues(n, k);
    }
    SubsetCardinality(small - pn, big - pn);
    SubsetCardinality(big - pn, big - pm);
    if !SameSets(m, n) {
      var k :| k in n && !(Get(n, k) <= Get(m, k));
      assert k in ts;
      PairsGrow(ts, m, n, k);
      StrictSubsetWitness(pm, pn);
      var w :| w in pn && w !in pm;
      assert w in (big - pm) - (big - pn);
      StrictSubsetCardinality(big - pn, big - pm);
    }
  }

  // ---------------------------------------------------------------------------
  // The fixed point

  /** Passes from m until one grows no set; the map after that pass. */
  ghost function Fixpoint(rs: seq<Rule>, m: map<string, set<string>>): map<string, set<string>>
    decreases Measure(rs, m)
  {
    var n := ApplyAll(m, rs);
    if Grew(m, rs) then
      GrewIff(m, rs);
      MeasureShrinks(rs, m);
      Fixpoint(rs, n)
    else n
  }

  /** How many passes from m grow some set. */
  ghost function Passes(rs: seq<Rule>, m: map<string, set<string>>): nat
    decreases Measure(rs, m)
  {
    if Grew(m, rs) then
      GrewIff(m, rs);
      MeasureShrinks(rs, m);
      1 + Passes(rs, ApplyAll(m, rs))
    else 0
  }

  /** One pass from m either reaches the fixed point or leaves one growing pass fewer. */
  lemma FixpointStep(rs: seq<Rule>, m: map<string, set<string>>)
    ensures var n := ApplyAll(m, rs);
            if Grew(m, rs) then Fixpoint(rs, n) == Fixpoint(rs, m) && Passes(rs, n) < Passes(rs, m)
            else Fixpoint(rs, m) == n
  {
  }

  lemma {:induction false} FixpointHolds(rs: seq<Rule>, m: map<string, set<string>>)
    ensures AllHold(Fixpoint(rs, m), rs)
    decreases Measure(rs, m)
  {
    var n := ApplyAll(m, rs);
    GrewIff(m, rs);
    if SameSets(m, n) {
      UnchangedPassHolds(m, rs);
      forall r | r in rs
        ensures Holds(n, r)
      {
        HoldsTransfer(m, n, r);
      }
    } else {
      MeasureShrinks(rs, m);
      FixpointHolds(rs, n);
    }
  }

  lemma {:induction false} FixpointAbove(rs: seq<Rule>, m: map<string, set<string>>)
    ensures Below(m, Fixpoint(rs, m))
    decreases Measure(rs, m)
  {
    var n := ApplyAll(m, rs);
    GrewIff(m, rs);
    ApplyAllFacts(m, rs);
    if !SameSets(m, n) {
      MeasureShrinks(rs, m);
      FixpointAbove(rs, n);
      BelowTransitive(m, n, Fixpoint(rs, n));
    }
  }

  lemma {:induction false} FixpointLeast(rs: seq<Rule>, m: map<string, set<string>>, above: map<string, set<string>>)
    requires AllHold(above, rs) && Below(m, above)
    ensures Below(Fixpoint(rs, m), above)
    decreases Measure(rs, m)
  {
    var n := ApplyAll(m, rs);
    GrewIff(m, rs);
    PassStaysBelow(m, rs, above);
    if !SameSets(m, n) {
      MeasureShrinks(rs, m);
      FixpointLeast(rs, n, above);
    }
  }

  lemma {:induction false} FixpointBounded(rs: seq<Rule>, m: map<string, set<string>>, b: set<string>)
    requires Consts(rs) <= b && Values(m) <= b
    ensures Values(Fixpoint(rs, m)) <= b
    decreases Measure(rs, m)
  {
    var n := ApplyAll(m, rs);
    GrewIff(m, rs);
    ApplyAllFacts(m, rs);
    if !SameSets(m, n) {
      MeasureShrinks(rs, m);
      FixpointBounded(rs, n, b);
    }
  }

  /** Starting from a map where every rule holds, the fixed point adds nothing. */
  lemma FixpointOfHolding(rs: seq<Rule>, m: map<string, set<string>>)
    requires AllHold(m, rs)
    ensures SameSets(Fixpoint(rs, m), m)
  {
    FixpointAbove(rs, m);
    BelowReflexive(m);
    FixpointLeast(rs, m, m);
  }

  lemma BelowReflexive(m: map<string, set<string>>)
    ensures Below(m, m)
  {
  }
}
