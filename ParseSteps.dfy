/**
 * The shift-reduce driver of Parser::parse over a token sequence, one loop
 * iteration at a time, with the tables and the productions as inputs.
 *
 * The state stack and the attribute stack are sequences whose top is the
 * last element.  A configuration also carries the input index and the two
 * fresh-name counters, which a parse starts from wherever the previous
 * parse of the same Parser left them.
 *
 * The lemmas state the stack discipline of a step, the counters' growth,
 * and that the code of an accepted parse places every label once, each a
 * label no earlier parse of the same Parser placed.
 */
module ParseSteps {
  import opened Common
  import opened Text
  import opened SlrTable

  // ---------------------------------------------------------------------------
  // Fresh names

  /** newTemp after the counter has reached n. */
  function TempName(n: nat): string {
    "T" + NatToString(n)
  }

  /** newLabel after the counter has reached n. */
  function LabelName(n: nat): string {
    "L" + NatToString(n)
  }

  /** Different counter values give different names, and temporaries never look like labels. */
  lemma NamesDistinct(a: nat, b: nat)
    ensures TempName(a) == TempName(b) <==> a == b
    ensures LabelName(a) == LabelName(b) <==> a == b
    ensures TempName(a) != LabelName(b)
  {
    assert TempName(a)[1..] == NatToString(a) && LabelName(a)[1..] == NatToString(a);
    assert TempName(b)[1..] == NatToString(b) && LabelName(b)[1..] == NatToString(b);
    assert TempName(a)[0] != LabelName(b)[0];
    NatToStringInjective(a, b);
  }

  // ---------------------------------------------------------------------------
  // Semantic actions

  /** The attribute pushed for the lhs, and the counters after the names it took. */
  datatype Synth = Synth(attr: Attribute, temps: nat, labels: nat)

  /** S -> while ( C ) { S }: the start label, C's code, the exit test, the body, the jump back, the exit label. */
  function WhileCode(c: Attribute, body: Attribute, start: string, exit: string): seq<Quad> {
    [Quad("label", "-", "-", start)] + c.code + [Quad("jfalse", c.place, "-", exit)]
    + body.code + [Quad("jump", "-", "-", start)] + [Quad("label", "-", "-", exit)]
  }

  /**
   * The semantic action of a production with right-hand side rhs over the
   * popped attributes, tested in the order of the code: while, assignment,
   * the relations >, < and ==, then +, then a lone id or num.  Any other
   * production gives an empty attribute.
   */
  function Semantic(rhs: seq<string>, attrs: seq<Attribute>, temps: nat, labels: nat): (r: Synth)
    requires |attrs| == |rhs|
    ensures r.temps == temps || (r.temps == temps + 1 && r.attr.place == TempName(r.temps))
    ensures r.labels == labels || r.labels == labels + 2
  {
    if |rhs| == 7 && rhs[0] == "while" then
      Synth(Attribute("", WhileCode(attrs[2], attrs[5], LabelName(labels + 1), LabelName(labels + 2))), temps, labels + 2)
    else if |rhs| == 3 && rhs[1] == "=" then
      var e := attrs[2];
      Synth(Attribute("", e.code + [Quad("=", e.place, "-", attrs[0].place)]), temps, labels)
    else if |rhs| == 3 && (rhs[1] == ">" || rhs[1] == "<" || rhs[1] == "==") then
      var e1, e2, t := attrs[0], attrs[2], TempName(temps + 1);
      Synth(Attribute(t, e1.code + e2.code + [Quad(rhs[1], e1.place, e2.place, t)]), temps + 1, labels)
    else if |rhs| == 3 && rhs[1] == "+" then
      var e2, t := attrs[2], TempName(temps + 1);
      Synth(Attribute(t, e2.code + [Quad("+", attrs[0].place, e2.place, t)]), temps + 1, labels)
    else if |rhs| == 1 && (rhs[0] == "id" || rhs[0] == "num") then
      Synth(Attribute(attrs[0].place, []), temps, labels)
    else
      Synth(Attribute("", []), temps, labels)
  }

  // ---------------------------------------------------------------------------
  // The driver

  /** The two stacks (top last), the input index and the name counters. */
  datatype Config = Config(states: seq<nat>, symbols: seq<Attribute>, ip: nat, temps: nat, labels: nat)

  /** The state stack holds one entry more than the attribute stack: the initial state 0. */
  predicate Balanced(c: Config) {
    |c.states| == |c.symbols| + 1
  }

  /** A parse starts from state 0, empty attributes, the first token and the counters as they are. */
  function Start(temps: nat, labels: nat): (c: Config)
    ensures Balanced(c)
  {
    Config([0], [], 0, temps, labels)
  }

  /**
   * How a parse ends: accepted with the code of the top attribute, rejected
   * at a token value with no ACTION entry, in behaviour the C++ leaves
   * undefined (reading past the tokens, popping an empty stack, a production
   * index past the grammar), or not yet ended after the steps allowed.
   */
  datatype Outcome = Accepted(code: seq<Quad>) | Rejected(value: string) | Undefined | Unfinished

  datatype Move = Next(c: Config) | Stop(outcome: Outcome)

  /** GOTO[t][x] read with operator[]: a missing entry reads as state 0. */
  function GotoTarget(goto: map<nat, map<string, nat>>, t: nat, x: string): nat {
    var row := RowOf(goto, t);
    if x in row then row[x] else 0
  }

  /** One iteration of the driver loop. */
  function Step(g: seq<Production>, action: map<nat, map<string, Action>>, goto: map<nat, map<string, nat>>,
                tokens: seq<Token>, c: Config): (m: Move)
    requires Balanced(c)
    ensures m.Next? ==> Balanced(m.c) && m.c.ip >= c.ip && m.c.temps >= c.temps && m.c.labels >= c.labels
  {
    var s := c.states[|c.states| - 1];
    if c.ip >= |tokens| then Stop(Undefined)
    else
      var a, v := tokens[c.ip].kind, tokens[c.ip].value;
      var row := RowOf(action, s);
      if a !in row then Stop(Rejected(v))
      else
        match row[a]
        case Shift(target) =>
          Next(Config(c.states + [target], c.symbols + [Attribute(v, [])], c.ip + 1, c.temps, c.labels))
        case Reduce(p) =>
          if p >= |g| || |g[p].rhs| > |c.symbols| then Stop(Undefined)
          else
            var n := |c.symbols| - |g[p].rhs|;
            var below := c.states[..n + 1];
            var syn := Semantic(g[p].rhs, c.symbols[n..], c.temps, c.labels);
            Next(Config(below + [GotoTarget(goto, below[n], g[p].lhs)], c.symbols[..n] + [syn.attr], c.ip, syn.temps, syn.labels))
        case Accept =>
          if c.symbols == [] then Stop(Undefined) else Stop(Accepted(c.symbols[|c.symbols| - 1].code))
  }

  /** The outcome of a parse and the counters it leaves. */
  datatype Final = Final(outcome: Outcome, temps: nat, labels: nat)

  /** At most fuel iterations of the driver loop from c. */
  function Run(g: seq<Production>, action: map<nat, map<string, Action>>, goto: map<nat, map<string, nat>>,
               tokens: seq<Token>, c: Config, fuel: nat): (f: Final)
    requires Balanced(c)
    decreases fuel
  {
    if fuel == 0 then Final(Unfinished, c.temps, c.labels)
    else
      match Step(g, action, goto, tokens, c)
      case Next(c') => Run(g, action, goto, tokens, c', fuel - 1)
      case Stop(o) => Final(o, c.temps, c.labels)
  }

  /** The counters only grow: names handed out are never handed out again. */
  lemma {:induction false} RunCounters(g: seq<Production>, action: map<nat, map<string, Action>>, goto: map<nat, map<string, nat>>,
                                       tokens: seq<Token>, c: Config, fuel: nat)
    requires Balanced(c)
    ensures var f := Run(g, action, goto, tokens, c, fuel);
            f.temps >= c.temps && f.labels >= c.labels
    decreases fuel
  {
    if fuel > 0 {
      var m := Step(g, action, goto, tokens, c);
      if m.Next? {
        RunCounters(g, action, goto, tokens, m.c, fuel - 1);
      }
    }
  }

  /**
   * The stack discipline of one step: a shift pushes the target state and
   * the token value with no code and consumes exactly one token; a reduce
   * by p pops |rhs p| entries off both stacks, keeps everything below, and
   * pushes GOTO[top][lhs p] and the lhs attribute, consuming no token.
   */
  lemma StepShape(g: seq<Production>, action: map<nat, map<string, Action>>, goto: map<nat, map<string, nat>>,
                  tokens: seq<Token>, c: Config)
    requires Balanced(c) && c.ip < |tokens|
    requires tokens[c.ip].kind in RowOf(action, c.states[|c.states| - 1])
    ensures var act := RowOf(action, c.states[|c.states| - 1])[tokens[c.ip].kind];
            var m := Step(g, action, goto, tokens, c);
            (act.Shift? ==> m.Next? && m.c.ip == c.ip + 1
                            && m.c.states[..|c.states|] == c.states && m.c.states[|c.states|] == act.target
                            && m.c.symbols[..|c.symbols|] == c.symbols
                            && m.c.symbols[|c.symbols|] == Attribute(tokens[c.ip].value, []))
            && (act.Reduce? && act.prod < |g| && |g[act.prod].rhs| <= |c.symbols| ==>
                  var n := |c.symbols| - |g[act.prod].rhs|;
                  m.Next? && m.c.ip == c.ip && |m.c.symbols| == n + 1
                  && m.c.states[..n + 1] == c.states[..n + 1]
                  && m.c.states[n + 1] == GotoTarget(goto, c.states[n], g[act.prod].lhs)
                  && m.c.symbols[..n] == c.symbols[..n])
            && (act.Accept? ==> m == if c.symbols == [] then Stop(Undefined) else Stop(Accepted(c.symbols[|c.symbols| - 1].code)))
  {
  }

  /** A token with no ACTION entry in the current state stops the parse there, with no code. */
  lemma MissingActionRejects(g: seq<Production>, action: map<nat, map<string, Action>>, goto: map<nat, map<string, nat>>,
                             tokens: seq<Token>, c: Config, fuel: nat)
    requires Balanced(c) && fuel > 0 && c.ip < |tokens|
    requires tokens[c.ip].kind !in RowOf(action, c.states[|c.states| - 1])
    ensures Run(g, action, goto, tokens, c, fuel) == Final(Rejected(tokens[c.ip].value), c.temps, c.labels)
  {
  }

  // ---------------------------------------------------------------------------
  // Labels are placed once

  /** How many `label` quads of the code place l. */
  function Placed(code: seq<Quad>, l: string): nat
    decreases |code|
  {
    if code == [] then 0
    else Placed(code[..|code| - 1], l) + (if code[|code| - 1].op == "label" && code[|code| - 1].result == l then 1 else 0)
  }

  /** How many `label` quads of the attributes' code place l. */
  function PlacedAll(attrs: seq<Attribute>, l: string): nat
    decreases |attrs|
  {
    if attrs == [] then 0 else PlacedAll(attrs[..|attrs| - 1], l) + Placed(attrs[|attrs| - 1].code, l)
  }

  lemma {:induction false} PlacedConcat(a: seq<Quad>, b: seq<Quad>, l: string)
    ensures Placed(a + b, l) == Placed(a, l) + Placed(b, l)
    decreases |b|
  {
    if b != [] {
      var ab := a + b;
      assert ab[..|ab| - 1] == a + b[..|b| - 1];
      assert ab[|ab| - 1] == b[|b| - 1];
      PlacedConcat(a, b[..|b| - 1], l);
    } else {
      assert a + b == a;
    }
  }

  lemma {:induction false} PlacedAllConcat(a: seq<Attribute>, b: seq<Attribute>, l: string)
    ensures PlacedAll(a + b, l) == PlacedAll(a, l) + PlacedAll(b, l)
    decreases |b|
  {
    if b != [] {
      var ab := a + b;
      assert ab[..|ab| - 1] == a + b[..|b| - 1];
      assert ab[|ab| - 1] == b[|b| - 1];
      PlacedAllConcat(a, b[..|b| - 1], l);
    } else {
      assert a + b == a;
    }
  }

  lemma {:induction false} PlacedOne(attrs: seq<Attribute>, i: nat, l: string)
    requires i < |attrs|
    ensures Placed(attrs[i].code, l) <= PlacedAll(attrs, l)
    decreases |attrs|
  {
    var front := attrs[..|attrs| - 1];
    if i < |attrs| - 1 {
      assert front[i] == attrs[i];
      PlacedOne(front, i, l);
    }
  }

  /** Two different attributes' placements are counted in the whole sequence's. */
  lemma {:induction false} PlacedPair(attrs: seq<Attribute>, i: nat, j: nat, l: string)
    requires i < j < |attrs|
    ensures Placed(attrs[i].code, l) + Placed(attrs[j].code, l) <= PlacedAll(attrs, l)
    decreases |attrs|
  {
    var front := attrs[..|attrs| - 1];
    assert front[i] == attrs[i];
    if j == |attrs| - 1 {
      PlacedOne(front, i, l);
    } else {
      assert front[j] == attrs[j];
      PlacedPair(front, i, j, l);
    }
  }

  lemma PlacedUnit(q: Quad, l: string)
    ensures Placed([q], l) == if q.op == "label" && q.result == l then 1 else 0
  {
    assert [q][..0] == [];
  }

  /** The labels with counter values in (lo, hi]. */
  ghost function LabelsIn(lo: nat, hi: nat): set<string> {
    set k: nat | lo < k <= hi :: LabelName(k)
  }

  /** No label placed twice by the attributes, and each one placed taken since the counter stood at lo. */
  ghost predicate FreshLabels(attrs: seq<Attribute>, lo: nat, hi: nat) {
    forall l :: PlacedAll(attrs, l) <= 1 && (PlacedAll(attrs, l) > 0 ==> l in LabelsIn(lo, hi))
  }

  lemma LabelsInGrow(lo: nat, hi: nat)
    requires lo <= hi
    ensures LabelsIn(lo, hi) <= LabelsIn(lo, hi + 2)
    ensures LabelName(hi + 1) in LabelsIn(lo, hi + 2) && LabelName(hi + 2) in LabelsIn(lo, hi + 2)
    ensures LabelName(hi + 1) !in LabelsIn(lo, hi) && LabelName(hi + 2) !in LabelsIn(lo, hi)
    ensures LabelName(hi + 1) != LabelName(hi + 2)
  {
    NamesDistinct(hi + 1, hi + 2);
    forall k: nat | lo < k <= hi
      ensures LabelName(k) != LabelName(hi + 1) && LabelName(k) != LabelName(hi + 2)
    {
      NamesDistinct(k, hi + 1);
      NamesDistinct(k, hi + 2);
    }
    assert LabelName(hi + 1) in LabelsIn(lo, hi + 2);
    assert LabelName(hi + 2) in LabelsIn(lo, hi + 2);
  }

  /** The loop code places its two labels around the labels of the condition and the body. */
  lemma WhilePlaced(c: Attribute, body: Attribute, start: string, exit: string, l: string)
    ensures Placed(WhileCode(c, body, start, exit), l)
            == Placed(c.code, l) + Placed(body.code, l) + (if l == start then 1 else 0) + (if l == exit then 1 else 0)
  {
    var open, test := [Quad("label", "-", "-", start)], [Quad("jfalse", c.place, "-", exit)];
    var jump, close := [Quad("jump", "-", "-", start)], [Quad("label", "-", "-", exit)];
    var s1 := open + c.code;
    var s2 := s1 + test;
    var s3 := s2 + body.code;
    var s4 := s3 + jump;
    PlacedUnit(open[0], l);
    PlacedUnit(test[0], l);
    PlacedUnit(jump[0], l);
    PlacedUnit(close[0], l);
    PlacedConcat(open, c.code, l);
    PlacedConcat(s1, test, l);
    PlacedConcat(s2, body.code, l);
    PlacedConcat(s3, jump, l);
    PlacedConcat(s4, close, l);
  }

  /**
   * The semantic action places l no more often than the popped attributes
   * do, plus once if l is one of the two labels a loop takes.
   */
  lemma SemanticPlaced(rhs: seq<string>, attrs: seq<Attribute>, temps: nat, labels: nat, l: string)
    requires |attrs| == |rhs|
    ensures var r := Semantic(rhs, attrs, temps, labels);
            var taken := r.labels == labels + 2 && (l == LabelName(labels + 1) || l == LabelName(labels + 2));
            Placed(r.attr.code, l) <= PlacedAll(attrs, l) + (if taken then 1 else 0)
  {
    if |rhs| == 7 && rhs[0] == "while" {
      WhilePlaced(attrs[2], attrs[5], LabelName(labels + 1), LabelName(labels + 2), l);
      NamesDistinct(labels + 1, labels + 2);
      PlacedPair(attrs, 2, 5, l);
    } else if |rhs| == 3 && rhs[1] == "=" {
      PlacedConcat(attrs[2].code, [Quad("=", attrs[2].place, "-", attrs[0].place)], l);
      PlacedUnit(Quad("=", attrs[2].place, "-", attrs[0].place), l);
      PlacedOne(attrs, 2, l);
    } else if |rhs| == 3 && (rhs[1] == ">" || rhs[1] == "<" || rhs[1] == "==") {
      var q := Quad(rhs[1], attrs[0].place, attrs[2].place, TempName(temps + 1));
      PlacedConcat(attrs[0].code + attrs[2].code, [q], l);
      PlacedUnit(q, l);
      PlacedConcat(attrs[0].code, attrs[2].code, l);
      PlacedPair(attrs, 0, 2, l);
    } else if |rhs| == 3 && rhs[1] == "+" {
      var q := Quad("+", attrs[0].place, attrs[2].place, TempName(temps + 1));
      PlacedConcat(attrs[2].code, [q], l);
      PlacedUnit(q, l);
      PlacedOne(attrs, 2, l);
    }
  }

  /** A reduce keeps the attribute stack's labels placed once and fresh since lo. */
  lemma ReduceFresh(rhs: seq<string>, symbols: seq<Attribute>, temps: nat, labels: nat, lo: nat)
    requires |rhs| <= |symbols| && lo <= labels && FreshLabels(symbols, lo, labels)
    ensures var n := |symbols| - |rhs|;
            var syn := Semantic(rhs, symbols[n..], temps, labels);
            FreshLabels(symbols[..n] + [syn.attr], lo, syn.labels)
  {
    var n := |symbols| - |rhs|;
    var below, popped := symbols[..n], symbols[n..];
    var syn := Semantic(rhs, popped, temps, labels);
    assert symbols == below + popped;
    LabelsInGrow(lo, labels);
    forall l
      ensures PlacedAll(below + [syn.attr], l) <= 1
      ensures PlacedAll(below + [syn.attr], l) > 0 ==> l in LabelsIn(lo, syn.labels)
    {
      PlacedAllConcat(below, popped, l);
      PlacedAllConcat(below, [syn.attr], l);
      assert PlacedAll([syn.attr], l) == Placed(syn.attr.code, l) by { assert [syn.attr][..0] == []; }
      SemanticPlaced(rhs, popped, temps, labels, l);
    }
  }

  /** A step keeps the attribute stack's labels placed once and fresh since lo. */
  lemma StepFresh(g: seq<Production>, action: map<nat, map<string, Action>>, goto: map<nat, map<string, nat>>,
                  tokens: seq<Token>, c: Config, lo: nat)
    requires Balanced(c) && lo <= c.labels && FreshLabels(c.symbols, lo, c.labels)
    ensures var m := Step(g, action, goto, tokens, c);
            m.Next? ==> FreshLabels(m.c.symbols, lo, m.c.labels)
  {
    var m := Step(g, action, goto, tokens, c);
    if m.Next? {
      var act := RowOf(action, c.states[|c.states| - 1])[tokens[c.ip].kind];
      if act.Shift? {
        var pushed := Attribute(tokens[c.ip].value, []);
        forall l
          ensures PlacedAll(c.symbols + [pushed], l) == PlacedAll(c.symbols, l)
        {
          PlacedAllConcat(c.symbols, [pushed], l);
          assert [pushed][..0] == [];
        }
      } else {
        ReduceFresh(g[act.prod].rhs, c.symbols, c.temps, c.labels, lo);
      }
    }
  }

  /**
   * From a configuration whose attributes place each label once and only
   * labels taken since lo, an accepted parse yields code with the same property.
   */
  lemma {:induction false} RunFresh(g: seq<Production>, action: map<nat, map<string, Action>>, goto: map<nat, map<string, nat>>,
                                    tokens: seq<Token>, c: Config, fuel: nat, lo: nat)
    requires Balanced(c) && lo <= c.labels && FreshLabels(c.symbols, lo, c.labels)
    ensures var f := Run(g, action, goto, tokens, c, fuel);
            f.outcome.Accepted? ==> FreshLabels([Attribute("", f.outcome.code)], lo, f.labels)
    decreases fuel
  {
    if fuel > 0 {
      var m := Step(g, action, goto, tokens, c);
      if m.Next? {
        StepFresh(g, action, goto, tokens, c, lo);
        RunFresh(g, action, goto, tokens, m.c, fuel - 1, lo);
      } else if m.outcome.Accepted? {
        var top := c.symbols[|c.symbols| - 1];
        forall l
          ensures PlacedAll([Attribute("", top.code)], l) <= PlacedAll(c.symbols, l)
        {
          PlacedOne(c.symbols, |c.symbols| - 1, l);
          assert [Attribute("", top.code)][..0] == [];
        }
      }
    }
  }

  /**
   * The code of an accepted parse places every label at most once, and only
   * labels L(k) with k past the label counter the parse started from: no
   * label of an earlier parse of the same Parser comes back.
   */
  lemma AcceptedLabelsFresh(g: seq<Production>, action: map<nat, map<string, Action>>, goto: map<nat, map<string, nat>>,
                            tokens: seq<Token>, temps: nat, labels: nat, fuel: nat)
    ensures var f := Run(g, action, goto, tokens, Start(temps, labels), fuel);
            f.outcome.Accepted? ==>
              forall l :: Placed(f.outcome.code, l) <= 1
                          && (Placed(f.outcome.code, l) > 0 ==> exists k: nat :: labels < k <= f.labels && l == LabelName(k))
  {
    var f := Run(g, action, goto, tokens, Start(temps, labels), fuel);
    RunFresh(g, action, goto, tokens, Start(temps, labels), fuel, labels);
    if f.outcome.Accepted? {
      forall l
        ensures PlacedAll([Attribute("", f.outcome.code)], l) == Placed(f.outcome.code, l)
      {
        assert [Attribute("", f.outcome.code)][..0] == [];
      }
    }
  }
}
