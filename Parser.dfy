/**
 * class Parser: the driver loop of parse over the analyzer's tables, with
 * explicit state and attribute stacks and the two fresh-name counters as
 * fields.  Each method is tied to the step functions of ParseSteps.
 */
module Parser {
  import opened Common
  import opened SlrTable
  import opened ParseSteps
  import opened Grammar
  import opened Scanning
  import Lexer

  class Parser {
    const G: GrammarAnalyzer
    var tempCount: nat
    var labelCount: nat

    constructor (grammar: GrammarAnalyzer)
      ensures G == grammar && tempCount == 0 && labelCount == 0
    {
      G := grammar;
      tempCount := 0;
      labelCount := 0;
    }

    /** newTemp: "T" followed by the incremented counter. */
    method NewTemp() returns (name: string)
      modifies this`tempCount
      ensures tempCount == old(tempCount) + 1 && name == TempName(tempCount)
    {
      tempCount := tempCount + 1;
      name := "T" + Text.NatToString(tempCount);
    }

    /** newLabel: "L" followed by the incremented counter. */
    method NewLabel() returns (name: string)
      modifies this`labelCount
      ensures labelCount == old(labelCount) + 1 && name == LabelName(labelCount)
    {
      labelCount := labelCount + 1;
      name := "L" + Text.NatToString(labelCount);
    }

    /** The semantic actions of a reduce by prod over the popped attributes, left to right. */
    method SemanticAction(prod: Production, rhsAttrs: array<Attribute>) returns (lhsAttr: Attribute)
      requires rhsAttrs.Length == |prod.rhs|
      modifies this`tempCount, this`labelCount
      ensures Synth(lhsAttr, tempCount, labelCount) == Semantic(prod.rhs, rhsAttrs[..], old(tempCount), old(labelCount))
    {
      var rhs := prod.rhs;
      lhsAttr := Attribute("", []);
      if |rhs| == 7 && rhs[0] == "while" {
        var c, body := rhsAttrs[2], rhsAttrs[5];
        var startLabel := NewLabel();
        var exitLabel := NewLabel();
        var code := [Quad("label", "-", "-", startLabel)];
        code := code + c.code;
        code := code + [Quad("jfalse", c.place, "-", exitLabel)];
        code := code + body.code;
        code := code + [Quad("jump", "-", "-", startLabel)];
        code := code + [Quad("label", "-", "-", exitLabel)];
        lhsAttr := lhsAttr.(code := code);
      } else if |rhs| == 3 && rhs[1] == "=" {
        var id, e := rhsAttrs[0], rhsAttrs[2];
        lhsAttr := lhsAttr.(code := e.code + [Quad("=", e.place, "-", id.place)]);
      } else if |rhs| == 3 && (rhs[1] == ">" || rhs[1] == "<" || rhs[1] == "==") {
        var e1, e2 := rhsAttrs[0], rhsAttrs[2];
        var t := NewTemp();
        var code := e1.code;
        code := code + e2.code;
        code := code + [Quad(rhs[1], e1.place, e2.place, t)];
        lhsAttr := Attribute(t, code);
      } else if |rhs| == 3 && rhs[1] == "+" {
        var op1, e2 := rhsAttrs[0], rhsAttrs[2];
        var t := NewTemp();
        lhsAttr := Attribute(t, e2.code + [Quad("+", op1.place, e2.place, t)]);
      } else if |rhs| == 1 && (rhs[0] == "id" || rhs[0] == "num") {
        lhsAttr := lhsAttr.(place := rhsAttrs[0].place);
      }
    }

    /**
     * A reduce by prod: pop |rhs| states and attributes (the attributes into
     * a buffer, right to left), push GOTO[top][lhs], then the lhs attribute.
     */
    method ReduceBy(prod: Production, states0: seq<nat>, symbols0: seq<Attribute>)
      returns (states: seq<nat>, symbols: seq<Attribute>)
      requires |prod.rhs| <= |symbols0| && |states0| == |symbols0| + 1
      modifies this`tempCount, this`labelCount
      ensures var n := |symbols0| - |prod.rhs|;
              var syn := Semantic(prod.rhs, symbols0[n..], old(tempCount), old(labelCount));
              states == states0[..n + 1] + [GotoTarget(G.gotoTable, states0[n], prod.lhs)]
              && symbols == symbols0[..n] + [syn.attr]
              && tempCount == syn.temps && labelCount == syn.labels
    {
      var len := |prod.rhs|;
      ghost var n := |symbols0| - len;
      states, symbols := states0, symbols0;
      var rhsAttrs := new Attribute[len];
      var i := len - 1;
      while i >= 0
        invariant -1 <= i < len
        invariant states == states0[..n + i + 2] && symbols == symbols0[..n + i + 1]
        invariant forall k :: i < k < len ==> rhsAttrs[k] == symbols0[n + k]
        invariant tempCount == old(tempCount) && labelCount == old(labelCount)
      {
        states := states[..|states| - 1];
        rhsAttrs[i] := symbols[|symbols| - 1];
        symbols := symbols[..|symbols| - 1];
        i := i - 1;
      }
      assert rhsAttrs[..] == symbols0[n..];
      var t := states[|states| - 1];
      states := states + [GotoTarget(G.gotoTable, t, prod.lhs)];
      var lhsAttr := SemanticAction(prod, rhsAttrs);
      symbols := symbols + [lhsAttr];
    }

    /**
     * The driver loop of parse over a token sequence, allowed at most fuel
     * iterations: it ends exactly as Run says from state 0 and the counters
     * as the previous parse left them.
     */
    method ParseTokens(tokens: seq<Token>, fuel: nat) returns (outcome: Outcome)
      modifies this`tempCount, this`labelCount
      ensures var f := Run(G.grammar, G.actionTable, G.gotoTable, tokens, Start(old(tempCount), old(labelCount)), fuel);
              outcome == f.outcome && tempCount == f.temps && labelCount == f.labels
    {
      var g, action := G.grammar, G.actionTable;
      var stateStack: seq<nat> := [0];
      var symbolStack: seq<Attribute> := [];
      var ip: nat := 0;
      var steps: nat := 0;
      ghost var whole := Run(g, action, G.gotoTable, tokens, Start(tempCount, labelCount), fuel);
      while steps < fuel
        invariant steps <= fuel && |stateStack| == |symbolStack| + 1
        invariant Run(g, action, G.gotoTable, tokens, Config(stateStack, symbolStack, ip, tempCount, labelCount), fuel - steps) == whole
        decreases fuel - steps
      {
        var s := stateStack[|stateStack| - 1];
        if ip >= |tokens| {
          return Undefined;
        }
        var a, val := tokens[ip].kind, tokens[ip].value;
        var row := RowOf(action, s);
        if a !in row {
          return Rejected(val);
        }
        match row[a] {
          case Shift(target) =>
            stateStack := stateStack + [target];
            symbolStack := symbolStack + [Attribute(val, [])];
            ip := ip + 1;
          case Reduce(prodId) =>
            if prodId >= |g| || |g[prodId].rhs| > |symbolStack| {
              return Undefined;
            }
            stateStack, symbolStack := ReduceBy(g[prodId], stateStack, symbolStack);
          case Accept =>
            if symbolStack == [] {
              return Undefined;
            }
            return Accepted(symbolStack[|symbolStack| - 1].code);
        }
        steps := steps + 1;
      }
      return Unfinished;
    }

    /**
     * parse: tokenize the input with a fresh Lexer, then run the driver loop
     * over those tokens.
     */
    method Parse(input: string, fuel: nat) returns (outcome: Outcome)
      modifies this`tempCount, this`labelCount
      ensures var f := Run(G.grammar, G.actionTable, G.gotoTable, Tokens(input), Start(old(tempCount), old(labelCount)), fuel);
              outcome == f.outcome && tempCount == f.temps && labelCount == f.labels
    {
      var lexer := new Lexer.Lexer(input);
      var tokens := lexer.Tokenize();
      outcome := ParseTokens(tokens, fuel);
    }
  }
}
