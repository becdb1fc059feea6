/**
 * The sentence the driver program parses, `while ( a > b ) { x = y }`,
 * over the grammar S' -> S, S -> while ( C ) { S }, S -> id = E,
 * C -> E > E, E -> id: the tokens a fresh Lexer produces for it, and the
 * quadruples the semantic actions give along its bottom-up derivation.
 */
module Example {
  import opened Common
  import opened Text
  import opened Scanning
  import opened ParseSteps

  const Sentence: string := "while ( a > b ) { x = y }"

  /** The twelve tokens of the sentence, closed by "#". */
  const SentenceTokens: seq<Token> := [
    Token("while", "while"), Token("(", "("), Token("id", "a"), Token(">", ">"),
    Token("id", "b"), Token(")", ")"), Token("{", "{"), Token("id", "x"),
    Token("=", "="), Token("id", "y"), Token("}", "}"), Token("#", "#")]

  /** The code of the whole sentence: the loop around the comparison and the assignment. */
  const SentenceQuads: seq<Quad> := [
    Quad("label", "-", "-", "L1"), Quad(">", "a", "b", "T1"), Quad("jfalse", "T1", "-", "L2"),
    Quad("=", "y", "-", "x"), Quad("jump", "-", "-", "L1"), Quad("label", "-", "-", "L2")]

  /** One pass of tokenize: skip to p, take the token t that ends at e. */
  lemma LexStep(input: string, pos: nat, tokens: seq<Token>, p: nat, t: Token, e: nat)
    requires pos < |input| && p < |input| && SkipSpaces(input, pos) == p
    requires NextToken(input, p, tokens) == Lexeme(t, e)
    ensures Lex(input, pos, tokens) == Lex(input, e, tokens + [t])
  {
  }

  /** A single-character token at p, after a blank at p - 1. */
  lemma SymbolAt(prev: seq<Token>, p: nat)
    requires 0 < p < |Sentence| - 1 && Sentence[p - 1] == ' ' && Sentence[p + 1] == ' '
    requires !IsSpace(Sentence[p]) && !IsAlpha(Sentence[p]) && Sentence[p] != '_' && !IsDigit(Sentence[p])
    ensures SkipSpaces(Sentence, p - 1) == p
    ensures NextToken(Sentence, p, prev) == Lexeme(Token([Sentence[p]], [Sentence[p]]), p + 1)
  {
  }

  /** A one-letter identifier at p, after a blank at p - 1 and before a blank. */
  lemma LetterAt(prev: seq<Token>, p: nat)
    requires 0 < p < |Sentence| - 1 && Sentence[p - 1] == ' ' && Sentence[p + 1] == ' ' && IsAlpha(Sentence[p])
    ensures SkipSpaces(Sentence, p - 1) == p
    ensures NextToken(Sentence, p, prev) == Lexeme(Token("id", [Sentence[p]]), p + 1)
  {
    assert WordEnd(Sentence, p + 1) == p + 1;
    assert Sentence[p..p + 1] == [Sentence[p]];
  }

  /** The keyword at the start. */
  lemma KeywordFirst(prev: seq<Token>)
    ensures SkipSpaces(Sentence, 0) == 0
    ensures NextToken(Sentence, 0, prev) == Lexeme(Token("while", "while"), 5)
  {
    assert WordEnd(Sentence, 5) == 5;
    assert WordEnd(Sentence, 4) == 5;
    assert WordEnd(Sentence, 3) == 5;
    assert WordEnd(Sentence, 2) == 5;
    assert WordEnd(Sentence, 1) == 5;
    assert WordEnd(Sentence, 0) == 5;
    assert Sentence[0..5] == "while";
  }

  /** A single-character token after a blank, as one pass of tokenize. */
  lemma SymbolStep(prev: seq<Token>, p: nat, c: char)
    requires 0 < p < |Sentence| - 1 && Sentence[p - 1] == ' ' && Sentence[p + 1] == ' ' && Sentence[p] == c
    requires !IsSpace(c) && !IsAlpha(c) && c != '_' && !IsDigit(c)
    ensures Lex(Sentence, p - 1, prev) == Lex(Sentence, p + 1, prev + [Token([c], [c])])
  {
    SymbolAt(prev, p);
    LexStep(Sentence, p - 1, prev, p, Token([c], [c]), p + 1);
  }

  /** A one-letter identifier after a blank, as one pass of tokenize. */
  lemma LetterStep(prev: seq<Token>, p: nat, c: char)
    requires 0 < p < |Sentence| - 1 && Sentence[p - 1] == ' ' && Sentence[p + 1] == ' ' && Sentence[p] == c && IsAlpha(c)
    ensures Lex(Sentence, p - 1, prev) == Lex(Sentence, p + 1, prev + [Token("id", [c])])
  {
    LetterAt(prev, p);
    LexStep(Sentence, p - 1, prev, p, Token("id", [c]), p + 1);
  }

  /** The closing brace at the end of the input, then "#". */
  lemma LastStep(prev: seq<Token>)
    ensures Lex(Sentence, 23, prev) == prev + [Token("}", "}"), End]
  {
    assert SkipSpaces(Sentence, 24) == 24;
    assert SkipSpaces(Sentence, 23) == 24;
    assert NextToken(Sentence, 24, prev) == Lexeme(Token("}", "}"), 25);
    LexStep(Sentence, 23, prev, 24, Token("}", "}"), 25);
  }

  /** The keyword `while` from the start. */
  lemma LexAt0(prev: seq<Token>)
    ensures Lex(Sentence, 0, prev) == Lex(Sentence, 5, prev + [Token("while", "while")])
  {
    KeywordFirst(prev);
    LexStep(Sentence, 0, prev, 0, Token("while", "while"), 5);
  }

  // One pass of tokenize per token, each lemma named by the position of the token's character.

  lemma LexAt6(prev: seq<Token>)
    ensures Lex(Sentence, 5, prev) == Lex(Sentence, 7, prev + [Token("(", "(")])
  {
    SymbolStep(prev, 6, '(');
  }

  lemma LexAt8(prev: seq<Token>)
    ensures Lex(Sentence, 7, prev) == Lex(Sentence, 9, prev + [Token("id", "a")])
  {
    LetterStep(prev, 8, 'a');
  }

  lemma LexAt10(prev: seq<Token>)
    ensures Lex(Sentence, 9, prev) == Lex(Sentence, 11, prev + [Token(">", ">")])
  {
    SymbolStep(prev, 10, '>');
  }

  lemma LexAt12(prev: seq<Token>)
    ensures Lex(Sentence, 11, prev) == Lex(Sentence, 13, prev + [Token("id", "b")])
  {
    LetterStep(prev, 12, 'b');
  }

  lemma LexAt14(prev: seq<Token>)
    ensures Lex(Sentence, 13, prev) == Lex(Sentence, 15, prev + [Token(")", ")")])
  {
    SymbolStep(prev, 14, ')');
  }

  lemma LexAt16(prev: seq<Token>)
    ensures Lex(Sentence, 15, prev) == Lex(Sentence, 17, prev + [Token("{", "{")])
  {
    SymbolStep(prev, 16, '{');
  }

  lemma LexAt18(prev: seq<Token>)
    ensures Lex(Sentence, 17, prev) == Lex(Sentence, 19, prev + [Token("id", "x")])
  {
    LetterStep(prev, 18, 'x');
  }

  lemma LexAt20(prev: seq<Token>)
    ensures Lex(Sentence, 19, prev) == Lex(Sentence, 21, prev + [Token("=", "=")])
  {
    SymbolStep(prev, 20, '=');
  }

  lemma LexAt22(prev: seq<Token>)
    ensures Lex(Sentence, 21, prev) == Lex(Sentence, 23, prev + [Token("id", "y")])
  {
    LetterStep(prev, 22, 'y');
  }

  /** tokenize over the whole sentence, after whatever tokens came before. */
  lemma LexWhole(t0: seq<Token>)
    ensures Lex(Sentence, 0, t0) == t0 + [Token("while", "while")] + [Token("(", "(")] + [Token("id", "a")] + [Token(">", ">")] + [Token("id", "b")]
             + [Token(")", ")")] + [Token("{", "{")] + [Token("id", "x")] + [Token("=", "=")] + [Token("id", "y")]
             + [Token("}", "}"), End]
  {
    var t1 := t0 + [Token("while", "while")];
    var t2 := t1 + [Token("(", "(")];
    var t3 := t2 + [Token("id", "a")];
    var t4 := t3 + [Token(">", ">")];
    var t5 := t4 + [Token("id", "b")];
    var t6 := t5 + [Token(")", ")")];
    var t7 := t6 + [Token("{", "{")];
    var t8 := t7 + [Token("id", "x")];
    var t9 := t8 + [Token("=", "=")];
    var t10 := t9 + [Token("id", "y")];
    LexAt0(t0);
    LexAt6(t1);
    LexAt8(t2);
    LexAt10(t3);
    LexAt12(t4);
    LexAt14(t5);
    LexAt16(t6);
    LexAt18(t7);
    LexAt20(t8);
    LexAt22(t9);
    LastStep(t10);
  }

  /** A fresh Lexer turns the sentence into exactly the twelve expected tokens. */
  lemma SentenceLexes()
    ensures Tokens(Sentence) == SentenceTokens
  {
    LexWhole([]);
    TokensSpelledOut();
  }

  /** The tokens appended one at a time are the twelve tokens. */
  lemma TokensSpelledOut()
    ensures [] + [Token("while", "while")] + [Token("(", "(")] + [Token("id", "a")] + [Token(">", ">")] + [Token("id", "b")]
             + [Token(")", ")")] + [Token("{", "{")] + [Token("id", "x")] + [Token("=", "=")] + [Token("id", "y")]
             + [Token("}", "}"), End]
            == SentenceTokens
  {
  }

  /** E -> id passes the identifier's name up and takes no names. */
  lemma IdToE(v: string, temps: nat, labels: nat)
    ensures Semantic(["id"], [Attribute(v, [])], temps, labels) == Synth(Attribute(v, []), temps, labels)
  {
  }

  /** C -> E > E on a and b takes the first temporary. */
  lemma CompareAB()
    ensures Semantic(["E", ">", "E"], [Attribute("a", []), Attribute(">", []), Attribute("b", [])], 0, 0)
            == Synth(Attribute("T1", [Quad(">", "a", "b", "T1")]), 1, 0)
  {
    assert NatToString(1) == "1";
    assert TempName(1) == "T1";
  }

  /** S -> id = E on x and y. */
  lemma AssignXY()
    ensures Semantic(["id", "=", "E"], [Attribute("x", []), Attribute("=", []), Attribute("y", [])], 1, 0)
            == Synth(Attribute("", [Quad("=", "y", "-", "x")]), 1, 0)
  {
  }

  /** S -> while ( C ) { S } around them takes the first two labels. */
  lemma WhileLoop()
    ensures Semantic(["while", "(", "C", ")", "{", "S", "}"],
                     [Attribute("while", []), Attribute("(", []), Attribute("T1", [Quad(">", "a", "b", "T1")]),
                      Attribute(")", []), Attribute("{", []), Attribute("", [Quad("=", "y", "-", "x")]),
                      Attribute("}", [])], 1, 0)
            == Synth(Attribute("", SentenceQuads), 1, 2)
  {
    assert NatToString(1) == "1";
    assert NatToString(2) == "2";
    assert LabelName(1) == "L1" && LabelName(2) == "L2";
  }

  /**
   * The semantic actions along the derivation, from both counters at 0:
   * E -> id for a and for b, C -> E > E, E -> id for y, S -> id = E, and
   * finally S -> while ( C ) { S }; each shifted token pushes its value.
   */
  lemma SentenceTranslates()
    ensures var ea := Semantic(["id"], [Attribute("a", [])], 0, 0);
            var eb := Semantic(["id"], [Attribute("b", [])], ea.temps, ea.labels);
            var c := Semantic(["E", ">", "E"], [ea.attr, Attribute(">", []), eb.attr], eb.temps, eb.labels);
            var ey := Semantic(["id"], [Attribute("y", [])], c.temps, c.labels);
            var s := Semantic(["id", "=", "E"], [Attribute("x", []), Attribute("=", []), ey.attr], ey.temps, ey.labels);
            var w := Semantic(["while", "(", "C", ")", "{", "S", "}"],
                              [Attribute("while", []), Attribute("(", []), c.attr, Attribute(")", []),
                               Attribute("{", []), s.attr, Attribute("}", [])], s.temps, s.labels);
            w.attr.code == SentenceQuads && w.temps == 1 && w.labels == 2
  {
    IdToE("a", 0, 0);
    IdToE("b", 0, 0);
    CompareAB();
    IdToE("y", 1, 0);
    AssignXY();
    WhileLoop();
  }
}
