/**
 * What Lexer::tokenize produces, as functions over the input and a start
 * position: blanks are skipped, then one token is taken by maximal munch
 * (a word, a number with at most one point and perhaps a sign, a
 * two-character comparison, or any other single character), until the
 * input is used up; the token "#" closes the sequence.
 *
 * The lemmas state that each token's value is exactly the text it
 * consumed, so the values put together give back the input without its
 * whitespace, and that every token has one of the token shapes.
 */
module Scanning {
  import opened Common
  import opened Text
  import Sets

  const Keywords: set<string> := {"while", "if", "else", "int", "float", "return"}

  /** The token tokenize appends after the input is used up. */
  const End: Token := Token("#", "#")

  predicate IsWordChar(c: char) {
    IsAlnum(c) || c == '_'
  }

  predicate NoSpace(s: string) {
    forall i :: 0 <= i < |s| ==> !IsSpace(s[i])
  }

  // ---------------------------------------------------------------------------
  // Token shapes

  /** A letter or `_`, then letters, digits and `_`. */
  predicate IsIdent(s: string) {
    s != [] && (IsAlpha(s[0]) || s[0] == '_') && forall i :: 0 <= i < |s| ==> IsWordChar(s[i])
  }

  /** A sign is a leading `+` or `-`. */
  function SignLength(s: string): nat {
    if s != [] && (s[0] == '+' || s[0] == '-') then 1 else 0
  }

  /** An optional sign, a digit, then digits and at most one point. */
  predicate IsNumber(s: string) {
    var d := SignLength(s);
    d < |s| && IsDigit(s[d])
    && (forall i :: d <= i < |s| ==> IsDigit(s[i]) || s[i] == '.')
    && (forall i, j :: d <= i < j < |s| && s[i] == '.' ==> s[j] != '.')
  }

  /** A two-character comparison, or one character that starts no other token. */
  predicate IsSymbol(s: string) {
    (|s| == 1 && !IsWordChar(s[0]) && !IsSpace(s[0])) || s == ">=" || s == "<=" || s == "==" || s == "!="
  }

  /** The four kinds of token: identifier, keyword, number, operator or delimiter. */
  predicate WellShaped(t: Token) {
    (t.kind == "id" && IsIdent(t.value) && t.value !in Keywords)
    || (t.kind in Keywords && t.value == t.kind)
    || (t.kind == "num" && IsNumber(t.value))
    || (t.kind == t.value && IsSymbol(t.value))
  }

  // ---------------------------------------------------------------------------
  // The scanning loops

  /** The first position from q on that is not whitespace. */
  function SkipSpaces(input: string, q: nat): (p: nat)
    requires q <= |input|
    ensures q <= p <= |input| && (p < |input| ==> !IsSpace(input[p]))
    ensures forall i :: q <= i < p ==> IsSpace(input[i])
    decreases |input| - q
  {
    if q < |input| && IsSpace(input[q]) then SkipSpaces(input, q + 1) else q
  }

  /** The end of the run of word characters from q. */
  function WordEnd(input: string, q: nat): (e: nat)
    requires q <= |input|
    ensures q <= e <= |input| && (e < |input| ==> !IsWordChar(input[e]))
    ensures forall i :: q <= i < e ==> IsWordChar(input[i])
    decreases |input| - q
  {
    if q < |input| && IsWordChar(input[q]) then WordEnd(input, q + 1) else q
  }

  /** The end of the run of digits and points from q that stops before a second point. */
  function NumberEnd(input: string, q: nat, hasDot: bool): (e: nat)
    requires q <= |input|
    ensures q <= e <= |input|
    decreases |input| - q
  {
    if q < |input| && (IsDigit(input[q]) || input[q] == '.') then
      if input[q] == '.' then
        if hasDot then q else NumberEnd(input, q + 1, true)
      else NumberEnd(input, q + 1, hasDot)
    else q
  }

  /** The run NumberEnd ends holds digits and at most one point, and it cannot be extended. */
  lemma {:induction false} NumberRun(input: string, q: nat, hasDot: bool)
    requires q <= |input|
    ensures var e := NumberEnd(input, q, hasDot);
            (forall i :: q <= i < e ==> IsDigit(input[i]) || input[i] == '.')
            && (forall i, j :: q <= i < j < e && input[i] == '.' ==> input[j] != '.')
            && (hasDot ==> forall i :: q <= i < e ==> input[i] != '.')
            && (e < |input| ==> !IsDigit(input[e]) && (input[e] == '.' ==> hasDot || exists i :: q <= i < e && input[i] == '.'))
    decreases |input| - q
  {
    if q < |input| && (IsDigit(input[q]) || input[q] == '.') {
      if input[q] == '.' {
        if !hasDot {
          NumberRun(input, q + 1, true);
        }
      } else {
        NumberRun(input, q + 1, hasDot);
      }
    }
  }

  /** A `+` or `-` before a digit is a sign unless it follows an id, a number, `)` or `}`. */
  predicate SignAllowed(prev: seq<Token>) {
    prev == [] || var k := prev[|prev| - 1].kind; !(k == "id" || k == "num" || k == ")" || k == "}")
  }

  /** A token and the position after it. */
  datatype Lexeme = Lexeme(token: Token, end: nat)

  /** The token that starts at p, with the tokens taken before it as context. */
  function NextToken(input: string, p: nat, prev: seq<Token>): (r: Lexeme)
    requires p < |input| && !IsSpace(input[p])
    ensures p < r.end <= |input| && r.token.value == input[p..r.end]
  {
    var c := input[p];
    if IsAlpha(c) || c == '_' then
      var e := WordEnd(input, p);
      var s := input[p..e];
      Lexeme(if s in Keywords then Token(s, s) else Token("id", s), e)
    else if IsDigit(c) || ((c == '+' || c == '-') && p + 1 < |input| && IsDigit(input[p + 1])) then
      var sign := (c == '+' || c == '-') && SignAllowed(prev);
      if sign || IsDigit(c) then
        var e := NumberEnd(input, if sign then p + 1 else p, false);
        Lexeme(Token("num", input[p..e]), e)
      else
        Lexeme(Token([c], [c]), p + 1)
    else if p + 1 < |input| && input[p + 1] == '=' && (c == '>' || c == '<' || c == '=' || c == '!') then
      Lexeme(Token(input[p..p + 2], input[p..p + 2]), p + 2)
    else
      Lexeme(Token([c], [c]), p + 1)
  }

  /** The tokens of input from pos on, after the tokens already taken. */
  function Lex(input: string, pos: nat, tokens: seq<Token>): (ts: seq<Token>)
    decreases |input| - pos
  {
    if pos >= |input| then tokens + [End]
    else
      var p := SkipSpaces(input, pos);
      if p >= |input| then tokens + [End]
      else
        var r := NextToken(input, p, tokens);
        Lex(input, r.end, tokens + [r.token])
  }

  /** tokenize on a fresh Lexer. */
  function Tokens(input: string): seq<Token> {
    Lex(input, 0, [])
  }

  // ---------------------------------------------------------------------------
  // Properties

  /** Every token has one of the shapes. */
  lemma NextTokenShape(input: string, p: nat, prev: seq<Token>)
    requires p < |input| && !IsSpace(input[p])
    ensures WellShaped(NextToken(input, p, prev).token)
  {
    var c := input[p];
    if !(IsAlpha(c) || c == '_') && (IsDigit(c) || ((c == '+' || c == '-') && p + 1 < |input| && IsDigit(input[p + 1]))) {
      var sign := (c == '+' || c == '-') && SignAllowed(prev);
      if sign || IsDigit(c) {
        NumberShape(input, p, if sign then p + 1 else p);
      }
    }
  }

  /** The text from p to NumberEnd, after a sign of length q - p, is a number. */
  lemma NumberShape(input: string, p: nat, q: nat)
    requires p <= q < |input| && IsDigit(input[q]) && (q == p + 1 ==> input[p] == '+' || input[p] == '-') && q <= p + 1
    ensures IsNumber(input[p..NumberEnd(input, q, false)])
  {
    var e := NumberEnd(input, q, false);
    NumberRun(input, q, false);
    var s := input[p..e];
    assert SignLength(s) == q - p;
    assert forall i :: q - p <= i < |s| ==> s[i] == input[p + i];
  }

  /** Words and numbers are as long as they can be. */
  lemma NextTokenMaximal(input: string, p: nat, prev: seq<Token>)
    requires p < |input| && !IsSpace(input[p])
    ensures var r := NextToken(input, p, prev);
            ((r.token.kind == "id" || r.token.kind in Keywords) ==> r.end == |input| || !IsWordChar(input[r.end]))
            && (r.token.kind == "num" ==> r.end == |input| || !IsDigit(input[r.end]))
            && (r.token.kind == "num" && r.end < |input| && input[r.end] == '.' ==> '.' in r.token.value)
  {
    var r := NextToken(input, p, prev);
    var c := input[p];
    if !(IsAlpha(c) || c == '_') && (IsDigit(c) || ((c == '+' || c == '-') && p + 1 < |input| && IsDigit(input[p + 1]))) {
      var sign := (c == '+' || c == '-') && SignAllowed(prev);
      if sign || IsDigit(c) {
        var q := if sign then p + 1 else p;
        var e := NumberEnd(input, q, false);
        NumberRun(input, q, false);
        if e < |input| && input[e] == '.' {
          var i :| q <= i < e && input[i] == '.';
          assert input[p..e][i - p] == '.';
        }
      }
    }
  }

  /** A `+` or `-` directly before a digit joins the number exactly when a sign is allowed there. */
  lemma SignRule(input: string, p: nat, prev: seq<Token>)
    requires p + 1 < |input| && (input[p] == '+' || input[p] == '-') && IsDigit(input[p + 1])
    ensures var r := NextToken(input, p, prev);
            (r.token.kind == "num" <==> SignAllowed(prev))
            && (!SignAllowed(prev) ==> r.token == Token([input[p]], [input[p]]) && r.end == p + 1)
  {
  }

  /** `>=`, `<=`, `==` and `!=` are read as one two-character token. */
  lemma NextTokenTwoChar(input: string, p: nat, prev: seq<Token>)
    requires p + 1 < |input| && input[p + 1] == '='
    requires input[p] == '>' || input[p] == '<' || input[p] == '=' || input[p] == '!'
    ensures NextToken(input, p, prev) == Lexeme(Token(input[p..p + 2], input[p..p + 2]), p + 2)
  {
  }

  /**
   * Any other character that starts no word, no number and no two-character
   * comparison is a token of its own, whose kind is its text.
   */
  lemma NextTokenSingle(input: string, p: nat, prev: seq<Token>)
    requires p < |input| && !IsSpace(input[p])
    requires !IsAlpha(input[p]) && input[p] != '_' && !IsDigit(input[p])
    requires !((input[p] == '+' || input[p] == '-') && p + 1 < |input| && IsDigit(input[p + 1]) && SignAllowed(prev))
    requires !(p + 1 < |input| && input[p + 1] == '='
               && (input[p] == '>' || input[p] == '<' || input[p] == '=' || input[p] == '!'))
    ensures NextToken(input, p, prev) == Lexeme(Token([input[p]], [input[p]]), p + 1)
  {
  }

  /** A token never holds whitespace. */
  lemma NextTokenNoSpace(input: string, p: nat, prev: seq<Token>)
    requires p < |input| && !IsSpace(input[p])
    ensures NoSpace(NextToken(input, p, prev).token.value)
  {
    var r := NextToken(input, p, prev);
    NumberRun(input, p, false);
    if p + 1 < |input| {
      NumberRun(input, p + 1, false);
    }
    forall i | 0 <= i < |r.token.value|
      ensures !IsSpace(r.token.value[i])
    {
      assert r.token.value[i] == input[p + i];
      if i > 0 {
        assert IsWordChar(input[p + i]) || IsDigit(input[p + i]) || input[p + i] == '.' || input[p + i] == '=';
      }
    }
  }

  /** The input with its whitespace removed. */
  function Squeeze(s: string): string
    decreases |s|
  {
    if s == [] then [] else (if IsSpace(s[0]) then [] else [s[0]]) + Squeeze(s[1..])
  }

  lemma {:induction false} SqueezeConcat(a: string, b: string)
    ensures Squeeze(a + b) == Squeeze(a) + Squeeze(b)
    decreases |a|
  {
    if a != [] {
      assert (a + b)[1..] == a[1..] + b;
      SqueezeConcat(a[1..], b);
    } else {
      assert a + b == b;
    }
  }

  lemma {:induction false} SqueezeSpaces(s: string)
    requires forall i :: 0 <= i < |s| ==> IsSpace(s[i])
    ensures Squeeze(s) == []
    decreases |s|
  {
    if s != [] {
      SqueezeSpaces(s[1..]);
    }
  }

  lemma {:induction false} SqueezeNoSpace(s: string)
    requires NoSpace(s)
    ensures Squeeze(s) == s
    decreases |s|
  {
    if s != [] {
      SqueezeNoSpace(s[1..]);
    }
  }

  /** The values of the tokens, put together. */
  function Values(ts: seq<Token>): string
    decreases |ts|
  {
    if ts == [] then [] else Values(ts[..|ts| - 1]) + ts[|ts| - 1].value
  }

  lemma ValuesSnoc(ts: seq<Token>, t: Token)
    ensures Values(ts + [t]) == Values(ts) + t.value
  {
    assert (ts + [t])[..|ts|] == ts;
  }

  /**
   * Each token's value is the text it consumed: the values of everything
   * tokenize returns give back the input from pos without its whitespace,
   * followed by the closing "#".
   */
  lemma {:induction false} LexValues(input: string, pos: nat, tokens: seq<Token>)
    requires pos <= |input|
    ensures Values(Lex(input, pos, tokens)) == Values(tokens) + (Squeeze(input[pos..]) + "#")
    decreases |input| - pos, 1
  {
    var p := SkipSpaces(input, pos);
    var spaces := Squeeze(input[pos..p]);
    assert input[pos..] == input[pos..p] + input[p..];
    SqueezeConcat(input[pos..p], input[p..]);
    SqueezeSpaces(input[pos..p]);
    assert Squeeze(input[pos..]) == Squeeze(input[p..]);
    if p == |input| {
      assert Lex(input, pos, tokens) == tokens + [End];
      ValuesSnoc(tokens, End);
    } else {
      LexValuesStep(input, pos, tokens);
    }
  }

  /** The inductive step of LexValues, for one token taken at p. */
  lemma {:induction false} LexValuesStep(input: string, pos: nat, tokens: seq<Token>)
    requires pos < |input| && SkipSpaces(input, pos) < |input|
    requires Squeeze(input[pos..]) == Squeeze(input[SkipSpaces(input, pos)..])
    ensures Values(Lex(input, pos, tokens)) == Values(tokens) + (Squeeze(input[pos..]) + "#")
    decreases |input| - pos, 0
  {
    var p := SkipSpaces(input, pos);
    var r := NextToken(input, p, tokens);
    var v := r.token.value;
    assert Lex(input, pos, tokens) == Lex(input, r.end, tokens + [r.token]);
    assert Squeeze(input[p..]) == v + Squeeze(input[r.end..]) by {
      NextTokenNoSpace(input, p, tokens);
      Sets.SliceSplit(input, p, r.end);
      SqueezeConcat(v, input[r.end..]);
      SqueezeNoSpace(v);
    }
    assert Values(tokens + [r.token]) == Values(tokens) + v by {
      ValuesSnoc(tokens, r.token);
    }
    LexValues(input, r.end, tokens + [r.token]);
    Regroup(Values(tokens), v, Squeeze(input[r.end..]), "#");
  }

  lemma Regroup(a: string, b: string, c: string, d: string)
    ensures (a + b) + (c + d) == a + ((b + c) + d)
  {
  }

  /**
   * tokenize keeps the tokens already taken, closes with "#", and every
   * token in between has one of the token shapes.
   */
  /** Every token from index from on has a shape and holds no whitespace. */
  predicate Clean(ts: seq<Token>, from: nat) {
    forall i :: from <= i < |ts| ==> WellShaped(ts[i]) && NoSpace(ts[i].value)
  }

  lemma NextTokenClean(input: string, p: nat, prev: seq<Token>)
    requires p < |input| && !IsSpace(input[p])
    ensures Clean([NextToken(input, p, prev).token], 0)
  {
    NextTokenShape(input, p, prev);
    NextTokenNoSpace(input, p, prev);
  }

  lemma CleanSnoc(ts: seq<Token>, t: Token, from: nat)
    requires from <= |ts| && Clean(ts, from) && Clean([t], 0)
    ensures Clean(ts + [t], from)
  {
    assert forall i :: from <= i < |ts| ==> (ts + [t])[i] == ts[i];
  }

  /** tokenize only appends to the sequence, and the last token it appends is "#". */
  lemma {:induction false} LexPrefix(input: string, pos: nat, tokens: seq<Token>)
    ensures var ts := Lex(input, pos, tokens);
            |ts| > |tokens| && ts[..|tokens|] == tokens && ts[|ts| - 1] == End
    decreases |input| - pos
  {
    var ts := Lex(input, pos, tokens);
    if pos < |input| && SkipSpaces(input, pos) < |input| {
      var r := NextToken(input, SkipSpaces(input, pos), tokens);
      assert ts == Lex(input, r.end, tokens + [r.token]);
      LexPrefix(input, r.end, tokens + [r.token]);
      Sets.PrefixSnoc(ts, tokens, r.token);
    } else {
      assert ts == tokens + [End];
      Sets.SnocFacts(tokens, End);
    }
  }

  /** Every token tokenize appends has a shape and holds no whitespace. */
  lemma {:induction false} LexClean(input: string, pos: nat, tokens: seq<Token>, from: nat)
    requires from <= |tokens| && Clean(tokens, from)
    ensures Clean(Lex(input, pos, tokens), from)
    decreases |input| - pos
  {
    if pos < |input| {
      var p := SkipSpaces(input, pos);
      if p < |input| {
        var r := NextToken(input, p, tokens);
        NextTokenClean(input, p, tokens);
        CleanSnoc(tokens, r.token, from);
        LexClean(input, r.end, tokens + [r.token], from);
      }
    } else {
      CleanSnoc(tokens, End, from);
    }
  }

  /**
   * For a fresh Lexer: the sequence ends with "#", the values before it
   * give back the input without whitespace, and no value holds whitespace.
   */
  lemma TokensValues(input: string)
    ensures var ts := Tokens(input);
            |ts| > 0 && ts[|ts| - 1] == End && Values(ts[..|ts| - 1]) == Squeeze(input) && Clean(ts, 0)
  {
    var ts := Lex(input, 0, []);
    LexPrefix(input, 0, []);
    LexClean(input, 0, [], 0);
    assert Values(ts) == Squeeze(input) + "#" by {
      LexValues(input, 0, []);
      assert input[0..] == input;
    }
    assert Values(ts) == Values(ts[..|ts| - 1]) + "#";
    DropLast(Values(ts[..|ts| - 1]), Squeeze(input), '#');
  }

  lemma DropLast(a: string, b: string, c: char)
    requires a + [c] == b + [c]
    ensures a == b
  {
    assert a == (a + [c])[..|a|];
    assert b == (b + [c])[..|b|];
  }
}
