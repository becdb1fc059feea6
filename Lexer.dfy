/**
 * class Lexer: the input and the scan position as fields, and tokenize as
 * the nested scanning loops of the source, proved to append exactly the
 * tokens Scanning.Lex describes.
 */
module Lexer {
  import opened Common
  import opened Text
  import opened Scanning

  class Lexer {
    const input: string
    var pos: nat

    constructor (s: string)
      ensures input == s && pos == 0
    {
      input := s;
      pos := 0;
    }

    /**
     * tokenize: the tokens of the input from the current position on, closed
     * by "#"; the position is left at the end of the input.
     */
    method Tokenize() returns (tokens: seq<Token>)
      modifies this`pos
      ensures tokens == Lex(input, old(pos), [])
      ensures pos == if old(pos) < |input| then |input| else old(pos)
    {
      tokens := [];
      ghost var whole := Lex(input, pos, tokens);
      while pos < |input|
        invariant pos >= old(pos) && (pos > |input| ==> pos == old(pos))
        invariant Lex(input, pos, tokens) == whole
        decreases |input| - pos
      {
        ghost var start := pos;
        while pos < |input| && IsSpace(input[pos])
          invariant start <= pos <= |input| && SkipSpaces(input, pos) == SkipSpaces(input, start)
          decreases |input| - pos
        {
          pos := pos + 1;
        }
        if pos >= |input| {
          break;
        }
        var t := ScanToken(tokens);
        tokens := tokens + [t];
      }
      tokens := tokens + [End];
    }

    /** One pass of the body of tokenize after the blanks: the token that starts at pos. */
    method ScanToken(prev: seq<Token>) returns (t: Token)
      requires pos < |input| && !IsSpace(input[pos])
      modifies this`pos
      ensures Lexeme(t, pos) == NextToken(input, old(pos), prev)
    {
      var c := input[pos];
      if IsAlpha(c) || c == '_' {
        t := ScanWord();
      } else if IsDigit(c) || ((c == '+' || c == '-') && pos + 1 < |input| && IsDigit(input[pos + 1])) {
        var isSign := false;
        if c == '+' || c == '-' {
          if |prev| > 0 {
            var lastType := prev[|prev| - 1].kind;
            isSign := !(lastType == "id" || lastType == "num" || lastType == ")" || lastType == "}");
          } else {
            isSign := true;
          }
        }
        if isSign || IsDigit(c) {
          t := ScanNumber(isSign);
        } else {
          t := Token([c], [c]);
          pos := pos + 1;
        }
      } else {
        var s := [c];
        if pos + 1 < |input| {
          var next := input[pos + 1];
          if (c == '>' || c == '<' || c == '=' || c == '!') && next == '=' {
            s := [c, next];
            pos := pos + 1;
          }
        }
        t := Token(s, s);
        pos := pos + 1;
      }
    }

    /** A word from pos: a keyword, or else an identifier. */
    method ScanWord() returns (t: Token)
      requires pos < |input|
      modifies this`pos
      ensures pos == WordEnd(input, old(pos))
      ensures t == if input[old(pos)..pos] in Keywords then Token(input[old(pos)..pos], input[old(pos)..pos])
                   else Token("id", input[old(pos)..pos])
    {
      ghost var p := pos;
      var s := "";
      while pos < |input| && IsWordChar(input[pos])
        invariant p <= pos <= |input| && s == input[p..pos] && WordEnd(input, pos) == WordEnd(input, p)
        decreases |input| - pos
      {
        s := s + [input[pos]];
        pos := pos + 1;
      }
      t := if s in Keywords then Token(s, s) else Token("id", s);
    }

    /** A number from pos, after its sign when isSign: digits and at most one point. */
    method ScanNumber(isSign: bool) returns (t: Token)
      requires pos < |input| && (isSign ==> pos + 1 <= |input|)
      modifies this`pos
      ensures var q := if isSign then old(pos) + 1 else old(pos);
              pos == NumberEnd(input, q, false) && t == Token("num", input[old(pos)..pos])
    {
      ghost var p := pos;
      var s := "";
      if isSign {
        s := s + [input[pos]];
        pos := pos + 1;
      }
      ghost var q := pos;
      var hasDot := false;
      while pos < |input| && (IsDigit(input[pos]) || input[pos] == '.')
        invariant q <= pos <= |input| && s == input[p..pos]
        invariant NumberEnd(input, pos, hasDot) == NumberEnd(input, q, false)
        decreases |input| - pos
      {
        if input[pos] == '.' {
          if hasDot {
            break;
          }
          hasDot := true;
        }
        s := s + [input[pos]];
        pos := pos + 1;
      }
      t := Token("num", s);
    }
  }
}
