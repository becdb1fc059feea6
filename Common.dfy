/**
 * The plain records shared by the front end: quadruples, productions, LR(0)
 * items, semantic attributes, table actions and tokens, with the comparison
 * and rendering operations defined on them.
 */
module Common {
  import opened Text
  import Ordering

  datatype Option<T> = None | Some(value: T)

  // ---------------------------------------------------------------------------
  // Quadruples

  /** One three-address instruction (op, arg1, arg2, result); unused slots hold "-". */
  datatype Quad = Quad(op: string, arg1: string, arg2: string, result: string)

  /** Quad::toString: "(op, arg1, arg2, result)". */
  function QuadToString(q: Quad): string {
    "(" + q.op + ", " + q.arg1 + ", " + q.arg2 + ", " + q.result + ")"
  }

  /** The pieces of s between occurrences of c, in order. */
  function SplitOn(s: string, c: char): (parts: seq<string>)
    ensures |parts| > 0
    decreases |s|
  {
    if s == [] then [""]
    else if s[0] == c then [""] + SplitOn(s[1..], c)
    else
      var rest := SplitOn(s[1..], c);
      [[s[0]] + rest[0]] + rest[1..]
  }

  lemma {:induction false} SplitOnWithout(a: string, c: char)
    requires c !in a
    ensures SplitOn(a, c) == [a]
    decreases |a|
  {
    if a != [] {
      SplitOnWithout(a[1..], c);
      assert [a[0]] + a[1..] == a;
    }
  }

  lemma {:induction false} SplitOnFirst(a: string, c: char, b: string)
    requires c !in a
    ensures SplitOn(a + [c] + b, c) == [a] + SplitOn(b, c)
    decreases |a|
  {
    if a == [] {
      assert (a + [c] + b)[1..] == b;
    } else {
      assert (a + [c] + b)[1..] == a[1..] + [c] + b;
      SplitOnFirst(a[1..], c, b);
      assert [a[0]] + a[1..] == a;
    }
  }

  /** Reads back the text Quad::toString produces; None if s does not have that shape. */
  function ParseQuadText(s: string): Option<Quad> {
    if |s| < 2 || s[0] != '(' || s[|s| - 1] != ')' then None
    else
      var parts := SplitOn(s[1..|s| - 1], ',');
      if |parts| != 4 then None
      else if parts[1] == [] || parts[1][0] != ' ' then None
      else if parts[2] == [] || parts[2][0] != ' ' then None
      else if parts[3] == [] || parts[3][0] != ' ' then None
      else Some(Quad(parts[0], parts[1][1..], parts[2][1..], parts[3][1..]))
  }

  predicate CommaFree(q: Quad) {
    ',' !in q.op && ',' !in q.arg1 && ',' !in q.arg2 && ',' !in q.result
  }

  /** Four comma-free pieces joined by commas split back into those pieces. */
  lemma SplitFour(a: string, b: string, c: string, d: string)
    requires ',' !in a && ',' !in b && ',' !in c && ',' !in d
    ensures SplitOn(a + [','] + b + [','] + c + [','] + d, ',') == [a, b, c, d]
  {
    var cd := c + [','] + d;
    var bcd := b + [','] + cd;
    SplitOnWithout(d, ',');
    SplitOnFirst(c, ',', d);
    SplitOnFirst(b, ',', cd);
    SplitOnFirst(a, ',', bcd);
    assert a + [','] + b + [','] + c + [','] + d == a + [','] + bcd;
  }

  /** The rendering loses nothing as long as no slot itself contains a comma. */
  lemma QuadTextRoundTrip(q: Quad)
    requires CommaFree(q)
    ensures ParseQuadText(QuadToString(q)) == Some(q)
  {
    var s := QuadToString(q);
    var b, c, d := " " + q.arg1, " " + q.arg2, " " + q.result;
    assert s[1..|s| - 1] == q.op + [','] + b + [','] + c + [','] + d;
    assert ',' !in b && ',' !in c && ',' !in d;
    SplitFour(q.op, b, c, d);
    assert b[1..] == q.arg1 && c[1..] == q.arg2 && d[1..] == q.result;
  }

  // ---------------------------------------------------------------------------
  // Productions

  /** A grammar rule lhs -> rhs; id is its position in the grammar. */
  datatype Production = Production(id: nat, lhs: string, rhs: seq<string>)

  /** " " + sym for every symbol, in order. */
  function Spaced(syms: seq<string>): string {
    if syms == [] then "" else " " + syms[0] + Spaced(syms[1..])
  }

  lemma {:induction false} SpacedSnoc(syms: seq<string>, x: string)
    ensures Spaced(syms + [x]) == Spaced(syms) + " " + x
    decreases |syms|
  {
    if syms == [] {
      assert Spaced([x][1..]) == "";
    } else {
      assert (syms + [x])[1..] == syms[1..] + [x];
      SpacedSnoc(syms[1..], x);
    }
  }

  /** The text Production::toString builds: the lhs, " ->", then " " + sym for each rhs symbol. */
  function ProductionText(p: Production): string {
    p.lhs + " ->" + Spaced(p.rhs)
  }

  /** Production::toString, appending one symbol at a time. */
  method ProductionToString(p: Production) returns (s: string)
    ensures s == ProductionText(p)
  {
    s := p.lhs + " ->";
    for i := 0 to |p.rhs|
      invariant s == p.lhs + " ->" + Spaced(p.rhs[..i])
    {
      SpacedSnoc(p.rhs[..i], p.rhs[i]);
      assert p.rhs[..i + 1] == p.rhs[..i] + [p.rhs[i]];
      s := s + " " + p.rhs[i];
    }
    assert p.rhs[..|p.rhs|] == p.rhs;
  }

  // ---------------------------------------------------------------------------
  // LR(0) items

  /** A production index with a dot position in its right-hand side. */
  datatype Item = Item(prodIndex: nat, dotPos: nat)

  /** Item::operator<: by production index, then by dot position. */
  predicate ItemLess(a: Item, b: Item) {
    if a.prodIndex != b.prodIndex then a.prodIndex < b.prodIndex else a.dotPos < b.dotPos
  }

  /** Item::operator==: both fields match. */
  predicate ItemEq(a: Item, b: Item) {
    a.prodIndex == b.prodIndex && a.dotPos == b.dotPos
  }

  lemma ItemLessIsStrictTotalOrder()
    ensures Ordering.StrictTotalOrder(ItemLess)
  {
  }

  /** The least item of a non-empty set: where a walk over a std::set<Item> starts. */
  ghost function LeastItem(s: set<Item>): (x: Item)
    requires s != {}
    ensures x in s && forall y :: y in s ==> !ItemLess(y, x)
  {
    ItemLessIsStrictTotalOrder();
    Ordering.Minimum(ItemLess, s)
  }

  /** The next element of a std::set<Item> walk: the least item left. */
  method SmallestItem(s: set<Item>) returns (x: Item)
    requires s != {}
    ensures x == LeastItem(s)
  {
    ItemLessIsStrictTotalOrder();
    Ordering.MinimumExists(ItemLess, s);
    x :| x in s && forall y :: y in s ==> !ItemLess(y, x);
    Ordering.IsTheMinimum(ItemLess, s, x);
  }

  /** operator== is equality of items, and it holds exactly when neither item is below the other. */
  lemma ItemEqIsEquivalence(a: Item, b: Item)
    ensures ItemEq(a, b) <==> a == b
    ensures ItemEq(a, b) <==> !ItemLess(a, b) && !ItemLess(b, a)
  {
  }

  // ---------------------------------------------------------------------------
  // Attributes, actions, tokens

  /** Semantic value on the parse stack: where the value lives, and the code computing it. */
  datatype Attribute = Attribute(place: string, code: seq<Quad>)

  /** An ACTION entry; an absent entry is the error action. */
  datatype Action = Shift(target: nat) | Reduce(prod: nat) | Accept
  {
    /** The `type` field of the C++ struct. */
    function Type(): (t: char)
      ensures t in {'s', 'r', 'a'}
    {
      match this
      case Shift(_) => 's'
      case Reduce(_) => 'r'
      case Accept => 'a'
    }

    /** The `val` field: target state for a shift, production id for a reduce, 0 for accept. */
    function Val(): int {
      match this
      case Shift(t) => t
      case Reduce(p) => p
      case Accept => 0
    }
  }

  /** Reads an action back from its (type, val) fields. */
  function ActionFromFields(t: char, v: int): Option<Action> {
    if t == 's' && v >= 0 then Some(Shift(v))
    else if t == 'r' && v >= 0 then Some(Reduce(v))
    else if t == 'a' && v == 0 then Some(Accept)
    else None
  }

  /** The (type, val) struct encodes every action without loss. */
  lemma ActionFieldsRoundTrip(a: Action)
    ensures ActionFromFields(a.Type(), a.Val()) == Some(a)
  {
  }

  /** A lexical unit: its kind (the C++ `type` field) and its text. */
  datatype Token = Token(kind: string, value: string)
}
