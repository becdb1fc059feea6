/**
 * What buildSLRTable writes into the ACTION and GOTO tables, as functions
 * that follow the code's order: states by index; in each state first its
 * transitions in increasing symbol order (a terminal gets a shift, refused
 * when the cell is taken; a non-terminal gets a GOTO entry), then its items
 * in increasing order, a completed start item writing accept on "#"
 * unchecked and every other completed item writing a reduce on each symbol
 * of the Follow set of its lhs, refused on a shift or a reduce by another
 * production.  The first refusal ends the fill with the tables as they are.
 *
 * The lemmas state what a fill from empty tables produces: the entries are
 * exactly the demanded ones, and it succeeds when no cell is demanded twice
 * and fails when a cell other than "#" of an accepting state is.
 */
module SlrTable {
  import opened Common
  import opened Text
  import opened Sets
  import opened Lr0

  /** One state's ACTION row and GOTO row after a fill, and whether it got through. */
  datatype RowFill = RowFill(row: map<string, Action>, grow: map<string, nat>, ok: bool)

  /** An ACTION row after the reduce part of a fill. */
  datatype Cells = Cells(row: map<string, Action>, ok: bool)

  datatype Tables = Tables(action: map<nat, map<string, Action>>, goto: map<nat, map<string, nat>>, ok: bool)

  /** Row i of a table read with operator[]: a missing row reads as empty. */
  function RowOf<V>(m: map<nat, map<string, V>>, i: nat): map<string, V> {
    if i in m then m[i] else map[]
  }

  // ---------------------------------------------------------------------------
  // The fill, in the order of the code

  /** The transitions on the symbols of rest, in increasing order. */
  ghost function ShiftFill(t: set<string>, tr: map<string, nat>, rest: set<string>,
                           row: map<string, Action>, grow: map<string, nat>): RowFill
    requires rest <= tr.Keys
    decreases |rest|
  {
    if rest == {} then RowFill(row, grow, true)
    else
      var x := LeastString(rest);
      if x in t then
        if x in row then RowFill(row, grow, false)
        else ShiftFill(t, tr, rest - {x}, row[x := Shift(tr[x])], grow)
      else
        ShiftFill(t, tr, rest - {x}, row, grow[x := tr[x]])
  }

  /** A cell holding a shift, or a reduce by a production other than p, refuses Reduce(p). */
  predicate Clashes(row: map<string, Action>, a: string, p: nat) {
    a in row && (row[a].Shift? || (row[a].Reduce? && row[a].prod != p))
  }

  /** Reduce(p) on the follow symbols in rest, in increasing order. */
  ghost function ReduceFill(p: nat, rest: set<string>, row: map<string, Action>): Cells
    decreases |rest|
  {
    if rest == {} then Cells(row, true)
    else
      var a := LeastString(rest);
      if Clashes(row, a, p) then Cells(row, false)
      else ReduceFill(p, rest - {a}, row[a := Reduce(p)])
  }

  /** One item's part: accept, the reduces, or nothing when its dot is not at the end. */
  ghost function ItemFill(g: seq<Production>, start: string, follow: map<string, set<string>>,
                          it: Item, row: map<string, Action>): Cells
    requires ValidItem(g, it)
  {
    if it.dotPos == |g[it.prodIndex].rhs| then
      var lhs := g[it.prodIndex].lhs;
      if lhs == start then Cells(row["#" := Accept], true)
      else ReduceFill(it.prodIndex, Get(follow, lhs), row)
    else Cells(row, true)
  }

  /** The items of rest, in increasing order. */
  ghost function ItemsFill(g: seq<Production>, start: string, follow: map<string, set<string>>,
                           rest: set<Item>, row: map<string, Action>): Cells
    requires ValidItems(g, rest)
    decreases |rest|
  {
    if rest == {} then Cells(row, true)
    else
      var it := LeastItem(rest);
      var r := ItemFill(g, start, follow, it, row);
      if !r.ok then r else ItemsFill(g, start, follow, rest - {it}, r.row)
  }

  /** One state: its transitions, then its items. */
  ghost function StateFill(g: seq<Production>, t: set<string>, start: string, follow: map<string, set<string>>,
                           st: State, row: map<string, Action>, grow: map<string, nat>): RowFill
    requires ValidItems(g, st.items)
  {
    var s := ShiftFill(t, st.transitions, st.transitions.Keys, row, grow);
    if !s.ok then s
    else
      var r := ItemsFill(g, start, follow, st.items, s.row);
      RowFill(r.row, s.grow, r.ok)
  }

  ghost predicate AllValid(g: seq<Production>, sts: seq<State>) {
    forall k :: 0 <= k < |sts| ==> ValidItems(g, sts[k].items)
  }

  /** States i, i+1, ... in turn; the first state refused stops the fill. */
  ghost function TableFill(g: seq<Production>, t: set<string>, start: string, follow: map<string, set<string>>,
                           sts: seq<State>, i: nat,
                           action: map<nat, map<string, Action>>, goto: map<nat, map<string, nat>>): Tables
    requires AllValid(g, sts)
    decreases |sts| - i
  {
    if i >= |sts| then Tables(action, goto, true)
    else
      var r := StateFill(g, t, start, follow, sts[i], RowOf(action, i), RowOf(goto, i));
      var action', goto' := action[i := r.row], goto[i := r.grow];
      if !r.ok then Tables(action', goto', false)
      else TableFill(g, t, start, follow, sts, i + 1, action', goto')
  }

  // ---------------------------------------------------------------------------
  // What a state demands

  /** A completed item of a production whose lhs is not the start symbol. */
  predicate Reduces(g: seq<Production>, start: string, it: Item) {
    Completed(g, it) && g[it.prodIndex].lhs != start
  }

  /** A completed item of a production of the start symbol. */
  predicate Accepts(g: seq<Production>, start: string, it: Item) {
    Completed(g, it) && g[it.prodIndex].lhs == start
  }

  /** it asks for a reduce on a: a is in the Follow set of its lhs. */
  predicate Claims(g: seq<Production>, start: string, follow: map<string, set<string>>, it: Item, a: string) {
    Reduces(g, start, it) && a in Get(follow, g[it.prodIndex].lhs)
  }

  ghost predicate Accepting(g: seq<Production>, start: string, items: set<Item>) {
    exists it :: it in items && Accepts(g, start, it)
  }

  /** A shift and a reduce are both demanded on a. */
  ghost predicate ShiftReduce(g: seq<Production>, t: set<string>, start: string, follow: map<string, set<string>>,
                              st: State, a: string) {
    a in st.transitions && a in t && exists it :: it in st.items && Claims(g, start, follow, it, a)
  }

  /** Reduces by two different productions are both demanded on a. */
  ghost predicate ReduceReduce(g: seq<Production>, start: string, follow: map<string, set<string>>, st: State, a: string) {
    exists i1, i2 :: i1 in st.items && i2 in st.items && Claims(g, start, follow, i1, a) && Claims(g, start, follow, i2, a)
                     && i1.prodIndex != i2.prodIndex
  }

  ghost predicate ConflictAt(g: seq<Production>, t: set<string>, start: string, follow: map<string, set<string>>,
                             st: State, a: string) {
    ShiftReduce(g, t, start, follow, st, a) || ReduceReduce(g, start, follow, st, a)
  }

  ghost predicate ConflictFree(g: seq<Production>, t: set<string>, start: string, follow: map<string, set<string>>, st: State) {
    forall a :: !ConflictAt(g, t, start, follow, st, a)
  }

  /** The one cell where the unchecked accept can hide a conflict: "#" in a state with a completed start item. */
  ghost predicate Masked(g: seq<Production>, start: string, st: State, a: string) {
    a == "#" && Accepting(g, start, st.items)
  }

  /** act is an action the state demands on a. */
  ghost predicate Demanded(g: seq<Production>, t: set<string>, start: string, follow: map<string, set<string>>,
                           st: State, a: string, act: Action) {
    match act
    case Shift(j) => a in t && a in st.transitions && st.transitions[a] == j
    case Accept => a == "#" && Accepting(g, start, st.items)
    case Reduce(p) => exists it :: it in st.items && Claims(g, start, follow, it, a) && it.prodIndex == p
  }

  /** Every entry of the row is demanded. */
  ghost predicate Entries(g: seq<Production>, t: set<string>, start: string, follow: map<string, set<string>>,
                          st: State, row: map<string, Action>) {
    forall a :: a in row ==> Demanded(g, t, start, follow, st, a, row[a])
  }

  /**
   * Every demand of the items in done, and every shift, is in the row, away
   * from the masked cell; once a start item is done, "#" holds accept or a reduce.
   */
  ghost predicate FilledBy(g: seq<Production>, t: set<string>, start: string, follow: map<string, set<string>>,
                           st: State, row: map<string, Action>, done: set<Item>) {
    (forall a :: !Masked(g, start, st, a) && a in t && a in st.transitions ==>
       a in row && row[a] == Shift(st.transitions[a]))
    && (forall a, it :: !Masked(g, start, st, a) && it in done && Claims(g, start, follow, it, a) ==>
          a in row && row[a] == Reduce(it.prodIndex))
    && ((exists it :: it in done && Accepts(g, start, it)) ==> "#" in row && !row["#"].Shift?)
  }

  // ---------------------------------------------------------------------------
  // The shift part

  /** The shift part is refused exactly when a terminal of rest already has a cell. */
  lemma {:induction false} ShiftFillOk(t: set<string>, tr: map<string, nat>, rest: set<string>,
                                       row: map<string, Action>, grow: map<string, nat>)
    requires rest <= tr.Keys
    ensures ShiftFill(t, tr, rest, row, grow).ok <==> forall a :: a in rest && a in t ==> a !in row
    decreases |rest|
  {
    if rest != {} {
      var x := LeastString(rest);
      if x in t {
        if x !in row {
          ShiftFillOk(t, tr, rest - {x}, row[x := Shift(tr[x])], grow);
        }
      } else {
        ShiftFillOk(t, tr, rest - {x}, row, grow[x := tr[x]]);
      }
    }
  }

  /** The ACTION row after the shift part: the old cells, and shifts on the terminals of rest. */
  lemma {:induction false} ShiftFillRow(t: set<string>, tr: map<string, nat>, rest: set<string>,
                                        row: map<string, Action>, grow: map<string, nat>)
    requires rest <= tr.Keys
    ensures var r := ShiftFill(t, tr, rest, row, grow);
            (forall a :: a in r.row ==> (a in row && r.row[a] == row[a]) || (a in rest && a in t && r.row[a] == Shift(tr[a])))
            && (r.ok ==> forall a :: a in rest && a in t ==> a in r.row && r.row[a] == Shift(tr[a]))
            && (r.ok ==> forall a :: a !in rest && a in row ==> a in r.row && r.row[a] == row[a])
    decreases |rest|
  {
    if rest != {} {
      var x := LeastString(rest);
      if x in t {
        if x !in row {
          ShiftFillRow(t, tr, rest - {x}, row[x := Shift(tr[x])], grow);
        }
      } else {
        ShiftFillRow(t, tr, rest - {x}, row, grow[x := tr[x]]);
      }
    }
  }

  /** The GOTO row after the shift part: the old entries, and the transitions on the non-terminals of rest. */
  lemma {:induction false} ShiftFillGoto(t: set<string>, tr: map<string, nat>, rest: set<string>,
                                         row: map<string, Action>, grow: map<string, nat>)
    requires rest <= tr.Keys
    ensures var r := ShiftFill(t, tr, rest, row, grow);
            (forall a :: a in r.grow ==> (a in grow && r.grow[a] == grow[a]) || (a in rest && a !in t && r.grow[a] == tr[a]))
            && (r.ok ==> forall a :: a in rest && a !in t ==> a in r.grow && r.grow[a] == tr[a])
            && (r.ok ==> forall a :: a !in rest && a in grow ==> a in r.grow && r.grow[a] == grow[a])
    decreases |rest|
  {
    if rest != {} {
      var x := LeastString(rest);
      if x in t {
        if x !in row {
          ShiftFillGoto(t, tr, rest - {x}, row[x := Shift(tr[x])], grow);
        }
      } else {
        ShiftFillGoto(t, tr, rest - {x}, row, grow[x := tr[x]]);
      }
    }
  }

  // ---------------------------------------------------------------------------
  // The reduce part

  /** Reduce(p) on a set of symbols is one batch: refused when one of them clashes in the row as given. */
  lemma {:induction false} ReduceFillFacts(p: nat, rest: set<string>, row: map<string, Action>)
    ensures var r := ReduceFill(p, rest, row);
            (r.ok <==> forall a :: a in rest ==> !Clashes(row, a, p))
            && (forall a :: a in r.row ==> (a in row && r.row[a] == row[a]) || (a in rest && r.row[a] == Reduce(p)))
            && (forall a :: a in row ==> a in r.row)
            && (r.ok ==> forall a :: a in rest ==> a in r.row && r.row[a] == Reduce(p))
            && (r.ok ==> forall a :: a !in rest && a in row ==> r.row[a] == row[a])
    decreases |rest|
  {
    if rest != {} {
      var a := LeastString(rest);
      if !Clashes(row, a, p) {
        var row' := row[a := Reduce(p)];
        ReduceFillFacts(p, rest - {a}, row');
        assert forall b :: b in rest - {a} ==> (Clashes(row', b, p) <==> Clashes(row, b, p));
      }
    }
  }

  /** One item keeps the row to demanded entries, and gets through when the state has no conflict. */
  lemma ItemFillEntries(g: seq<Production>, t: set<string>, start: string, follow: map<string, set<string>>,
                        st: State, it: Item, row: map<string, Action>)
    requires ValidItems(g, st.items) && it in st.items
    requires Entries(g, t, start, follow, st, row)
    ensures var r := ItemFill(g, start, follow, it, row);
            Entries(g, t, start, follow, st, r.row)
            && (ConflictFree(g, t, start, follow, st) ==> r.ok)
  {
    if Completed(g, it) {
      var lhs := g[it.prodIndex].lhs;
      if lhs == start {
        assert Accepts(g, start, it);
      } else {
        var fs := Get(follow, lhs);
        ReduceFillFacts(it.prodIndex, fs, row);
        var r := ReduceFill(it.prodIndex, fs, row);
        forall a | a in r.row
          ensures Demanded(g, t, start, follow, st, a, r.row[a])
        {
          if !(a in row && r.row[a] == row[a]) {
            assert Claims(g, start, follow, it, a);
          }
        }
        if ConflictFree(g, t, start, follow, st) {
          forall a | a in fs
            ensures !Clashes(row, a, it.prodIndex)
          {
            assert Claims(g, start, follow, it, a);
            assert !ConflictAt(g, t, start, follow, st, a);
            if a in row {
              assert Demanded(g, t, start, follow, st, a, row[a]);
            }
          }
        }
      }
    }
  }

  /** A fill that gets through item it has every demand of it in the row, away from the masked cell. */
  lemma ItemFillFills(g: seq<Production>, t: set<string>, start: string, follow: map<string, set<string>>,
                      st: State, it: Item, row: map<string, Action>, done: set<Item>)
    requires ValidItems(g, st.items) && it in st.items
    requires FilledBy(g, t, start, follow, st, row, done)
    ensures var r := ItemFill(g, start, follow, it, row);
            r.ok ==> FilledBy(g, t, start, follow, st, r.row, done + {it})
  {
    var r := ItemFill(g, start, follow, it, row);
    if Completed(g, it) && r.ok {
      var lhs := g[it.prodIndex].lhs;
      if lhs == start {
        assert Masked(g, start, st, "#") by {
          assert Accepts(g, start, it);
        }
      } else {
        var fs := Get(follow, lhs);
        ReduceFillFacts(it.prodIndex, fs, row);
        forall a, it' | !Masked(g, start, st, a) && it' in done + {it} && Claims(g, start, follow, it', a)
          ensures a in r.row && r.row[a] == Reduce(it'.prodIndex)
        {
          if it' != it && a in fs {
            assert !Clashes(row, a, it.prodIndex);
          }
        }
        if exists it' :: it' in done + {it} && Accepts(g, start, it') {
          var it' :| it' in done + {it} && Accepts(g, start, it');
          assert it' in done;
        }
      }
    }
  }

  lemma {:induction false} ItemsFillEntries(g: seq<Production>, t: set<string>, start: string, follow: map<string, set<string>>,
                                            st: State, rest: set<Item>, row: map<string, Action>)
    requires ValidItems(g, st.items) && rest <= st.items
    requires Entries(g, t, start, follow, st, row)
    ensures var r := ItemsFill(g, start, follow, rest, row);
            Entries(g, t, start, follow, st, r.row)
            && (ConflictFree(g, t, start, follow, st) ==> r.ok)
    decreases |rest|
  {
    if rest != {} {
      var it := LeastItem(rest);
      var r1 := ItemFill(g, start, follow, it, row);
      ItemFillEntries(g, t, start, follow, st, it, row);
      if r1.ok {
        ItemsFillEntries(g, t, start, follow, st, rest - {it}, r1.row);
      }
    }
  }

  lemma {:induction false} ItemsFillFills(g: seq<Production>, t: set<string>, start: string, follow: map<string, set<string>>,
                                          st: State, rest: set<Item>, row: map<string, Action>, done: set<Item>)
    requires ValidItems(g, st.items) && rest <= st.items
    requires FilledBy(g, t, start, follow, st, row, done)
    ensures var r := ItemsFill(g, start, follow, rest, row);
            r.ok ==> FilledBy(g, t, start, follow, st, r.row, done + rest)
    decreases |rest|
  {
    if rest != {} {
      var it := LeastItem(rest);
      var r1 := ItemFill(g, start, follow, it, row);
      ItemFillFills(g, t, start, follow, st, it, row, done);
      if r1.ok {
        ItemsFillFills(g, t, start, follow, st, rest - {it}, r1.row, done + {it});
        assert done + {it} + (rest - {it}) == done + rest;
      }
    }
  }

  // ---------------------------------------------------------------------------
  // One state, from empty rows

  /** A row that FilledBy all items has no conflict away from the masked cell. */
  lemma FilledHasNoConflict(g: seq<Production>, t: set<string>, start: string, follow: map<string, set<string>>,
                            st: State, row: map<string, Action>, a: string)
    requires FilledBy(g, t, start, follow, st, row, st.items)
    requires !Masked(g, start, st, a)
    ensures !ConflictAt(g, t, start, follow, st, a)
  {
  }

  /** The shift part from empty rows: every terminal transition shifts, every other one is a GOTO entry. */
  lemma ShiftsFromEmpty(g: seq<Production>, t: set<string>, start: string, follow: map<string, set<string>>, st: State)
    ensures var s := ShiftFill(t, st.transitions, st.transitions.Keys, map[], map[]);
            s.ok
            && Entries(g, t, start, follow, st, s.row)
            && FilledBy(g, t, start, follow, st, s.row, {})
            && (forall a :: a in s.grow <==> a in st.transitions && a !in t)
            && (forall a :: a in s.grow ==> s.grow[a] == st.transitions[a])
  {
    ShiftFillOk(t, st.transitions, st.transitions.Keys, map[], map[]);
    ShiftFillRow(t, st.transitions, st.transitions.Keys, map[], map[]);
    ShiftFillGoto(t, st.transitions, st.transitions.Keys, map[], map[]);
  }

  /**
   * One state filled from empty rows: only demanded entries; the GOTO row is
   * its non-terminal transitions; no conflict means success; success means
   * every demand is in the row and any conflict sits on the masked cell.
   */
  ghost predicate StateFillSound(g: seq<Production>, t: set<string>, start: string, follow: map<string, set<string>>, st: State)
    requires ValidItems(g, st.items)
  {
    var r := StateFill(g, t, start, follow, st, map[], map[]);
    Entries(g, t, start, follow, st, r.row)
    && (forall a :: a in r.grow <==> a in st.transitions && a !in t)
    && (forall a :: a in r.grow ==> r.grow[a] == st.transitions[a])
    && (ConflictFree(g, t, start, follow, st) ==> r.ok)
    && (r.ok ==> FilledBy(g, t, start, follow, st, r.row, st.items))
    && (r.ok ==> forall a :: ConflictAt(g, t, start, follow, st, a) ==> Masked(g, start, st, a))
  }

  lemma StateFillFacts(g: seq<Production>, t: set<string>, start: string, follow: map<string, set<string>>, st: State)
    requires ValidItems(g, st.items)
    ensures StateFillSound(g, t, start, follow, st)
  {
    ShiftsFromEmpty(g, t, start, follow, st);
    var s := ShiftFill(t, st.transitions, st.transitions.Keys, map[], map[]);
    ItemsFillEntries(g, t, start, follow, st, st.items, s.row);
    ItemsFillFills(g, t, start, follow, st, st.items, s.row, {});
    var r := StateFill(g, t, start, follow, st, map[], map[]);
    assert {} + st.items == st.items;
    if r.ok {
      forall a | !Masked(g, start, st, a)
        ensures !ConflictAt(g, t, start, follow, st, a)
      {
        FilledHasNoConflict(g, t, start, follow, st, r.row, a);
      }
    }
  }

  // ---------------------------------------------------------------------------
  // The whole table

  /** State st's rows filled on their own, from empty rows. */
  ghost function Own(g: seq<Production>, t: set<string>, start: string, follow: map<string, set<string>>, st: State): RowFill
    requires ValidItems(g, st.items)
  {
    StateFill(g, t, start, follow, st, map[], map[])
  }

  /** From rows not yet written, the fill gets through exactly when every state gets through on its own. */
  lemma {:induction false} TableFillOk(g: seq<Production>, t: set<string>, start: string, follow: map<string, set<string>>,
                                       sts: seq<State>, i: nat,
                                       action: map<nat, map<string, Action>>, goto: map<nat, map<string, nat>>)
    requires AllValid(g, sts) && i <= |sts|
    requires forall k :: k in action ==> k < i
    requires forall k :: k in goto ==> k < i
    ensures TableFill(g, t, start, follow, sts, i, action, goto).ok
            <==> forall k :: i <= k < |sts| ==> Own(g, t, start, follow, sts[k]).ok
    decreases |sts| - i
  {
    if i < |sts| {
      var r := Own(g, t, start, follow, sts[i]);
      assert RowOf(action, i) == map[] && RowOf(goto, i) == map[];
      if r.ok {
        TableFillOk(g, t, start, follow, sts, i + 1, action[i := r.row], goto[i := r.grow]);
      }
    }
  }

  /** The fill writes rows of states only. */
  lemma {:induction false} TableFillKeys(g: seq<Production>, t: set<string>, start: string, follow: map<string, set<string>>,
                                         sts: seq<State>, i: nat,
                                         action: map<nat, map<string, Action>>, goto: map<nat, map<string, nat>>)
    requires AllValid(g, sts) && i <= |sts|
    requires forall k :: k in action ==> k < i
    ensures forall k :: k in TableFill(g, t, start, follow, sts, i, action, goto).action ==> k < |sts|
    decreases |sts| - i
  {
    if i < |sts| {
      var r := StateFill(g, t, start, follow, sts[i], RowOf(action, i), RowOf(goto, i));
      if r.ok {
        TableFillKeys(g, t, start, follow, sts, i + 1, action[i := r.row], goto[i := r.grow]);
      }
    }
  }

  /** Row k after the fill is state k's own fill, or empty when an earlier state was refused. */
  lemma {:induction false} TableFillRow(g: seq<Production>, t: set<string>, start: string, follow: map<string, set<string>>,
                                        sts: seq<State>, i: nat,
                                        action: map<nat, map<string, Action>>, goto: map<nat, map<string, nat>>, k: nat)
    requires AllValid(g, sts) && i <= k < |sts|
    requires forall j :: j in action ==> j < i
    requires forall j :: j in goto ==> j < i
    ensures var f := TableFill(g, t, start, follow, sts, i, action, goto);
            var r := Own(g, t, start, follow, sts[k]);
            (RowOf(f.action, k) == r.row && RowOf(f.goto, k) == r.grow)
            || (RowOf(f.action, k) == map[] && RowOf(f.goto, k) == map[] && !f.ok)
    decreases |sts| - i
  {
    var r := Own(g, t, start, follow, sts[i]);
    assert RowOf(action, i) == map[] && RowOf(goto, i) == map[];
    var action', goto' := action[i := r.row], goto[i := r.grow];
    if r.ok && i < k {
      TableFillRow(g, t, start, follow, sts, i + 1, action', goto', k);
    } else if r.ok {
      TableFillKept(g, t, start, follow, sts, i + 1, action', goto', k);
    }
  }

  /** Rows before i are left as they are. */
  lemma {:induction false} TableFillKept(g: seq<Production>, t: set<string>, start: string, follow: map<string, set<string>>,
                                         sts: seq<State>, i: nat,
                                         action: map<nat, map<string, Action>>, goto: map<nat, map<string, nat>>, k: nat)
    requires AllValid(g, sts) && k < i
    ensures var f := TableFill(g, t, start, follow, sts, i, action, goto);
            RowOf(f.action, k) == RowOf(action, k) && RowOf(f.goto, k) == RowOf(goto, k)
    decreases |sts| - i
  {
    if i < |sts| {
      var r := StateFill(g, t, start, follow, sts[i], RowOf(action, i), RowOf(goto, i));
      if r.ok {
        TableFillKept(g, t, start, follow, sts, i + 1, action[i := r.row], goto[i := r.grow], k);
      }
    }
  }

  /** buildSLRTable run on the tables of a fresh analyzer. */
  ghost function FreshFill(g: seq<Production>, t: set<string>, start: string, follow: map<string, set<string>>, sts: seq<State>): Tables
    requires AllValid(g, sts)
  {
    TableFill(g, t, start, follow, sts, 0, map[], map[])
  }

  /**
   * Whatever the outcome: only rows of states are written, every ACTION entry
   * is demanded by its state, and every GOTO entry is a transition on a non-terminal.
   */
  lemma SlrEntries(g: seq<Production>, t: set<string>, start: string, follow: map<string, set<string>>, sts: seq<State>, k: nat)
    requires AllValid(g, sts) && k < |sts|
    ensures var f := FreshFill(g, t, start, follow, sts);
            (forall j :: j in f.action ==> j < |sts|)
            && Entries(g, t, start, follow, sts[k], RowOf(f.action, k))
            && (forall x :: x in RowOf(f.goto, k) ==>
                  x in sts[k].transitions && x !in t && RowOf(f.goto, k)[x] == sts[k].transitions[x])
  {
    TableFillKeys(g, t, start, follow, sts, 0, map[], map[]);
    TableFillRow(g, t, start, follow, sts, 0, map[], map[], k);
    StateFillFacts(g, t, start, follow, sts[k]);
  }

  /**
   * A successful fill has, in every state, each non-terminal transition in
   * GOTO and, away from the masked cell, each shift and each reduce it demands in ACTION.
   */
  lemma SlrFilled(g: seq<Production>, t: set<string>, start: string, follow: map<string, set<string>>, sts: seq<State>, k: nat)
    requires AllValid(g, sts) && k < |sts|
    requires FreshFill(g, t, start, follow, sts).ok
    ensures var f := FreshFill(g, t, start, follow, sts);
            FilledBy(g, t, start, follow, sts[k], RowOf(f.action, k), sts[k].items)
            && (forall x :: x in sts[k].transitions && x !in t ==>
                  x in RowOf(f.goto, k) && RowOf(f.goto, k)[x] == sts[k].transitions[x])
  {
    TableFillOk(g, t, start, follow, sts, 0, map[], map[]);
    TableFillRow(g, t, start, follow, sts, 0, map[], map[], k);
    StateFillFacts(g, t, start, follow, sts[k]);
  }

  /**
   * The conflict check: with no conflict in any state the fill gets through;
   * when it gets through, every conflict sits on the masked cell.
   */
  lemma SlrConflicts(g: seq<Production>, t: set<string>, start: string, follow: map<string, set<string>>, sts: seq<State>)
    requires AllValid(g, sts)
    ensures var f := FreshFill(g, t, start, follow, sts);
            ((forall k :: 0 <= k < |sts| ==> ConflictFree(g, t, start, follow, sts[k])) ==> f.ok)
            && (f.ok ==> forall k, a :: 0 <= k < |sts| && ConflictAt(g, t, start, follow, sts[k], a) ==> Masked(g, start, sts[k], a))
  {
    TableFillOk(g, t, start, follow, sts, 0, map[], map[]);
    forall k | 0 <= k < |sts|
      ensures StateFillSound(g, t, start, follow, sts[k])
    {
      StateFillFacts(g, t, start, follow, sts[k]);
    }
  }
}
