/** Facts about finite sets and maps of sets used by the termination arguments. */
module Sets {

  lemma SubsetCardinality<T>(a: set<T>, b: set<T>)
    requires a <= b
    ensures |a| <= |b|
  {
    assert b == a + (b - a);
  }

  lemma StrictSubsetCardinality<T>(a: set<T>, b: set<T>)
    requires a < b
    ensures |a| < |b|
  {
    assert b - a != {} by { assert b != a; }
    var x :| x in b - a;
    assert a <= b - {x};
    SubsetCardinality(a, b - {x});
  }

  lemma StrictSubsetWitness<T>(a: set<T>, b: set<T>)
    requires a < b
    ensures exists x :: x in b && x !in a
  {
    assert !(b <= a);
  }

  /** All subsets of u. */
  ghost function PowerSet<T(!new)>(u: set<T>): (p: set<set<T>>)
    ensures forall s :: s in p <==> s <= u
  {
    if u == {} then
      assert forall s: set<T> :: s <= u ==> s == {};
      {{}}
    else
      var x :| x in u;
      var q := PowerSet(u - {x});
      var p := q + set s | s in q :: s + {x};
      assert forall s :: s <= u ==> s in p by {
        forall s | s <= u
          ensures s in p
        {
          if x in s {
            assert s - {x} in q;
            assert s == (s - {x}) + {x};
          } else {
            assert s in q;
          }
        }
      }
      p
  }

  /** C++ `m[k]` on a map of sets, read without inserting: an absent key reads as the empty set. */
  function Get<K>(m: map<K, set<string>>, k: K): set<string> {
    if k in m then m[k] else {}
  }

  /** m2 holds every element m1 holds, key by key. */
  ghost predicate Below<K>(m1: map<K, set<string>>, m2: map<K, set<string>>) {
    forall k :: k in m1 ==> Get(m1, k) <= Get(m2, k)
  }

  /** m1 and m2 agree on every key, reading absent keys as empty. */
  ghost predicate SameSets<K>(m1: map<K, set<string>>, m2: map<K, set<string>>) {
    Below(m1, m2) && Below(m2, m1)
  }

  /** The (key, element) pairs of m over the keys in ks. */
  ghost function Pairs(ks: set<string>, m: map<string, set<string>>): set<(string, string)> {
    set k, a | k in ks && a in Get(m, k) :: (k, a)
  }

  ghost function Product(ks: set<string>, vs: set<string>): set<(string, string)> {
    set k, a | k in ks && a in vs :: (k, a)
  }

  /** Growing a set by a superset shows in its size exactly when something was added. */
  lemma SupersetGrows<T>(a: set<T>, b: set<T>)
    requires a <= b
    ensures |b| > |a| <==> a != b
  {
    if a != b {
      StrictSubsetCardinality(a, b);
    }
  }

  lemma BelowTransitive<K>(m1: map<K, set<string>>, m2: map<K, set<string>>, m3: map<K, set<string>>)
    requires Below(m1, m2) && Below(m2, m3)
    ensures Below(m1, m3)
  {
    forall k | k in m1
      ensures Get(m1, k) <= Get(m3, k)
    {
      if k !in m2 {
        assert Get(m1, k) <= {};
      }
    }
  }

  /** Moving one element from the unvisited part of a set to the visited part. */
  lemma VisitOne<T>(rest: set<T>, done: set<T>, all: set<T>, x: T)
    requires rest + done == all && rest !! done && x in rest
    ensures (rest - {x}) + (done + {x}) == all && (rest - {x}) !! (done + {x})
    ensures |rest - {x}| < |rest|
  {
  }

  /** The same, where the visited part is the key set of a map that gains the key x. */
  lemma VisitKey<K, V>(rest: set<K>, m: map<K, V>, all: set<K>, x: K, v: V)
    requires rest + m.Keys == all && rest !! m.Keys && x in rest
    ensures (rest - {x}) + m[x := v].Keys == all && (rest - {x}) !! m[x := v].Keys
    ensures |rest - {x}| < |rest|
  {
    VisitOne(rest, m.Keys, all, x);
    assert m[x := v].Keys == m.Keys + {x};
  }

  /** Along a chain a <= b <= c, c differs from a exactly when one of the two steps grew. */
  lemma GrowChain<T>(a: set<T>, b: set<T>, c: set<T>)
    requires a <= b <= c
    ensures (c != a) == (b != a || c != b)
  {
    if c != b {
      var x :| x in c && x !in b;
      assert x !in a;
    }
  }

  lemma UnionSnoc<T>(a: set<T>, b: set<T>, x: T)
    ensures (a + b) + {x} == a + (b + {x})
  {
  }

  lemma SplitLast<T>(s: seq<T>)
    requires s != []
    ensures s == s[..|s| - 1] + [s[|s| - 1]]
  {
  }

  lemma SliceSplit<T>(s: seq<T>, p: nat, e: nat)
    requires p <= e <= |s|
    ensures s[p..] == s[p..e] + s[e..]
  {
  }

  lemma SnocFacts<T>(a: seq<T>, x: T)
    ensures |a + [x]| == |a| + 1 && (a + [x])[..|a|] == a && (a + [x])[|a|] == x
  {
  }

  lemma PrefixSnoc<T>(s: seq<T>, a: seq<T>, x: T)
    requires |s| > |a| && s[..|a| + 1] == a + [x]
    ensures s[..|a|] == a
  {
    assert s[..|a|] == s[..|a| + 1][..|a|];
  }

  lemma AppendSnoc<T>(a: seq<T>, b: seq<T>, x: T)
    ensures (a + b) + [x] == a + (b + [x])
  {
  }

  /** Every element held under some key of m. */
  ghost function Values<K>(m: map<K, set<string>>): set<string> {
    set k, a | k in m && a in m[k] :: a
  }

  lemma PairsMonotone(ks: set<string>, m1: map<string, set<string>>, m2: map<string, set<string>>)
    requires Below(m1, m2)
    ensures Pairs(ks, m1) <= Pairs(ks, m2)
  {
    forall pr | pr in Pairs(ks, m1)
      ensures pr in Pairs(ks, m2)
    {
      var k, a :| k in ks && a in Get(m1, k) && pr == (k, a);
      assert a in Get(m2, k);
    }
  }

  lemma PairsGrow(ks: set<string>, m1: map<string, set<string>>, m2: map<string, set<string>>, k: string)
    requires Below(m1, m2) && k in ks
    requires !(Get(m2, k) <= Get(m1, k))
    ensures Pairs(ks, m1) < Pairs(ks, m2)
  {
    PairsMonotone(ks, m1, m2);
    var a :| a in Get(m2, k) && a !in Get(m1, k);
    assert (k, a) in Pairs(ks, m2);
    assert (k, a) !in Pairs(ks, m1);
  }
}
