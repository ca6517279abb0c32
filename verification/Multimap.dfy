/** The part of std::multimap<int, V> the library relies on: a sequence kept in
    ascending key order, into which a new pair goes behind every pair of the same key. */
module Multimap {

  datatype Option<+T> = None | Some(value: T)

  datatype Pair<+V> = Pair(key: int, value: V)

  ghost predicate Ordered<V>(q: seq<Pair<V>>) {
    forall i, j :: 0 <= i < j < |q| ==> q[i].key <= q[j].key
  }

  function UpperBound<V>(q: seq<Pair<V>>, key: int): (p: nat)
    ensures p <= |q|
    ensures forall i :: 0 <= i < p ==> q[i].key <= key
    ensures p < |q| ==> key < q[p].key
  {
    if q == [] || key < q[0].key then 0 else 1 + UpperBound(q[1..], key)
  }

  function Insert<V>(q: seq<Pair<V>>, e: Pair<V>): seq<Pair<V>> {
    var p := UpperBound(q, e.key);
    q[..p] + [e] + q[p..]
  }

  /** Inserts the pairs of `es` one after the other. */
  function InsertAll<V>(q: seq<Pair<V>>, es: seq<Pair<V>>): seq<Pair<V>>
    decreases es
  {
    if es == [] then q else InsertAll(Insert(q, es[0]), es[1..])
  }

  /** What iterating over a multimap filled from `es` yields. */
  function StableSort<V>(es: seq<Pair<V>>): seq<Pair<V>> {
    InsertAll([], es)
  }

  /** The subsequence of pairs that carry `key`. */
  function Select<V>(q: seq<Pair<V>>, key: int): seq<Pair<V>> {
    if q == [] then []
    else (if q[0].key == key then [q[0]] else []) + Select(q[1..], key)
  }

  lemma {:induction false} SelectConcat<V>(a: seq<Pair<V>>, b: seq<Pair<V>>, key: int)
    ensures Select(a + b, key) == Select(a, key) + Select(b, key)
  {
    if a == [] {
      assert a + b == b;
    } else {
      SelectConcat(a[1..], b, key);
      assert (a + b)[0] == a[0] && (a + b)[1..] == a[1..] + b;
      Associative(if a[0].key == key then [a[0]] else [], Select(a[1..], key), Select(b, key));
    }
  }

  lemma Associative<T>(a: seq<T>, b: seq<T>, c: seq<T>)
    ensures a + (b + c) == (a + b) + c
  {
  }

  lemma {:induction false} SelectNone<V>(q: seq<Pair<V>>, key: int)
    requires forall i :: 0 <= i < |q| ==> q[i].key != key
    ensures Select(q, key) == []
  {
    if q != [] {
      SelectNone(q[1..], key);
    }
  }

  lemma InsertAt<V>(q: seq<Pair<V>>, e: Pair<V>, i: nat)
    requires i <= |q|
    ensures |Insert(q, e)| == |q| + 1
    ensures var p := UpperBound(q, e.key);
            Insert(q, e)[i] == if i < p then q[i] else if i == p then e else q[i - 1]
  {
  }

  lemma InsertKeepsOrder<V>(q: seq<Pair<V>>, e: Pair<V>)
    requires Ordered(q)
    ensures Ordered(Insert(q, e))
  {
    var p, r := UpperBound(q, e.key), Insert(q, e);
    hide UpperBound;
    forall i, j | 0 <= i < j < |r| ensures r[i].key <= r[j].key {
      assert r[i] == if i < p then q[i] else if i == p then e else q[i - 1];
      assert r[j] == if j < p then q[j] else if j == p then e else q[j - 1];
      assert j > p ==> q[p].key <= q[j - 1].key;
    }
  }

  /** Up to `p` all keys are `key` or smaller, and from there on they are larger. */
  ghost predicate Splits<V>(q: seq<Pair<V>>, key: int, p: nat) {
    && p <= |q|
    && (forall i :: 0 <= i < p ==> q[i].key <= key)
    && (forall i :: p <= i < |q| ==> q[i].key > key)
  }

  /** `r` is `q` with `e` behind everything that has its key, or a smaller one. */
  ghost predicate PutBehind<V>(q: seq<Pair<V>>, e: Pair<V>, r: seq<Pair<V>>) {
    exists p: nat :: Splits(q, e.key, p) && r == q[..p] + [e] + q[p..]
  }

  lemma InsertPutsBehind<V>(q: seq<Pair<V>>, e: Pair<V>)
    requires Ordered(q)
    ensures PutBehind(q, e, Insert(q, e))
  {
    assert Splits(q, e.key, UpperBound(q, e.key));
  }

  lemma InsertMultiset<V>(q: seq<Pair<V>>, e: Pair<V>)
    ensures multiset(Insert(q, e)) == multiset(q) + multiset{e}
  {
    var p := UpperBound(q, e.key);
    assert q == q[..p] + q[p..];
  }

  lemma InsertSelect<V>(q: seq<Pair<V>>, e: Pair<V>, key: int)
    requires Ordered(q)
    ensures Select(Insert(q, e), key) == Select(q, key) + Select([e], key)
  {
    var p := UpperBound(q, e.key);
    var front, back := q[..p], q[p..];
    assert q == front + back;
    if e.key == key {
      forall i | 0 <= i < |back| ensures back[i].key != key {
        assert back[0].key <= back[i].key;
      }
      SelectNone(back, key);
    } else {
      SelectNone([e], key);
    }
    hide UpperBound, Select;
    SelectConcat(front + [e], back, key);
    SelectConcat(front, [e], key);
    SelectConcat(front, back, key);
    OneIsEmpty(Select(front, key), Select([e], key), Select(back, key));
  }

  lemma OneIsEmpty<T>(a: seq<T>, b: seq<T>, c: seq<T>)
    requires b == [] || c == []
    ensures (a + b) + c == (a + c) + b
  {
  }

  lemma {:induction false} InsertAllStable<V>(q: seq<Pair<V>>, es: seq<Pair<V>>, key: int)
    requires Ordered(q)
    ensures Ordered(InsertAll(q, es))
    ensures multiset(InsertAll(q, es)) == multiset(q) + multiset(es)
    ensures Select(InsertAll(q, es), key) == Select(q, key) + Select(es, key)
    decreases es
  {
    if es != [] {
      InsertKeepsOrder(q, es[0]);
      InsertMultiset(q, es[0]);
      InsertSelect(q, es[0], key);
      InsertAllStable(Insert(q, es[0]), es[1..], key);
      assert es == [es[0]] + es[1..];
      SelectConcat([es[0]], es[1..], key);
      Associative(Select(q, key), Select([es[0]], key), Select(es[1..], key));
    }
  }

  /** For every key, `a` and `b` hold the same pairs in the same order. */
  ghost predicate SameGroups<V>(a: seq<Pair<V>>, b: seq<Pair<V>>) {
    forall key :: Select(a, key) == Select(b, key)
  }

  /** Order and the per-key subsequences determine a sequence. */
  lemma {:induction false} OrderedUnique<V>(a: seq<Pair<V>>, b: seq<Pair<V>>)
    requires Ordered(a) && Ordered(b)
    requires SameGroups(a, b)
    ensures a == b
  {
    if a == [] {
      if b != [] {
        HeadIsLeast(b, a);
      }
    } else {
      assert Select(a, a[0].key) == Select(b, a[0].key);
      HeadIsLeast(a, b);
      assert Select(a, b[0].key) == Select(b, b[0].key);
      HeadIsLeast(b, a);
      forall key ensures Select(a[1..], key) == Select(b[1..], key) {
        assert Select(a, key) == Select(b, key);
        assert Select(a, key)[(if a[0].key == key then 1 else 0)..] == Select(a[1..], key);
        assert Select(b, key)[(if b[0].key == key then 1 else 0)..] == Select(b[1..], key);
      }
      assert a[0] == Select(a, a[0].key)[0] == Select(b, a[0].key)[0] == b[0];
      OrderedUnique(a[1..], b[1..]);
      assert a == [a[0]] + a[1..] && b == [b[0]] + b[1..];
    }
  }

  lemma HeadIsLeast<V>(a: seq<Pair<V>>, b: seq<Pair<V>>)
    requires a != [] && Ordered(b)
    requires Select(a, a[0].key) == Select(b, a[0].key)
    ensures b != [] && b[0].key <= a[0].key
  {
    if b == [] || a[0].key < b[0].key {
      SelectNone(b, a[0].key);
      assert false;
    }
  }

  /** The multimap yields THE ascending, stable arrangement of what was inserted:
      a sequence is ascending and keeps the input order within each key if and
      only if it is that arrangement. */
  lemma StableSortCharacterized<V>(es: seq<Pair<V>>, r: seq<Pair<V>>)
    ensures r == StableSort(es) <==> Ordered(r) && SameGroups(r, es)
    ensures multiset(StableSort(es)) == multiset(es)
  {
    forall key ensures Select(StableSort(es), key) == Select(es, key) {
      InsertAllStable([], es, key);
    }
    InsertAllStable([], es, 0);
    if Ordered(r) && SameGroups(r, es) {
      OrderedUnique(r, StableSort(es));
    }
  }

  // Distinct keys

  ghost predicate DistinctKeys<V>(q: seq<Pair<V>>) {
    forall i, j :: 0 <= i < j < |q| ==> q[i].key != q[j].key
  }

  lemma {:induction false} SelectMember<V>(q: seq<Pair<V>>, i: nat)
    requires i < |q|
    ensures q[i] in Select(q, q[i].key)
  {
    if i > 0 {
      SelectMember(q[1..], i - 1);
    }
  }

  lemma {:induction false} SelectDistinct<V>(q: seq<Pair<V>>, key: int)
    requires DistinctKeys(q)
    ensures |Select(q, key)| <= 1
  {
    if q != [] {
      SelectDistinct(q[1..], key);
      if q[0].key == key {
        SelectNone(q[1..], key);
      }
    }
  }

  lemma {:induction false} SelectTwice<V>(q: seq<Pair<V>>, i: nat, j: nat)
    requires i < j < |q| && q[i].key == q[j].key
    ensures |Select(q, q[i].key)| >= 2
  {
    if i == 0 {
      SelectMember(q[1..], j - 1);
    } else {
      SelectTwice(q[1..], i - 1, j - 1);
    }
  }

  /** Sorting pairs of distinct keys gives the same pairs in strictly ascending order. */
  lemma SortDistinct<V>(es: seq<Pair<V>>)
    requires DistinctKeys(es)
    ensures var s := StableSort(es);
            && |s| == |es| && (forall e :: e in s <==> e in es)
            && (forall i, j :: 0 <= i < j < |s| ==> s[i].key < s[j].key)
  {
    var s := StableSort(es);
    StableSortCharacterized(es, s);
    assert |s| == |multiset(s)| == |multiset(es)| == |es|;
    forall e ensures e in s <==> e in es {
      assert e in multiset(s) <==> e in multiset(es);
    }
    forall i, j | 0 <= i < j < |s| ensures s[i].key < s[j].key {
      if s[i].key == s[j].key {
        SelectTwice(s, i, j);
        SelectDistinct(es, s[i].key);
      }
    }
  }
}
