/** The JavaScript collection idioms the movie store is built from: an
    insertion-ordered `Map` held as its list of entries, a `Set` held as its
    list of members, and `Array.prototype.filter`. Sequences stand for
    JavaScript arrays. */
module JsCollections {

  /** The keys of an entry list. */
  function KeysOf<K, V>(es: seq<(K, V)>): set<K>
  {
    set i | 0 <= i < |es| :: es[i].0
  }

  /** No two entries share a key, as in the entry list of a `Map`. */
  predicate DistinctKeys<K(==), V>(es: seq<(K, V)>)
  {
    forall i, j :: 0 <= i < j < |es| ==> es[i].0 != es[j].0
  }

  lemma KeysOfSnoc<K, V>(es: seq<(K, V)>, e: (K, V))
    ensures KeysOf(es + [e]) == KeysOf(es) + {e.0}
  {
    var fs := es + [e];
    forall k | k in KeysOf(fs) ensures k in KeysOf(es) + {e.0} {
      var i :| 0 <= i < |fs| && fs[i].0 == k;
      if i < |es| {
        assert fs[i] == es[i];
      }
    }
    forall k | k in KeysOf(es) ensures k in KeysOf(fs) {
      var i :| 0 <= i < |es| && es[i].0 == k;
      assert fs[i] == es[i];
    }
    assert fs[|es|] == e;
  }

  /** The first index of an entry with key `k`, or -1. */
  function FindIndex<K(==), V>(es: seq<(K, V)>, k: K): (i: int)
    ensures -1 <= i < |es|
    ensures i >= 0 ==> es[i].0 == k
    ensures forall j :: 0 <= j < |es| && (i < 0 || j < i) ==> es[j].0 != k
    ensures i < 0 <==> k !in KeysOf(es)
  {
    if es == [] then -1
    else if es[0].0 == k then 0
    else
      var i := FindIndex(es[1..], k);
      assert forall j :: 1 <= j < |es| ==> es[1..][j - 1] == es[j];
      if i < 0 then -1 else i + 1
  }

  /** The last index of an entry with key `k`, or -1. */
  function FindLastIndex<K(==), V>(es: seq<(K, V)>, k: K): (i: int)
    ensures -1 <= i < |es|
    ensures i >= 0 ==> es[i].0 == k
    ensures forall j :: i < j < |es| ==> es[j].0 != k
    ensures i < 0 <==> k !in KeysOf(es)
  {
    if es == [] then -1
    else if es[|es| - 1].0 == k then |es| - 1
    else
      KeysOfSnoc(es[..|es| - 1], es[|es| - 1]);
      assert es[..|es| - 1] + [es[|es| - 1]] == es;
      FindLastIndex(es[..|es| - 1], k)
  }

  /** `Map.prototype.set(k, v)` on the entry list of a map: an entry already
      holding `k` keeps its position and takes the new value; otherwise the
      entry goes to the end. */
  function MapSet<K(==), V>(es: seq<(K, V)>, k: K, v: V): seq<(K, V)>
  {
    var i := FindIndex(es, k);
    if i >= 0 then es[i := (k, v)] else es + [(k, v)]
  }

  /** On an entry list without repeated keys, `set` keeps the keys distinct
      and adds `k` to them; it replaces the entry holding `k` in place, or
      appends the new entry when there is none. */
  lemma MapSetSpec<K, V>(es: seq<(K, V)>, k: K, v: V)
    requires DistinctKeys(es)
    ensures var r := MapSet(es, k, v);
      && DistinctKeys(r)
      && KeysOf(r) == KeysOf(es) + {k}
      && (k in KeysOf(es) ==>
            |r| == |es| &&
            forall i :: 0 <= i < |r| ==> r[i] == (if es[i].0 == k then (k, v) else es[i]))
      && (k !in KeysOf(es) ==> r == es + [(k, v)])
  {
    var i := FindIndex(es, k);
    if i >= 0 {
      var r := es[i := (k, v)];
      assert forall j :: 0 <= j < |r| ==> r[j].0 == es[j].0;
      assert KeysOf(r) == KeysOf(es);
    } else {
      KeysOfSnoc(es, (k, v));
    }
  }

  /** `new Map(pairs)`: the pairs set one after another into an empty map. */
  function NewMap<K(==), V>(pairs: seq<(K, V)>): seq<(K, V)>
  {
    if pairs == [] then []
    else
      var last := pairs[|pairs| - 1];
      MapSet(NewMap(pairs[..|pairs| - 1]), last.0, last.1)
  }

  /** A map built from pairs has no repeated key and holds every key of the pairs. */
  lemma {:induction false} NewMapKeys<K, V>(pairs: seq<(K, V)>)
    ensures DistinctKeys(NewMap(pairs))
    ensures KeysOf(NewMap(pairs)) == KeysOf(pairs)
  {
    if pairs != [] {
      var init, last := pairs[..|pairs| - 1], pairs[|pairs| - 1];
      assert init + [last] == pairs;
      KeysOfSnoc(init, last);
      NewMapKeys(init);
      MapSetSpec(NewMap(init), last.0, last.1);
    }
  }

  /** Building from one more pair is one more `set`, which acts as
      `MapSetSpec` describes. */
  lemma NewMapSnoc<K, V>(init: seq<(K, V)>, last: (K, V))
    ensures NewMap(init + [last]) == MapSet(NewMap(init), last.0, last.1)
    ensures DistinctKeys(NewMap(init))
    ensures KeysOf(NewMap(init)) == KeysOf(init)
    ensures var m0, m := NewMap(init), NewMap(init + [last]);
      && (last.0 in KeysOf(m0) ==>
            |m| == |m0| &&
            forall i :: 0 <= i < |m| ==> m[i] == (if m0[i].0 == last.0 then last else m0[i]))
      && (last.0 !in KeysOf(m0) ==> m == m0 + [last])
  {
    assert (init + [last])[..|init|] == init;
    NewMapKeys(init);
    MapSetSpec(NewMap(init), last.0, last.1);
  }

  /** A map holds one entry per distinct key of the pairs it was built from. */
  lemma {:induction false} NewMapLength<K, V>(pairs: seq<(K, V)>)
    ensures |NewMap(pairs)| == |KeysOf(pairs)|
  {
    if pairs != [] {
      var init, last := pairs[..|pairs| - 1], pairs[|pairs| - 1];
      assert init + [last] == pairs;
      KeysOfSnoc(init, last);
      NewMapLength(init);
      NewMapSnoc(init, last);
      if last.0 in KeysOf(init) {
        assert KeysOf(pairs) == KeysOf(init);
      } else {
        assert |KeysOf(pairs)| == |KeysOf(init)| + 1;
      }
    }
  }

  lemma FindLastIndexSnoc<K, V>(es: seq<(K, V)>, e: (K, V), k: K)
    ensures FindLastIndex(es + [e], k) == if e.0 == k then |es| else FindLastIndex(es, k)
  {
  }

  /** Each entry of the map is the LAST pair with its key: a later pair
      overwrites the value of an earlier one. */
  lemma {:induction false} NewMapKeepsLast<K, V>(pairs: seq<(K, V)>)
    ensures var m := NewMap(pairs);
      forall j :: 0 <= j < |m| ==>
        0 <= FindLastIndex(pairs, m[j].0) && m[j] == pairs[FindLastIndex(pairs, m[j].0)]
  {
    if pairs != [] {
      var init, last := pairs[..|pairs| - 1], pairs[|pairs| - 1];
      assert init + [last] == pairs;
      NewMapKeepsLast(init);
      NewMapSnoc(init, last);
      var m0, m := NewMap(init), NewMap(pairs);
      forall j | 0 <= j < |m|
        ensures 0 <= FindLastIndex(pairs, m[j].0) && m[j] == pairs[FindLastIndex(pairs, m[j].0)]
      {
        FindLastIndexSnoc(init, last, m[j].0);
        if j < |m0| && m0[j].0 != last.0 {
          assert m[j] == m0[j];
          var i := FindLastIndex(init, m0[j].0);
          assert 0 <= i && m0[j] == init[i];
          assert pairs[i] == init[i];
        } else if j < |m0| {
          assert m[j] == last;
        } else {
          assert last.0 !in KeysOf(init);
          assert m == m0 + [last];
          assert m[j] == last;
        }
      }
    }
  }

  /** `NewMapKeepsLast` at one entry. */
  lemma NewMapEntry<K, V>(pairs: seq<(K, V)>, j: int)
    requires 0 <= j < |NewMap(pairs)|
    ensures 0 <= FindLastIndex(pairs, NewMap(pairs)[j].0)
    ensures NewMap(pairs)[j] == pairs[FindLastIndex(pairs, NewMap(pairs)[j].0)]
  {
    NewMapKeepsLast(pairs);
  }

  lemma FindIndexSnoc<K, V>(es: seq<(K, V)>, e: (K, V), k: K)
    ensures FindIndex(es + [e], k) ==
      if FindIndex(es, k) >= 0 then FindIndex(es, k)
      else if e.0 == k then |es| else -1
  {
    var fs := es + [e];
    var i := FindIndex(es, k);
    assert forall j :: 0 <= j < |es| ==> fs[j] == es[j];
    if i >= 0 {
      assert fs[i].0 == k;
    } else if e.0 == k {
      assert fs[|es|].0 == k;
    }
  }

  /** Adding a pair keeps each entry's key and its first index, and an
      entry added at the end has the new pair's index. */
  lemma NewMapFirstStep<K, V>(init: seq<(K, V)>, last: (K, V), j: int)
    requires 0 <= j < |NewMap(init + [last])|
    ensures var m0, m := NewMap(init), NewMap(init + [last]);
      && (j < |m0| ==>
            && m[j].0 == m0[j].0
            && 0 <= FindIndex(init + [last], m[j].0) == FindIndex(init, m0[j].0) < |init|)
      && (j >= |m0| ==> FindIndex(init + [last], m[j].0) == |init|)
  {
    NewMapSnoc(init, last);
    var m0, m := NewMap(init), NewMap(init + [last]);
    if j < |m0| {
      assert m0[j].0 in KeysOf(m0);
      FindIndexSnoc(init, last, m0[j].0);
    } else {
      assert last.0 !in KeysOf(init);
      assert m == m0 + [last];
      FindIndexSnoc(init, last, last.0);
    }
  }

  /** The entries are ordered by where their key FIRST occurs in the pairs:
      overwriting a value does not move its entry. */
  lemma {:induction false} NewMapKeepsFirstPosition<K, V>(pairs: seq<(K, V)>)
    ensures var m := NewMap(pairs);
      && (forall j :: 0 <= j < |m| ==> 0 <= FindIndex(pairs, m[j].0))
      && (forall j, j' :: 0 <= j < j' < |m| ==> FindIndex(pairs, m[j].0) < FindIndex(pairs, m[j'].0))
  {
    if pairs != [] {
      var init, last := pairs[..|pairs| - 1], pairs[|pairs| - 1];
      assert init + [last] == pairs;
      NewMapKeepsFirstPosition(init);
      var m0, m := NewMap(init), NewMap(pairs);
      forall j | 0 <= j < |m| ensures 0 <= FindIndex(pairs, m[j].0) {
        NewMapFirstStep(init, last, j);
      }
      forall j, j' | 0 <= j < j' < |m| ensures FindIndex(pairs, m[j].0) < FindIndex(pairs, m[j'].0) {
        NewMapFirstStep(init, last, j);
        NewMapFirstStep(init, last, j');
      }
    }
  }

  /** `NewMapKeepsFirstPosition` at one pair of entries. */
  lemma NewMapOrder<K, V>(pairs: seq<(K, V)>, j: int, j': int)
    requires 0 <= j < j' < |NewMap(pairs)|
    ensures 0 <= FindIndex(pairs, NewMap(pairs)[j].0) < FindIndex(pairs, NewMap(pairs)[j'].0)
  {
    NewMapKeepsFirstPosition(pairs);
  }

  /** A map built from pairs that repeat no key holds exactly those pairs, in order. */
  lemma {:induction false} NewMapOfDistinct<K, V>(pairs: seq<(K, V)>)
    requires DistinctKeys(pairs)
    ensures NewMap(pairs) == pairs
  {
    if pairs != [] {
      var init, last := pairs[..|pairs| - 1], pairs[|pairs| - 1];
      assert init + [last] == pairs;
      assert DistinctKeys(init) by {
        forall i, j | 0 <= i < j < |init| ensures init[i].0 != init[j].0 {
          assert init[i] == pairs[i] && init[j] == pairs[j];
        }
      }
      NewMapOfDistinct(init);
      NewMapSnoc(init, last);
      assert last.0 !in KeysOf(init) by {
        forall i | 0 <= i < |init| ensures init[i].0 != last.0 {
          assert init[i] == pairs[i];
        }
      }
    }
  }

  /** `[...map.values()]`: the values of the entries, in insertion order. */
  function Values<K, V>(es: seq<(K, V)>): (vs: seq<V>)
    ensures |vs| == |es|
  {
    if es == [] then [] else [es[0].1] + Values(es[1..])
  }

  /** The values come in the order of their entries. */
  lemma {:induction false} ValuesAt<K, V>(es: seq<(K, V)>)
    ensures forall i :: 0 <= i < |es| ==> Values(es)[i] == es[i].1
  {
    if es != [] {
      ValuesAt(es[1..]);
    }
  }

  /** No element occurs twice. */
  predicate Distinct<T(==)>(xs: seq<T>)
  {
    forall i, j :: 0 <= i < j < |xs| ==> xs[i] != xs[j]
  }

  /** `Set.prototype.add(x)` on the member list of a set: a new member goes
      to the end, an existing one stays where it is. */
  function SetAdd<T(==)>(xs: seq<T>, x: T): seq<T>
  {
    if x in xs then xs else xs + [x]
  }

  /** `new Set(xs)`: the elements of `xs` added one after another to an empty set. */
  function NewSet<T(==)>(xs: seq<T>): seq<T>
  {
    if xs == [] then [] else SetAdd(NewSet(xs[..|xs| - 1]), xs[|xs| - 1])
  }

  /** A set built from `xs` holds each element of `xs` once and nothing else. */
  lemma {:induction false} NewSetMembers<T>(xs: seq<T>)
    ensures Distinct(NewSet(xs))
    ensures forall x :: x in NewSet(xs) <==> x in xs
  {
    if xs != [] {
      var init, last := xs[..|xs| - 1], xs[|xs| - 1];
      assert init + [last] == xs;
      NewSetMembers(init);
      forall x ensures x in xs <==> x in init || x == last {
        assert x in init ==> x in xs;
      }
    }
  }

  /** A set built from a list without repeats holds that list, in order. */
  lemma {:induction false} NewSetOfDistinct<T>(xs: seq<T>)
    requires Distinct(xs)
    ensures NewSet(xs) == xs
  {
    if xs != [] {
      var init, last := xs[..|xs| - 1], xs[|xs| - 1];
      assert init + [last] == xs;
      assert last !in init by {
        forall i | 0 <= i < |init| ensures init[i] != last {
          assert init[i] == xs[i];
        }
      }
      NewSetOfDistinct(init);
    }
  }

  /** `s.filter(p)`: the elements of `s` that satisfy `p`, in their order in `s`. */
  function Filter<T(!new)>(s: seq<T>, p: T -> bool): (r: seq<T>)
    ensures |r| <= |s|
  {
    if s == [] then []
    else (if p(s[0]) then [s[0]] else []) + Filter(s[1..], p)
  }

  /** The filtered list holds exactly the elements of `s` that satisfy `p`. */
  lemma {:induction false} FilterMembers<T(!new)>(s: seq<T>, p: T -> bool)
    ensures forall x :: x in Filter(s, p) <==> x in s && p(x)
  {
    if s != [] {
      FilterMembers(s[1..], p);
      assert s == [s[0]] + s[1..];
    }
  }

  /** Filtering distributes over concatenation, so kept elements stay in order. */
  lemma {:induction false} FilterConcat<T(!new)>(a: seq<T>, b: seq<T>, p: T -> bool)
    ensures Filter(a + b, p) == Filter(a, p) + Filter(b, p)
  {
    if a != [] {
      assert (a + b)[0] == a[0];
      assert (a + b)[1..] == a[1..] + b;
      FilterConcat(a[1..], b, p);
    } else {
      assert a + b == b;
    }
  }

  /** A filter that every element passes returns its input unchanged. */
  lemma {:induction false} FilterKeepsAll<T(!new)>(s: seq<T>, p: T -> bool)
    requires forall i :: 0 <= i < |s| ==> p(s[i])
    ensures Filter(s, p) == s
  {
    if s != [] {
      FilterKeepsAll(s[1..], p);
      assert [s[0]] + s[1..] == s;
    }
  }

  /** Filtering keeps a list free of repeats. */
  lemma {:induction false} FilterDistinct<T(!new)>(s: seq<T>, p: T -> bool)
    requires Distinct(s)
    ensures Distinct(Filter(s, p))
  {
    if s != [] {
      var t := s[1..];
      assert Distinct(t) by {
        forall i, j | 0 <= i < j < |t| ensures t[i] != t[j] {
          assert t[i] == s[i + 1] && t[j] == s[j + 1];
        }
      }
      FilterDistinct(t, p);
      FilterMembers(t, p);
      assert s[0] !in t by {
        forall m | 0 <= m < |t| ensures t[m] != s[0] {
          assert t[m] == s[m + 1];
        }
      }
    }
  }
}
