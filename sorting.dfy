/**
 * Python's `sorted()`: a stable sort by a total preorder. `sorted(..., key=k,
 * reverse=True)` is this sort with `le(a, b) = k(a) >= k(b)`, since Python's
 * reverse keeps equal keys in their original order.
 */
module Sorting {
  /** `le` is total and transitive, the order `sorted` needs from its keys. */
  ghost predicate TotalPreorder<T(!new)>(le: (T, T) -> bool) {
    && (forall a, b :: le(a, b) || le(b, a))
    && (forall a, b, c :: le(a, b) && le(b, c) ==> le(a, c))
  }

  predicate Sorted<T>(s: seq<T>, le: (T, T) -> bool) {
    forall i, j :: 0 <= i < j < |s| ==> le(s[i], s[j])
  }

  /** Inserts x into t after every element not above it. */
  function Insert<T>(t: seq<T>, x: T, le: (T, T) -> bool): (r: seq<T>)
    ensures multiset(r) == multiset(t) + multiset{x}
  {
    if t == [] then [x]
    else
      var init, last := t[..|t| - 1], t[|t| - 1];
      assert t == init + [last];
      if le(last, x) then t + [x] else Insert(init, x, le) + [last]
  }

  /** Insertion sort; it returns a permutation of its input. */
  function Sort<T>(s: seq<T>, le: (T, T) -> bool): (r: seq<T>)
    ensures multiset(r) == multiset(s)
  {
    if s == [] then []
    else
      var init, last := s[..|s| - 1], s[|s| - 1];
      assert s == init + [last];
      Insert(Sort(init, le), last, le)
  }

  lemma {:induction false} InsertSorted<T(!new)>(t: seq<T>, x: T, le: (T, T) -> bool)
    requires TotalPreorder(le) && Sorted(t, le)
    ensures Sorted(Insert(t, x, le), le)
  {
    if t != [] {
      var init, last := t[..|t| - 1], t[|t| - 1];
      if !le(last, x) {
        InsertSorted(init, x, le);
        var head := Insert(init, x, le);
        forall z | z in head ensures le(z, last) {
          assert z in multiset(head);
          if z != x {
            assert z in multiset(init);
            var i :| 0 <= i < |init| && init[i] == z;
            assert t[i] == z;
          }
        }
        var r := head + [last];
        forall i, j | 0 <= i < j < |r| ensures le(r[i], r[j]) {
          if j == |head| {
            assert r[i] in head;
          } else {
            assert r[i] == head[i] && r[j] == head[j];
          }
        }
      }
    }
  }

  /** The result of Sort is ordered. */
  lemma {:induction false} SortSorted<T(!new)>(s: seq<T>, le: (T, T) -> bool)
    requires TotalPreorder(le)
    ensures Sorted(Sort(s, le), le)
  {
    if s != [] {
      SortSorted(s[..|s| - 1], le);
      InsertSorted(Sort(s[..|s| - 1], le), s[|s| - 1], le);
    }
  }

  /** The elements of s equivalent to v under le, in their order in s. */
  function Equivalents<T>(s: seq<T>, v: T, le: (T, T) -> bool): seq<T> {
    if s == [] then []
    else
      var last := s[|s| - 1];
      Equivalents(s[..|s| - 1], v, le) + (if le(last, v) && le(v, last) then [last] else [])
  }

  lemma {:induction false} EquivalentsAppend<T>(a: seq<T>, b: seq<T>, v: T, le: (T, T) -> bool)
    ensures Equivalents(a + b, v, le) == Equivalents(a, v, le) + Equivalents(b, v, le)
  {
    if b == [] {
      assert a + b == a;
    } else {
      var init := b[..|b| - 1];
      assert (a + b)[..|a + b| - 1] == a + init;
      EquivalentsAppend(a, init, v, le);
    }
  }

  lemma EquivalentsSingleton<T>(y: T, v: T, le: (T, T) -> bool)
    ensures Equivalents([y], v, le) == if le(y, v) && le(v, y) then [y] else []
  {
    assert [y][..0] == [];
    assert Equivalents([y], v, le) == Equivalents([], v, le) + (if le(y, v) && le(v, y) then [y] else []);
  }

  lemma {:induction false} InsertStable<T(!new)>(t: seq<T>, x: T, v: T, le: (T, T) -> bool)
    requires TotalPreorder(le)
    ensures Equivalents(Insert(t, x, le), v, le) == Equivalents(t + [x], v, le)
  {
    if t != [] {
      var init, last := t[..|t| - 1], t[|t| - 1];
      if !le(last, x) {
        var ex, el := Equivalents([x], v, le), Equivalents([last], v, le);
        EquivalentsSingleton(x, v, le);
        EquivalentsSingleton(last, v, le);
        assert ex == [] || el == [];
        calc {
          Equivalents(Insert(t, x, le), v, le);
          Equivalents(Insert(init, x, le) + [last], v, le);
          { EquivalentsAppend(Insert(init, x, le), [last], v, le); }
          Equivalents(Insert(init, x, le), v, le) + el;
          { InsertStable(init, x, v, le); EquivalentsAppend(init, [x], v, le); }
          Equivalents(init, v, le) + ex + el;
          Equivalents(init, v, le) + el + ex;
          { EquivalentsAppend(init, [last], v, le); assert t == init + [last]; }
          Equivalents(t, v, le) + ex;
          { EquivalentsAppend(t, [x], v, le); }
          Equivalents(t + [x], v, le);
        }
      }
    }
  }

  /** Sort is stable: the elements equivalent to any v keep their relative order. */
  lemma {:induction false} SortStable<T(!new)>(s: seq<T>, v: T, le: (T, T) -> bool)
    requires TotalPreorder(le)
    ensures Equivalents(Sort(s, le), v, le) == Equivalents(s, v, le)
  {
    if s != [] {
      var init, last := s[..|s| - 1], s[|s| - 1];
      assert s == init + [last];
      calc {
        Equivalents(Sort(s, le), v, le);
        Equivalents(Insert(Sort(init, le), last, le), v, le);
        { InsertStable(Sort(init, le), last, v, le); }
        Equivalents(Sort(init, le) + [last], v, le);
        { EquivalentsAppend(Sort(init, le), [last], v, le); }
        Equivalents(Sort(init, le), v, le) + Equivalents([last], v, le);
        { SortStable(init, v, le); }
        Equivalents(init, v, le) + Equivalents([last], v, le);
        { EquivalentsAppend(init, [last], v, le); }
        Equivalents(s, v, le);
      }
    }
  }
}
