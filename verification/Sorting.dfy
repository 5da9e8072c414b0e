/** Python's `sorted`: a stable sort, and why its result does not depend on the order of the input. */
module Sorting {

  function Insert<T>(x: T, s: seq<T>, leq: (T, T) -> bool): seq<T> {
    if s == [] then [x] else if leq(x, s[0]) then [x] + s else [s[0]] + Insert(x, s[1..], leq)
  }

  function Sorted<T>(s: seq<T>, leq: (T, T) -> bool): seq<T> {
    if s == [] then [] else Insert(s[0], Sorted(s[1..], leq), leq)
  }

  predicate InOrder<T>(s: seq<T>, leq: (T, T) -> bool) {
    forall i, j | 0 <= i < j < |s| :: leq(s[i], s[j])
  }

  /** A total preorder. */
  ghost predicate IsOrder<T(!new)>(leq: (T, T) -> bool) {
    && (forall x, y :: leq(x, y) || leq(y, x))
    && (forall x, y, z :: leq(x, y) && leq(y, z) ==> leq(x, z))
  }

  lemma {:induction false} InsertAdds<T>(x: T, s: seq<T>, leq: (T, T) -> bool)
    ensures multiset(Insert(x, s, leq)) == multiset(s) + multiset{x}
  {
    if s != [] {
      InsertAdds(x, s[1..], leq);
      assert s == [s[0]] + s[1..];
    }
  }

  lemma InsertedFrom<T>(x: T, s: seq<T>, t: seq<T>, j: nat)
    requires multiset(t) == multiset(s) + multiset{x} && j < |t|
    ensures t[j] == x || exists i :: 0 <= i < |s| && s[i] == t[j]
  {
    assert t[j] in multiset(t);
    if t[j] != x {
      assert t[j] in multiset(s);
    }
  }

  lemma {:induction false} InsertKeepsOrder<T(!new)>(x: T, s: seq<T>, leq: (T, T) -> bool)
    requires IsOrder(leq) && InOrder(s, leq)
    ensures InOrder(Insert(x, s, leq), leq)
  {
    if s != [] && !leq(x, s[0]) {
      var tail := s[1..];
      InsertKeepsOrder(x, tail, leq);
      InsertAdds(x, tail, leq);
      var rest := Insert(x, tail, leq);
      forall j | 0 <= j < |rest| ensures leq(s[0], rest[j]) {
        InsertedFrom(x, tail, rest, j);
      }
    }
  }

  lemma NothingInOrder<T>(leq: (T, T) -> bool)
    ensures InOrder([], leq)
  {
  }

  lemma {:induction false} SortedIsOrdered<T(!new)>(s: seq<T>, leq: (T, T) -> bool)
    requires IsOrder(leq)
    ensures InOrder(Sorted(s, leq), leq) && multiset(Sorted(s, leq)) == multiset(s)
  {
    hide Insert, InOrder, IsOrder;
    if s == [] {
      NothingInOrder(leq);
    } else {
      var rest := Sorted(s[1..], leq);
      SortedIsOrdered(s[1..], leq);
      InsertKeepsOrder(s[0], rest, leq);
      InsertAdds(s[0], rest, leq);
      assert s == [s[0]] + s[1..];
    }
  }

  // ---------- One result for every order of the input ----------

  /** Elements that sort alike are equal. */
  ghost predicate TiesAreEqual<T>(s: seq<T>, leq: (T, T) -> bool) {
    forall i, j | 0 <= i < |s| && 0 <= j < |s| :: leq(s[i], s[j]) && leq(s[j], s[i]) ==> s[i] == s[j]
  }

  lemma FirstIsLeast<T(!new)>(s: seq<T>, t: seq<T>, leq: (T, T) -> bool)
    requires IsOrder(leq) && InOrder(s, leq) && InOrder(t, leq) && multiset(s) == multiset(t) && TiesAreEqual(s, leq)
    requires s != [] && t != []
    ensures s[0] == t[0]
  {
    assert s[0] in multiset(t) && t[0] in multiset(s);
    var i :| 0 <= i < |t| && t[i] == s[0];
    var j :| 0 <= j < |s| && s[j] == t[0];
  }

  lemma TailsMatch<T>(s: seq<T>, t: seq<T>)
    requires s != [] && t != [] && s[0] == t[0] && multiset(s) == multiset(t)
    ensures multiset(s[1..]) == multiset(t[1..])
  {
    assert s == [s[0]] + s[1..] && t == [t[0]] + t[1..];
    assert multiset(s[1..]) == multiset(s) - multiset{s[0]};
  }

  lemma {:induction false} OrderIsUnique<T(!new)>(s: seq<T>, t: seq<T>, leq: (T, T) -> bool)
    requires IsOrder(leq) && InOrder(s, leq) && InOrder(t, leq) && multiset(s) == multiset(t) && TiesAreEqual(s, leq)
    ensures s == t
  {
    assert |s| == |multiset(s)| == |t|;
    if s != [] {
      FirstIsLeast(s, t, leq);
      TailsMatch(s, t);
      hide IsOrder;
      OrderIsUnique(s[1..], t[1..], leq);
    }
  }

  lemma TiesStillEqual<T>(s: seq<T>, t: seq<T>, leq: (T, T) -> bool)
    requires multiset(s) == multiset(t) && TiesAreEqual(s, leq)
    ensures TiesAreEqual(t, leq)
  {
    forall i, j | 0 <= i < |t| && 0 <= j < |t| && leq(t[i], t[j]) && leq(t[j], t[i]) ensures t[i] == t[j] {
      assert t[i] in multiset(s) && t[j] in multiset(s);
      var a :| 0 <= a < |s| && s[a] == t[i];
      var b :| 0 <= b < |s| && s[b] == t[j];
    }
  }

  /** However the elements are listed, they are sorted alike. */
  lemma SortIgnoresOrder<T(!new)>(s: seq<T>, t: seq<T>, leq: (T, T) -> bool)
    requires IsOrder(leq) && multiset(s) == multiset(t) && TiesAreEqual(s, leq)
    ensures Sorted(s, leq) == Sorted(t, leq)
  {
    hide IsOrder, InOrder, TiesAreEqual;
    SortedIsOrdered(s, leq);
    SortedIsOrdered(t, leq);
    TiesStillEqual(s, Sorted(s, leq), leq);
    OrderIsUnique(Sorted(s, leq), Sorted(t, leq), leq);
  }

  lemma TwiceInList<T>(s: seq<T>, i: nat, j: nat)
    requires i < j < |s| && s[i] == s[j]
    ensures multiset(s)[s[i]] >= 2
  {
    assert s == s[..j] + [s[j]] + s[j + 1..];
    assert s[..j][i] == s[i] && s[i] in multiset(s[..j]);
  }

  lemma OnceInList<T>(s: seq<T>, i: nat)
    requires i < |s| && forall a, b | 0 <= a < b < |s| :: s[a] != s[b]
    ensures multiset(s)[s[i]] == 1
  {
    assert s == s[..i] + [s[i]] + s[i + 1..];
    assert s[i] !in multiset(s[..i]) && s[i] !in multiset(s[i + 1..]);
  }

  /** Rearranging a list without repeats introduces none. */
  lemma NoRepeats<T>(s: seq<T>, t: seq<T>)
    requires multiset(s) == multiset(t) && forall a, b | 0 <= a < b < |s| :: s[a] != s[b]
    ensures forall a, b | 0 <= a < b < |t| :: t[a] != t[b]
  {
    forall a, b | 0 <= a < b < |t| ensures t[a] != t[b] {
      assert t[a] in multiset(s);
      var i :| 0 <= i < |s| && s[i] == t[a];
      OnceInList(s, i);
      if t[a] == t[b] {
        TwiceInList(t, a, b);
      }
    }
  }

  /** Sorting commutes with a map that keeps the order. */
  function Map<T, U>(s: seq<T>, f: T -> U): seq<U> {
    if s == [] then [] else [f(s[0])] + Map(s[1..], f)
  }

  lemma {:induction false} InsertMaps<T(!new), U>(x: T, s: seq<T>, f: T -> U, leq: (T, T) -> bool, leq': (U, U) -> bool)
    requires forall a, b :: leq(a, b) <==> leq'(f(a), f(b))
    ensures Map(Insert(x, s, leq), f) == Insert(f(x), Map(s, f), leq')
  {
    if s != [] && !leq(x, s[0]) {
      InsertMaps(x, s[1..], f, leq, leq');
    }
  }

  lemma {:induction false} SortMaps<T(!new), U>(s: seq<T>, f: T -> U, leq: (T, T) -> bool, leq': (U, U) -> bool)
    requires forall a, b :: leq(a, b) <==> leq'(f(a), f(b))
    ensures Map(Sorted(s, leq), f) == Sorted(Map(s, f), leq')
  {
    if s != [] {
      SortMaps(s[1..], f, leq, leq');
      InsertMaps(s[0], Sorted(s[1..], leq), f, leq, leq');
    }
  }
}
