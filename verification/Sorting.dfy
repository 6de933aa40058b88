/** A stable sort, as Python's `sorted` with a key or on tuples. */
module Sorting {

  ghost predicate TotalPreorder<T(!new)>(le: (T, T) -> bool) {
    && (forall a, b :: le(a, b) || le(b, a))
    && forall a, b, c :: le(a, b) && le(b, c) ==> le(a, c)
  }

  ghost predicate Ordered<T>(s: seq<T>, le: (T, T) -> bool) { forall i, j | 0 <= i < j < |s| :: le(s[i], s[j]) }

  /** `x` goes behind everything that does not exceed it. */
  function Insert<T>(s: seq<T>, x: T, le: (T, T) -> bool): (r: seq<T>)
    ensures multiset(r) == multiset(s) + multiset{x} && |r| == |s| + 1
  {
    if s == [] || le(s[|s| - 1], x) then s + [x]
    else
      assert s == s[..|s| - 1] + [s[|s| - 1]];
      Insert(s[..|s| - 1], x, le) + [s[|s| - 1]]
  }

  function Sorted<T>(s: seq<T>, le: (T, T) -> bool): (r: seq<T>)
    ensures multiset(r) == multiset(s) && |r| == |s|
  {
    if s == [] then []
    else
      assert s == s[..|s| - 1] + [s[|s| - 1]];
      Insert(Sorted(s[..|s| - 1], le), s[|s| - 1], le)
  }

  lemma {:induction false} InsertIsOrdered<T(!new)>(s: seq<T>, x: T, le: (T, T) -> bool)
    requires TotalPreorder(le) && Ordered(s, le)
    ensures Ordered(Insert(s, x, le), le)
  {
    if s != [] && !le(s[|s| - 1], x) {
      var front, last := s[..|s| - 1], s[|s| - 1];
      InsertIsOrdered(front, x, le);
      var r := Insert(front, x, le);
      forall i | 0 <= i < |r| ensures le(r[i], last) {
        assert r[i] in multiset(r);
        assert r[i] in multiset(front) || r[i] == x;
      }
    }
  }

  lemma {:induction false} SortedIsOrdered<T(!new)>(s: seq<T>, le: (T, T) -> bool)
    requires TotalPreorder(le)
    ensures Ordered(Sorted(s, le), le)
  {
    if s != [] {
      SortedIsOrdered(s[..|s| - 1], le);
      InsertIsOrdered(Sorted(s[..|s| - 1], le), s[|s| - 1], le);
    }
  }

  function Mapped<A, B>(s: seq<A>, f: A -> B): (r: seq<B>)
    ensures |r| == |s| && forall i | 0 <= i < |s| :: r[i] == f(s[i])
  {
    seq(|s|, i requires 0 <= i < |s| => f(s[i]))
  }

  lemma {:induction false} InsertMapped<A(!new), B(!new)>(s: seq<A>, x: A, f: A -> B, le: (B, B) -> bool,
                                                          before: (A, A) -> bool)
    requires forall a, b :: before(a, b) <==> le(f(a), f(b))
    ensures Insert(Mapped(s, f), f(x), le) == Mapped(Insert(s, x, before), f)
  {
    if s == [] || before(s[|s| - 1], x) {
      MappedMore(s, x, f);
    } else {
      InsertMapped(s[..|s| - 1], x, f, le, before);
      assert Mapped(s, f)[..|s| - 1] == Mapped(s[..|s| - 1], f);
      MappedMore(Insert(s[..|s| - 1], x, before), s[|s| - 1], f);
    }
  }

  lemma MappedMore<A, B>(s: seq<A>, x: A, f: A -> B)
    ensures Mapped(s + [x], f) == Mapped(s, f) + [f(x)]
  {
  }

  /** Sorting what elements map to is sorting the elements by it. */
  lemma {:induction false} SortedMapped<A(!new), B(!new)>(s: seq<A>, f: A -> B, le: (B, B) -> bool,
                                                          before: (A, A) -> bool)
    requires forall a, b :: before(a, b) <==> le(f(a), f(b))
    ensures Sorted(Mapped(s, f), le) == Mapped(Sorted(s, before), f)
  {
    if s != [] {
      SortedMapped(s[..|s| - 1], f, le, before);
      assert Mapped(s, f)[..|s| - 1] == Mapped(s[..|s| - 1], f);
      InsertMapped(Sorted(s[..|s| - 1], before), s[|s| - 1], f, le, before);
    }
  }
}
