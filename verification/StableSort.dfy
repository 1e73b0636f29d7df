/** Rust's `sort_by_key`: a stable sort, and what a stable sort determines. */
module StableSort {
  /** `leq` compares sort keys: total and transitive, ties allowed. */
  ghost predicate Orders<T(!new)>(leq: (T, T) -> bool)
  {
    && (forall x, y :: leq(x, y) || leq(y, x))
    && (forall x, y, z :: leq(x, y) && leq(y, z) ==> leq(x, z))
  }

  ghost predicate Sorted<T>(xs: seq<T>, leq: (T, T) -> bool)
  {
    forall i, j :: 0 <= i < j < |xs| ==> leq(xs[i], xs[j])
  }

  /** `x` goes before the first element that is not strictly smaller. */
  function Insert<T>(x: T, xs: seq<T>, leq: (T, T) -> bool): seq<T>
  {
    if xs == [] || leq(x, xs[0]) then [x] + xs else [xs[0]] + Insert(x, xs[1..], leq)
  }

  function Sort<T>(xs: seq<T>, leq: (T, T) -> bool): seq<T>
  {
    if xs == [] then [] else Insert(xs[0], Sort(xs[1..], leq), leq)
  }

  function Filter<T(!new)>(xs: seq<T>, p: T -> bool): (ys: seq<T>)
    ensures forall y :: y in ys <==> y in xs && p(y)
  {
    if xs == [] then [] else (if p(xs[0]) then [xs[0]] else []) + Filter(xs[1..], p)
  }

  // ---- sorted, the same elements, stable ------------------------------------

  lemma {:induction false} InsertKeeps<T>(x: T, xs: seq<T>, leq: (T, T) -> bool)
    ensures multiset(Insert(x, xs, leq)) == multiset([x] + xs)
  {
    if xs != [] && !leq(x, xs[0]) {
      InsertKeeps(x, xs[1..], leq);
      assert xs == [xs[0]] + xs[1..];
    }
  }

  lemma {:induction false} SortKeeps<T>(xs: seq<T>, leq: (T, T) -> bool)
    ensures multiset(Sort(xs, leq)) == multiset(xs)
    ensures forall x :: x in Sort(xs, leq) <==> x in xs
  {
    if xs != [] {
      SortKeeps(xs[1..], leq);
      InsertKeeps(xs[0], Sort(xs[1..], leq), leq);
      assert xs == [xs[0]] + xs[1..];
    }
    SameMembers(Sort(xs, leq), xs);
  }

  lemma SameMembers<T>(a: seq<T>, b: seq<T>)
    requires multiset(a) == multiset(b)
    ensures forall x :: x in a <==> x in b
  {
    assert forall x :: x in a <==> x in multiset(a);
    assert forall x :: x in b <==> x in multiset(b);
  }

  lemma {:induction false} InsertSorts<T(!new)>(x: T, xs: seq<T>, leq: (T, T) -> bool)
    requires Orders(leq) && Sorted(xs, leq)
    ensures Sorted(Insert(x, xs, leq), leq)
  {
    if xs == [] {
    } else if leq(x, xs[0]) {
      forall j | 0 <= j < |xs| ensures leq(x, xs[j])
      {
        assert j > 0 ==> leq(xs[0], xs[j]);
      }
    } else {
      InsertSorts(x, xs[1..], leq);
      var rest := Insert(x, xs[1..], leq);
      InsertKeeps(x, xs[1..], leq);
      SameMembers(rest, [x] + xs[1..]);
      forall j | 0 <= j < |rest| ensures leq(xs[0], rest[j])
      {
        assert rest[j] in [x] + xs[1..];
      }
    }
  }

  lemma {:induction false} SortSorts<T(!new)>(xs: seq<T>, leq: (T, T) -> bool)
    requires Orders(leq)
    ensures Sorted(Sort(xs, leq), leq)
  {
    if xs != [] {
      SortSorts(xs[1..], leq);
      InsertSorts(xs[0], Sort(xs[1..], leq), leq);
    }
  }

  /** Elements that `p` selects are ties of each other. */
  ghost predicate Ties<T(!new)>(p: T -> bool, leq: (T, T) -> bool)
  {
    forall x, y :: p(x) && p(y) ==> leq(x, y)
  }

  lemma {:induction false} InsertStable<T(!new)>(x: T, xs: seq<T>, leq: (T, T) -> bool, p: T -> bool)
    requires Ties(p, leq)
    ensures Filter(Insert(x, xs, leq), p) == Filter([x] + xs, p)
  {
    assert ([x] + xs)[1..] == xs;
    if xs != [] && !leq(x, xs[0]) {
      var rest := Insert(x, xs[1..], leq);
      InsertStable(x, xs[1..], leq, p);
      assert ([x] + xs[1..])[1..] == xs[1..];
      assert ([xs[0]] + rest)[1..] == rest;
    }
  }

  /** Elements with equal keys keep their order. */
  lemma {:induction false} SortStable<T(!new)>(xs: seq<T>, leq: (T, T) -> bool, p: T -> bool)
    requires Ties(p, leq)
    ensures Filter(Sort(xs, leq), p) == Filter(xs, p)
  {
    if xs != [] {
      var rest := Sort(xs[1..], leq);
      SortStable(xs[1..], leq, p);
      InsertStable(xs[0], rest, leq, p);
      assert ([xs[0]] + rest)[1..] == rest;
    }
  }

  // ---- a stable sort is determined by its classes of ties --------------------

  /** The elements with the key of `x`. */
  function SameKey<T>(x: T, leq: (T, T) -> bool): T -> bool
  {
    y => leq(x, y) && leq(y, x)
  }

  lemma FirstIsLeast<T(!new)>(xs: seq<T>, leq: (T, T) -> bool, y: T)
    requires Orders(leq) && Sorted(xs, leq) && y in xs
    ensures leq(xs[0], y)
  {
    var i :| 0 <= i < |xs| && xs[i] == y;
  }

  lemma {:induction false} FilterFirst<T(!new)>(xs: seq<T>, p: T -> bool)
    requires xs != [] && p(xs[0])
    ensures Filter(xs, p) == [xs[0]] + Filter(xs[1..], p)
  {
  }

  ghost predicate Agree<T(!new)>(a: seq<T>, b: seq<T>, leq: (T, T) -> bool)
  {
    forall x :: Filter(a, SameKey(x, leq)) == Filter(b, SameKey(x, leq))
  }

  lemma AgreeMembers<T(!new)>(a: seq<T>, b: seq<T>, leq: (T, T) -> bool, x: T)
    requires Orders(leq) && Agree(a, b, leq) && x in a
    ensures x in b
  {
    assert leq(x, x);
    assert x in Filter(a, SameKey(x, leq));
    assert x in Filter(b, SameKey(x, leq));
  }

  lemma AgreeHeads<T(!new)>(a: seq<T>, b: seq<T>, leq: (T, T) -> bool)
    requires Orders(leq) && Sorted(a, leq) && Sorted(b, leq) && Agree(a, b, leq) && a != []
    ensures b != [] && a[0] == b[0]
  {
    AgreeMembers(a, b, leq, a[0]);
    AgreeMembers(b, a, leq, b[0]);
    FirstIsLeast(b, leq, a[0]);
    FirstIsLeast(a, leq, b[0]);
    var p := SameKey(a[0], leq);
    FilterFirst(a, p);
    FilterFirst(b, p);
    assert Filter(a, p) == Filter(b, p);
    assert Filter(a, p)[0] == a[0] && Filter(b, p)[0] == b[0];
  }

  lemma AgreeTails<T(!new)>(a: seq<T>, b: seq<T>, leq: (T, T) -> bool)
    requires Agree(a, b, leq) && a != [] && b != [] && a[0] == b[0]
    ensures Agree(a[1..], b[1..], leq)
  {
    forall x ensures Filter(a[1..], SameKey(x, leq)) == Filter(b[1..], SameKey(x, leq))
    {
      FilterTail(a, SameKey(x, leq));
      FilterTail(b, SameKey(x, leq));
      assert Filter(a, SameKey(x, leq)) == Filter(b, SameKey(x, leq));
    }
  }

  lemma FilterTail<T(!new)>(xs: seq<T>, p: T -> bool)
    requires xs != []
    ensures Filter(xs[1..], p) == if p(xs[0]) then Filter(xs, p)[1..] else Filter(xs, p)
  {
    assert p(xs[0]) ==> ([xs[0]] + Filter(xs[1..], p))[1..] == Filter(xs[1..], p);
  }

  /** Two sorted sequences that agree on every class of ties are equal. */
  lemma {:induction false} SortedIsDetermined<T(!new)>(a: seq<T>, b: seq<T>, leq: (T, T) -> bool)
    requires Orders(leq) && Sorted(a, leq) && Sorted(b, leq) && Agree(a, b, leq)
    ensures a == b
    decreases |a|
  {
    if a == [] {
      if b != [] {
        AgreeMembers(b, a, leq, b[0]);
      }
    } else {
      AgreeHeads(a, b, leq);
      AgreeTails(a, b, leq);
      SortedIsDetermined(a[1..], b[1..], leq);
      assert a == [a[0]] + a[1..];
      assert b == [b[0]] + b[1..];
    }
  }

  // ---- more on filtering ----------------------------------------------------

  lemma FilterUnfold<T(!new)>(xs: seq<T>, p: T -> bool)
    requires xs != []
    ensures Filter(xs, p) == (if p(xs[0]) then [xs[0]] else []) + Filter(xs[1..], p)
  {
  }

  lemma Reassociate<T>(a: seq<T>, b: seq<T>, c: seq<T>)
    ensures (a + b) + c == a + (b + c)
  {
  }

  lemma {:induction false} FilterSnoc<T(!new)>(xs: seq<T>, x: T, p: T -> bool)
    ensures Filter(xs + [x], p) == Filter(xs, p) + if p(x) then [x] else []
  {
    if xs == [] {
      assert xs + [x] == [x] && [x][1..] == [];
    } else {
      var all := xs + [x];
      assert all[0] == xs[0] && all[1..] == xs[1..] + [x];
      FilterSnoc(xs[1..], x, p);
      var head := if p(xs[0]) then [xs[0]] else [];
      var last := if p(x) then [x] else [];
      FilterUnfold(all, p);
      FilterUnfold(xs, p);
      hide Filter;
      Reassociate(head, Filter(xs[1..], p), last);
    }
  }

  lemma {:induction false} FilterCounts<T(!new)>(xs: seq<T>, p: T -> bool, x: T)
    ensures multiset(Filter(xs, p))[x] == if p(x) then multiset(xs)[x] else 0
  {
    if xs != [] {
      FilterCounts(xs[1..], p, x);
      assert xs == [xs[0]] + xs[1..];
    }
  }

  lemma {:induction false} FilterTwice<T(!new)>(xs: seq<T>, p: T -> bool, q: T -> bool)
    requires forall x :: q(x) ==> p(x)
    ensures Filter(Filter(xs, p), q) == Filter(xs, q)
  {
    if xs != [] {
      FilterTwice(xs[1..], p, q);
      var rest := Filter(xs[1..], p);
      assert ([xs[0]] + rest)[1..] == rest;
      assert [] + rest == rest;
    }
  }
}
