/** A stable sort, standing for Python's `sorted` and for SQL's ORDER BY. */
module Sorting {

  /** Puts `x` behind every element it does not have to precede. */
  function Insert<T>(xs: seq<T>, x: T, le: (T, T) -> bool): seq<T> {
    if xs == [] || !le(xs[0], x) then [x] + xs
    else [xs[0]] + Insert(xs[1..], x, le)
  }

  function Sort<T>(xs: seq<T>, le: (T, T) -> bool): seq<T> {
    if xs == [] then [] else Insert(Sort(xs[..|xs| - 1], le), xs[|xs| - 1], le)
  }

  ghost predicate TotalPreorder<T(!new)>(le: (T, T) -> bool) {
    && (forall a, b :: le(a, b) || le(b, a))
    && (forall a, b, c :: le(a, b) && le(b, c) ==> le(a, c))
  }

  ghost predicate Ordered<T(!new)>(xs: seq<T>, le: (T, T) -> bool) {
    forall i, j :: 0 <= i < j < |xs| ==> le(xs[i], xs[j])
  }

  lemma {:induction false} InsertAdds<T>(xs: seq<T>, x: T, le: (T, T) -> bool)
    ensures multiset(Insert(xs, x, le)) == multiset(xs) + multiset{x}
  {
    if xs != [] && le(xs[0], x) {
      InsertAdds(xs[1..], x, le);
      assert xs == [xs[0]] + xs[1..];
    }
  }

  /** Sorting neither loses nor invents an element. */
  lemma {:induction false} SortPermutes<T>(xs: seq<T>, le: (T, T) -> bool)
    ensures multiset(Sort(xs, le)) == multiset(xs)
  {
    if xs != [] {
      SortPermutes(xs[..|xs| - 1], le);
      InsertAdds(Sort(xs[..|xs| - 1], le), xs[|xs| - 1], le);
      assert xs == xs[..|xs| - 1] + [xs[|xs| - 1]];
    }
  }

  lemma {:induction false} InsertOrders<T(!new)>(xs: seq<T>, x: T, le: (T, T) -> bool)
    requires TotalPreorder(le) && Ordered(xs, le)
    ensures Ordered(Insert(xs, x, le), le)
  {
    if xs != [] && le(xs[0], x) {
      var rest := Insert(xs[1..], x, le);
      InsertOrders(xs[1..], x, le);
      InsertAdds(xs[1..], x, le);
      forall j | 0 <= j < |rest| ensures le(xs[0], rest[j]) {
        assert rest[j] in multiset(rest);
        assert rest[j] == x || rest[j] in xs[1..];
      }
    }
  }

  /** Sorting orders. */
  lemma {:induction false} SortOrders<T(!new)>(xs: seq<T>, le: (T, T) -> bool)
    requires TotalPreorder(le)
    ensures Ordered(Sort(xs, le), le)
  {
    if xs != [] {
      SortOrders(xs[..|xs| - 1], le);
      InsertOrders(Sort(xs[..|xs| - 1], le), xs[|xs| - 1], le);
    }
  }

  // ----- when the order leaves no choice -----

  /** Two places of `xs` hold these. */
  ghost predicate TwoOf<T>(xs: seq<T>, x: T, y: T) {
    multiset{x, y} <= multiset(xs)
  }

  ghost predicate Untied<T(!new)>(xs: seq<T>, le: (T, T) -> bool) {
    forall x, y :: TwoOf(xs, x, y) ==> !(le(x, y) && le(y, x))
  }

  ghost predicate Strict<T>(xs: seq<T>, le: (T, T) -> bool) {
    forall i, j :: 0 <= i < j < |xs| ==> le(xs[i], xs[j]) && !le(xs[j], xs[i])
  }

  lemma SortKeeps<T>(xs: seq<T>, le: (T, T) -> bool, x: T)
    ensures x in Sort(xs, le) <==> x in xs
  {
    SortPermutes(xs, le);
    assert x in Sort(xs, le) <==> x in multiset(Sort(xs, le));
  }

  lemma {:induction false} InsertIsStrict<T(!new)>(xs: seq<T>, x: T, le: (T, T) -> bool)
    requires TotalPreorder(le) && Strict(xs, le)
    requires forall y :: y in xs ==> !(le(x, y) && le(y, x))
    ensures Strict(Insert(xs, x, le), le)
  {
    if xs != [] && le(xs[0], x) {
      var rest := Insert(xs[1..], x, le);
      InsertIsStrict(xs[1..], x, le);
      InsertAdds(xs[1..], x, le);
      forall j | 0 <= j < |rest| ensures le(xs[0], rest[j]) && !le(rest[j], xs[0]) {
        assert rest[j] in multiset(rest);
        assert rest[j] == x || rest[j] in xs[1..];
      }
    } else if xs != [] {
      forall j | 0 <= j < |xs| ensures le(x, xs[j]) && !le(xs[j], x) {
        assert xs[j] in xs;
      }
    }
  }

  /** With no ties, sorting leaves every pair strictly in order. */
  lemma {:induction false} SortIsStrict<T(!new)>(xs: seq<T>, le: (T, T) -> bool)
    requires TotalPreorder(le) && Untied(xs, le)
    ensures Strict(Sort(xs, le), le)
  {
    if xs != [] {
      var front, last := xs[..|xs| - 1], xs[|xs| - 1];
      assert xs == front + [last];
      forall x, y | TwoOf(front, x, y) ensures !(le(x, y) && le(y, x)) {
        assert TwoOf(xs, x, y);
      }
      SortIsStrict(front, le);
      forall y | y in Sort(front, le) ensures !(le(last, y) && le(y, last)) {
        SortKeeps(front, le, y);
        assert TwoOf(xs, y, last);
      }
      InsertIsStrict(Sort(front, le), last, le);
    }
  }

  /** What is only ever added to behind everything present keeps its beginning. */
  lemma {:induction false} StrictGrowsAtTheEnd<T>(xs: seq<T>, ys: seq<T>, le: (T, T) -> bool)
    requires Strict(xs, le) && Strict(ys, le)
    requires forall x :: x in xs ==> x in ys
    requires forall x, y :: x in xs && y in ys && y !in xs ==> !le(y, x)
    ensures xs <= ys
  {
    if xs != [] {
      assert xs[0] in ys;
      assert ys[0] in xs;
      assert xs[0] == ys[0];
      forall x | x in xs[1..] ensures x in ys[1..] {
        assert x in ys;
      }
      forall y | y in ys[1..] && y !in xs[1..] ensures y !in xs {
      }
      StrictGrowsAtTheEnd(xs[1..], ys[1..], le);
    }
  }

  /** Only one strict arrangement of the same elements exists. */
  lemma StrictIsUnique<T>(xs: seq<T>, ys: seq<T>, le: (T, T) -> bool)
    requires Strict(xs, le) && Strict(ys, le)
    requires forall x :: x in xs <==> x in ys
    ensures xs == ys
  {
    StrictGrowsAtTheEnd(xs, ys, le);
    StrictGrowsAtTheEnd(ys, xs, le);
  }

  /** Elements the order cannot tell apart come out as they went in. */
  lemma {:induction false} TiesStayAsTheyCame<T(!new)>(xs: seq<T>, a: T, b: T, le: (T, T) -> bool)
    requires TotalPreorder(le) && le(a, b) && le(b, a) && a != b
    ensures Insert(Insert(xs, a, le), b, le) != Insert(Insert(xs, b, le), a, le)
  {
    if xs != [] && le(xs[0], a) {
      TiesStayAsTheyCame(xs[1..], a, b, le);
      var ab, ba := Insert(Insert(xs[1..], a, le), b, le), Insert(Insert(xs[1..], b, le), a, le);
      assert ([xs[0]] + ab)[1..] == ab && ([xs[0]] + ba)[1..] == ba;
    } else {
      assert Insert(Insert(xs, a, le), b, le)[0] == a;
      assert Insert(Insert(xs, b, le), a, le)[0] == b;
    }
  }

  lemma TakeOut<T>(xs: seq<T>, x: T) returns (rest: seq<T>)
    requires x in xs
    ensures multiset(rest) + multiset{x} == multiset(xs)
  {
    var i :| 0 <= i < |xs| && xs[i] == x;
    rest := xs[..i] + xs[i + 1..];
    assert xs == xs[..i] + [x] + xs[i + 1..];
  }

  lemma UntiedIsDetermined<T(!new)>(xs: seq<T>, ys: seq<T>, le: (T, T) -> bool)
    requires TotalPreorder(le) && Untied(xs, le) && multiset(ys) == multiset(xs)
    ensures Sort(ys, le) == Sort(xs, le)
  {
    forall x, y | TwoOf(ys, x, y) ensures !(le(x, y) && le(y, x)) {
      assert TwoOf(xs, x, y);
    }
    SortIsStrict(xs, le);
    SortIsStrict(ys, le);
    forall x ensures x in Sort(xs, le) <==> x in Sort(ys, le) {
      SortKeeps(xs, le, x);
      SortKeeps(ys, le, x);
      assert x in xs <==> x in multiset(xs);
      assert x in ys <==> x in multiset(ys);
    }
    StrictIsUnique(Sort(ys, le), Sort(xs, le), le);
  }

  lemma SortOfTwoMore<T>(xs: seq<T>, x: T, y: T, le: (T, T) -> bool)
    ensures Sort(xs + [x, y], le) == Insert(Insert(Sort(xs, le), x, le), y, le)
  {
    assert (xs + [x, y])[..|xs| + 1] == xs + [x];
    assert (xs + [x])[..|xs|] == xs;
  }

  lemma TiedIsUndetermined<T(!new)>(xs: seq<T>, x: T, y: T, le: (T, T) -> bool) returns (ys: seq<T>)
    requires TotalPreorder(le) && TwoOf(xs, x, y) && x != y && le(x, y) && le(y, x)
    ensures multiset(ys) == multiset(xs) && Sort(ys, le) != Sort(xs, le)
  {
    assert multiset{x, y}[x] == 1 && multiset{x, y}[y] == 1;
    assert x in multiset(xs) && y in multiset(xs);
    var most := TakeOut(xs, x);
    assert y in multiset(most);
    var rest := TakeOut(most, y);
    var xy, yx := rest + [x, y], rest + [y, x];
    SortOfTwoMore(rest, x, y, le);
    SortOfTwoMore(rest, y, x, le);
    TiesStayAsTheyCame(Sort(rest, le), x, y, le);
    ys := if Sort(xy, le) != Sort(xs, le) then xy else yx;
  }

  /** The sorted order of distinct rows is independent of how they are stored exactly when no two tie. */
  lemma OrderIsDeterminedIff<T(!new)>(xs: seq<T>, le: (T, T) -> bool)
    requires TotalPreorder(le) && forall x, y :: TwoOf(xs, x, y) ==> x != y
    ensures Untied(xs, le) <==> forall ys: seq<T> :: multiset(ys) == multiset(xs) ==> Sort(ys, le) == Sort(xs, le)
  {
    if Untied(xs, le) {
      forall ys: seq<T> | multiset(ys) == multiset(xs) ensures Sort(ys, le) == Sort(xs, le) {
        UntiedIsDetermined(xs, ys, le);
      }
    } else {
      var x, y :| TwoOf(xs, x, y) && le(x, y) && le(y, x);
      var ys := TiedIsUndetermined(xs, x, y, le);
    }
  }
}
