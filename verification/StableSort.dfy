/** Python's `sorted` and `list.sort`: a stable sort by a strict "comes before" relation. */
module StableSort {

  function Insert<T>(less: (T, T) -> bool, x: T, ys: seq<T>): seq<T>
  {
    if ys == [] || !less(ys[0], x) then [x] + ys else [ys[0]] + Insert(less, x, ys[1..])
  }

  function Sort<T>(less: (T, T) -> bool, xs: seq<T>): seq<T>
  {
    if xs == [] then [] else Insert(less, xs[0], Sort(less, xs[1..]))
  }

  /** A strict order whose incomparability is transitive: what a Python sort key induces. */
  ghost predicate WeakOrder<T(!new)>(less: (T, T) -> bool)
  {
    && (forall a, b :: less(a, b) ==> !less(b, a))
    && (forall a, b, c :: less(a, c) ==> less(a, b) || less(b, c))
  }

  ghost predicate Ascending<T>(less: (T, T) -> bool, xs: seq<T>)
  {
    forall i, j :: 0 <= i < j < |xs| ==> !less(xs[j], xs[i])
  }

  ghost predicate StrictlyAscending<T>(less: (T, T) -> bool, xs: seq<T>)
  {
    forall i, j :: 0 <= i < j < |xs| ==> less(xs[i], xs[j])
  }

  lemma {:induction false} InsertKeepsElements<T>(less: (T, T) -> bool, x: T, ys: seq<T>)
    ensures multiset(Insert(less, x, ys)) == multiset{x} + multiset(ys)
  {
    if !(ys == [] || !less(ys[0], x)) {
      InsertKeepsElements(less, x, ys[1..]);
      assert ys == [ys[0]] + ys[1..];
    }
  }

  lemma {:induction false} SortKeepsElements<T>(less: (T, T) -> bool, xs: seq<T>)
    ensures multiset(Sort(less, xs)) == multiset(xs)
    ensures |Sort(less, xs)| == |xs|
  {
    if xs != [] {
      SortKeepsElements(less, xs[1..]);
      InsertKeepsElements(less, xs[0], Sort(less, xs[1..]));
      assert xs == [xs[0]] + xs[1..];
      assert |multiset(Sort(less, xs))| == |multiset(xs)|;
    }
  }

  lemma SortKeepsMembers<T>(less: (T, T) -> bool, xs: seq<T>)
    ensures forall x :: x in Sort(less, xs) <==> x in xs
  {
    SortKeepsElements(less, xs);
    forall x ensures x in Sort(less, xs) <==> x in xs {
      assert x in Sort(less, xs) <==> x in multiset(Sort(less, xs));
      assert x in xs <==> x in multiset(xs);
    }
  }

  lemma {:induction false} InsertAscends<T(!new)>(less: (T, T) -> bool, x: T, ys: seq<T>)
    requires WeakOrder(less) && Ascending(less, ys)
    ensures Ascending(less, Insert(less, x, ys))
  {
    var zs := Insert(less, x, ys);
    if ys == [] || !less(ys[0], x) {
      forall j | 0 < j < |zs| ensures !less(zs[j], x) {
        assert zs[j] == ys[j-1];
        assert ys[j-1] == ys[0] || !less(ys[j-1], ys[0]);
      }
    } else {
      assert Ascending(less, ys[1..]);
      InsertAscends(less, x, ys[1..]);
      InsertKeepsElements(less, x, ys[1..]);
      var rest := Insert(less, x, ys[1..]);
      forall j | 0 <= j < |rest| ensures !less(rest[j], ys[0]) {
        assert rest[j] in multiset(rest);
        assert rest[j] == x || rest[j] in ys[1..];
      }
    }
  }

  lemma {:induction false} SortAscends<T(!new)>(less: (T, T) -> bool, xs: seq<T>)
    requires WeakOrder(less)
    ensures Ascending(less, Sort(less, xs))
  {
    if xs != [] {
      SortAscends(less, xs[1..]);
      InsertAscends(less, xs[0], Sort(less, xs[1..]));
    }
  }

  /** Sorting what is already in order changes nothing; with SortAscends, sorting is idempotent. */
  lemma {:induction false} SortOfAscending<T>(less: (T, T) -> bool, xs: seq<T>)
    requires Ascending(less, xs)
    ensures Sort(less, xs) == xs
  {
    if xs != [] {
      assert Ascending(less, xs[1..]);
      SortOfAscending(less, xs[1..]);
      assert xs == [xs[0]] + xs[1..];
    }
  }

  /** There is only one way to put a set of pairwise comparable elements in order. */
  lemma {:induction false} StrictOrderIsUnique<T(!new)>(less: (T, T) -> bool, xs: seq<T>, ys: seq<T>)
    requires WeakOrder(less) && StrictlyAscending(less, xs) && StrictlyAscending(less, ys)
    requires forall x :: x in xs <==> x in ys
    ensures xs == ys
  {
    if xs == [] {
      assert forall i :: 0 <= i < |ys| ==> ys[i] in ys;
      assert |ys| == 0;
    } else {
      assert xs[0] in xs && xs[0] in ys && ys[0] in ys && ys[0] in xs;
      assert xs[0] == ys[0];
      var xt, yt := xs[1..], ys[1..];
      forall x ensures x in xt <==> x in yt {
        if x in xt { var i :| 0 <= i < |xt| && xt[i] == x; assert xs[i+1] == x && less(xs[0], x); assert x in ys; }
        if x in yt { var i :| 0 <= i < |yt| && yt[i] == x; assert ys[i+1] == x && less(ys[0], x); assert x in xs; }
      }
      StrictOrderIsUnique(less, xt, yt);
      assert xs == [xs[0]] + xt && ys == [ys[0]] + yt;
    }
  }

  // ---- stability ----

  /** Neither comes before the other. */
  predicate Tied<T>(less: (T, T) -> bool, a: T, b: T) { !less(a, b) && !less(b, a) }

  /** The elements that are tied with `y`, in their order. */
  function TiedWith<T>(less: (T, T) -> bool, y: T, xs: seq<T>): seq<T>
  {
    if xs == [] then [] else (if Tied(less, xs[0], y) then [xs[0]] else []) + TiedWith(less, y, xs[1..])
  }

  lemma {:induction false} InsertIsStable<T(!new)>(less: (T, T) -> bool, x: T, ys: seq<T>, y: T)
    requires WeakOrder(less)
    ensures TiedWith(less, y, Insert(less, x, ys)) == (if Tied(less, x, y) then [x] else []) + TiedWith(less, y, ys)
  {
    if ys == [] || !less(ys[0], x) {
      assert ([x] + ys)[1..] == ys;
    } else {
      InsertIsStable(less, x, ys[1..], y);
      assert Insert(less, x, ys)[1..] == Insert(less, x, ys[1..]);
      assert !(Tied(less, x, y) && Tied(less, ys[0], y));
    }
  }

  /** Elements that are tied keep their order, as Python promises. */
  lemma {:induction false} SortIsStable<T(!new)>(less: (T, T) -> bool, xs: seq<T>, y: T)
    requires WeakOrder(less)
    ensures TiedWith(less, y, Sort(less, xs)) == TiedWith(less, y, xs)
  {
    if xs != [] {
      SortIsStable(less, xs[1..], y);
      InsertIsStable(less, xs[0], Sort(less, xs[1..]), y);
    }
  }
}
