// Stable sorting by a comparator, and lists that stay sorted while elements
// arrive in any order and more than once.

module Sorting {
  import opened Seqs

  /** less never holds both ways, and whatever is less than c is less than b or sees b less than c. */
  ghost predicate OrdersTriple<T>(less: (T, T) -> bool, a: T, b: T, c: T) {
    && (less(a, b) ==> !less(b, a))
    && (less(a, c) ==> less(a, b) || less(b, c))
  }

  ghost predicate StrictWeak<T(!new)>(less: (T, T) -> bool) {
    forall a, b, c :: OrdersTriple(less, a, b, c)
  }

  ghost predicate Sorted<T>(less: (T, T) -> bool, s: seq<T>) {
    forall i, j :: 0 <= i < j < |s| ==> !less(s[j], s[i])
  }

  /** x goes in front of the first element it is less than. */
  function Insert<T>(less: (T, T) -> bool, x: T, s: seq<T>): (r: seq<T>)
    ensures |r| == |s| + 1
    ensures forall y :: y in r ==> y == x || y in s
    ensures x in r && forall y :: y in s ==> y in r
  {
    if s == [] then [x]
    else
      assert s == [s[0]] + s[1..];
      if less(x, s[0]) then [x] + s else [s[0]] + Insert(less, x, s[1..])
  }

  /** The stable sort that `Array.prototype.sort` promises. */
  function SortBy<T>(less: (T, T) -> bool, s: seq<T>): (r: seq<T>)
    ensures |r| == |s|
    ensures forall x :: x in r ==> x in s
    ensures forall x :: x in s ==> x in r
  {
    if s == [] then []
    else
      assert s == s[..|s| - 1] + [s[|s| - 1]];
      Insert(less, s[|s| - 1], SortBy(less, s[..|s| - 1]))
  }

  lemma {:induction false} InsertPermutes<T>(less: (T, T) -> bool, x: T, s: seq<T>)
    ensures multiset(Insert(less, x, s)) == multiset(s) + multiset{x}
  {
    if s != [] {
      assert s == [s[0]] + s[1..];
      InsertPermutes(less, x, s[1..]);
    }
  }

  lemma {:induction false} SortPermutes<T>(less: (T, T) -> bool, s: seq<T>)
    ensures multiset(SortBy(less, s)) == multiset(s)
  {
    if s != [] {
      var n := |s| - 1;
      assert s == s[..n] + [s[n]];
      SortPermutes(less, s[..n]);
      InsertPermutes(less, s[n], SortBy(less, s[..n]));
    }
  }

  lemma {:induction false} InsertSorted<T(!new)>(less: (T, T) -> bool, x: T, s: seq<T>)
    requires StrictWeak(less) && Sorted(less, s)
    ensures Sorted(less, Insert(less, x, s))
  {
    if s != [] {
      if less(x, s[0]) {
        forall y | y in s ensures !less(y, x) {
          var i :| 0 <= i < |s| && s[i] == y;
          assert OrdersTriple(less, x, s[0], y) && OrdersTriple(less, x, y, s[0]);
        }
      } else {
        InsertSorted(less, x, s[1..]);
        var rest := Insert(less, x, s[1..]);
        forall j | 0 <= j < |rest| ensures !less(rest[j], s[0]) {
          assert rest[j] == x || rest[j] in s[1..];
          if rest[j] in s[1..] {
            var k :| 0 <= k < |s[1..]| && s[1..][k] == rest[j];
            assert s[k + 1] == rest[j];
          }
        }
      }
    }
  }

  lemma {:induction false} SortSorts<T(!new)>(less: (T, T) -> bool, s: seq<T>)
    requires StrictWeak(less)
    ensures Sorted(less, SortBy(less, s))
  {
    if s != [] {
      SortSorts(less, s[..|s| - 1]);
      InsertSorted(less, s[|s| - 1], SortBy(less, s[..|s| - 1]));
    }
  }

  lemma {:induction false} InsertLast<T>(less: (T, T) -> bool, x: T, s: seq<T>)
    requires forall y :: y in s ==> !less(x, y)
    ensures Insert(less, x, s) == s + [x]
  {
    if s != [] {
      assert s == [s[0]] + s[1..];
      InsertLast(less, x, s[1..]);
    }
  }

  lemma {:induction false} SortOfSorted<T>(less: (T, T) -> bool, s: seq<T>)
    requires Sorted(less, s)
    ensures SortBy(less, s) == s
  {
    if s != [] {
      var n := |s| - 1;
      SortOfSorted(less, s[..n]);
      InsertLast(less, s[n], s[..n]);
    }
  }

  lemma {:induction false} InsertFilter<T(!new)>(less: (T, T) -> bool, p: T -> bool, x: T, s: seq<T>)
    requires StrictWeak(less) && Sorted(less, s)
    ensures Filter(p, Insert(less, x, s)) == if p(x) then Insert(less, x, Filter(p, s)) else Filter(p, s)
  {
    if s != [] {
      var first, rest := s[0], s[1..];
      assert s == [first] + rest;
      FilterCons(p, first, rest);
      if less(x, first) {
        InsertFilterFirst(less, p, x, s);
      } else {
        InsertHead(less, x, first, rest);
        FilterCons(p, first, Insert(less, x, rest));
        TailSorted(less, s);
        InsertFilter(less, p, x, rest);
        InsertHead(less, x, first, Filter(p, rest));
      }
    }
  }

  lemma InsertFilterFirst<T(!new)>(less: (T, T) -> bool, p: T -> bool, x: T, s: seq<T>)
    requires StrictWeak(less) && Sorted(less, s) && s != [] && less(x, s[0])
    ensures Filter(p, Insert(less, x, s)) == if p(x) then Insert(less, x, Filter(p, s)) else Filter(p, s)
  {
    LessThanAll(less, x, s);
    InsertFirst(less, x, s);
    FilterCons(p, x, s);
    InsertFirst(less, x, Filter(p, s));
  }

  lemma TailSorted<T>(less: (T, T) -> bool, s: seq<T>)
    requires Sorted(less, s) && s != []
    ensures Sorted(less, s[1..])
  {
  }

  lemma LessThanAll<T(!new)>(less: (T, T) -> bool, x: T, s: seq<T>)
    requires StrictWeak(less) && Sorted(less, s) && s != [] && less(x, s[0])
    ensures forall y :: y in s ==> less(x, y)
  {
    forall y | y in s ensures less(x, y) {
      var i :| 0 <= i < |s| && s[i] == y;
      assert OrdersTriple(less, x, y, s[0]);
    }
  }

  lemma InsertFirst<T>(less: (T, T) -> bool, x: T, s: seq<T>)
    requires forall y :: y in s ==> less(x, y)
    ensures Insert(less, x, s) == [x] + s
  {
  }

  /** A stable sort commutes with filtering. */
  lemma {:induction false} SortFilter<T(!new)>(less: (T, T) -> bool, p: T -> bool, s: seq<T>)
    requires StrictWeak(less)
    ensures Filter(p, SortBy(less, s)) == SortBy(less, Filter(p, s))
  {
    if s != [] {
      var init, x := s[..|s| - 1], s[|s| - 1];
      assert s == init + [x];
      SortFilter(less, p, init);
      SortSorts(less, init);
      calc {
        Filter(p, SortBy(less, s));
        Filter(p, Insert(less, x, SortBy(less, init)));
        { InsertFilter(less, p, x, SortBy(less, init)); }
        if p(x) then Insert(less, x, SortBy(less, Filter(p, init))) else SortBy(less, Filter(p, init));
        { SortSnoc(less, Filter(p, init), x); assert Filter(p, init) + [] == Filter(p, init); }
        SortBy(less, Filter(p, init) + if p(x) then [x] else []);
        { FilterConcat(p, init, [x]); }
        SortBy(less, Filter(p, s));
      }
    }
  }

  /** Elements that the order does not tell apart keep their order. */
  lemma SortIsStable<T(!new)>(less: (T, T) -> bool, p: T -> bool, s: seq<T>)
    requires StrictWeak(less) && forall x, y :: p(x) && p(y) ==> !less(x, y)
    ensures Filter(p, SortBy(less, s)) == Filter(p, s)
  {
    SortFilter(less, p, s);
    SortOfSorted(less, Filter(p, s));
  }

  lemma SortSnoc<T>(less: (T, T) -> bool, s: seq<T>, x: T)
    ensures SortBy(less, s + [x]) == Insert(less, x, SortBy(less, s))
  {
    assert (s + [x])[..|s|] == s;
  }

  lemma {:induction false} InsertMap<T, U>(lessT: (T, T) -> bool, lessU: (U, U) -> bool, f: T -> U, x: T, s: seq<T>)
    requires forall y :: y in s ==> lessT(x, y) == lessU(f(x), f(y))
    ensures Insert(lessU, f(x), Map(f, s)) == Map(f, Insert(lessT, x, s))
  {
    if s == [] {
      assert Map(f, [x]) == [f(x)] && Map(f, s) == [];
    } else {
      var first, rest := s[0], s[1..];
      assert s == [first] + rest;
      MapCons(f, first, rest);
      MapCons(f, x, s);
      MapCons(f, first, Insert(lessT, x, rest));
      InsertMap(lessT, lessU, f, x, rest);
      InsertHead(lessU, f(x), f(first), Map(f, rest));
      InsertHead(lessT, x, first, rest);
    }
  }

  lemma InsertHead<T>(less: (T, T) -> bool, x: T, y: T, s: seq<T>)
    ensures Insert(less, x, [y] + s) == if less(x, y) then [x] + ([y] + s) else [y] + Insert(less, x, s)
  {
    assert ([y] + s)[1..] == s;
  }

  lemma AppendSorted<T(!new)>(less: (T, T) -> bool, s: seq<T>, x: T)
    requires StrictWeak(less) && Sorted(less, s)
    ensures SortBy(less, s + [x]) == Insert(less, x, s) && Sorted(less, Insert(less, x, s))
  {
    SortSnoc(less, s, x);
    SortOfSorted(less, s);
    InsertSorted(less, x, s);
  }

  /** Elements that the order tells apart can be inserted in either order. */
  lemma {:induction false} InsertSwap<T(!new)>(less: (T, T) -> bool, x: T, y: T, s: seq<T>)
    requires StrictWeak(less) && Sorted(less, s) && less(x, y)
    ensures Insert(less, x, Insert(less, y, s)) == Insert(less, y, Insert(less, x, s))
  {
    assert OrdersTriple(less, x, y, x);
    if s == [] {
      InsertHead(less, x, y, []);
      InsertHead(less, y, x, []);
      assert [x] + [] == [x] && [y] + [] == [y];
    } else {
      var first, rest := s[0], s[1..];
      assert s == [first] + rest;
      assert OrdersTriple(less, x, first, y) && OrdersTriple(less, y, first, y);
      InsertHead(less, x, first, rest);
      InsertHead(less, y, first, rest);
      if less(y, first) {
        InsertHead(less, x, y, s);
        InsertHead(less, y, x, s);
      } else if less(x, first) {
        InsertHead(less, x, first, Insert(less, y, rest));
        InsertHead(less, y, x, s);
      } else {
        TailSorted(less, s);
        InsertSwap(less, x, y, rest);
        InsertHead(less, x, first, Insert(less, y, rest));
        InsertHead(less, y, first, Insert(less, x, rest));
      }
    }
  }

  /** Two sorted lists are equal when they agree on the elements satisfying p and on the others, and the
      order tells any two of different kinds apart. */
  lemma {:induction false} MergeUnique<T(!new)>(less: (T, T) -> bool, p: T -> bool, q: T -> bool, a: seq<T>, b: seq<T>)
    requires StrictWeak(less) && Sorted(less, a) && Sorted(less, b)
    requires forall x :: q(x) == !p(x)
    requires Filter(p, a) == Filter(p, b) && Filter(q, a) == Filter(q, b)
    requires forall x, y :: x in a && y in a && p(x) && q(y) ==> less(x, y) || less(y, x)
    ensures a == b
  {
    if a == [] {
      NoneOfEitherKind(p, q, b);
    } else if b == [] {
      NoneOfEitherKind(p, q, a);
    } else {
      var x, y := a[0], b[0];
      assert a == [x] + a[1..] && b == [y] + b[1..];
      FilterCons(p, x, a[1..]);
      FilterCons(q, x, a[1..]);
      FilterCons(p, y, b[1..]);
      FilterCons(q, y, b[1..]);
      HeadsOfOneKind(less, p, q, a, b);
      SameTails(x, Filter(p, a[1..]), Filter(p, b[1..]));
      SameTails(x, Filter(q, a[1..]), Filter(q, b[1..]));
      TailSorted(less, a);
      TailSorted(less, b);
      MergeUnique(less, p, q, a[1..], b[1..]);
    }
  }

  lemma SameTails<T>(x: T, a: seq<T>, b: seq<T>)
    ensures [x] + a == [x] + b ==> a == b
  {
    assert ([x] + a)[1..] == a && ([x] + b)[1..] == b;
  }

  lemma NoneOfEitherKind<T(!new)>(p: T -> bool, q: T -> bool, s: seq<T>)
    requires forall x :: q(x) == !p(x)
    ensures Filter(p, s) == [] && Filter(q, s) == [] ==> s == []
  {
    if s != [] {
      assert s[0] in Filter(p, s) || s[0] in Filter(q, s);
    }
  }

  lemma FirstOfKind<T>(p: T -> bool, s: seq<T>)
    requires s != [] && p(s[0])
    ensures Filter(p, s) != [] && Filter(p, s)[0] == s[0]
  {
  }

  lemma HeadsOfOneKind<T(!new)>(less: (T, T) -> bool, p: T -> bool, q: T -> bool, a: seq<T>, b: seq<T>)
    requires StrictWeak(less) && Sorted(less, a) && Sorted(less, b) && a != [] && b != []
    requires forall x :: q(x) == !p(x)
    requires Filter(p, a) == Filter(p, b) && Filter(q, a) == Filter(q, b)
    requires forall x, y :: x in a && y in a && p(x) && q(y) ==> less(x, y) || less(y, x)
    ensures a[0] == b[0]
  {
    var x, y := a[0], b[0];
    assert x in Filter(p, a) || x in Filter(q, a);
    assert y in Filter(p, b) || y in Filter(q, b);
    HeadIsLeast(less, a, y);
    HeadIsLeast(less, b, x);
    assert p(x) == p(y);
    if p(x) {
      FirstOfKind(p, a);
      FirstOfKind(p, b);
    } else {
      FirstOfKind(q, a);
      FirstOfKind(q, b);
    }
  }

  lemma HeadIsLeast<T>(less: (T, T) -> bool, s: seq<T>, x: T)
    requires Sorted(less, s) && x in s
    ensures x == s[0] || !less(x, s[0])
  {
    var i :| 0 <= i < |s| && s[i] == x;
  }

  /** A stable sort commutes with a map that keeps the order of any two elements. */
  lemma {:induction false} SortMap<T, U>(lessT: (T, T) -> bool, lessU: (U, U) -> bool, f: T -> U, s: seq<T>)
    requires forall x, y :: x in s && y in s ==> lessT(x, y) == lessU(f(x), f(y))
    ensures SortBy(lessU, Map(f, s)) == Map(f, SortBy(lessT, s))
  {
    if s != [] {
      var init, x := s[..|s| - 1], s[|s| - 1];
      assert s == init + [x];
      SortMap(lessT, lessU, f, init);
      SortSnoc(lessU, Map(f, init), f(x));
      assert Map(f, init) + [f(x)] == Map(f, s);
      InsertMap(lessT, lessU, f, x, SortBy(lessT, init));
    }
  }

  /** Elements that the order tells apart have only one sorted arrangement. */
  lemma {:induction false} SortedUnique<T(!new)>(less: (T, T) -> bool, a: seq<T>, b: seq<T>)
    requires StrictWeak(less) && Sorted(less, a) && Sorted(less, b)
    requires multiset(a) == multiset(b)
    requires forall x, y :: x in a && y in a && x != y ==> less(x, y) || less(y, x)
    ensures a == b
  {
    if a != [] {
      assert a[0] in multiset(a) && |a| == |multiset(a)| && |b| == |multiset(b)|;
      assert b[0] in multiset(b);
      assert a[0] in b && b[0] in a;
      assert OrdersTriple(less, a[0], b[0], a[0]);
      assert a[0] == b[0] by {
        var i :| 0 <= i < |b| && b[i] == a[0];
        var j :| 0 <= j < |a| && a[j] == b[0];
      }
      TailMultiset(a);
      TailMultiset(b);
      SortedUnique(less, a[1..], b[1..]);
    }
  }

  lemma TailMultiset<T>(s: seq<T>)
    requires s != []
    ensures multiset(s[1..]) == multiset(s) - multiset{s[0]}
  {
    assert s == [s[0]] + s[1..];
  }

  // ----- Lists that admit each key once and stay sorted -----

  /** The list after x arrives: unchanged when its key is already there, else re-sorted with x. */
  function AddOnce<T, K(==)>(key: T -> K, less: (T, T) -> bool, s0: seq<T>, x: T): seq<T> {
    if Any((m: T) => key(m) == key(x), s0) then s0 else SortBy(less, s0 + [x])
  }

  function AddAll<T, K(==)>(key: T -> K, less: (T, T) -> bool, s0: seq<T>, xs: seq<T>): seq<T>
    decreases |xs|
  {
    if xs == [] then s0 else AddAll(key, less, AddOnce(key, less, s0, xs[0]), xs[1..])
  }

  ghost predicate DistinctKeys<T, K>(key: T -> K, s: seq<T>) {
    forall i, j :: 0 <= i < j < |s| ==> key(s[i]) != key(s[j])
  }

  ghost predicate KeysDecide<T(!new), K>(key: T -> K, less: (T, T) -> bool) {
    forall a, b :: key(a) != key(b) ==> less(a, b) || less(b, a)
  }

  ghost predicate OnePerKey<T(!new), K>(key: T -> K, s: seq<T>) {
    forall x, y :: x in s && y in s && key(x) == key(y) ==> x == y
  }

  lemma DistinctKeysNoDup<T(!new), K>(key: T -> K, s: seq<T>)
    ensures DistinctKeys(key, s) <==> NoDup(s) && OnePerKey(key, s)
  {
    if DistinctKeys(key, s) {
      forall x, y | x in s && y in s && key(x) == key(y) ensures x == y {
        var i :| 0 <= i < |s| && s[i] == x;
        var j :| 0 <= j < |s| && s[j] == y;
        if i < j { } else if j < i { }
      }
    }
  }

  lemma PermutationNoDup<T(!new)>(a: seq<T>, b: seq<T>)
    requires NoDup(a) && multiset(a) == multiset(b)
    ensures NoDup(b)
  {
    forall i, j | 0 <= i < j < |b| ensures b[i] != b[j] {
      if b[i] == b[j] {
        assert b == b[..i] + [b[i]] + b[i + 1..j] + [b[j]] + b[j + 1..];
        assert multiset(b)[b[i]] >= 2;
        NoDupMultiplicity(a, b[i]);
        assert false;
      }
    }
  }

  lemma AddOnceKeeps<T(!new), K>(key: T -> K, less: (T, T) -> bool, s0: seq<T>, x: T)
    requires StrictWeak(less) && Sorted(less, s0) && DistinctKeys(key, s0) && OnePerKey(key, s0 + [x])
    ensures var r := AddOnce(key, less, s0, x);
      && Sorted(less, r) && DistinctKeys(key, r)
      && (forall y :: y in r <==> y in s0 || y == x)
  {
    var found := Any((m: T) => key(m) == key(x), s0);
    if found {
      var i :| 0 <= i < |s0| && key(s0[i]) == key(x);
      assert s0[i] in s0 + [x] && x in s0 + [x];
    } else {
      SortSorts(less, s0 + [x]);
      DistinctKeysNoDup(key, s0 + [x]);
      SortPermutes(less, s0 + [x]);
      PermutationNoDup(s0 + [x], SortBy(less, s0 + [x]));
      DistinctKeysNoDup(key, SortBy(less, s0 + [x]));
    }
  }

  lemma {:induction false} AddAllKeeps<T(!new), K>(key: T -> K, less: (T, T) -> bool, s0: seq<T>, xs: seq<T>)
    requires StrictWeak(less) && Sorted(less, s0) && DistinctKeys(key, s0) && OnePerKey(key, s0 + xs)
    ensures var r := AddAll(key, less, s0, xs);
      && Sorted(less, r) && DistinctKeys(key, r)
      && (forall y :: y in r <==> y in s0 || y in xs)
    decreases |xs|
  {
    if xs != [] {
      assert xs == [xs[0]] + xs[1..];
      assert forall y :: y in s0 + [xs[0]] ==> y in s0 + xs;
      AddOnceKeeps(key, less, s0, xs[0]);
      var next := AddOnce(key, less, s0, xs[0]);
      assert forall y :: y in next + xs[1..] ==> y in s0 + xs;
      AddAllKeeps(key, less, next, xs[1..]);
    }
  }

  lemma {:induction false} AddAllSnoc<T, K>(key: T -> K, less: (T, T) -> bool, s0: seq<T>, xs: seq<T>, x: T)
    ensures AddAll(key, less, s0, xs + [x]) == AddOnce(key, less, AddAll(key, less, s0, xs), x)
    decreases |xs|
  {
    if xs == [] {
      assert xs + [x] == [x] && [x][1..] == [];
    } else {
      assert (xs + [x])[0] == xs[0] && (xs + [x])[1..] == xs[1..] + [x];
      AddAllSnoc(key, less, AddOnce(key, less, s0, xs[0]), xs[1..], x);
    }
  }

  /** The key of x occurs in s0. */
  function TakenIn<T, K(==)>(key: T -> K, s0: seq<T>): T -> bool {
    (x: T) => Any((m: T) => key(m) == key(x), s0)
  }

  function FreshTo<T, K(==)>(key: T -> K, s0: seq<T>): T -> bool {
    (x: T) => !Any((m: T) => key(m) == key(x), s0)
  }

  lemma KeyFound<T, K>(key: T -> K, s: seq<T>, x: T)
    ensures Any((m: T) => key(m) == key(x), s) <==> exists m :: m in s && key(m) == key(x)
  {
    if m :| m in s && key(m) == key(x) {
      var i :| 0 <= i < |s| && s[i] == m;
    }
    if i :| 0 <= i < |s| && key(s[i]) == key(x) {
      assert s[i] in s;
    }
  }

  /** What r holds apart from the old list s0 grows like a list of its own. */
  lemma AddOnceFresh<T(!new), K>(key: T -> K, less: (T, T) -> bool, s0: seq<T>, r: seq<T>, x: T)
    requires StrictWeak(less) && Sorted(less, s0) && Sorted(less, r) && Filter(TakenIn(key, s0), r) == s0
    ensures var after := AddOnce(key, less, r, x);
      && Sorted(less, after) && Filter(TakenIn(key, s0), after) == s0
      && Filter(FreshTo(key, s0), after) ==
         if FreshTo(key, s0)(x) then AddOnce(key, less, Filter(FreshTo(key, s0), r), x) else Filter(FreshTo(key, s0), r)
  {
    var taken, untaken := TakenIn(key, s0), FreshTo(key, s0);
    KeyFound(key, r, x);
    KeyFound(key, s0, x);
    KeyFound(key, Filter(untaken, r), x);
    if m :| m in r && key(m) == key(x) {
      assert untaken(x) ==> m in Filter(untaken, r) by { KeyFound(key, s0, m); }
    } else {
      assert untaken(x);
      SortSorts(less, r + [x]);
      SortFilter(less, taken, r + [x]);
      SortFilter(less, untaken, r + [x]);
      FilterOneMore(taken, r, x);
      FilterOneMore(untaken, r, x);
      SortOfSorted(less, s0);
    }
  }

  lemma FilterOneMore<T>(p: T -> bool, s: seq<T>, x: T)
    ensures Filter(p, s + [x]) == if p(x) then Filter(p, s) + [x] else Filter(p, s)
  {
    FilterConcat(p, s, [x]);
    FilterCons(p, x, []);
    assert [x] + [] == [x] && Filter(p, s) + [] == Filter(p, s);
  }

  /** The old list stays as it is, and the elements with new keys form the list they would form alone. */
  lemma {:induction false} AddAllFresh<T(!new), K>(key: T -> K, less: (T, T) -> bool, s0: seq<T>, xs: seq<T>)
    requires StrictWeak(less) && Sorted(less, s0)
    ensures var r := AddAll(key, less, s0, xs);
      && Sorted(less, r) && Filter(TakenIn(key, s0), r) == s0
      && Filter(FreshTo(key, s0), r) == AddAll(key, less, [], Filter(FreshTo(key, s0), xs))
    decreases |xs|
  {
    var untaken := FreshTo(key, s0);
    if xs == [] {
      OldIsTaken(key, s0);
    } else {
      var init, x := xs[..|xs| - 1], xs[|xs| - 1];
      assert xs == init + [x];
      AddAllFresh(key, less, s0, init);
      AddAllSnoc(key, less, s0, init, x);
      AddOnceFresh(key, less, s0, AddAll(key, less, s0, init), x);
      FilterOneMore(untaken, init, x);
      AddAllSnoc(key, less, [], Filter(untaken, init), x);
    }
  }

  lemma OldIsTaken<T, K>(key: T -> K, s0: seq<T>)
    ensures Filter(TakenIn(key, s0), s0) == s0 && Filter(FreshTo(key, s0), s0) == []
  {
    forall x | x in s0 ensures TakenIn(key, s0)(x) { KeyFound(key, s0, x); }
    FilterAll(TakenIn(key, s0), s0);
    FilterNone(FreshTo(key, s0), s0);
  }

  /** Arrival order and repetition do not matter, whatever the sorted list holds before; of the arrivals exactly
      those whose key the list did not hold are added. */
  lemma ConvergenceOver<T(!new), K>(key: T -> K, less: (T, T) -> bool, s0: seq<T>, xs: seq<T>, ys: seq<T>)
    requires StrictWeak(less) && KeysDecide(key, less)
    requires Sorted(less, s0) && OnePerKey(key, xs)
    requires forall x :: x in xs <==> x in ys
    ensures AddAll(key, less, s0, xs) == AddAll(key, less, s0, ys)
    ensures var r := AddAll(key, less, s0, xs);
      && Sorted(less, r) && Filter(TakenIn(key, s0), r) == s0 && DistinctKeys(key, Filter(FreshTo(key, s0), r))
      && forall x :: x in r <==> x in s0 || (x in xs && FreshTo(key, s0)(x))
  {
    var taken, untaken := TakenIn(key, s0), FreshTo(key, s0);
    var a, b := AddAll(key, less, s0, xs), AddAll(key, less, s0, ys);
    var xs', ys' := Filter(untaken, xs), Filter(untaken, ys);
    AddAllFresh(key, less, s0, xs);
    AddAllFresh(key, less, s0, ys);
    assert [] + xs' == xs';
    Convergence(key, less, [], xs', ys');
    AddAllKeeps(key, less, [], xs');
    forall x, y | x in a && y in a && taken(x) && untaken(y) ensures less(x, y) || less(y, x) {
      KeyFound(key, s0, x);
      KeyFound(key, s0, y);
    }
    MergeUnique(less, taken, untaken, a, b);
    forall x ensures x in a <==> x in s0 || (x in xs && untaken(x)) {
      MemberByKind(taken, untaken, a, x);
      assert x in s0 ==> x in Filter(taken, a);
    }
  }

  lemma MemberByKind<T(!new)>(p: T -> bool, q: T -> bool, s: seq<T>, x: T)
    requires forall y :: q(y) == !p(y)
    ensures x in s <==> x in Filter(p, s) || x in Filter(q, s)
  {
  }

  /** The list that arrivals with one element per key form: order and repetition do not matter. */
  lemma Convergence<T(!new), K>(key: T -> K, less: (T, T) -> bool, s0: seq<T>, xs: seq<T>, ys: seq<T>)
    requires StrictWeak(less) && KeysDecide(key, less)
    requires Sorted(less, s0) && DistinctKeys(key, s0) && OnePerKey(key, s0 + xs)
    requires forall x :: x in xs <==> x in ys
    ensures AddAll(key, less, s0, xs) == AddAll(key, less, s0, ys)
  {
    assert forall y :: y in s0 + ys ==> y in s0 + xs;
    AddAllKeeps(key, less, s0, xs);
    AddAllKeeps(key, less, s0, ys);
    var a, b := AddAll(key, less, s0, xs), AddAll(key, less, s0, ys);
    DistinctKeysNoDup(key, a);
    DistinctKeysNoDup(key, b);
    SameElementsPermute(a, b);
    forall x, y | x in a && y in a && x != y ensures less(x, y) || less(y, x) {
      assert key(x) != key(y);
    }
    SortedUnique(less, a, b);
  }
}
