/** Filtering and stable sorting of lists, and what a stable sort determines. */
module Ordering {
  import opened Options

  /** A strict order whose ties are an equivalence: what a sort's comparison must be. */
  ghost predicate StrictWeak<T(!new)>(less: (T, T) -> bool) {
    && (forall a, b :: less(a, b) ==> !less(b, a))
    && (forall a, b, c :: less(a, b) ==> less(a, c) || less(c, b))
  }

  ghost predicate Sorted<T(!new)>(s: seq<T>, less: (T, T) -> bool) {
    forall i, j :: 0 <= i < j < |s| ==> !less(s[j], s[i])
  }

  /** The kept elements, in order: the loops that skip and append. */
  function Filter<T(!new)>(s: seq<T>, keep: T -> bool): seq<T> {
    if s == [] then []
    else
      Filter(s[..|s| - 1], keep) + if keep(s[|s| - 1]) then [s[|s| - 1]] else []
  }

  function Map<T(!new), U(!new)>(s: seq<T>, f: T -> U): (r: seq<U>)
    ensures |r| == |s| && forall i :: 0 <= i < |s| ==> r[i] == f(s[i])
  {
    seq(|s|, i requires 0 <= i < |s| => f(s[i]))
  }

  /** One list is inside another, in the same order. */
  predicate Subsequence<T(==)>(a: seq<T>, b: seq<T>) {
    if a == [] then true
    else if b == [] then false
    else if a[|a| - 1] == b[|b| - 1] then Subsequence(a[..|a| - 1], b[..|b| - 1])
    else Subsequence(a, b[..|b| - 1])
  }

  /** Exactly the kept elements remain. */
  lemma {:induction false} FilterMember<T(!new)>(s: seq<T>, keep: T -> bool, x: T)
    ensures x in Filter(s, keep) <==> x in s && keep(x)
  {
    if s != [] {
      FilterMember(s[..|s| - 1], keep, x);
      assert s == s[..|s| - 1] + [s[|s| - 1]];
    }
  }

  lemma FilterSnoc<T(!new)>(s: seq<T>, x: T, keep: T -> bool)
    ensures Filter(s + [x], keep) == Filter(s, keep) + if keep(x) then [x] else []
  {
    assert (s + [x])[..|s|] == s;
  }

  lemma {:induction false} FilterCons<T(!new)>(x: T, s: seq<T>, keep: T -> bool)
    ensures Filter([x] + s, keep) == (if keep(x) then [x] else []) + Filter(s, keep)
  {
    var front := if keep(x) then [x] else [];
    if s == [] {
      assert [x] + s == [] + [x] == [x];
      FilterSnoc([], x, keep);
    } else {
      hide Filter;
      var t, last := s[..|s| - 1], s[|s| - 1];
      var kept := if keep(last) then [last] else [];
      assert s == t + [last] && [x] + s == ([x] + t) + [last];
      FilterCons(x, t, keep);
      FilterSnoc(t, last, keep);
      FilterSnoc([x] + t, last, keep);
      assert (front + Filter(t, keep)) + kept == front + (Filter(t, keep) + kept);
    }
  }

  /** A weaker filter before a stronger one does nothing. */
  lemma {:induction false} FilterTwice<T(!new)>(s: seq<T>, p: T -> bool, q: T -> bool)
    requires forall i :: 0 <= i < |s| && q(s[i]) ==> p(s[i])
    ensures Filter(Filter(s, p), q) == Filter(s, q)
  {
    if s != [] {
      var t, last := s[..|s| - 1], s[|s| - 1];
      FilterTwice(t, p, q);
      FilterSnoc(Filter(t, p), last, q);
      if !p(last) {
        assert Filter(s, p) == Filter(t, p);
      }
    }
  }

  // ---------------------------------------------------------------- sorting

  /** Places an element before everything that is not smaller. */
  function Insert<T(!new)>(x: T, s: seq<T>, less: (T, T) -> bool): seq<T> {
    if s == [] then [x]
    else if less(s[0], x) then [s[0]] + Insert(x, s[1..], less)
    else [x] + s
  }

  /** The stable sort: smaller first, ties in the order they came. */
  function StableSort<T(!new)>(s: seq<T>, less: (T, T) -> bool): seq<T> {
    if s == [] then [] else Insert(s[0], StableSort(s[1..], less), less)
  }

  lemma {:induction false} InsertBag<T(!new)>(x: T, s: seq<T>, less: (T, T) -> bool)
    ensures multiset(Insert(x, s, less)) == multiset(s) + multiset{x}
  {
    if s != [] && less(s[0], x) {
      InsertBag(x, s[1..], less);
      assert s == [s[0]] + s[1..];
    }
  }

  /** Sorting loses and invents nothing. */
  lemma {:induction false} StableSortBag<T(!new)>(s: seq<T>, less: (T, T) -> bool)
    ensures multiset(StableSort(s, less)) == multiset(s) && |StableSort(s, less)| == |s|
  {
    if s != [] {
      StableSortBag(s[1..], less);
      InsertBag(s[0], StableSort(s[1..], less), less);
      assert s == [s[0]] + s[1..];
      hide Insert, StableSort;
      assert |StableSort(s, less)| == |multiset(StableSort(s, less))| == |multiset(s)| == |s|;
    }
  }

  lemma {:induction false} InsertSorted<T(!new)>(x: T, s: seq<T>, less: (T, T) -> bool)
    requires StrictWeak(less) && Sorted(s, less)
    ensures Sorted(Insert(x, s, less), less)
  {
    if s != [] && less(s[0], x) {
      var rest := Insert(x, s[1..], less);
      InsertSorted(x, s[1..], less);
      InsertBag(x, s[1..], less);
      forall j | 0 <= j < |rest| ensures !less(rest[j], s[0]) {
        assert rest[j] in multiset(rest);
        if rest[j] != x {
          assert rest[j] in multiset(s[1..]);
          var k :| 0 <= k < |s[1..]| && s[1..][k] == rest[j];
          assert s[k + 1] == rest[j];
        }
      }
    }
  }

  lemma {:induction false} StableSortSorted<T(!new)>(s: seq<T>, less: (T, T) -> bool)
    requires StrictWeak(less)
    ensures Sorted(StableSort(s, less), less)
  {
    if s != [] {
      StableSortSorted(s[1..], less);
      InsertSorted(s[0], StableSort(s[1..], less), less);
    }
  }

  lemma {:induction false} InsertFilter<T(!new)>(x: T, s: seq<T>, less: (T, T) -> bool, keep: T -> bool)
    requires StrictWeak(less) && Sorted(s, less)
    ensures Filter(Insert(x, s, less), keep) == if keep(x) then Insert(x, Filter(s, keep), less) else Filter(s, keep)
  {
    FilterCons(x, s, keep);
    if s == [] {
      assert [x] + s == [x];
    } else {
      hide Filter;
      var h, t := s[0], s[1..];
      assert s == [h] + t;
      FilterCons(h, t, keep);
      if less(h, x) {
        InsertFilter(x, t, less, keep);
        FilterCons(h, Insert(x, t, less), keep);
        if keep(h) {
          assert Filter(s, keep)[1..] == Filter(t, keep);
        } else {
          assert Filter(s, keep) == Filter(t, keep);
          assert Filter(Insert(x, s, less), keep) == Filter(Insert(x, t, less), keep);
        }
      } else if Filter(s, keep) != [] {
        KeptNotSmaller(x, s, less, keep);
      }
    }
  }

  lemma KeptNotSmaller<T(!new)>(x: T, s: seq<T>, less: (T, T) -> bool, keep: T -> bool)
    requires StrictWeak(less) && Sorted(s, less) && Filter(s, keep) != [] && !less(s[0], x)
    ensures !less(Filter(s, keep)[0], x)
  {
    hide Filter;
    var y := Filter(s, keep)[0];
    FilterMember(s, keep, y);
    var k :| 0 <= k < |s| && s[k] == y;
    assert !less(s[k], s[0]);
  }

  /** Sorting what is kept is keeping what is sorted. */
  lemma {:induction false} StableSortFilter<T(!new)>(s: seq<T>, less: (T, T) -> bool, keep: T -> bool)
    requires StrictWeak(less)
    ensures Filter(StableSort(s, less), keep) == StableSort(Filter(s, keep), less)
  {
    if s != [] {
      var h, t := s[0], s[1..];
      assert s == [h] + t;
      StableSortFilter(t, less, keep);
      StableSortSorted(t, less);
      InsertFilter(h, StableSort(t, less), less, keep);
      FilterCons(h, t, keep);
      if keep(h) {
        assert Filter(s, keep)[1..] == Filter(t, keep);
      } else {
        assert Filter(s, keep) == Filter(t, keep);
      }
    }
  }

  /** The first of the smallest elements. */
  ghost predicate FirstLeast<T(!new)>(s: seq<T>, i: int, less: (T, T) -> bool) {
    && 0 <= i < |s|
    && (forall j :: 0 <= j < |s| ==> !less(s[j], s[i]))
    && (forall j :: 0 <= j < i ==> less(s[i], s[j]))
  }

  /** A stable sort starts with the first of the smallest. */
  lemma {:induction false} StableSortHead<T(!new)>(s: seq<T>, less: (T, T) -> bool, i: nat)
    requires StrictWeak(less) && FirstLeast(s, i, less)
    ensures StableSort(s, less) != [] && StableSort(s, less)[0] == s[i]
  {
    var t := s[1..];
    var r := StableSort(t, less);
    StableSortBag(t, less);
    if i > 0 {
      assert FirstLeast(t, i - 1, less) by {
        assert forall j :: 0 <= j < |t| ==> t[j] == s[j + 1];
      }
      StableSortHead(t, less, i - 1);
      assert less(s[i], s[0]);
    } else if t != [] {
      assert r[0] in multiset(r) && r[0] in multiset(t);
      var k :| 0 <= k < |t| && t[k] == r[0];
      assert s[k + 1] == r[0];
    }
  }

  lemma HeadsAgree<T(!new)>(a: seq<T>, b: seq<T>, less: (T, T) -> bool)
    requires StrictWeak(less) && Sorted(a, less) && Sorted(b, less) && multiset(a) == multiset(b) && a != [] && b != []
    requires forall x, y :: x in a && y in a && !less(x, y) && !less(y, x) ==> x == y
    ensures a[0] == b[0]
  {
    assert a[0] in multiset(b) && b[0] in multiset(a);
    var i :| 0 <= i < |b| && b[i] == a[0];
    var j :| 0 <= j < |a| && a[j] == b[0];
    assert !less(b[i], b[0]) && !less(a[j], a[0]);
  }

  lemma TailBag<T(!new)>(a: seq<T>)
    requires a != []
    ensures multiset(a[1..]) == multiset(a) - multiset{a[0]}
  {
    assert a == [a[0]] + a[1..];
  }

  /** Two sorted lists with the same elements are equal when no two elements tie. */
  lemma {:induction false} SortedUnique<T(!new)>(a: seq<T>, b: seq<T>, less: (T, T) -> bool)
    requires StrictWeak(less) && Sorted(a, less) && Sorted(b, less) && multiset(a) == multiset(b)
    requires forall x, y :: x in a && y in a && !less(x, y) && !less(y, x) ==> x == y
    ensures a == b
  {
    assert |a| == |multiset(a)| && |b| == |multiset(b)|;
    if a != [] {
      HeadsAgree(a, b, less);
      TailBag(a);
      TailBag(b);
      SortedUnique(a[1..], b[1..], less);
    }
  }

  /** The elements that tie with a given one. */
  function Tied<T(!new)>(less: (T, T) -> bool, x: T): T -> bool {
    y => !less(x, y) && !less(y, x)
  }

  /** The contract of a stable sort: sorted, and each class of ties as it came. */
  ghost predicate SortsStably<T(!new)>(s: seq<T>, r: seq<T>, less: (T, T) -> bool) {
    Sorted(r, less) && forall x :: Filter(r, Tied(less, x)) == Filter(s, Tied(less, x))
  }

  lemma {:induction false} StableSortTied<T(!new)>(s: seq<T>, less: (T, T) -> bool)
    requires forall i, j :: 0 <= i < |s| && 0 <= j < |s| ==> !less(s[i], s[j])
    ensures StableSort(s, less) == s
  {
    if s != [] {
      StableSortTied(s[1..], less);
    }
  }

  lemma StableSortSortsStably<T(!new)>(s: seq<T>, less: (T, T) -> bool)
    requires StrictWeak(less)
    ensures SortsStably(s, StableSort(s, less), less)
  {
    hide StableSort, Filter;
    StableSortSorted(s, less);
    forall x ensures Filter(StableSort(s, less), Tied(less, x)) == Filter(s, Tied(less, x)) {
      var ties := Filter(s, Tied(less, x));
      StableSortFilter(s, less, Tied(less, x));
      forall i, j | 0 <= i < |ties| && 0 <= j < |ties| ensures !less(ties[i], ties[j]) {
        FilterMember(s, Tied(less, x), ties[i]);
        FilterMember(s, Tied(less, x), ties[j]);
      }
      StableSortTied(ties, less);
    }
  }

  lemma HeadInOther<T(!new)>(a: seq<T>, b: seq<T>, less: (T, T) -> bool)
    requires StrictWeak(less) && a != [] && Sorted(b, less)
    requires Filter(a, Tied(less, a[0])) == Filter(b, Tied(less, a[0]))
    ensures a[0] in b && !less(a[0], b[0])
  {
    hide Filter;
    assert a == [a[0]] + a[1..];
    FilterCons(a[0], a[1..], Tied(less, a[0]));
    assert Filter(a, Tied(less, a[0]))[0] == a[0];
    FilterMember(b, Tied(less, a[0]), a[0]);
    var k :| 0 <= k < |b| && b[k] == a[0];
    assert !less(b[k], b[0]);
  }

  lemma TailClass<T(!new)>(a: seq<T>, b: seq<T>, keep: T -> bool)
    requires a != [] && b != [] && a[0] == b[0] && Filter(a, keep) == Filter(b, keep)
    ensures Filter(a[1..], keep) == Filter(b[1..], keep)
  {
    hide Filter;
    assert a == [a[0]] + a[1..] && b == [b[0]] + b[1..];
    FilterCons(a[0], a[1..], keep);
    FilterCons(b[0], b[1..], keep);
    var front := if keep(a[0]) then [a[0]] else [];
    assert Filter(a[1..], keep) == (front + Filter(a[1..], keep))[|front|..];
    assert Filter(b[1..], keep) == (front + Filter(b[1..], keep))[|front|..];
  }

  lemma {:induction false} SameClassesSameList<T(!new)>(a: seq<T>, b: seq<T>, less: (T, T) -> bool)
    requires StrictWeak(less) && Sorted(a, less) && Sorted(b, less)
    requires forall x :: Filter(a, Tied(less, x)) == Filter(b, Tied(less, x))
    ensures a == b
  {
    hide Filter;
    if b != [] {
      HeadInOther(b, a, less);
    }
    if a != [] {
      HeadInOther(a, b, less);
      var keep := Tied(less, a[0]);
      assert a == [a[0]] + a[1..] && b == [b[0]] + b[1..];
      FilterCons(a[0], a[1..], keep);
      FilterCons(b[0], b[1..], keep);
      assert Filter(a, keep)[0] == a[0] && Filter(b, keep)[0] == b[0];
      forall x ensures Filter(a[1..], Tied(less, x)) == Filter(b[1..], Tied(less, x)) {
        TailClass(a, b, Tied(less, x));
      }
      SameClassesSameList(a[1..], b[1..], less);
    }
  }

  /** Whatever algorithm sorts stably, this is its result. */
  lemma StableSortDetermined<T(!new)>(s: seq<T>, r: seq<T>, less: (T, T) -> bool)
    requires StrictWeak(less) && SortsStably(s, r, less)
    ensures r == StableSort(s, less)
  {
    hide StableSort, Filter;
    StableSortSortsStably(s, less);
    SameClassesSameList(r, StableSort(s, less), less);
  }

  lemma {:induction false} SubsequenceFilter<T(!new)>(s: seq<T>, keep: T -> bool)
    ensures Subsequence(Filter(s, keep), s)
  {
    if s != [] {
      var t, last := s[..|s| - 1], s[|s| - 1];
      SubsequenceFilter(t, keep);
      hide Subsequence, Filter;
      assert s == t + [last];
      FilterSnoc(t, last, keep);
      if keep(last) {
        SubsequenceBoth(Filter(t, keep), t, last);
      } else {
        assert Filter(s, keep) == Filter(t, keep);
        SubsequenceSkip(Filter(t, keep), t, last);
      }
    }
  }

  lemma SubsequenceBoth<T(!new)>(a: seq<T>, b: seq<T>, x: T)
    requires Subsequence(a, b)
    ensures Subsequence(a + [x], b + [x])
  {
    assert (a + [x])[..|a|] == a && (b + [x])[..|b|] == b;
  }

  lemma {:induction false} SubsequenceSkip<T(!new)>(a: seq<T>, b: seq<T>, x: T)
    requires Subsequence(a, b)
    ensures Subsequence(a, b + [x])
    decreases |b|, 1
  {
    assert (b + [x])[..|b|] == b;
    if a != [] && a[|a| - 1] == x {
      SubsequenceShrink(a, b);
    }
  }

  lemma {:induction false} SubsequenceShrink<T(!new)>(a: seq<T>, b: seq<T>)
    requires Subsequence(a, b) && a != []
    ensures Subsequence(a[..|a| - 1], b)
    decreases |b|, 0
  {
    var c := b[..|b| - 1];
    assert c + [b[|b| - 1]] == b;
    if a[|a| - 1] == b[|b| - 1] {
      SubsequenceSkip(a[..|a| - 1], c, b[|b| - 1]);
    } else {
      SubsequenceShrink(a, c);
      SubsequenceSkip(a[..|a| - 1], c, b[|b| - 1]);
    }
  }

  lemma {:induction false} SubsequenceMap<T(!new), U(!new)>(a: seq<T>, b: seq<T>, f: T -> U)
    requires Subsequence(a, b)
    ensures Subsequence(Map(a, f), Map(b, f))
  {
    if a != [] {
      var c := b[..|b| - 1];
      assert Map(b, f) == Map(c, f) + [f(b[|b| - 1])];
      if a[|a| - 1] == b[|b| - 1] {
        var d := a[..|a| - 1];
        SubsequenceMap(d, c, f);
        assert Map(a, f) == Map(d, f) + [f(a[|a| - 1])];
        assert Map(a, f)[..|d|] == Map(d, f) && Map(b, f)[..|c|] == Map(c, f);
      } else {
        SubsequenceMap(a, c, f);
        SubsequenceSkip(Map(a, f), Map(c, f), f(b[|b| - 1]));
      }
    }
  }

  // ---------------------------------------------------------------- gathering

  /** What a function makes of each element, in order, where it makes anything. */
  function Gather<T(!new), U(!new)>(s: seq<T>, f: T -> Option<U>): seq<U> {
    if s == [] then []
    else
      Gather(s[..|s| - 1], f) + AsList(f(s[|s| - 1]))
  }

  function AsList<U>(u: Option<U>): seq<U> {
    match u { case None => [] case Some(v) => [v] }
  }

  lemma GatherSnoc<T(!new), U(!new)>(s: seq<T>, x: T, f: T -> Option<U>)
    ensures Gather(s + [x], f) == Gather(s, f) + AsList(f(x))
  {
    assert (s + [x])[..|s|] == s;
  }

  lemma {:induction false} GatherMember<T(!new), U(!new)>(s: seq<T>, f: T -> Option<U>, u: U)
    requires u in Gather(s, f)
    ensures exists i :: 0 <= i < |s| && f(s[i]) == Some(u)
  {
    var last := |s| - 1;
    if f(s[last]) != Some(u) {
      GatherMember(s[..last], f, u);
      var i :| 0 <= i < last && f(s[..last][i]) == Some(u);
      assert f(s[i]) == Some(u);
    }
  }

  /** Only the elements the list holds matter. */
  lemma {:induction false} GatherSame<T(!new), U(!new)>(s: seq<T>, f: T -> Option<U>, g: T -> Option<U>)
    requires forall i :: 0 <= i < |s| ==> f(s[i]) == g(s[i])
    ensures Gather(s, f) == Gather(s, g)
  {
    if s != [] {
      GatherSame(s[..|s| - 1], f, g);
    }
  }

  /** Dropping what gives nothing changes nothing. */
  lemma {:induction false} GatherFilter<T(!new), U(!new)>(s: seq<T>, keep: T -> bool, f: T -> Option<U>)
    requires forall i :: 0 <= i < |s| && !keep(s[i]) ==> f(s[i]) == None
    ensures Gather(Filter(s, keep), f) == Gather(s, f)
  {
    if s != [] {
      var t, last := s[..|s| - 1], s[|s| - 1];
      GatherFilter(t, keep, f);
      if keep(last) {
        GatherSnoc(Filter(t, keep), last, f);
      } else {
        assert Filter(s, keep) == Filter(t, keep) && Gather(s, f) == Gather(t, f);
      }
    }
  }

  /** Changing what does not show changes nothing. */
  lemma {:induction false} GatherMapped<T(!new), U(!new)>(s: seq<T>, h: T -> T, f: T -> Option<U>)
    requires forall i :: 0 <= i < |s| ==> f(h(s[i])) == f(s[i])
    ensures Gather(Map(s, h), f) == Gather(s, f)
  {
    if s != [] {
      var t := s[..|s| - 1];
      GatherMapped(t, h, f);
      assert Map(s, h)[..|t|] == Map(t, h);
    }
  }

  /** Showing more adds entries and keeps the others in their order. */
  lemma {:induction false} GatherGrows<T(!new), U(!new)>(s: seq<T>, f: T -> Option<U>, g: T -> Option<U>)
    requires forall i :: 0 <= i < |s| && f(s[i]).Some? ==> g(s[i]) == f(s[i])
    ensures Subsequence(Gather(s, f), Gather(s, g))
  {
    if s != [] {
      var t, last := s[..|s| - 1], s[|s| - 1];
      GatherGrows(t, f, g);
      var a, b := Gather(t, f), Gather(t, g);
      hide Gather, Subsequence;
      assert s == t + [last];
      GatherSnoc(t, last, f);
      GatherSnoc(t, last, g);
      if f(last).Some? {
        SubsequenceBoth(a, b, f(last).value);
      } else if g(last).Some? {
        SubsequenceSkip(a, b, g(last).value);
        assert a + AsList(f(last)) == a;
      } else {
        assert a + AsList(f(last)) == a && b + AsList(g(last)) == b;
      }
    }
  }

  lemma GatherEmpty<T(!new), U(!new)>(s: seq<T>, f: T -> Option<U>)
    requires s == []
    ensures Gather(s, f) == []
  {
  }

  lemma {:induction false} GatherHas<T(!new), U(!new)>(s: seq<T>, f: T -> Option<U>, i: nat)
    requires i < |s| && f(s[i]).Some?
    ensures f(s[i]).value in Gather(s, f)
  {
    if i < |s| - 1 {
      GatherHas(s[..|s| - 1], f, i);
    }
  }

  lemma {:induction false} GatherAlike<T(!new), U(!new)>(s: seq<T>, t: seq<T>, f: T -> Option<U>)
    requires |s| == |t| && forall i :: 0 <= i < |s| ==> f(s[i]) == f(t[i])
    ensures Gather(s, f) == Gather(t, f)
  {
    if s != [] {
      GatherAlike(s[..|s| - 1], t[..|t| - 1], f);
    }
  }

  lemma {:induction false} GatherConcat<T(!new), U(!new)>(s: seq<T>, t: seq<T>, f: T -> Option<U>)
    ensures Gather(s + t, f) == Gather(s, f) + Gather(t, f)
  {
    if t == [] {
      assert s + t == s;
    } else {
      var c, x := t[..|t| - 1], t[|t| - 1];
      assert s + t == (s + c) + [x];
      GatherConcat(s, c, f);
      GatherSnoc(s + c, x, f);
    }
  }

  function Without<T>(s: seq<T>, k: nat): (r: seq<T>)
    requires k < |s|
    ensures |r| == |s| - 1
  {
    s[..k] + s[k + 1..]
  }

  lemma SameBagSameLength<T(!new)>(s: seq<T>, t: seq<T>)
    requires multiset(s) == multiset(t)
    ensures |s| == |t|
  {
    assert |s| == |multiset(s)| && |t| == |multiset(t)|;
  }

  /** Taking one element out takes out what it gave. */
  lemma {:induction false} GatherWithout<T(!new), U(!new)>(s: seq<T>, k: nat, f: T -> Option<U>)
    requires k < |s|
    ensures multiset(Gather(s, f)) == multiset(Gather(Without(s, k), f)) + multiset(AsList(f(s[k])))
  {
    hide Gather;
    var a, x, b := s[..k], s[k], s[k + 1..];
    assert s == (a + [x]) + b;
    GatherConcat(a + [x], b, f);
    GatherSnoc(a, x, f);
    GatherConcat(a, b, f);
  }

  lemma BagWithout<T(!new)>(s: seq<T>, k: nat)
    requires k < |s|
    ensures multiset(Without(s, k)) == multiset(s) - multiset{s[k]}
  {
    assert s == (s[..k] + [s[k]]) + s[k + 1..];
  }

  /** Gathering from a permutation gathers a permutation. */
  lemma {:induction false} GatherBag<T(!new), U(!new)>(s: seq<T>, t: seq<T>, f: T -> Option<U>)
    requires multiset(s) == multiset(t)
    ensures multiset(Gather(s, f)) == multiset(Gather(t, f))
    decreases |s|
  {
    hide Gather, Without;
    SameBagSameLength(s, t);
    if s == [] {
      GatherEmpty(s, f);
      GatherEmpty(t, f);
    } else {
      assert s[0] in multiset(t);
      var k :| 0 <= k < |t| && t[k] == s[0];
      BagWithout(s, 0);
      BagWithout(t, k);
      GatherWithout(s, 0, f);
      GatherWithout(t, k, f);
      GatherBag(Without(s, 0), Without(t, k), f);
    }
  }

  /** Gathering lists exactly what some element gives. */
  lemma GatherExactly<T(!new), U(!new)>(s: seq<T>, f: T -> Option<U>, u: U)
    ensures u in Gather(s, f) <==> exists i :: 0 <= i < |s| && f(s[i]) == Some(u)
  {
    hide Gather;
    if u in Gather(s, f) {
      GatherMember(s, f, u);
    }
    forall i | 0 <= i < |s| && f(s[i]) == Some(u) ensures u in Gather(s, f) {
      GatherHas(s, f, i);
    }
  }
}
