/** `sorted(s, key=...)`: the stable sort. `leq` compares by the key. */
module StableSort {

  /** `leq` is a total preorder of `dom`, the elements at hand. */
  ghost predicate PreorderOn<T(!new)>(dom: set<T>, leq: (T, T) -> bool) {
    && (forall x, y :: x in dom && y in dom ==> leq(x, y) || leq(y, x))
    && (forall x, y, z :: x in dom && y in dom && z in dom && leq(x, y) && leq(y, z) ==> leq(x, z))
  }

  ghost function Elements<T(!new)>(s: seq<T>): set<T> {
    set x | x in s
  }

  ghost predicate Within<T(!new)>(s: seq<T>, dom: set<T>) {
    forall x :: x in s ==> x in dom
  }

  predicate Ordered<T(!new)>(s: seq<T>, leq: (T, T) -> bool) {
    forall i, j :: 0 <= i < j < |s| ==> leq(s[i], s[j])
  }

  /** Puts `x` before the first element it may precede. */
  function Insert<T(!new)>(x: T, s: seq<T>, leq: (T, T) -> bool): (r: seq<T>)
    ensures multiset(r) == multiset(s) + multiset{x} && |r| == |s| + 1
  {
    if s == [] || leq(x, s[0]) then [x] + s
    else
      assert s == [s[0]] + s[1..];
      [s[0]] + Insert(x, s[1..], leq)
  }

  function Sort<T(!new)>(s: seq<T>, leq: (T, T) -> bool): (r: seq<T>)
    ensures multiset(r) == multiset(s) && |r| == |s|
  {
    if s == [] then []
    else
      assert s == [s[0]] + s[1..];
      Insert(s[0], Sort(s[1..], leq), leq)
  }

  function Filter<T(!new)>(s: seq<T>, keep: T -> bool): (r: seq<T>) {
    if s == [] then [] else (if keep(s[0]) then [s[0]] else []) + Filter(s[1..], keep)
  }

  lemma SameElements<T(!new)>(a: seq<T>, b: seq<T>)
    requires multiset(a) == multiset(b)
    ensures forall x :: x in a <==> x in b
  {
    assert forall x :: x in a <==> x in multiset(a);
    assert forall x :: x in b <==> x in multiset(b);
  }

  lemma Total<T(!new)>(dom: set<T>, leq: (T, T) -> bool, x: T, y: T)
    requires PreorderOn(dom, leq) && x in dom && y in dom
    ensures leq(x, y) || leq(y, x)
  {
  }

  lemma Transitive<T(!new)>(dom: set<T>, leq: (T, T) -> bool, x: T, y: T, z: T)
    requires PreorderOn(dom, leq) && x in dom && y in dom && z in dom && leq(x, y) && leq(y, z)
    ensures leq(x, z)
  {
  }

  lemma ConsOrdered<T(!new)>(x: T, s: seq<T>, leq: (T, T) -> bool)
    requires Ordered(s, leq) && forall y :: y in s ==> leq(x, y)
    ensures Ordered([x] + s, leq)
  {
  }

  lemma SingleOrdered<T(!new)>(x: T, leq: (T, T) -> bool)
    ensures Ordered([x], leq)
  {
  }

  lemma HeadBelow<T(!new)>(s: seq<T>, leq: (T, T) -> bool)
    requires s != [] && Ordered(s, leq)
    ensures Ordered(s[1..], leq) && forall y :: y in s[1..] ==> leq(s[0], y)
  {
  }

  lemma InsertElements<T(!new)>(x: T, s: seq<T>, leq: (T, T) -> bool)
    ensures forall y :: y in Insert(x, s, leq) <==> y == x || y in s
  {
    SameElements(Insert(x, s, leq), [x] + s);
  }

  lemma {:induction false} InsertOrdered<T(!new)>(x: T, s: seq<T>, leq: (T, T) -> bool, dom: set<T>)
    requires PreorderOn(dom, leq) && x in dom && Within(s, dom) && Ordered(s, leq)
    ensures Ordered(Insert(x, s, leq), leq)
  {
    hide PreorderOn, Ordered;
    if s == [] {
      assert Insert(x, s, leq) == [x];
      SingleOrdered(x, leq);
    } else if leq(x, s[0]) {
      HeadBelow(s, leq);
      assert s[0] in s;
      forall y | y in s ensures leq(x, y) {
        assert s == [s[0]] + s[1..];
        assert y in dom;
        if y != s[0] {
          Transitive(dom, leq, x, s[0], y);
        }
      }
      ConsOrdered(x, s, leq);
    } else {
      var t := s[1..];
      HeadBelow(s, leq);
      assert Within(t, dom) && s[0] in dom;
      Total(dom, leq, x, s[0]);
      InsertOrdered(x, t, leq, dom);
      InsertElements(x, t, leq);
      ConsOrdered(s[0], Insert(x, t, leq), leq);
    }
  }

  lemma {:induction false} SortOrdered<T(!new)>(s: seq<T>, leq: (T, T) -> bool, dom: set<T>)
    requires PreorderOn(dom, leq) && Within(s, dom)
    ensures Ordered(Sort(s, leq), leq)
  {
    if s != [] {
      hide PreorderOn;
      assert Within(s[1..], dom) && s[0] in dom;
      SortOrdered(s[1..], leq, dom);
      SameElements(Sort(s[1..], leq), s[1..]);
      InsertOrdered(s[0], Sort(s[1..], leq), leq, dom);
    }
  }

  lemma {:induction false} FilterElements<T(!new)>(s: seq<T>, keep: T -> bool)
    ensures forall x :: x in Filter(s, keep) <==> x in s && keep(x)
    ensures |Filter(s, keep)| <= |s|
  {
    if s != [] {
      FilterElements(s[1..], keep);
      assert forall x :: x in s <==> x == s[0] || x in s[1..];
    }
  }

  lemma FilterStep<T(!new)>(s: seq<T>, keep: T -> bool)
    requires s != []
    ensures Filter(s, keep) == (if keep(s[0]) then [s[0]] else []) + Filter(s[1..], keep)
  {
  }

  lemma {:induction false} FilterConcat<T(!new)>(a: seq<T>, b: seq<T>, keep: T -> bool)
    ensures Filter(a + b, keep) == Filter(a, keep) + Filter(b, keep)
  {
    if a == [] {
      assert a + b == b;
    } else {
      assert (a + b)[1..] == a[1..] + b;
      FilterConcat(a[1..], b, keep);
      FilterStep(a, keep);
      FilterStep(a + b, keep);
      hide Filter;
      var head := if keep(a[0]) then [a[0]] else [];
      assert head + (Filter(a[1..], keep) + Filter(b, keep)) == head + Filter(a[1..], keep) + Filter(b, keep);
    }
  }

  lemma FilterHead<T(!new)>(s: seq<T>, keep: T -> bool)
    requires s != []
    ensures keep(s[0]) ==>
              Filter(s, keep) != [] && Filter(s, keep)[0] == s[0] && Filter(s, keep)[1..] == Filter(s[1..], keep)
    ensures !keep(s[0]) ==> Filter(s, keep) == Filter(s[1..], keep)
  {
  }

  lemma InsertFirst<T(!new)>(x: T, s: seq<T>, leq: (T, T) -> bool)
    requires forall y :: y in s ==> leq(x, y)
    ensures Insert(x, s, leq) == [x] + s
  {
  }

  lemma BelowAll<T(!new)>(x: T, s: seq<T>, leq: (T, T) -> bool, dom: set<T>)
    requires PreorderOn(dom, leq) && x in dom && Within(s, dom) && Ordered(s, leq) && s != [] && leq(x, s[0])
    ensures forall y :: y in s ==> leq(x, y)
  {
    hide PreorderOn, Ordered;
    HeadBelow(s, leq);
    assert s == [s[0]] + s[1..];
    forall y | y in s ensures leq(x, y) {
      if y != s[0] {
        Transitive(dom, leq, x, s[0], y);
      }
    }
  }

  lemma {:induction false} FilterInsert<T(!new)>(x: T, s: seq<T>, leq: (T, T) -> bool, keep: T -> bool, dom: set<T>)
    requires PreorderOn(dom, leq) && x in dom && Within(s, dom) && Ordered(s, leq)
    ensures Filter(Insert(x, s, leq), keep) == if keep(x) then Insert(x, Filter(s, keep), leq) else Filter(s, keep)
  {
    hide PreorderOn, Ordered, Filter;
    FilterElements(s, keep);
    FilterHead([x] + s, keep);
    assert ([x] + s)[1..] == s;
    if s == [] {
      InsertFirst(x, Filter(s, keep), leq);
    } else if leq(x, s[0]) {
      BelowAll(x, s, leq, dom);
      InsertFirst(x, Filter(s, keep), leq);
    } else {
      var t := s[1..];
      HeadBelow(s, leq);
      assert Within(t, dom) && s[0] in dom;
      FilterInsert(x, t, leq, keep, dom);
      FilterHead(s, keep);
      FilterHead(Insert(x, s, leq), keep);
      assert Insert(x, s, leq)[1..] == Insert(x, t, leq);
    }
  }

  /** Sorting keeps the relative order of any part: it commutes with picking it out. */
  lemma {:induction false} FilterSort<T(!new)>(s: seq<T>, leq: (T, T) -> bool, keep: T -> bool, dom: set<T>)
    requires PreorderOn(dom, leq) && Within(s, dom)
    ensures Filter(Sort(s, leq), keep) == Sort(Filter(s, keep), leq)
  {
    if s != [] {
      hide PreorderOn, Ordered, Filter, Insert;
      var t := Sort(s[1..], leq);
      assert Within(s[1..], dom) && s[0] in dom;
      SameElements(t, s[1..]);
      SortOrdered(s[1..], leq, dom);
      FilterInsert(s[0], t, leq, keep, dom);
      FilterSort(s[1..], leq, keep, dom);
      FilterHead(s, keep);
    }
  }

  lemma {:induction false} SortOfOrdered<T(!new)>(s: seq<T>, leq: (T, T) -> bool)
    requires Ordered(s, leq)
    ensures Sort(s, leq) == s
  {
    if s != [] {
      SortOfOrdered(s[1..], leq);
      if |s| > 1 {
        assert leq(s[0], s[1]);
      }
    }
  }

  /** Elements that the order cannot tell from `x`. */
  function Like<T(!new)>(x: T, leq: (T, T) -> bool): T -> bool {
    y => leq(x, y) && leq(y, x)
  }

  /** `r` orders `s` and keeps equals in the order they had. */
  ghost predicate StablySorts<T(!new)>(s: seq<T>, r: seq<T>, leq: (T, T) -> bool) {
    && multiset(r) == multiset(s) && Ordered(r, leq)
    && forall x :: x in s ==> Filter(r, Like(x, leq)) == Filter(s, Like(x, leq))
  }

  lemma HeadsEquivalent<T(!new)>(a: seq<T>, b: seq<T>, leq: (T, T) -> bool)
    requires a != [] && b != [] && multiset(a) == multiset(b) && Ordered(a, leq) && Ordered(b, leq)
    requires forall x :: x in a ==> leq(x, x)
    ensures leq(a[0], b[0]) && leq(b[0], a[0])
  {
    SameElements(a, b);
    assert a[0] in a && b[0] in b;
    HeadBelow(a, leq);
    HeadBelow(b, leq);
    assert a == [a[0]] + a[1..] && b == [b[0]] + b[1..];
  }

  lemma TailsAlike<T(!new)>(a: seq<T>, b: seq<T>)
    requires a != [] && b != [] && multiset(a) == multiset(b) && a[0] == b[0]
    ensures multiset(a[1..]) == multiset(b[1..])
  {
    assert a == [a[0]] + a[1..] && b == [b[0]] + b[1..];
    assert multiset(a[1..]) == multiset(a) - multiset{a[0]};
    assert multiset(b[1..]) == multiset(b) - multiset{b[0]};
  }

  lemma {:induction false} OrderedAndAlike<T(!new)>(a: seq<T>, b: seq<T>, leq: (T, T) -> bool)
    requires multiset(a) == multiset(b) && Ordered(a, leq) && Ordered(b, leq)
    requires forall x :: x in a ==> leq(x, x)
    requires forall x :: x in a ==> Filter(a, Like(x, leq)) == Filter(b, Like(x, leq))
    ensures a == b
  {
    assert |a| == |multiset(a)| == |multiset(b)| == |b|;
    if a != [] {
      var like := Like(a[0], leq);
      HeadsEquivalent(a, b, leq);
      HeadBelow(a, leq);
      HeadBelow(b, leq);
      assert a[0] in a;
      FilterHead(a, like);
      FilterHead(b, like);
      TailsAlike(a, b);
      hide Ordered, Filter;
      forall z | z in a[1..] ensures Filter(a[1..], Like(z, leq)) == Filter(b[1..], Like(z, leq)) {
        FilterHead(a, Like(z, leq));
        FilterHead(b, Like(z, leq));
      }
      OrderedAndAlike(a[1..], b[1..], leq);
      assert a == [a[0]] + a[1..] && b == [b[0]] + b[1..];
    }
  }

  lemma SortIsStable<T(!new)>(s: seq<T>, leq: (T, T) -> bool, x: T, dom: set<T>)
    requires PreorderOn(dom, leq) && Within(s, dom) && x in dom
    ensures Filter(Sort(s, leq), Like(x, leq)) == Filter(s, Like(x, leq))
  {
    FilterSort(s, leq, Like(x, leq), dom);
    AllAlikeOrdered(s, leq, x, dom);
    SortOfOrdered(Filter(s, Like(x, leq)), leq);
  }

  /** There is one stable sort, whatever algorithm computes it. */
  lemma SortIsTheStableSort<T(!new)>(s: seq<T>, r: seq<T>, leq: (T, T) -> bool, dom: set<T>)
    requires PreorderOn(dom, leq) && Within(s, dom)
    ensures StablySorts(s, r, leq) <==> r == Sort(s, leq)
  {
    hide PreorderOn, Filter, Sort;
    var t := Sort(s, leq);
    SortOrdered(s, leq, dom);
    SameElements(t, s);
    forall x | x in s ensures leq(x, x) && Filter(t, Like(x, leq)) == Filter(s, Like(x, leq)) {
      Total(dom, leq, x, x);
      SortIsStable(s, leq, x, dom);
    }
    if StablySorts(s, r, leq) {
      OrderedAndAlike(t, r, leq);
    }
  }

  lemma AllAlikeOrdered<T(!new)>(s: seq<T>, leq: (T, T) -> bool, x: T, dom: set<T>)
    requires PreorderOn(dom, leq) && Within(s, dom) && x in dom
    ensures Ordered(Filter(s, Like(x, leq)), leq)
  {
    hide PreorderOn;
    var f := Filter(s, Like(x, leq));
    FilterElements(s, Like(x, leq));
    forall i, j | 0 <= i < j < |f| ensures leq(f[i], f[j]) {
      assert f[i] in f && f[j] in f;
      Transitive(dom, leq, f[i], x, f[j]);
    }
  }

  ghost predicate AntisymmetricOn<T(!new)>(dom: set<T>, leq: (T, T) -> bool) {
    forall x, y :: x in dom && y in dom && leq(x, y) && leq(y, x) ==> x == y
  }

  lemma {:induction false} OrderedUnique<T(!new)>(a: seq<T>, b: seq<T>, leq: (T, T) -> bool, dom: set<T>)
    requires AntisymmetricOn(dom, leq) && Within(a, dom)
    requires multiset(a) == multiset(b) && Ordered(a, leq) && Ordered(b, leq)
    requires forall x :: x in a ==> leq(x, x)
    ensures a == b
  {
    assert |a| == |multiset(a)| == |multiset(b)| == |b|;
    if a != [] {
      HeadsEquivalent(a, b, leq);
      SameElements(a, b);
      assert a[0] in a && b[0] in b && b[0] in a;
      TailsAlike(a, b);
      HeadBelow(a, leq);
      HeadBelow(b, leq);
      assert Within(a[1..], dom);
      OrderedUnique(a[1..], b[1..], leq, dom);
      assert a == [a[0]] + a[1..] && b == [b[0]] + b[1..];
    }
  }

  /** With no ties the result depends on the elements only, not on the order they came in. */
  lemma SortForgetsOrder<T(!new)>(s: seq<T>, t: seq<T>, leq: (T, T) -> bool, dom: set<T>)
    requires PreorderOn(dom, leq) && AntisymmetricOn(dom, leq) && Within(s, dom) && multiset(s) == multiset(t)
    ensures Sort(s, leq) == Sort(t, leq)
  {
    hide PreorderOn, Sort, Ordered;
    SameElements(s, t);
    SameElements(s, Sort(s, leq));
    SortOrdered(s, leq, dom);
    SortOrdered(t, leq, dom);
    forall x | x in Sort(s, leq) ensures leq(x, x) {
      Total(dom, leq, x, x);
    }
    OrderedUnique(Sort(s, leq), Sort(t, leq), leq, dom);
  }
}
