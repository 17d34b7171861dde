/**
 Python's `sorted` over string keys: code-point order on strings and a stable
 sort of keyed values, with the facts that make a sorted sequence canonical.
 */
module Ordering {

  datatype Keyed<+T> = Keyed(key: string, value: T)

  // a <= b in code-point order, a proper prefix coming first.
  predicate Leq(a: string, b: string) {
    a == "" || (b != "" && (a[0] < b[0] || (a[0] == b[0] && Leq(a[1..], b[1..]))))
  }

  lemma {:induction false} LeqTotal(a: string, b: string)
    ensures Leq(a, b) || Leq(b, a)
  {
    if a != "" && b != "" && a[0] == b[0] {
      LeqTotal(a[1..], b[1..]);
    }
  }

  lemma {:induction false} LeqAntisymmetric(a: string, b: string)
    requires Leq(a, b) && Leq(b, a)
    ensures a == b
  {
    if a != "" && b != "" {
      LeqAntisymmetric(a[1..], b[1..]);
      assert a == [a[0]] + a[1..] && b == [b[0]] + b[1..];
    }
  }

  lemma {:induction false} LeqTransitive(a: string, b: string, c: string)
    requires Leq(a, b) && Leq(b, c)
    ensures Leq(a, c)
  {
    if a != "" && a[0] == b[0] == c[0] {
      LeqTransitive(a[1..], b[1..], c[1..]);
    }
  }

  ghost predicate FirstDiffers(a: string, b: string, i: nat) {
    i < |a| && i < |b| && a[i] < b[i] && forall j :: 0 <= j < i ==> a[j] == b[j]
  }

  /** The order of the texts: a prefix comes first, and otherwise the first difference decides. */
  lemma {:induction false} LeqIsCodePointOrder(a: string, b: string)
    ensures Leq(a, b) <==> a <= b || exists i: nat :: FirstDiffers(a, b, i)
  {
    if a != "" && b != "" && a[0] == b[0] {
      LeqIsCodePointOrder(a[1..], b[1..]);
      assert a == [a[0]] + a[1..] && b == [b[0]] + b[1..];
      if i: nat :| FirstDiffers(a, b, i) {
        assert FirstDiffers(a[1..], b[1..], i - 1);
      }
      if i: nat :| FirstDiffers(a[1..], b[1..], i) {
        assert FirstDiffers(a, b, i + 1);
      }
    } else if a != "" && b != "" && a[0] < b[0] {
      assert FirstDiffers(a, b, 0);
    }
  }

  ghost predicate Sorted<T>(xs: seq<Keyed<T>>) {
    forall i, j :: 0 <= i < j < |xs| ==> Leq(xs[i].key, xs[j].key)
  }

  // No two positions share a key.
  ghost predicate DistinctKeys<T>(xs: seq<Keyed<T>>) {
    forall i, j :: 0 <= i < j < |xs| ==> xs[i].key != xs[j].key
  }

  function Insert<T>(x: Keyed<T>, xs: seq<Keyed<T>>): seq<Keyed<T>> {
    if xs == [] || Leq(x.key, xs[0].key) then [x] + xs else [xs[0]] + Insert(x, xs[1..])
  }

  // Stable: among equal keys the earlier element stays first.
  function Sort<T>(xs: seq<Keyed<T>>): seq<Keyed<T>> {
    if xs == [] then [] else Insert(xs[0], Sort(xs[1..]))
  }

  lemma {:induction false} InsertSorted<T>(x: Keyed<T>, xs: seq<Keyed<T>>)
    requires Sorted(xs)
    ensures Sorted(Insert(x, xs)) && multiset(Insert(x, xs)) == multiset{x} + multiset(xs)
  {
    if xs == [] {
    } else if Leq(x.key, xs[0].key) {
      forall j | 0 <= j < |xs| ensures Leq(x.key, xs[j].key) {
        if j > 0 {
          LeqTransitive(x.key, xs[0].key, xs[j].key);
        }
      }
    } else {
      LeqTotal(x.key, xs[0].key);
      InsertSorted(x, xs[1..]);
      var rest := Insert(x, xs[1..]);
      assert xs == [xs[0]] + xs[1..];
      forall j | 0 <= j < |rest| ensures Leq(xs[0].key, rest[j].key) {
        assert rest[j] in multiset(rest);
        assert rest[j] == x || rest[j] in xs[1..];
      }
    }
  }

  lemma {:induction false} SortSorts<T>(xs: seq<Keyed<T>>)
    ensures Sorted(Sort(xs)) && multiset(Sort(xs)) == multiset(xs)
  {
    if xs != [] {
      SortSorts(xs[1..]);
      InsertSorted(xs[0], Sort(xs[1..]));
      assert xs == [xs[0]] + xs[1..];
    }
  }

  lemma {:induction false} SortOfSorted<T>(xs: seq<Keyed<T>>)
    requires Sorted(xs)
    ensures Sort(xs) == xs
  {
    if |xs| > 0 {
      SortOfSorted(xs[1..]);
      if |xs| > 1 {
        assert Leq(xs[0].key, xs[1..][0].key);
      }
      assert xs == [xs[0]] + xs[1..];
    }
  }

  lemma SortPair<T>(x: Keyed<T>, y: Keyed<T>)
    requires !Leq(x.key, y.key)
    ensures Sort([x, y]) == [y, x]
  {
    assert [x, y][1..] == [y] && [y][1..] == [];
    assert Sort([y]) == [y] && Insert(x, []) == [x];
  }

  // Elements that share a key are the same element.
  ghost predicate KeyDecides<T>(xs: seq<Keyed<T>>) {
    forall x, y :: x in xs && y in xs && x.key == y.key ==> x == y
  }

  lemma HeadAndTail<T>(xs: seq<T>)
    requires xs != []
    ensures multiset(xs) == multiset{xs[0]} + multiset(xs[1..])
  {
    assert xs == [xs[0]] + xs[1..];
  }

  lemma SameMembers<T>(xs: seq<T>, ys: seq<T>)
    requires multiset(xs) == multiset(ys)
    ensures |xs| == |ys|
    ensures forall x :: x in xs <==> x in ys
  {
    assert |multiset(xs)| == |xs| && |multiset(ys)| == |ys|;
    forall x ensures x in xs <==> x in ys {
      assert x in multiset(xs) <==> x in multiset(ys);
    }
  }

  // The head of a sorted sequence is below every member.
  lemma HeadIsLeast<T>(xs: seq<Keyed<T>>, y: Keyed<T>)
    requires Sorted(xs) && y in xs
    ensures Leq(xs[0].key, y.key)
  {
    LeqTotal(y.key, y.key);
    var i :| 0 <= i < |xs| && xs[i] == y;
  }

  lemma SameHead<T>(xs: seq<Keyed<T>>, ys: seq<Keyed<T>>)
    requires Sorted(xs) && Sorted(ys) && multiset(xs) == multiset(ys) && KeyDecides(xs) && xs != [] && ys != []
    ensures xs[0] == ys[0]
  {
    SameMembers(xs, ys);
    HeadIsLeast(xs, ys[0]);
    HeadIsLeast(ys, xs[0]);
    LeqAntisymmetric(xs[0].key, ys[0].key);
  }

  lemma KeyDecidesPermute<T>(xs: seq<Keyed<T>>, ys: seq<Keyed<T>>)
    requires multiset(xs) == multiset(ys) && KeyDecides(xs)
    ensures KeyDecides(ys)
  {
    SameMembers(xs, ys);
  }

  lemma KeyDecidesTail<T>(xs: seq<Keyed<T>>)
    requires xs != [] && KeyDecides(xs)
    ensures KeyDecides(xs[1..])
  {
    forall x | x in xs[1..] ensures x in xs {
    }
  }

  lemma SameTail<T>(xs: seq<T>, ys: seq<T>)
    requires multiset(xs) == multiset(ys) && xs != [] && ys != [] && xs[0] == ys[0]
    ensures multiset(xs[1..]) == multiset(ys[1..])
  {
    HeadAndTail(xs);
    HeadAndTail(ys);
    assert multiset(xs[1..]) == multiset(xs) - multiset{xs[0]};
    assert multiset(ys[1..]) == multiset(ys) - multiset{ys[0]};
  }

  lemma SortedTail<T>(xs: seq<Keyed<T>>)
    requires xs != [] && Sorted(xs)
    ensures Sorted(xs[1..])
  {
    hide Leq;
  }

  lemma {:induction false} SortedUnique<T>(xs: seq<Keyed<T>>, ys: seq<Keyed<T>>)
    requires Sorted(xs) && Sorted(ys) && multiset(xs) == multiset(ys) && KeyDecides(xs)
    ensures xs == ys
  {
    hide Leq, Sorted, KeyDecides;
    assert |xs| == |ys| by { SameMembers(xs, ys); }
    if |xs| > 0 {
      SameHead(xs, ys);
      SameTail(xs, ys);
      SortedTail(xs);
      SortedTail(ys);
      KeyDecidesTail(xs);
      SortedUnique(xs[1..], ys[1..]);
      assert xs == [xs[0]] + xs[1..] && ys == [ys[0]] + ys[1..];
    }
  }

  /** Sorting forgets the order of its input when equal keys mean equal elements. */
  lemma SortIsCanonical<T>(xs: seq<Keyed<T>>, ys: seq<Keyed<T>>)
    requires multiset(xs) == multiset(ys) && KeyDecides(xs)
    ensures Sort(xs) == Sort(ys)
  {
    SortSorts(xs);
    SortSorts(ys);
    KeyDecidesPermute(xs, Sort(xs));
    SortedUnique(Sort(xs), Sort(ys));
  }

  lemma RemoveAt<T>(xs: seq<T>, k: nat)
    requires k < |xs|
    ensures multiset(xs) == multiset(xs[..k] + xs[k + 1..]) + multiset{xs[k]}
  {
    assert xs == xs[..k] + [xs[k]] + xs[k + 1..];
  }

  lemma IndexIn<T>(x: T, xs: seq<T>, ys: seq<T>) returns (k: nat)
    requires multiset(xs) == multiset(ys) && x in xs
    ensures k < |ys| && ys[k] == x
  {
    SameMembers(xs, ys);
    k :| 0 <= k < |ys| && ys[k] == x;
  }

  lemma DropBoth<T>(xs: seq<T>, ys: seq<T>, k: nat)
    requires multiset(xs) == multiset(ys) && xs != [] && k < |ys| && ys[k] == xs[0]
    ensures multiset(xs[1..]) == multiset(ys[..k] + ys[k + 1..])
  {
    RemoveAt(ys, k);
    HeadAndTail(xs);
    assert multiset(xs[1..]) == multiset(xs) - multiset{xs[0]};
  }

  // f works on each element by itself.
  ghost predicate Elementwise<A(!new), B>(f: seq<A> -> seq<B>) {
    forall a, b :: f(a + b) == f(a) + f(b)
  }

  // f maps each element by g and concatenates.
  ghost predicate ConcatMaps<A(!new), B>(f: seq<A> -> seq<B>, g: A -> seq<B>) {
    f([]) == [] && forall xs: seq<A> :: xs != [] ==> f(xs) == g(xs[0]) + f(xs[1..])
  }

  lemma Associates<T>(a: seq<T>, b: seq<T>, c: seq<T>)
    ensures (a + b) + c == a + (b + c)
  {
  }

  lemma ConsAppend<T>(a: seq<T>, b: seq<T>)
    requires a != []
    ensures (a + b)[1..] == a[1..] + b && (a + b)[0] == a[0]
  {
  }

  lemma {:induction false} ConcatMapAppend<A(!new), B>(f: seq<A> -> seq<B>, g: A -> seq<B>, a: seq<A>, b: seq<A>)
    requires ConcatMaps(f, g)
    ensures f(a + b) == f(a) + f(b)
  {
    if a == [] {
      assert a + b == b && [] + f(b) == f(b);
    } else {
      ConsAppend(a, b);
      ConcatMapAppend(f, g, a[1..], b);
      Associates(g(a[0]), f(a[1..]), f(b));
    }
  }

  /** A map that treats its elements one by one keeps permutations. */
  lemma ConcatMapPermute<A(!new), B>(f: seq<A> -> seq<B>, g: A -> seq<B>, xs: seq<A>, ys: seq<A>)
    requires ConcatMaps(f, g) && multiset(xs) == multiset(ys)
    ensures multiset(f(xs)) == multiset(f(ys))
  {
    hide ConcatMaps;
    forall a, b ensures f(a + b) == f(a) + f(b) {
      ConcatMapAppend(f, g, a, b);
    }
    ElementwisePermute(f, xs, ys);
  }

  lemma ElementwiseMiddle<A(!new), B>(f: seq<A> -> seq<B>, l: seq<A>, m: seq<A>, r: seq<A>)
    requires Elementwise(f)
    ensures multiset(f(l + (m + r))) == multiset(f(m)) + multiset(f(l + r))
  {
    assert f(l + (m + r)) == f(l) + (f(m) + f(r)) && f(l + r) == f(l) + f(r);
  }

  // f of a sequence is f of one element and f of the others.
  lemma ElementwiseSplit<A(!new), B>(f: seq<A> -> seq<B>, xs: seq<A>, k: nat)
    requires Elementwise(f) && k < |xs|
    ensures multiset(f(xs)) == multiset(f([xs[k]])) + multiset(f(xs[..k] + xs[k + 1..]))
  {
    hide Elementwise;
    assert xs == xs[..k] + ([xs[k]] + xs[k + 1..]);
    ElementwiseMiddle(f, xs[..k], [xs[k]], xs[k + 1..]);
  }

  lemma {:induction false} ElementwisePermute<A(!new), B>(f: seq<A> -> seq<B>, xs: seq<A>, ys: seq<A>)
    requires Elementwise(f) && multiset(xs) == multiset(ys)
    ensures multiset(f(xs)) == multiset(f(ys))
  {
    hide Elementwise;
    if xs == [] {
      assert ys == [] by { SameMembers(xs, ys); }
    } else {
      var k := IndexIn(xs[0], xs, ys);
      DropBoth(xs, ys, k);
      ElementwisePermute(f, xs[1..], ys[..k] + ys[k + 1..]);
      ElementwiseSplit(f, xs, 0);
      assert xs[..0] + xs[1..] == xs[1..];
      ElementwiseSplit(f, ys, k);
    }
  }

  // A repeated element has multiplicity at least two, and conversely.
  lemma Repeats<T>(xs: seq<T>, i: nat, j: nat)
    requires i < j < |xs| && xs[i] == xs[j]
    ensures multiset(xs)[xs[i]] >= 2
  {
    RemoveAt(xs, j);
    assert (xs[..j] + xs[j + 1..])[i] == xs[i];
  }

  lemma RepeatsAt<T>(xs: seq<T>, k: nat) returns (j: nat)
    requires k < |xs| && multiset(xs)[xs[k]] >= 2
    ensures j < |xs| && j != k && xs[j] == xs[k]
  {
    RemoveAt(xs, k);
    var rest := xs[..k] + xs[k + 1..];
    assert xs[k] in multiset(rest);
    var i :| 0 <= i < |rest| && rest[i] == xs[k];
    j := if i < k then i else i + 1;
  }

  // Distinct keys are a property of the elements, not of their order.
  lemma DistinctKeysPermute<T>(xs: seq<Keyed<T>>, ys: seq<Keyed<T>>)
    requires multiset(xs) == multiset(ys) && DistinctKeys(xs)
    ensures DistinctKeys(ys) && KeyDecides(xs)
  {
    SameMembers(xs, ys);
    forall x, y | x in xs && y in xs && x.key == y.key ensures x == y {
      var i :| 0 <= i < |xs| && xs[i] == x;
      var j :| 0 <= j < |xs| && xs[j] == y;
    }
    forall i, j | 0 <= i < j < |ys| ensures ys[i].key != ys[j].key {
      assert ys[i] in xs && ys[j] in xs;
      if ys[i] == ys[j] {
        Repeats(ys, i, j);
        var k :| 0 <= k < |xs| && xs[k] == ys[i];
        var k' := RepeatsAt(xs, k);
        assert false;
      }
    }
  }

  predicate IsLeast(x: string, s: set<string>) {
    x in s && forall y :: y in s ==> Leq(x, y)
  }

  lemma {:induction false} LeastExists(s: set<string>) returns (x: string)
    requires s != {}
    ensures IsLeast(x, s)
    decreases |s|
  {
    var y :| y in s;
    var rest := s - {y};
    LeqTotal(y, y);
    assert forall w :: w in s ==> w == y || w in rest;
    if rest == {} {
      x := y;
    } else {
      var z := LeastExists(rest);
      LeqTotal(y, z);
      x := if Leq(y, z) then y else z;
      forall w | w in s ensures Leq(x, w) {
        if w != y && x == y {
          LeqTransitive(y, z, w);
        }
      }
    }
  }

  lemma LeastIsUnique(s: set<string>)
    requires s != {}
    ensures exists x :: IsLeast(x, s)
    ensures forall x, y :: IsLeast(x, s) && IsLeast(y, s) ==> x == y
  {
    var least := LeastExists(s);
    forall x, y | IsLeast(x, s) && IsLeast(y, s) ensures x == y {
      LeqAntisymmetric(x, y);
    }
  }

  // The members of a set in order.
  function SortedSet(s: set<string>): (r: seq<string>)
    ensures |r| == |s| && forall x :: x in r <==> x in s
    decreases |s|
  {
    if s == {} then []
    else
      LeastIsUnique(s);
      var x :| x in s && IsLeast(x, s);
      [x] + SortedSet(s - {x})
  }
}
