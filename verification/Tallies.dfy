/** Counting over sequences and multisets, and the arithmetic of ring indices. */
module Tallies {

  /** How many elements of `xs` satisfy `p`. */
  ghost function Count<T>(xs: seq<T>, p: T -> bool): nat {
    if xs == [] then 0 else (if p(xs[0]) then 1 else 0) + Count(xs[1..], p)
  }

  lemma {:induction false} CountUpdate<T>(xs: seq<T>, i: nat, x: T, p: T -> bool)
    requires i < |xs|
    ensures Count(xs[i := x], p) + (if p(xs[i]) then 1 else 0) == Count(xs, p) + (if p(x) then 1 else 0)
  {
    if i == 0 {
      assert xs[i := x][1..] == xs[1..];
    } else {
      assert xs[i := x][1..] == xs[1..][i - 1 := x];
      CountUpdate(xs[1..], i - 1, x, p);
    }
  }

  lemma {:induction false} CountNone<T>(xs: seq<T>, p: T -> bool)
    ensures Count(xs, p) == 0 <==> forall x :: x in xs ==> !p(x)
  {
    if xs != [] {
      CountNone(xs[1..], p);
      assert forall x :: x in xs <==> x == xs[0] || x in xs[1..];
    }
  }

  lemma CountSome<T>(xs: seq<T>, i: nat, p: T -> bool)
    requires i < |xs| && p(xs[i])
    ensures Count(xs, p) > 0
  {
    CountNone(xs, p);
  }

  lemma {:induction false} CountBound<T>(xs: seq<T>, p: T -> bool)
    ensures Count(xs, p) <= |xs|
    ensures Count(xs, p) == |xs| <==> forall x :: x in xs ==> p(x)
  {
    if xs != [] {
      CountBound(xs[1..], p);
      assert forall x :: x in xs <==> x == xs[0] || x in xs[1..];
    }
  }

  lemma {:induction false} CountSnoc<T>(xs: seq<T>, x: T, p: T -> bool)
    ensures Count(xs + [x], p) == Count(xs, p) + if p(x) then 1 else 0
  {
    if xs == [] {
      assert xs + [x] == [x];
    } else {
      assert (xs + [x])[1..] == xs[1..] + [x];
      CountSnoc(xs[1..], x, p);
    }
  }

  lemma CountNext<T>(xs: seq<T>, n: nat, p: T -> bool)
    requires n < |xs|
    ensures Count(xs[..n + 1], p) == Count(xs[..n], p) + if p(xs[n]) then 1 else 0
  {
    assert xs[..n + 1] == xs[..n] + [xs[n]];
    CountSnoc(xs[..n], xs[n], p);
  }

  /** Dropping a tail without hits changes nothing. */
  lemma {:induction false} CountCut<T>(xs: seq<T>, n: nat, p: T -> bool)
    requires n <= |xs| && forall i :: n <= i < |xs| ==> !p(xs[i])
    ensures Count(xs[..n], p) == Count(xs, p)
  {
    var last := |xs| - 1;
    if n == |xs| {
      assert xs[..n] == xs;
    } else {
      CountCut(xs[..last], n, p);
      assert xs[..last][..n] == xs[..n];
      assert xs[..last] + [xs[last]] == xs;
      CountSnoc(xs[..last], xs[last], p);
    }
  }

  function Min(a: nat, b: nat): nat {
    if a < b then a else b
  }

  lemma {:induction false} SubsetAtMost<T>(a: set<T>, b: set<T>)
    requires a <= b
    ensures |a| <= |b|
    decreases a
  {
    if x :| x in a {
      SubsetAtMost(a - {x}, b - {x});
    }
  }

  /** The multiset sum of `f` over the elements of `xs`. */
  ghost function Sum<T, X>(xs: seq<T>, f: T -> multiset<X>): multiset<X> {
    if xs == [] then multiset{} else f(xs[0]) + Sum(xs[1..], f)
  }

  lemma {:induction false} SumUpdate<T, X>(xs: seq<T>, i: nat, x: T, f: T -> multiset<X>)
    requires i < |xs|
    ensures f(xs[i]) <= Sum(xs, f)
    ensures Sum(xs[i := x], f) == Sum(xs, f) - f(xs[i]) + f(x)
  {
    if i == 0 {
      assert xs[i := x][1..] == xs[1..];
    } else {
      assert xs[i := x][1..] == xs[1..][i - 1 := x];
      SumUpdate(xs[1..], i - 1, x, f);
    }
  }

  lemma {:induction false} SumNone<T, X>(xs: seq<T>, f: T -> multiset<X>)
    requires forall x :: x in xs ==> f(x) == multiset{}
    ensures Sum(xs, f) == multiset{}
  {
    if xs != [] {
      SumNone(xs[1..], f);
    }
  }

  /** x occurs in the sum exactly when it occurs in some summand. */
  lemma {:induction false} SumHas<T, X>(xs: seq<T>, f: T -> multiset<X>, x: X)
    ensures x in Sum(xs, f) <==> exists i :: 0 <= i < |xs| && x in f(xs[i])
  {
    if xs != [] {
      SumHas(xs[1..], f, x);
      if i :| 0 <= i < |xs[1..]| && x in f(xs[1..][i]) {
        assert x in f(xs[i + 1]);
      }
      if i :| 0 <= i < |xs| && x in f(xs[i]) {
        assert i > 0 ==> xs[1..][i - 1] == xs[i];
      }
    }
  }

  /** The multiset sum of `f` over the entries of the multiset `m`. */
  ghost function Fold<T, X>(m: multiset<T>, f: T -> multiset<X>): multiset<X> {
    if m == multiset{} then multiset{} else f(Pick(m)) + Fold(m - multiset{Pick(m)}, f)
  }

  ghost function Pick<T>(m: multiset<T>): T
    requires m != multiset{}
    ensures Pick(m) in m
  {
    var x :| x in m;
    x
  }

  lemma Shuffle<X>(a: multiset<X>, b: multiset<X>, c: multiset<X>)
    ensures a + (b + c) == b + (a + c)
  {
  }

  lemma Exchange<X>(a: multiset<X>, b: multiset<X>, c: multiset<X>)
    ensures (a + b) + c == (a + c) + b
  {
  }

  /** Changing one summand changes the sum by the same amount. */
  lemma Regroup<X>(a: multiset<X>, b: multiset<X>, out: multiset<X>, inn: multiset<X>)
    requires out <= a
    ensures out <= a + b && (a - out + inn) + b == (a + b) - out + inn
  {
  }

  /** Any entry may be taken out first. */
  lemma {:induction false} FoldRemove<T, X>(m: multiset<T>, x: T, f: T -> multiset<X>)
    requires x in m
    ensures Fold(m, f) == f(x) + Fold(m - multiset{x}, f)
    decreases |m|
  {
    var c := Pick(m);
    if c != x {
      var rest := Fold(m - multiset{c} - multiset{x}, f);
      FoldRemove(m - multiset{c}, x, f);
      FoldRemove(m - multiset{x}, c, f);
      assert m - multiset{c} - multiset{x} == m - multiset{x} - multiset{c};
      Shuffle(f(c), f(x), rest);
    }
  }

  lemma FoldAdd<T, X>(m: multiset<T>, x: T, f: T -> multiset<X>)
    ensures Fold(m + multiset{x}, f) == Fold(m, f) + f(x)
  {
    FoldRemove(m + multiset{x}, x, f);
    assert m + multiset{x} - multiset{x} == m;
  }

  lemma FoldOne<T, X>(x: T, f: T -> multiset<X>)
    ensures Fold(multiset{x}, f) == f(x)
  {
    FoldRemove(multiset{x}, x, f);
    assert multiset{x} - multiset{x} == multiset{};
  }

  lemma {:induction false} FoldUnion<T, X>(a: multiset<T>, b: multiset<T>, f: T -> multiset<X>)
    ensures Fold(a + b, f) == Fold(a, f) + Fold(b, f)
    decreases |b|
  {
    if b == multiset{} {
      assert a + b == a;
    } else {
      var x := Pick(b);
      FoldUnion(a, b - multiset{x}, f);
      FoldAdd(a + (b - multiset{x}), x, f);
      assert a + (b - multiset{x}) + multiset{x} == a + b;
      Shuffle(Fold(a, f), f(x), Fold(b - multiset{x}, f));
    }
  }

  lemma MoveParts<X>(m: multiset<X>, out: multiset<X>)
    requires out <= m
    ensures m - out + out == m
  {
  }

  /** Exchanging some entries for others changes the sum by exactly their shares. */
  lemma FoldMove<T, X>(m: multiset<T>, m': multiset<T>, out: multiset<T>, inn: multiset<T>, f: T -> multiset<X>)
    requires out <= m && m' == m - out + inn
    ensures Fold(m', f) + Fold(out, f) == Fold(m, f) + Fold(inn, f)
  {
    var rest := m - out;
    MoveParts(m, out);
    FoldUnion(rest, out, f);
    FoldUnion(rest, inn, f);
    Exchange(Fold(rest, f), Fold(inn, f), Fold(out, f));
  }

  /** Every entry's share is part of the sum. */
  lemma FoldShare<T, X>(m: multiset<T>, x: T, f: T -> multiset<X>)
    requires x in m
    ensures f(x) <= Fold(m, f)
  {
    FoldRemove(m, x, f);
  }

  lemma MulBound(size: nat, d: int)
    requires size > 0
    ensures d >= 1 ==> size * d >= size
    ensures d <= -1 ==> size * d + size <= 0
  {
  }

  lemma {:induction false} FoldHas<T, X>(m: multiset<T>, f: T -> multiset<X>, x: X)
    ensures x in Fold(m, f) <==> exists l :: l in m && x in f(l)
    decreases |m|
  {
    if m != multiset{} {
      var c := Pick(m);
      FoldHas(m - multiset{c}, f, x);
      assert forall l :: l in m <==> l == c || l in m - multiset{c};
    }
  }

  /** One item per entry: as many items as entries. */
  lemma {:induction false} FoldSize<T, X>(m: multiset<T>, f: T -> multiset<X>)
    requires forall l :: l in m ==> |f(l)| == 1
    ensures |Fold(m, f)| == |m|
    decreases |m|
  {
    if m != multiset{} {
      FoldSize(m - multiset{Pick(m)}, f);
    }
  }

  lemma {:induction false} DistinctOnce<T>(xs: seq<T>, x: T)
    requires forall i, j :: 0 <= i < j < |xs| ==> xs[i] != xs[j]
    ensures multiset(xs)[x] == if x in xs then 1 else 0
  {
    if xs != [] {
      var rest := xs[..|xs| - 1];
      assert xs == rest + [xs[|xs| - 1]];
      DistinctOnce(rest, x);
    }
  }

  lemma {:induction false} OnceDistinct<T>(xs: seq<T>, i: nat, j: nat)
    requires i < j < |xs|
    ensures xs[i] == xs[j] ==> multiset(xs)[xs[i]] >= 2
  {
    assert xs == xs[..j] + [xs[j]] + xs[j + 1..];
    assert xs[i] in multiset(xs[..j]) by { assert xs[..j][i] == xs[i]; }
  }

  /** Two indices less than one turn apart never share a slot of the ring. */
  lemma ModApart(a: nat, b: nat, size: nat)
    requires b < a < b + size
    ensures a % size != b % size
  {
    var d := a / size - b / size;
    assert a - b == size * d + (a % size - b % size) by {
      assert size * (a / size) - size * (b / size) == size * d;
    }
    MulBound(size, d);
  }

  /** One whole turn later the ring index is the same. */
  lemma ModTurn(a: nat, size: nat)
    requires size > 0
    ensures (a + size) % size == a % size
  {
    assert a + size == size * (a / size + 1) + a % size;
    ModUnique(a + size, size, a / size + 1, a % size);
  }

  lemma ModUnique(a: nat, size: nat, q: nat, r: nat)
    requires size > 0 && r < size && a == size * q + r
    ensures a % size == r && a / size == q
  {
    var d := a / size - q;
    assert size * d == r - a % size by {
      assert size * (a / size) - size * q == size * d;
    }
    MulBound(size, d);
  }

  /** Stepping a wrapped index is stepping the unwrapped one. */
  lemma ModNext(a: nat, size: nat)
    requires size > 0
    ensures (a + 1) % size == if a % size + 1 >= size then 0 else a % size + 1
  {
    var q, r := a / size, a % size;
    if r + 1 >= size {
      assert a + 1 == size * (q + 1) + 0;
      ModUnique(a + 1, size, q + 1, 0);
    } else {
      ModUnique(a + 1, size, q, r + 1);
    }
  }

  lemma ModSmall(a: nat, size: nat)
    requires a < size
    ensures a % size == a
  {
    ModUnique(a, size, 0, a);
  }
}
