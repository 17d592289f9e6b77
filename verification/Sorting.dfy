/** Sorted listings of finite sets: what a directory listing or an ORDER BY returns. */
module Sorting {

  ghost predicate TotalOrder<T(!new)>(le: (T, T) -> bool) {
    && (forall a :: le(a, a))
    && (forall a, b :: le(a, b) && le(b, a) ==> a == b)
    && (forall a, b, c :: le(a, b) && le(b, c) ==> le(a, c))
    && (forall a, b :: le(a, b) || le(b, a))
  }

  ghost predicate IsLeast<T(!new)>(le: (T, T) -> bool, s: set<T>, x: T) {
    x in s && forall y :: y in s ==> le(x, y)
  }

  lemma {:induction false} LeastExists<T(!new)>(le: (T, T) -> bool, s: set<T>)
    requires TotalOrder(le) && s != {}
    ensures exists x :: IsLeast(le, s, x)
  {
    var x :| x in s;
    if s == {x} {
      assert IsLeast(le, s, x);
    } else {
      LeastExists(le, s - {x});
      var y :| IsLeast(le, s - {x}, y);
      assert IsLeast(le, s, if le(x, y) then x else y);
    }
  }

  ghost predicate Sorted<T(!new)>(le: (T, T) -> bool, xs: seq<T>) {
    forall i, j :: 0 <= i < j < |xs| ==> le(xs[i], xs[j]) && xs[i] != xs[j]
  }

  /** The members of `s` in ascending order, each once. */
  ghost function Listing<T(!new)>(le: (T, T) -> bool, s: set<T>): (xs: seq<T>)
    requires TotalOrder(le)
    ensures forall x :: x in xs <==> x in s
    ensures |xs| == |s|
    ensures Sorted(le, xs)
  {
    if s == {} then []
    else
      LeastExists(le, s);
      var x :| IsLeast(le, s, x);
      [x] + Listing(le, s - {x})
  }

  /** A sorted listing is determined by its members, so it is the `Listing` of them. */
  lemma {:induction false} SortedUnique<T(!new)>(le: (T, T) -> bool, xs: seq<T>, ys: seq<T>)
    requires TotalOrder(le) && Sorted(le, xs) && Sorted(le, ys)
    requires forall x :: x in xs <==> x in ys
    ensures xs == ys
  {
    assert xs != [] ==> xs[0] in ys;
    assert ys != [] ==> ys[0] in xs;
    if xs == [] {
    } else {
      assert xs[0] == ys[0];
      forall x ensures x in xs[1..] <==> x in ys[1..] {
        assert x in xs <==> x == xs[0] || x in xs[1..];
        assert x in ys <==> x == ys[0] || x in ys[1..];
        if x in xs[1..] { assert x != xs[0]; }
        if x in ys[1..] { assert x != ys[0]; }
      }
      SortedUnique(le, xs[1..], ys[1..]);
    }
  }

  /** Take the least element out of what is left until nothing is. */
  method Sort<T(==, !new)>(le: (T, T) -> bool, s: set<T>) returns (xs: seq<T>)
    requires TotalOrder(le)
    ensures xs == Listing(le, s)
  {
    xs := [];
    var rest := s;
    while rest != {}
      invariant rest <= s
      invariant forall x :: x in xs <==> x in s && x !in rest
      invariant forall x, y :: x in xs && y in rest ==> le(x, y)
      invariant Sorted(le, xs)
      decreases |rest|
    {
      assert exists x :: x in rest && forall y :: y in rest ==> le(x, y) by {
        LeastExists(le, rest);
        var z :| IsLeast(le, rest, z);
        assert z in rest;
      }
      var x :| x in rest && forall y :: y in rest ==> le(x, y);
      xs, rest := xs + [x], rest - {x};
    }
    SortedUnique(le, xs, Listing(le, s));
  }

  /** Byte-wise lexicographic order, as `sort.Strings` uses it. */
  predicate LexLe(a: string, b: string) {
    a == "" || (b != "" && (a[0] < b[0] || (a[0] == b[0] && LexLe(a[1..], b[1..]))))
  }

  lemma {:induction false} LexSameHead(a: string, b: string)
    requires a != "" && b != "" && a[0] == b[0]
    ensures a <= b <==> a[1..] <= b[1..]
    ensures (exists k :: 0 <= k < |a| && k < |b| && a[..k] == b[..k] && a[k] < b[k]) <==>
            (exists k :: 0 <= k < |a[1..]| && k < |b[1..]| && a[1..][..k] == b[1..][..k] && a[1..][k] < b[1..][k])
  {
    assert a == [a[0]] + a[1..] && b == [b[0]] + b[1..];
    if k :| 0 <= k < |a| && k < |b| && a[..k] == b[..k] && a[k] < b[k] {
      assert a[1..][..k - 1] == a[..k][1..] && b[1..][..k - 1] == b[..k][1..];
      assert a[1..][k - 1] == a[k] && b[1..][k - 1] == b[k];
    }
    if k :| 0 <= k < |a[1..]| && k < |b[1..]| && a[1..][..k] == b[1..][..k] && a[1..][k] < b[1..][k] {
      assert a[..k + 1] == [a[0]] + a[1..][..k] && b[..k + 1] == [b[0]] + b[1..][..k];
    }
  }

  /** What the order is: the first character in which two strings differ decides, and a string comes
      before every longer one that starts with it. */
  lemma {:induction false} LexIsDictionary(a: string, b: string)
    ensures LexLe(a, b) <==>
            a <= b || exists k :: 0 <= k < |a| && k < |b| && a[..k] == b[..k] && a[k] < b[k]
  {
    if a == "" || b == "" {
    } else if a[0] != b[0] {
      assert a[..0] == b[..0];
    } else {
      LexIsDictionary(a[1..], b[1..]);
      LexSameHead(a, b);
    }
  }

  lemma LexRefl(a: string)
    ensures LexLe(a, a)
  {}

  lemma {:induction false} LexAntisym(a: string, b: string)
    requires LexLe(a, b) && LexLe(b, a)
    ensures a == b
  {
    if a == "" {
    } else {
      LexAntisym(a[1..], b[1..]);
      assert a == [a[0]] + a[1..] && b == [b[0]] + b[1..];
    }
  }

  lemma LexTrans(a: string, b: string, c: string)
    requires LexLe(a, b) && LexLe(b, c)
    ensures LexLe(a, c)
  {}

  lemma LexTotal(a: string, b: string)
    ensures LexLe(a, b) || LexLe(b, a)
  {}

  lemma LexTotalOrder()
    ensures TotalOrder(LexLe)
  {
    forall a, b, c: string
      ensures LexLe(a, a) && (LexLe(a, b) || LexLe(b, a))
      ensures LexLe(a, b) && LexLe(b, a) ==> a == b
      ensures LexLe(a, b) && LexLe(b, c) ==> LexLe(a, c)
    {
      LexRefl(a);
      LexTotal(a, b);
      if LexLe(a, b) && LexLe(b, a) { LexAntisym(a, b); }
      if LexLe(a, b) && LexLe(b, c) { LexTrans(a, b, c); }
    }
  }

  /** The names in `s` in the order `sort.Strings` puts them, each once. */
  ghost function Names(s: set<string>): (xs: seq<string>)
    ensures forall x :: x in xs <==> x in s
    ensures Sorted(LexLe, xs)
  {
    LexTotalOrder();
    Listing(LexLe, s)
  }

  /** A directory read followed by a sort. */
  method ReadDir(s: set<string>) returns (xs: seq<string>)
    ensures xs == Names(s)
  {
    LexTotalOrder();
    xs := Sort(LexLe, s);
  }
}
