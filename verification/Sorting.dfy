/** Sorted insertion into lists, in the byte order of strcmp. */
module Sorting {
  import opened Bytes

  /** strcmp(a, b) <= 0. */
  predicate StrLe(a: string, b: string) {
    a == [] || (b != [] && (a[0] < b[0] || (a[0] == b[0] && StrLe(a[1..], b[1..]))))
  }

  /** The first difference decides, and a prefix comes before what it begins. */
  lemma {:induction false} StrLeExactly(a: string, b: string)
    ensures StrLe(a, b) <==>
            a <= b || exists i :: 0 <= i < |a| && i < |b| && a[i] < b[i] && a[..i] == b[..i]
  {
    if a != [] && b != [] && a[0] == b[0] {
      StrLeExactly(a[1..], b[1..]);
      if i :| 0 <= i < |a[1..]| && i < |b[1..]| && a[1..][i] < b[1..][i] && a[1..][..i] == b[1..][..i] {
        assert a[..i + 1] == [a[0]] + a[1..][..i] && b[..i + 1] == [b[0]] + b[1..][..i];
        assert a[i + 1] < b[i + 1];
      }
      if i :| 0 <= i < |a| && i < |b| && a[i] < b[i] && a[..i] == b[..i] {
        assert i > 0 && a[1..][i - 1] < b[1..][i - 1];
        assert a[1..][..i - 1] == a[..i][1..] && b[1..][..i - 1] == b[..i][1..];
      }
      assert a == [a[0]] + a[1..] && b == [b[0]] + b[1..];
    } else if a != [] && b != [] {
      assert a[..0] == b[..0];
    }
  }

  lemma {:induction false} StrLeTotal(a: string, b: string)
    ensures StrLe(a, b) || StrLe(b, a)
  {
    if a != [] && b != [] && a[0] == b[0] {
      StrLeTotal(a[1..], b[1..]);
    }
  }

  lemma {:induction false} StrLeTransitive(a: string, b: string, c: string)
    requires StrLe(a, b) && StrLe(b, c)
    ensures StrLe(a, c)
  {
    if a != [] && b[0] == a[0] && c[0] == a[0] {
      StrLeTransitive(a[1..], b[1..], c[1..]);
    }
  }

  ghost predicate Sorted<T>(l: seq<T>, key: T -> string) {
    forall i, j :: 0 <= i < j < |l| ==> StrLe(key(l[i]), key(l[j]))
  }

  /** Inserts before the first element that is not smaller. */
  method InsertSorted<T>(l: seq<T>, x: T, key: T -> string) returns (r: seq<T>)
    requires Sorted(l, key)
    ensures Sorted(r, key) && multiset(r) == multiset(l) + multiset{x}
  {
    hide StrLe;
    var i := 0;
    while i < |l| && !StrLe(key(x), key(l[i]))
      invariant i <= |l|
      invariant forall j :: 0 <= j < i ==> StrLe(key(l[j]), key(x))
    {
      StrLeTotal(key(x), key(l[i]));
      i := i + 1;
    }
    forall j | i <= j < |l|
      ensures StrLe(key(x), key(l[j]))
    {
      if i < j {
        StrLeTransitive(key(x), key(l[i]), key(l[j]));
      }
    }
    r := l[..i] + [x] + l[i..];
    InsertedSorted(l, x, key, i);
    assert l == l[..i] + l[i..];
  }

  lemma InsertedSorted<T>(l: seq<T>, x: T, key: T -> string, i: nat)
    requires Sorted(l, key) && i <= |l|
    requires forall j :: 0 <= j < i ==> StrLe(key(l[j]), key(x))
    requires forall j :: i <= j < |l| ==> StrLe(key(x), key(l[j]))
    ensures Sorted(l[..i] + [x] + l[i..], key)
  {
    hide StrLe;
    var r := l[..i] + [x] + l[i..];
    forall a, b | 0 <= a < b < |r|
      ensures StrLe(key(r[a]), key(r[b]))
    {
      assert r[a] == if a < i then l[a] else if a == i then x else l[a - 1];
      assert r[b] == if b < i then l[b] else if b == i then x else l[b - 1];
    }
  }

  method Sort<T>(l: seq<T>, key: T -> string) returns (r: seq<T>)
    ensures Sorted(r, key) && multiset(r) == multiset(l)
  {
    r := [];
    for i := 0 to |l|
      invariant Sorted(r, key) && multiset(r) == multiset(l[..i])
    {
      r := InsertSorted(r, l[i], key);
      assert l[..i + 1] == l[..i] + [l[i]];
    }
    assert l[..|l|] == l;
  }

  lemma {:induction false} DistinctCounts<T>(l: seq<T>, x: T)
    requires Distinct(l)
    ensures multiset(l)[x] <= 1
  {
    if l != [] {
      var front := l[..|l| - 1];
      DistinctCounts(front, x);
      assert l == front + [l[|l| - 1]];
      assert x == l[|l| - 1] ==> x !in front;
    }
  }

  lemma TwiceCounts<T>(l: seq<T>, i: nat, j: nat)
    requires i < j < |l| && l[i] == l[j]
    ensures multiset(l)[l[i]] >= 2
  {
    assert l == l[..i] + [l[i]] + l[i + 1..];
    assert l[j] == l[i + 1..][j - i - 1];
  }

  /** A permutation of distinct elements has distinct elements. */
  lemma PermutationDistinct<T>(a: seq<T>, b: seq<T>)
    requires Distinct(a) && multiset(a) == multiset(b)
    ensures Distinct(b) && forall x :: x in b <==> x in a
  {
    forall i, j | 0 <= i < j < |b|
      ensures b[i] != b[j]
    {
      DistinctCounts(a, b[i]);
      if b[i] == b[j] {
        TwiceCounts(b, i, j);
      }
    }
    forall x: T
      ensures x in b <==> x in a
    {
      assert x in a <==> x in multiset(a);
      assert x in b <==> x in multiset(b);
    }
  }
}
