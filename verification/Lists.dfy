/** The intrusive linked lists of the source, as sequences of distinct handles. */
module Lists {

  datatype Option<+T> = None | Some(value: T)

  predicate Distinct<T(==)>(s: seq<T>)
  {
    forall i, j :: 0 <= i < j < |s| ==> s[i] != s[j]
  }

  /** Unlinks `x`; the order of the other nodes is kept. */
  function Without<T(==, !new)>(s: seq<T>, x: T): (r: seq<T>)
    ensures x !in s ==> r == s
    ensures forall y :: y != x ==> (y in r <==> y in s)
    ensures x in s ==> |r| == |s| - 1
    ensures Distinct(s) ==> Distinct(r) && x !in r
  {
    if s == [] then []
    else if s[0] == x then s[1..]
    else
      var rest := Without(s[1..], x);
      assert s[0] in rest ==> s[0] in s[1..];
      [s[0]] + rest
  }

  /** Where the unlinked node stood, the list closes up. */
  lemma {:induction false} WithoutSplice<T(!new)>(s: seq<T>, i: nat)
    requires Distinct(s) && i < |s|
    ensures Without(s, s[i]) == s[..i] + s[i + 1..]
  {
    if i == 0 {
      assert s[1..] == s[..0] + s[1..];
    } else {
      WithoutSplice(s[1..], i - 1);
      assert s[1..][i - 1] == s[i] != s[0];
      assert [s[0]] + (s[1..][..i - 1] + s[1..][i..]) == s[..i] + s[i + 1..];
    }
  }

  /** A list is determined by its members when it has at most one. */
  lemma AtMostOneMember<T(!new)>(s: seq<T>, x: T)
    requires Distinct(s) && forall y :: y in s ==> y == x
    ensures s == if x in s then [x] else []
  {
    if s != [] {
      assert s[0] in s;
      DistinctAt(s, 0, 1);
      assert forall k :: 0 <= k < |s| ==> s[k] in s && s[k] == x;
      assert s == [x];
    }
  }

  lemma DistinctAt<T(!new)>(s: seq<T>, i: nat, j: nat)
    requires Distinct(s)
    ensures i < j < |s| ==> s[i] != s[j]
  {
  }

  /** The list without any of the nodes in `gone`. */
  function Excluding<T(==, !new)>(s: seq<T>, gone: set<T>): (r: seq<T>)
    ensures forall x :: x in r <==> x in s && x !in gone
  {
    if s == [] then []
    else
      assert s == [s[0]] + s[1..];
      var rest := Excluding(s[1..], gone);
      if s[0] in gone then rest else [s[0]] + rest
  }

  lemma NothingExcluded<T(!new)>(gone: set<T>)
    ensures Excluding([], gone) == []
  {
  }

  lemma ExcludingCons<T(!new)>(x: T, s: seq<T>, gone: set<T>)
    ensures Excluding([x] + s, gone) == if x in gone then Excluding(s, gone) else [x] + Excluding(s, gone)
  {
    assert ([x] + s)[1..] == s;
  }

  lemma {:induction false} WithoutIsExcluding<T(!new)>(s: seq<T>, x: T)
    requires Distinct(s)
    ensures Without(s, x) == Excluding(s, {x})
  {
    if s == [] {
    } else if s[0] == x {
      assert x !in s[1..];
      ExcludingNone(s[1..], {x});
    } else {
      WithoutIsExcluding(s[1..], x);
    }
  }

  lemma {:induction false} ExcludingNone<T(!new)>(s: seq<T>, gone: set<T>)
    requires forall x :: x in s ==> x !in gone
    ensures Excluding(s, gone) == s
  {
    if s != [] {
      assert s == [s[0]] + s[1..];
      ExcludingNone(s[1..], gone);
    }
  }

  lemma {:induction false} ExcludingTwice<T(!new)>(s: seq<T>, a: set<T>, b: set<T>)
    ensures Excluding(Excluding(s, a), b) == Excluding(s, a + b)
  {
    if s != [] {
      ExcludingTwice(s[1..], a, b);
      if s[0] !in a { assert ([s[0]] + Excluding(s[1..], a))[1..] == Excluding(s[1..], a); }
    }
  }

  lemma {:induction false} ExcludingDistinct<T(!new)>(s: seq<T>, gone: set<T>)
    requires Distinct(s)
    ensures Distinct(Excluding(s, gone))
  {
    if s != [] {
      assert s == [s[0]] + s[1..] && s[0] !in s[1..];
      ExcludingDistinct(s[1..], gone);
    }
  }

  /** The nodes behind `m`. */
  function Newer<K(==)>(s: seq<K>, m: K): seq<K> {
    if s == [] then [] else if s[0] == m then s[1..] else Newer(s[1..], m)
  }

  lemma {:induction false} NewerWithout<K(!new)>(s: seq<K>, k: K, m: K, x: K)
    requires k != m && x in Newer(Without(s, k), m)
    ensures x in Newer(s, m)
  {
    if s == [] || s[0] == m {
      assert s != [] ==> Without(s, k)[1..] == Without(s[1..], k);
      assert x in s[1..];
    } else if s[0] != k {
      assert Without(s, k)[1..] == Without(s[1..], k);
      NewerWithout(s[1..], k, m, x);
    } else {
      assert Newer(s, m) == Newer(Without(s, k), m);
    }
  }

  lemma {:induction false} NewerAppend<K(!new)>(s: seq<K>, k: K, m: K)
    ensures Newer(s + [k], m) == if m in s then Newer(s, m) + [k] else []
  {
    if s == [] {
    } else {
      assert (s + [k])[1..] == s[1..] + [k];
      assert s == [s[0]] + s[1..];
      if s[0] != m { NewerAppend(s[1..], k, m); }
    }
  }

  lemma {:induction false} DistinctCount<K(!new)>(s: seq<K>, since: set<K>)
    requires Distinct(s) && forall x :: x in s ==> x in since
    ensures |s| <= |since|
  {
    if s != [] {
      assert s == [s[0]] + s[1..];
      assert s[0] !in s[1..];
      DistinctCount(s[1..], since - {s[0]});
    }
  }

  lemma NewerHead<K(!new)>(s: seq<K>, m: K)
    requires m in s
    ensures Newer(s, m) == if s[0] == m then s[1..] else Newer(s[1..], m)
    ensures s[0] != m ==> m in s[1..]
  {
    assert s == [s[0]] + s[1..];
  }

  lemma SinceGrows<K(!new)>(since: set<K>, k: K)
    ensures |since + {k}| >= |since|
  {
    if k in since { assert since + {k} == since; }
  }
}
