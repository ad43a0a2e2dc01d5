/** Intervals that do not overlap and add up to a length fill it exactly. */
module IntervalCover {

  datatype Interval = Interval(start: nat, len: nat) {
    function End(): nat {
      start + len
    }

    predicate Has(x: int) {
      start <= x < End()
    }
  }

  predicate Overlap(a: Interval, b: Interval) {
    a.start + a.len > b.start && b.start + b.len > a.start
  }

  predicate Disjoint(cs: seq<Interval>) {
    forall i, j :: 0 <= i < j < |cs| ==> !Overlap(cs[i], cs[j])
  }

  predicate Within(cs: seq<Interval>, bound: int) {
    forall i :: 0 <= i < |cs| ==> cs[i].End() <= bound
  }

  function Total(cs: seq<Interval>): nat {
    if cs == [] then 0 else Total(cs[..|cs| - 1]) + cs[|cs| - 1].len
  }

  /** The integers from `lo` up to but not including `lo + n`. */
  ghost function Points(lo: int, n: nat): (s: set<int>)
    ensures |s| == n
    ensures forall x :: x in s <==> lo <= x < lo + n
  {
    if n == 0 then {} else Points(lo, n - 1) + {lo + n - 1}
  }

  ghost function Covered(cs: seq<Interval>): set<int> {
    if cs == [] then {} else Covered(cs[..|cs| - 1]) + Points(cs[|cs| - 1].start, cs[|cs| - 1].len)
  }

  /** Some interval contains the point. */
  ghost predicate Hit(cs: seq<Interval>, x: int) {
    exists i :: 0 <= i < |cs| && cs[i].Has(x)
  }

  lemma {:induction false} CoveredMember(cs: seq<Interval>, x: int)
    ensures x in Covered(cs) <==> Hit(cs, x)
  {
    if cs == [] {
      assert Covered(cs) == {};
    } else {
      var init := cs[..|cs| - 1];
      CoveredMember(init, x);
      if x in Covered(init) {
        var i :| 0 <= i < |init| && init[i].Has(x);
        assert cs[i].Has(x);
      }
      if i :| 0 <= i < |cs| && cs[i].Has(x) {
        if i < |init| { assert init[i].Has(x); } else { assert i == |init|; }
      }
    }
  }

  lemma {:induction false} CoveredSize(cs: seq<Interval>)
    requires Disjoint(cs)
    ensures |Covered(cs)| == Total(cs)
  {
    if cs == [] {
      assert Covered(cs) == {} && Total(cs) == 0;
    } else {
      var init, c := cs[..|cs| - 1], cs[|cs| - 1];
      CoveredSize(init);
      forall x | x in Covered(init)
        ensures x !in Points(c.start, c.len)
      {
        CoveredMember(init, x);
        var i :| 0 <= i < |init| && init[i].Has(x);
        assert !Overlap(cs[i], c);
      }
      assert Covered(init) !! Points(c.start, c.len);
    }
  }

  /**
   * Disjoint intervals inside [0, length) never exceed it, and when they add up to it they fill it, each point once.
   */
  lemma DisjointCover(cs: seq<Interval>, length: nat)
    requires Disjoint(cs) && Within(cs, length)
    ensures Total(cs) <= length
    ensures Total(cs) == length ==> forall x :: 0 <= x < length ==> Hit(cs, x)
    ensures forall i, j, x :: 0 <= i < |cs| && 0 <= j < |cs| && cs[i].Has(x) && cs[j].Has(x) ==> i == j
  {
    var all := Points(0, length);
    CoveredSize(cs);
    forall x | x in Covered(cs)
      ensures x in all
    {
      CoveredMember(cs, x);
    }
    assert Covered(cs) <= all;
    SubsetSize(Covered(cs), all);
    if Total(cs) == length {
      forall x | 0 <= x < length
        ensures Hit(cs, x)
      {
        assert x in all;
        CoveredMember(cs, x);
      }
    }
    forall i, j, x | 0 <= i < |cs| && 0 <= j < |cs| && cs[i].Has(x) && cs[j].Has(x)
      ensures i == j
    {
      assert Overlap(cs[i], cs[j]) && Overlap(cs[j], cs[i]);
    }
  }

  lemma {:induction false} SubsetSize<T>(a: set<T>, b: set<T>)
    requires a <= b
    ensures |a| <= |b|
    ensures |a| == |b| ==> a == b
    decreases a
  {
    if a != {} {
      var x :| x in a;
      SubsetSize(a - {x}, b - {x});
    }
  }

  lemma TotalSnoc(cs: seq<Interval>, c: Interval)
    ensures Total(cs + [c]) == Total(cs) + c.len
  {
    assert (cs + [c])[..|cs|] == cs;
  }
}
