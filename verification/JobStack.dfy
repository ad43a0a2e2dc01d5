/** BPending: one stack of pending jobs; the last one set runs first. */
module JobStack {
  import opened Lists

  /** BSmallPending_Set: a job already pending moves to the top. */
  function SetJob<J(==, !new)>(jobs: seq<J>, j: J): seq<J> {
    [j] + Without(jobs, j)
  }

  /** BSmallPending_Unset and BSmallPending_Free */
  function UnsetJob<J(==, !new)>(jobs: seq<J>, j: J): seq<J> {
    Without(jobs, j)
  }

  class BPendingGroup<J(==, !new)> {
    var jobs: seq<J>

    constructor ()
      ensures jobs == []
    {
      jobs := [];
    }

    method Set(j: J)
      requires Distinct(jobs)
      modifies this
      ensures Distinct(jobs) && jobs == SetJob(old(jobs), j)
    {
      if j in jobs {
        jobs := Without(jobs, j);
      }
      jobs := [j] + jobs;
    }

    method Unset(j: J)
      requires Distinct(jobs)
      modifies this
      ensures Distinct(jobs) && jobs == UnsetJob(old(jobs), j)
    {
      if j in jobs {
        jobs := Without(jobs, j);
      }
    }

    /** BPendingGroup_ExecuteJob up to the call of the handler; the job is no longer set when it runs */
    method TakeJob() returns (j: J)
      requires Distinct(jobs) && jobs != []
      modifies this
      ensures Distinct(jobs) && old(jobs) == [j] + jobs && j !in jobs
    {
      j := jobs[0];
      jobs := jobs[1..];
    }
  }

  // ------------------------------------------------------------------ last in, first out

  datatype Op<J> = Set(job: J) | Unset(job: J) | Execute

  function Apply<J(==, !new)>(jobs: seq<J>, op: Op<J>): (r: seq<J>)
    ensures Distinct(jobs) ==> Distinct(r)
  {
    match op
    case Set(j) => SetJob(jobs, j)
    case Unset(j) => UnsetJob(jobs, j)
    case Execute => if jobs == [] then [] else jobs[1..]
  }

  function ApplyAll<J(==, !new)>(jobs: seq<J>, ops: seq<Op<J>>): (r: seq<J>)
    ensures Distinct(jobs) ==> Distinct(r)
  {
    if ops == [] then jobs else Apply(ApplyAll(jobs, ops[..|ops| - 1]), ops[|ops| - 1])
  }

  /** The jobs set during `ops` that have neither run nor been unset since. */
  ghost function Outstanding<J(!new)>(jobs: seq<J>, ops: seq<Op<J>>): set<J> {
    if ops == [] then {}
    else
      var before, op := ops[..|ops| - 1], ops[|ops| - 1];
      var now := ApplyAll(jobs, before);
      match op
      case Set(k) => Outstanding(jobs, before) + {k}
      case Unset(k) => Outstanding(jobs, before) - {k}
      case Execute => if now == [] then Outstanding(jobs, before) else Outstanding(jobs, before) - {now[0]}
  }

  /** Job `j` is neither set again nor unset nor run. */
  predicate Undisturbed<J(==, !new)>(jobs: seq<J>, ops: seq<Op<J>>, j: J) {
    ops == [] ||
    (var before, op := ops[..|ops| - 1], ops[|ops| - 1];
     && Undisturbed(jobs, before, j)
     && op != Set(j) && op != Unset(j)
     && (op.Execute? && ApplyAll(jobs, before) != [] ==> ApplyAll(jobs, before)[0] != j))
  }

  ghost function Members<J(!new)>(s: seq<J>): set<J> {
    set x | x in s
  }

  /** While `j` waits, the stack above it is exactly what was set later and is still outstanding. */
  ghost predicate Layered<J(!new)>(jobs: seq<J>, above: seq<J>, j: J, rest: seq<J>, later: set<J>) {
    jobs == above + [j] + rest && Distinct(jobs) && Members(above) == later
  }

  lemma {:induction false} WithoutConcat<J(!new)>(a: seq<J>, b: seq<J>, k: J)
    ensures Without(a + b, k) == if k in a then Without(a, k) + b else a + Without(b, k)
  {
    if a == [] {
      assert a + b == b;
    } else {
      assert (a + b)[1..] == a[1..] + b;
      assert a == [a[0]] + a[1..];
      if a[0] != k {
        WithoutConcat(a[1..], b, k);
      }
    }
  }

  lemma WithoutLayers<J(!new)>(above: seq<J>, j: J, rest: seq<J>, k: J)
    requires Distinct(above + [j] + rest) && k != j
    ensures Without(above + [j] + rest, k) == Without(above, k) + [j] + Without(rest, k)
  {
    var top := above + [j];
    WithoutConcat(top, rest, k);
    WithoutConcat(above, [j], k);
    assert Without([j], k) == [j];
    DistinctPrefix(top, rest);
  }

  lemma DistinctPrefix<J(!new)>(a: seq<J>, b: seq<J>)
    requires Distinct(a + b)
    ensures Distinct(a) && forall x :: x in a ==> x !in b
  {
    assert forall i :: 0 <= i < |a| ==> a[i] == (a + b)[i];
    assert forall i :: 0 <= i < |b| ==> b[i] == (a + b)[|a| + i];
  }

  lemma LayersSet<J(!new)>(jobs: seq<J>, above: seq<J>, j: J, rest: seq<J>, later: set<J>, k: J)
    requires Layered(jobs, above, j, rest, later) && k != j
    ensures Layered(SetJob(jobs, k), [k] + Without(above, k), j, Without(rest, k), later + {k})
  {
    hide Without;
    WithoutLayers(above, j, rest, k);
    var r := [k] + Without(above, k);
    assert SetJob(jobs, k) == r + [j] + Without(rest, k);
    assert Members(r) == Members(above) + {k};
  }

  lemma LayersUnset<J(!new)>(jobs: seq<J>, above: seq<J>, j: J, rest: seq<J>, later: set<J>, k: J)
    requires Layered(jobs, above, j, rest, later) && k != j
    ensures Layered(UnsetJob(jobs, k), Without(above, k), j, Without(rest, k), later - {k})
  {
    hide Without;
    WithoutLayers(above, j, rest, k);
    assert above + [j] + rest == above + ([j] + rest);
    DistinctPrefix(above, [j] + rest);
    assert Members(Without(above, k)) == Members(above) - {k};
  }

  lemma LayersExecute<J(!new)>(jobs: seq<J>, above: seq<J>, j: J, rest: seq<J>, later: set<J>)
    requires Layered(jobs, above, j, rest, later) && above != []
    ensures Layered(jobs[1..], above[1..], j, rest, later - {jobs[0]})
  {
    assert above + [j] + rest == above + ([j] + rest);
    DistinctPrefix(above, [j] + rest);
    var top, r := above[0], above[1..];
    assert above == [top] + r && top !in r;
    assert jobs[1..] == r + [j] + rest;
    assert Members(r) == Members(above) - {top};
  }

  lemma {:induction false} StackLayers<J(!new)>(below: seq<J>, j: J, ops: seq<Op<J>>)
    returns (above: seq<J>, rest: seq<J>)
    requires Distinct([j] + below) && Undisturbed([j] + below, ops, j)
    ensures Layered(ApplyAll([j] + below, ops), above, j, rest, Outstanding([j] + below, ops))
    ensures forall x :: x in rest ==> x in below
  {
    hide Layered, Without;
    var jobs := [j] + below;
    if ops == [] {
      above, rest := [], below;
      BottomLayer(below, j);
    } else {
      var before, op := ops[..|ops| - 1], ops[|ops| - 1];
      above, rest := StackLayers(below, j, before);
      var now, later := ApplyAll(jobs, before), Outstanding(jobs, before);
      match op {
        case Set(k) =>
          LayersSet(now, above, j, rest, later, k);
          above, rest := [k] + Without(above, k), Without(rest, k);
        case Unset(k) =>
          LayersUnset(now, above, j, rest, later, k);
          above, rest := Without(above, k), Without(rest, k);
        case Execute =>
          TopOfLayers(now, above, j, rest, later);
          LayersExecute(now, above, j, rest, later);
          above := above[1..];
      }
    }
  }

  lemma BottomLayer<J(!new)>(below: seq<J>, j: J)
    requires Distinct([j] + below)
    ensures Layered([j] + below, [], j, below, {})
  {
    assert [j] + below == [] + [j] + below;
    assert Members<J>([]) == {};
  }

  lemma TopOfLayers<J(!new)>(jobs: seq<J>, above: seq<J>, j: J, rest: seq<J>, later: set<J>)
    requires Layered(jobs, above, j, rest, later)
    ensures jobs != [] && j in jobs && (jobs[0] == j <==> above == []) && (above == [] <==> later == {})
  {
    assert jobs[|above|] == j;
    if above != [] {
      assert jobs[0] == above[0] && above[0] in above;
      DistinctAt(jobs, 0, |above|);
      assert above[0] in Members(above);
    }
  }

  /**
   * A job that was set and left alone comes to the top of the stack only once every job set after it, directly or
   * by the jobs run since, has run or been unset.
   */
  lemma LastInFirstOut<J(!new)>(below: seq<J>, j: J, ops: seq<Op<J>>)
    requires Distinct([j] + below) && Undisturbed([j] + below, ops, j)
    ensures var now := ApplyAll([j] + below, ops);
            j in now && (now[0] == j <==> Outstanding([j] + below, ops) == {})
  {
    var above, rest := StackLayers(below, j, ops);
    TopOfLayers(ApplyAll([j] + below, ops), above, j, rest, Outstanding([j] + below, ops));
  }
}
