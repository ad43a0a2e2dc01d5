/** The packets of a disassembler may arrive in any order: what its chunks of one frame look like, in any order. */
module AnyOrder {
  import opened Bytes
  import opened FragmentWire
  import opened IntervalCover
  import opened InOrderLog
  import D = Disassembler
  import opened DisassemblerRuns
  import opened Assembler
  import opened ReorderedDelivery

  // ------------------------------------------------------------------ in order

  /** Each chunk begins where those before it end. */
  predicate Consecutive(cs: seq<Chunk>) {
    cs == [] ||
    (var before, c := cs[..|cs| - 1], cs[|cs| - 1];
     Consecutive(before) && c.start == |Payload(before)|)
  }

  /** The chunks of a finished frame, as they were sent. */
  ghost predicate Finished(cs: seq<Chunk>, frame: seq<Byte>) {
    && cs != [] && Consecutive(cs) && Payload(cs) == frame
    && (forall i :: 0 <= i < |cs| ==> (cs[i].isLast <==> i == |cs| - 1))
  }

  lemma {:induction false} ConsecutiveTiles(cs: seq<Chunk>)
    requires Consecutive(cs)
    ensures Disjoint(Intervals(cs)) && Within(Intervals(cs), |Payload(cs)|) && Total(Intervals(cs)) == |Payload(cs)|
  {
    if cs == [] {
      assert Intervals(cs) == [];
    } else {
      var before, c := cs[..|cs| - 1], cs[|cs| - 1];
      ConsecutiveTiles(before);
      var k := Interval(c.start, |c.payload|);
      assert Intervals(cs) == Intervals(before) + [k];
      TotalSnoc(Intervals(before), k);
    }
  }

  lemma ConsecutiveSnoc(cs: seq<Chunk>, c: Chunk)
    requires Consecutive(cs) && c.start == |Payload(cs)|
    ensures Consecutive(cs + [c])
  {
    assert (cs + [c])[..|cs|] == cs;
  }

  /** How the chunks of the frames lie in the log. */
  ghost predicate Sorted(log: seq<Chunk>) {
    var r := Reassemble(log);
    && Consecutive(r.partial) && (forall i :: 0 <= i < |r.partial| ==> !r.partial[i].isLast)
    && (forall j :: 0 <= j < |r.frames| ==> Finished(Own(log, j), r.frames[j]))
    && Own(log, |r.frames|) == r.partial
    && (forall j: nat :: j > |r.frames| ==> Own(log, j) == [])
  }

  lemma OwnSnoc(log: seq<Chunk>, c: Chunk, j: nat)
    ensures Own(log + [c], j) == if j == c.frameId then Own(log, j) + [c] else Own(log, j)
  {
    OwnConcat(log, [c], j);
    OwnOne(c, j);
    hide Own;
    assert Own(log, j) + [] == Own(log, j);
  }

  lemma SortedSnoc(log: seq<Chunk>, c: Chunk)
    requires Sorted(log) && Follows(Reassemble(log).partial, c) && c.frameId == |Reassemble(log).frames|
    ensures Sorted(log + [c])
  {
    hide Payload, Consecutive, Reassemble, Own, Finished;
    var r, n := Reassemble(log), log + [c];
    ReassembleSnoc(log, c);
    ConsecutiveSnoc(r.partial, c);
    EmptyIsConsecutive();
    forall j: nat ensures Own(n, j) == if j == c.frameId then Own(log, j) + [c] else Own(log, j) { OwnSnoc(log, c, j); }
    if c.isLast {
      FinishedSnoc(r.partial, c);
      LastSorted(log, c, r, n);
    }
  }

  /** The chunk completes the frame under way. */
  lemma LastSorted(log: seq<Chunk>, c: Chunk, r: InOrder, n: seq<Chunk>)
    requires Sorted(log) && r == Reassemble(log) && c.isLast && c.frameId == |r.frames|
    requires Reassemble(n) == Extend(r, c) && Finished(r.partial + [c], Payload(r.partial + [c]))
    requires forall j: nat :: Own(n, j) == if j == c.frameId then Own(log, j) + [c] else Own(log, j)
    requires Consecutive([])
    ensures Sorted(n)
  {
    hide Payload, Consecutive, Reassemble, Own, Finished;
    var m := Reassemble(n);
    forall j: nat | j < |m.frames| ensures Finished(Own(n, j), m.frames[j]) {
      if j < |r.frames| { assert Finished(Own(log, j), r.frames[j]); }
    }
  }

  lemma FinishedSnoc(partial: seq<Chunk>, c: Chunk)
    requires Consecutive(partial) && c.start == |Payload(partial)| && c.isLast
    requires forall i :: 0 <= i < |partial| ==> !partial[i].isLast
    ensures Finished(partial + [c], Payload(partial + [c]))
  {
    ConsecutiveSnoc(partial, c);
  }

  lemma OwnOne(c: Chunk, j: nat)
    ensures Own([c], j) == if c.frameId == j then [c] else []
  {
    assert Own([c][1..], j) == [];
  }

  lemma EmptyIsConsecutive()
    ensures Consecutive([])
  {
  }

  /** In a numbered log of at most 65536 frames, each id belongs to one frame. */
  lemma {:induction false} LogIsSorted(log: seq<Chunk>, mtu: nat)
    requires Sequential(log, mtu) && Numbered(log) && |Reassemble(log).frames| <= UINT16_RANGE
    requires |Reassemble(log).frames| == UINT16_RANGE ==> Reassemble(log).partial == []
    ensures Sorted(log)
  {
    hide Sorted, Reassemble, Sequential, Numbered;
    if log == [] {
      NothingSorted();
    } else {
      var before, c := log[..|log| - 1], log[|log| - 1];
      LastIsNumbered(log, mtu);
      LogIsSorted(before, mtu);
      SortedSnoc(before, c);
      assert log == before + [c];
    }
  }

  /** The last chunk of the log belongs to the frame under way, under its number. */
  lemma LastIsNumbered(log: seq<Chunk>, mtu: nat)
    requires Sequential(log, mtu) && Numbered(log) && log != [] && |Reassemble(log).frames| <= UINT16_RANGE
    requires |Reassemble(log).frames| == UINT16_RANGE ==> Reassemble(log).partial == []
    ensures var before, c := log[..|log| - 1], log[|log| - 1];
            && Sequential(before, mtu) && Numbered(before) && |Reassemble(before).frames| < UINT16_RANGE
            && Follows(Reassemble(before).partial, c) && c.frameId == |Reassemble(before).frames|
  {
    hide Follows, Payload;
    assert Reassemble(log) == Extend(Reassemble(log[..|log| - 1]), log[|log| - 1]);
  }

  lemma NothingSorted()
    ensures Sorted([])
  {
    assert forall j :: Own([], j) == [];
  }

  // ------------------------------------------------------------------ any order

  lemma {:induction false} OwnMembers(cs: seq<Chunk>, id: nat, c: Chunk)
    ensures c in Own(cs, id) <==> c in cs && c.frameId == id
  {
    if cs != [] {
      assert cs == [cs[0]] + cs[1..];
      OwnMembers(cs[1..], id, c);
    }
  }

  lemma SentIsAllOf(log: seq<Chunk>, frames: seq<seq<Byte>>, all: seq<seq<Byte>>, j: nat)
    requires Sorted(log) && Reassemble(log).frames == frames && AllGenuine(log, all) && frames <= all && j < |frames|
    ensures AllOf(Own(log, j), j, frames[j])
  {
    hide Own, Reassemble, Consecutive, Payload, D.PieceOf, Total;
    var cs := Own(log, j);
    assert Finished(cs, frames[j]);
    ConsecutiveTiles(cs);
    forall i | 0 <= i < |cs| ensures D.PieceOf(cs[i], j, frames[j]) {
      OwnMembers(log, j, cs[i]);
      assert cs[i] in log;
    }
    assert cs[|cs| - 1].isLast;
  }

  function RemoveAt(s: seq<Chunk>, k: nat): (r: seq<Chunk>)
    requires k < |s|
    ensures multiset(r) == multiset(s) - multiset{s[k]} && |r| == |s| - 1
    ensures forall i :: 0 <= i < |r| ==> r[i] == s[if i < k then i else i + 1]
  {
    assert s == s[..k] + [s[k]] + s[k + 1..];
    s[..k] + s[k + 1..]
  }

  /** A chunk of one list is found in the other. */
  lemma Elsewhere(cs: seq<Chunk>, ds: seq<Chunk>, i: nat) returns (k: nat)
    requires multiset(cs) == multiset(ds) && i < |cs|
    ensures k < |ds| && ds[k] == cs[i] && multiset(RemoveAt(ds, k)) == multiset(RemoveAt(cs, i))
  {
    assert cs[i] in multiset(cs) && cs[i] in multiset(ds);
    k :| 0 <= k < |ds| && ds[k] == cs[i];
  }

  lemma {:induction false} TotalConcat(a: seq<Interval>, b: seq<Interval>)
    ensures Total(a + b) == Total(a) + Total(b)
  {
    if b == [] {
      assert a + b == a;
    } else {
      var n := |b| - 1;
      assert (a + b)[..|a| + n] == a + b[..n];
      TotalConcat(a, b[..n]);
    }
  }

  lemma IntervalsConcat(a: seq<Chunk>, b: seq<Chunk>)
    ensures Intervals(a + b) == Intervals(a) + Intervals(b)
  {
  }

  lemma TotalRemoved(cs: seq<Chunk>, k: nat)
    requires k < |cs|
    ensures Total(Intervals(cs)) == |cs[k].payload| + Total(Intervals(RemoveAt(cs, k)))
  {
    hide Total;
    var a, b := cs[..k], cs[k + 1..];
    assert cs == a + ([cs[k]] + b);
    IntervalsConcat(a, [cs[k]] + b);
    IntervalsConcat([cs[k]], b);
    IntervalsConcat(a, b);
    TotalConcat(Intervals(a), Intervals([cs[k]] + b));
    TotalConcat(Intervals([cs[k]]), Intervals(b));
    TotalConcat(Intervals(a), Intervals(b));
    OneTotal(cs[k]);
  }

  lemma OneTotal(c: Chunk)
    ensures Total(Intervals([c])) == |c.payload|
  {
    assert Intervals([c]) == [] + [Interval(c.start, |c.payload|)];
    TotalSnoc([], Interval(c.start, |c.payload|));
  }

  lemma {:induction false} TotalAnyOrder(cs: seq<Chunk>, ds: seq<Chunk>)
    requires multiset(cs) == multiset(ds)
    ensures Total(Intervals(cs)) == Total(Intervals(ds))
    decreases |cs|
  {
    hide Total, RemoveAt, Intervals;
    assert |cs| == |multiset(cs)| == |multiset(ds)| == |ds|;
    if cs == [] {
      assert ds == [];
    } else {
      var k := Elsewhere(cs, ds, 0);
      TotalRemoved(cs, 0);
      TotalRemoved(ds, k);
      TotalAnyOrder(RemoveAt(cs, 0), RemoveAt(ds, k));
    }
  }

  /** Two places of one list have two places in the other. */
  lemma TwoPlaces(cs: seq<Chunk>, ds: seq<Chunk>, i: nat, j: nat) returns (p: nat, q: nat)
    requires multiset(cs) == multiset(ds) && i < j < |ds|
    ensures p < |cs| && q < |cs| && p != q && cs[p] == ds[i] && cs[q] == ds[j]
  {
    hide RemoveAt;
    p := Elsewhere(ds, cs, i);
    assert RemoveAt(ds, i)[j - 1] == ds[j];
    var m := Elsewhere(RemoveAt(ds, i), RemoveAt(cs, p), j - 1);
    q := if m < p then m else m + 1;
  }

  lemma AnyOrderAllOf(cs: seq<Chunk>, ds: seq<Chunk>, id: nat, frame: seq<Byte>)
    requires AllOf(cs, id, frame) && multiset(cs) == multiset(ds)
    ensures AllOf(ds, id, frame) && |ds| == |cs|
  {
    hide Total, D.PieceOf;
    TotalAnyOrder(cs, ds);
    assert |multiset(cs)| == |cs| && |multiset(ds)| == |ds|;
    forall i | 0 <= i < |ds| ensures D.PieceOf(ds[i], id, frame) {
      assert ds[i] in multiset(ds) && ds[i] in multiset(cs);
      var p :| 0 <= p < |cs| && cs[p] == ds[i];
    }
    var part := Intervals(ds);
    forall i, j | 0 <= i < j < |part| ensures !Overlap(part[i], part[j]) {
      var p, q := TwoPlaces(cs, ds, i, j);
      var whole := Intervals(cs);
      assert whole[p] == part[i] && whole[q] == part[j];
      assert !Overlap(whole[if p < q then p else q], whole[if p < q then q else p]);
    }
    LastAnyOrder(cs, ds);
  }

  lemma LastAnyOrder(cs: seq<Chunk>, ds: seq<Chunk>)
    requires multiset(cs) == multiset(ds) && HasLast(cs)
    requires forall i, j :: 0 <= i < |cs| && 0 <= j < |cs| && cs[i].isLast && cs[j].isLast ==> i == j
    ensures HasLast(ds)
    ensures forall i, j :: 0 <= i < |ds| && 0 <= j < |ds| && ds[i].isLast && ds[j].isLast ==> i == j
  {
    var p :| 0 <= p < |cs| && cs[p].isLast;
    assert cs[p] in multiset(cs) && cs[p] in ds;
    forall i, j | 0 <= i < j < |ds| ensures !(ds[i].isLast && ds[j].isLast) {
      var x, y := TwoPlaces(cs, ds, i, j);
    }
  }

  /**
   * Delivery in any order. Of a run of at most 65536 frames without a mid-frame cancel, let some packets arrive, in any
   * order and among any other packets, so that each chunk of frame `j` arrives once. If there are no more packets than
   * frames in the pool, and chunks of fewer other ids than that, the assembler emits the frame.
   */
  lemma AnyOrderDelivery(cfg: D.Config, es: seq<D.Event>, a: State, delivered: seq<seq<Byte>>, j: nat)
    requires cfg.Valid() && NoMidFrameCancel(cfg, es) && |Contributing(Execute(cfg, es))| <= UINT16_RANGE
    requires var r := Execute(cfg, es);
             && j < |r.frames| && multiset(Own(PacketLog(delivered), j)) == multiset(Own(Log(r), j))
             && |Own(Log(r), j)| <= a.numChunks
    requires Wf(a) && j !in a.tree && cfg.inputMtu <= a.mtu && |delivered| <= |a.entries|
    requires |OtherIds(PacketLog(delivered), j)| < |a.entries|
    ensures Execute(cfg, es).frames[j] in Receive(a, delivered).outputs
  {
    hide Execute, PacketLog, Own, AllOf, Wf, Receive, Sequential, Numbered, Reassemble, Genuine, Sorted, OtherIds;
    var r := Execute(cfg, es);
    LogIsInputInOrder(cfg, es);
    ChunksAreGenuine(cfg, es);
    RunIsSorted(cfg, r);
    SentIsAllOf(Log(r), r.frames, Contributing(r), j);
    AnyOrderAllOf(Own(Log(r), j), Own(PacketLog(delivered), j), j, r.frames[j]);
    FrameFits(Log(r), cfg.inputMtu, j);
    FrameGetsThrough(a, delivered, j, r.frames[j]);
  }

  lemma RunIsSorted(cfg: D.Config, r: Run)
    requires RunMatches(cfg, r) && D.Consistent(cfg, r.st) && |Contributing(r)| <= UINT16_RANGE
    ensures Sorted(Log(r)) && Reassemble(Log(r)).frames == r.frames && Sequential(Log(r), cfg.inputMtu)
  {
    hide PacketLog, Own, ParseChunks, Sequential, Numbered, Reassemble, Sorted, D.WellFormed;
    LogIsSorted(Log(r), cfg.inputMtu);
  }

  lemma {:induction false} FrameFits(log: seq<Chunk>, mtu: nat, j: nat)
    requires Sequential(log, mtu) && j < |Reassemble(log).frames|
    ensures |Reassemble(log).frames[j]| <= mtu
  {
    var before, c := log[..|log| - 1], log[|log| - 1];
    if j < |Reassemble(before).frames| {
      FrameFits(before, mtu, j);
    } else {
      PayloadSnoc(Reassemble(before).partial, c);
    }
  }
}
