/**
 * A frame gets through although its packets arrive in any order among packets of other frames, as long as they all
 * arrive soon enough and not too many other frames are begun meanwhile.
 */
module ReorderedDelivery {
  import opened Bytes
  import opened Lists
  import opened FragmentWire
  import opened IntervalCover
  import D = Disassembler
  import opened DisassemblerRuns
  import opened Assembler
  import opened Reassembly

  // ------------------------------------------------------------------ the chunks of one frame

  function Own(cs: seq<Chunk>, id: nat): seq<Chunk> {
    if cs == [] then [] else (if cs[0].frameId == id then [cs[0]] else []) + Own(cs[1..], id)
  }

  ghost function OtherIds(cs: seq<Chunk>, id: nat): set<nat> {
    set c | c in cs && c.frameId != id :: c.frameId
  }

  function Intervals(cs: seq<Chunk>): (r: seq<Interval>)
    ensures |r| == |cs|
  {
    seq(|cs|, i requires 0 <= i < |cs| => Interval(cs[i].start, |cs[i].payload|))
  }

  /** All pieces of the frame, each once, in any order. */
  ghost predicate AllOf(cs: seq<Chunk>, id: nat, frame: seq<Byte>) {
    && AllPieces(cs, id, frame) && Disjoint(Intervals(cs)) && Total(Intervals(cs)) == |frame|
    && HasLast(cs) && (forall i, j :: 0 <= i < |cs| && 0 <= j < |cs| && cs[i].isLast && cs[j].isLast ==> i == j)
  }

  predicate HasLast(cs: seq<Chunk>) {
    exists i :: 0 <= i < |cs| && cs[i].isLast
  }

  // ------------------------------------------------------------------ where the frame stands

  /** The frames put in, as far as this frame goes. */
  ghost function Only(id: nat, frame: seq<Byte>): Sent {
    Sent(seq(id + 1, i => frame), {}, 1)
  }

  /** The entry of the frame holds exactly the pieces seen. */
  ghost predicate Gathered(e: Entry, id: nat, frame: seq<Byte>, seen: seq<Chunk>) {
    && e.id == id && TrueEntry(e, Only(id, frame)) && e.chunks == Intervals(seen)
    && e.length == (if HasLast(seen) then |frame| else -1) && e.lengthSoFar <= |frame|
  }

  /** Whatever was begun after the frame was begun by one of the ids in `touched`. */
  ghost predicate Behind(a: State, i: nat, touched: set<nat>) {
    forall x: nat :: x in Newer(a.used, i) && x < |a.entries| ==> a.entries[x].id in touched
  }

  ghost predicate Tracking(a: State, id: nat, frame: seq<Byte>, seen: seq<Chunk>, touched: set<nat>, age: nat) {
    && Wf(a) && |frame| <= a.mtu
    && (seen == [] ==> id !in a.tree)
    && (seen != [] ==> id in a.tree && a.tree[id] in a.used && Gathered(a.entries[a.tree[id]], id, frame, seen)
                       && a.time - a.entries[a.tree[id]].time <= age && Behind(a, a.tree[id], touched))
  }

  // ------------------------------------------------------------------ the frame's own chunks

  /** A piece that fits between those seen is accepted. */
  lemma Accepted(e: Entry, id: nat, frame: seq<Byte>, seen: seq<Chunk>, c: Chunk)
    requires Gathered(e, id, frame, seen) && D.PieceOf(c, id, frame)
    requires Disjoint(Intervals(seen + [c])) && !(c.isLast && HasLast(seen))
    ensures !Rejects(e, c)
  {
    var k := Interval(c.start, |c.payload|);
    assert Intervals(seen + [c]) == Intervals(seen) + [k];
    forall i | 0 <= i < |e.chunks| ensures !Overlap(e.chunks[i], k) {
      assert Intervals(seen + [c])[i] == e.chunks[i] && Intervals(seen + [c])[|seen|] == k;
    }
  }

  lemma OneMoreGathered(e: Entry, id: nat, frame: seq<Byte>, seen: seq<Chunk>, c: Chunk, time: nat)
    requires Gathered(e, id, frame, seen) && D.PieceOf(c, id, frame) && c.End() <= |e.buffer| && !Rejects(e, c)
    ensures Gathered(AddChunk(e, c, time), id, frame, seen + [c])
  {
    hide TrueEntry;
    assert Only(id, frame).frames[id] == frame;
    assert Only(id, frame).Says(c);
    AddChunkTrue(e, c, time, Only(id, frame));
    assert Intervals(seen + [c]) == Intervals(seen) + [Interval(c.start, |c.payload|)];
    if HasLast(seen) {
      var i :| 0 <= i < |seen| && seen[i].isLast;
      assert (seen + [c])[i].isLast;
    }
    if c.isLast { assert (seen + [c])[|seen|].isLast; }
    if HasLast(seen + [c]) && !c.isLast {
      var i :| 0 <= i < |seen + [c]| && (seen + [c])[i].isLast;
      assert seen[i].isLast;
    }
  }

  /** What never changes about an assembler. */
  predicate SameSizes(a: State, b: State) {
    b.mtu == a.mtu && b.numChunks == a.numChunks && |b.entries| == |a.entries|
  }

  /** A new entry holds nothing, and nothing is behind it. */
  lemma Begin(a: State, id: nat, frame: seq<Byte>, touched: set<nat>)
    requires Wf(a) && id !in a.tree && |frame| <= a.mtu
    ensures var b := AllocateFrame(a, id);
            && SameSizes(a, b) && b.time == a.time && id in b.tree && b.tree[id] in b.used
            && Gathered(b.entries[b.tree[id]], id, frame, []) && b.entries[b.tree[id]].time == b.time
            && Behind(b, b.tree[id], touched)
  {
    hide TrueEntry, ChunksOk, Without, Newer;
    var m := MakeRoom(a);
    var i := m.free[0];
    assert i in m.free && i !in m.used;
    NewerAppend(m.used, i, i);
    NewEntryTrue(id, Only(id, frame));
    assert Intervals([]) == [];
  }

  /** One of the frame's own chunks either completes it or is added. */
  lemma StoreOwn(b: State, id: nat, frame: seq<Byte>, seen: seq<Chunk>, touched: set<nat>, c: Chunk)
    requires Wf(b) && id in b.tree && b.tree[id] in b.used && Gathered(b.entries[b.tree[id]], id, frame, seen)
    requires Behind(b, b.tree[id], touched) && c.frameId == id && D.PieceOf(c, id, frame) && |frame| <= b.mtu
    requires Disjoint(Intervals(seen + [c])) && !(c.isLast && HasLast(seen))
    requires |seen| + 1 < b.numChunks || (HasLast(seen + [c]) && Total(Intervals(seen + [c])) == |frame|)
    ensures c.End() <= b.mtu
    ensures var o := StoreChunk(b, c);
            && SameSizes(b, o.st)
            && (o.output != Some(frame) ==> o.output.None? && Tracking(o.st, id, frame, seen + [c], touched, 0))
  {
    hide TrueEntry, ChunksOk, Rejects, AddChunk, D.PieceOf, Newer;
    PieceFacts(c, id, frame);
    var i := b.tree[id];
    var e := b.entries[i];
    Accepted(e, id, frame, seen, c);
    OneMoreGathered(e, id, frame, seen, c, b.time);
    assert UsedOk(b, e);
    AddChunkOk(e, c, b.time);
    var e1 := AddChunk(e, c, b.time);
    Summed(e1, b.mtu);
    if Complete(e1) {
      CompleteIsFrame(e1, b.mtu, Only(id, frame));
    } else {
      assert e1.time == b.time by { Stamped(e, c, b.time); }
      assert UsedOk(b, e1);
      StillTracking(b, id, frame, seen + [c], touched, e1);
      hide Wf, Tracking, Behind, Gathered;
    }
  }

  /** The entry with one chunk more takes the place of the old one. */
  lemma StillTracking(b: State, id: nat, frame: seq<Byte>, seen: seq<Chunk>, touched: set<nat>, e1: Entry)
    requires Wf(b) && id in b.tree && b.tree[id] in b.used && |frame| <= b.mtu && seen != []
    requires Behind(b, b.tree[id], touched) && Gathered(e1, id, frame, seen) && e1.time == b.time && UsedOk(b, e1)
    requires b.entries[b.tree[id]].id == id && |e1.buffer| == b.mtu
    ensures Tracking(b.(entries := b.entries[b.tree[id] := e1]), id, frame, seen, touched, 0)
  {
    StoredWf(b, b.tree[id], e1);
    assert b.tree[id] < |b.entries|;
    hide PoolOk, EntriesOk, UsedOk, TrueEntry, Newer, HasLast, Intervals;
  }

  lemma Summed(e: Entry, mtu: nat)
    requires ChunksOk(e, mtu)
    ensures e.sum == Total(e.chunks)
  {
  }

  lemma Stamped(e: Entry, c: Chunk, time: nat)
    requires c.End() <= |e.buffer|
    ensures AddChunk(e, c, time).time == time
  {
  }

  lemma OwnChunk(a: State, id: nat, frame: seq<Byte>, seen: seq<Chunk>, touched: set<nat>, age: nat, c: Chunk)
    requires Tracking(a, id, frame, seen, touched, age) && age <= |a.entries|
    requires c.frameId == id && D.PieceOf(c, id, frame)
    requires Disjoint(Intervals(seen + [c])) && !(c.isLast && HasLast(seen))
    requires |seen| + 1 < a.numChunks || (HasLast(seen + [c]) && Total(Intervals(seen + [c])) == |frame|)
    ensures var o := ProcessChunk(a, c);
            && SameSizes(a, o.st)
            && (o.output != Some(frame) ==> o.output.None? && Tracking(o.st, id, frame, seen + [c], touched, 0))
  {
    hide Gathered, ChunksOk, StoreChunk, Newer, D.PieceOf;
    PieceFacts(c, id, frame);
    if seen == [] { Begin(a, id, frame, touched); }
    StoreOwn(FindFrame(a, id), id, frame, seen, touched, c);
  }

  // ------------------------------------------------------------------ chunks of other frames

  /** Freeing another frame leaves this one where it is. */
  lemma FreeOther(a: State, id: nat, frame: seq<Byte>, seen: seq<Chunk>, touched: set<nat>, age: nat, j: nat)
    requires Tracking(a, id, frame, seen, touched, age) && j in a.used && j < |a.entries| && a.entries[j].id != id
    ensures Tracking(FreeFrame(a, j), id, frame, seen, touched, age) && SameSizes(a, FreeFrame(a, j))
  {
    hide Gathered, EntriesOk, Without, Newer;
    FreeFrameWf(a, j);
    var b := FreeFrame(a, j);
    if seen != [] {
      var i := a.tree[id];
      forall x: nat | x in Newer(b.used, i) && x < |b.entries| ensures b.entries[x].id in touched {
        NewerWithout(a.used, j, i, x);
      }
    }
  }

  /** The ids of the used entries, in the order they were begun. */
  ghost function UsedIds(a: State): seq<nat>
    requires PoolOk(a)
  {
    assert forall k :: 0 <= k < |a.used| ==> a.used[k] in a.used;
    seq(|a.used|, k requires 0 <= k < |a.used| => a.entries[a.used[k]].id)
  }

  lemma IdsDistinct(a: State)
    requires PoolOk(a)
    ensures Distinct(UsedIds(a)) && forall k :: 0 <= k < |a.used| ==> UsedIds(a)[k] in a.tree
  {
    forall k | 0 <= k < |a.used| ensures UsedIds(a)[k] in a.tree && a.tree[UsedIds(a)[k]] == a.used[k] {
      assert a.used[k] in a.used;
    }
  }

  function SetOf(s: seq<nat>): (r: set<nat>)
    ensures |r| <= |s| && forall x :: x in r <==> x in s
  {
    if s == [] then {} else
      assert s == [s[0]] + s[1..];
      {s[0]} + SetOf(s[1..])
  }

  /** With nothing free, everything is in use. */
  lemma AllUsed(a: State)
    requires PoolOk(a) && a.free == []
    ensures |a.entries| <= |a.used|
  {
    var all: set<int>, mine: set<int> := Points(0, |a.entries|), SetOf(a.used);
    forall x | x in all ensures x in mine { assert 0 <= x < |a.entries|; assert x in a.used; }
    SubsetSize(all, mine);
  }

  /** The frames begun after this one have different ids, and so does one about to be begun. */
  lemma TooFewToEvict(a: State, i: nat, touched: set<nat>, other: nat)
    requires PoolOk(a) && i in a.used && Behind(a, i, touched) && other !in a.tree && a.free == []
    requires |touched + {other}| < |a.entries|
    ensures a.used[0] != i
  {
    IdsDistinct(a);
    AllUsed(a);
    var others := UsedIds(a)[1..] + [other];
    if a.used[0] == i {
      assert Newer(a.used, i) == a.used[1..];
      forall k | 0 <= k < |others| ensures others[k] in touched + {other} {
        if k < |others| - 1 {
          assert a.used[1..][k] == a.used[k + 1] && a.used[k + 1] in a.used;
          assert a.used[1..][k] in Newer(a.used, i);
        }
      }
      assert Distinct(others);
      DistinctCount(others, touched + {other});
    }
  }

  lemma MakeRoomForOther(a: State, id: nat, frame: seq<Byte>, seen: seq<Chunk>, touched: set<nat>, age: nat, other: nat)
    requires Tracking(a, id, frame, seen, touched, age) && other !in a.tree && |touched + {other}| < |a.entries|
    ensures Tracking(MakeRoom(a), id, frame, seen, touched, age) && SameSizes(a, MakeRoom(a))
    ensures other !in MakeRoom(a).tree
  {
    hide Gathered, EntriesOk, Without, Newer;
    if a.free == [] {
      assert 0 in a.used && a.used[0] in a.used;
      if seen != [] { TooFewToEvict(a, a.tree[id], touched, other); }
      FreeOther(a, id, frame, seen, touched, age, a.used[0]);
    }
  }

  lemma TakeFreeForOther(m: State, id: nat, frame: seq<Byte>, seen: seq<Chunk>, touched: set<nat>, age: nat, other: nat)
    requires Tracking(m, id, frame, seen, touched, age) && other !in m.tree && other != id && m.free != []
    ensures m.free[0] < |m.entries|
    ensures Tracking(TakeFree(m, other), id, frame, seen, touched + {other}, age) && SameSizes(m, TakeFree(m, other))
  {
    hide Gathered, EntriesOk, Without, Newer;
    var j := m.free[0];
    assert j in m.free && j !in m.used;
    TakeFreeWf(m, other);
    if seen != [] { NewerAppend(m.used, j, m.tree[id]); }
  }

  /** Finding or beginning another frame. */
  lemma FindOther(a: State, id: nat, frame: seq<Byte>, seen: seq<Chunk>, touched: set<nat>, age: nat, other: nat)
    requires Tracking(a, id, frame, seen, touched, age) && other != id && |touched + {other}| < |a.entries|
    ensures Tracking(FindFrame(a, other), id, frame, seen, touched + {other}, age) && SameSizes(a, FindFrame(a, other))
  {
    hide Gathered, EntriesOk, Without, Newer, TakeFree, MakeRoom;
    if other in a.tree && !TimedOut(a, a.entries[a.tree[other]]) {
      // nothing changes
    } else {
      var b := if other in a.tree then FreeFrame(a, a.tree[other]) else a;
      if other in a.tree { FreeOther(a, id, frame, seen, touched, age, a.tree[other]); }
      MakeRoomForOther(b, id, frame, seen, touched, age, other);
      TakeFreeForOther(MakeRoom(b), id, frame, seen, touched, age, other);
    }
  }

  /** Storing a chunk of another frame, whatever it says. */
  lemma StoreOther(b: State, id: nat, frame: seq<Byte>, seen: seq<Chunk>, touched: set<nat>, age: nat, c: Chunk)
    requires Tracking(b, id, frame, seen, touched, age) && c.frameId != id && c.frameId in b.tree && c.End() <= b.mtu
    ensures Tracking(StoreChunk(b, c).st, id, frame, seen, touched, age) && SameSizes(b, StoreChunk(b, c).st)
  {
    hide Gathered, EntriesOk, Without, Newer, Rejects, AddChunk, Complete, ChunksOk;
    var j := b.tree[c.frameId];
    var e := b.entries[j];
    assert e.id == c.frameId && j in b.used;
    FreeOther(b, id, frame, seen, touched, age, j);
    if !Rejects(e, c) { StoreOtherEntry(b, id, frame, seen, touched, age, c); }
  }

  lemma StoreOtherEntry(b: State, id: nat, frame: seq<Byte>, seen: seq<Chunk>, touched: set<nat>, age: nat, c: Chunk)
    requires Tracking(b, id, frame, seen, touched, age) && c.frameId != id && c.frameId in b.tree && c.End() <= b.mtu
    requires !Rejects(b.entries[b.tree[c.frameId]], c)
    ensures Tracking(StoreChunk(b, c).st, id, frame, seen, touched, age) && SameSizes(b, StoreChunk(b, c).st)
  {
    hide Gathered, Without, Newer, Rejects, AddChunk, Complete, ChunksOk;
    var j := b.tree[c.frameId];
    var e := b.entries[j];
    assert e.id == c.frameId && j in b.used && UsedOk(b, e);
    AddChunkOk(e, c, b.time);
    var e1 := AddChunk(e, c, b.time);
    var b1, o := b.(entries := b.entries[j := e1]), StoreChunk(b, c);
    if seen != [] {
      var i := b.tree[id];
      assert i != j && b.entries[i].id == id by {
        assert Gathered(b.entries[i], id, frame, seen);
        GatheredId(b.entries[i], id, frame, seen);
      }
      forall x: nat | x in Newer(o.st.used, i) && x < |o.st.entries| ensures o.st.entries[x].id in touched {
        if o.st.used != b.used { NewerWithout(b.used, j, i, x); }
      }
    }
  }

  lemma GatheredId(e: Entry, id: nat, frame: seq<Byte>, seen: seq<Chunk>)
    requires Gathered(e, id, frame, seen)
    ensures e.id == id
  {
  }

  lemma OtherChunk(a: State, id: nat, frame: seq<Byte>, seen: seq<Chunk>, touched: set<nat>, age: nat, c: Chunk)
    requires Tracking(a, id, frame, seen, touched, age) && c.frameId != id && |touched + {c.frameId}| < |a.entries|
    ensures var o := ProcessChunk(a, c);
            SameSizes(a, o.st) && Tracking(o.st, id, frame, seen, touched + {c.frameId}, age)
  {
    hide Gathered, Wf, Newer, StoreChunk, FindFrame;
    if c.start > a.mtu || |c.payload| > a.mtu - c.start {
    } else {
      FindOther(a, id, frame, seen, touched, age, c.frameId);
      StoreOther(FindFrame(a, c.frameId), id, frame, seen, touched + {c.frameId}, age, c);
    }
  }

  // ------------------------------------------------------------------ the clock

  /** Purging keeps the order of what it does not drop. */
  lemma {:induction false} PurgeOrder(a: State, todo: seq<nat>, i: nat, x: nat)
    requires PoolOk(a) && Distinct(todo) && (forall j :: j in todo ==> j in a.used)
    requires i in PurgeTimedOut(a, todo).used && x in Newer(PurgeTimedOut(a, todo).used, i)
    ensures x in Newer(a.used, i)
    decreases |todo|
  {
    hide Without, Newer, TimedOut, PurgeTimedOut, PoolOk, EntriesOk;
    if todo == [] {
      PurgeNone(a);
    } else {
      var j := todo[0];
      PurgeFirst(a, todo);
      if TimedOut(a, a.entries[j]) {
        PurgeOrder(FreeFrame(a, j), todo[1..], i, x);
        NewerWithout(a.used, j, i, x);
      } else {
        PurgeOrder(a, todo[1..], i, x);
      }
    }
  }

  lemma PurgeNone(a: State)
    requires PoolOk(a)
    ensures PurgeTimedOut(a, []) == a
  {
  }

  lemma PurgeFirst(a: State, todo: seq<nat>)
    requires PoolOk(a) && Distinct(todo) && todo != [] && (forall j :: j in todo ==> j in a.used)
    ensures todo[0] < |a.entries| && Distinct(todo[1..])
    ensures var b := if TimedOut(a, a.entries[todo[0]]) then FreeFrame(a, todo[0]) else a;
            && PoolOk(b) && (forall j :: j in todo[1..] ==> j in b.used)
            && PurgeTimedOut(a, todo) == PurgeTimedOut(b, todo[1..])
            && (TimedOut(a, a.entries[todo[0]]) ==> todo[0] !in PurgeTimedOut(a, todo).used)
  {
    hide Without, TimedOut;
    assert todo == [todo[0]] + todo[1..] && todo[0] in todo;
    FreeFrameWf(a, todo[0]);
  }

  /** A packet's end leaves the frame in place, one packet older. */
  lemma TickTracking(a: State, id: nat, frame: seq<Byte>, seen: seq<Chunk>, touched: set<nat>, age: nat)
    requires Tracking(a, id, frame, seen, touched, age) && age <= |a.entries|
    ensures Tracking(Tick(a), id, frame, seen, touched, age + 1) && SameSizes(a, Tick(a))
  {
    hide UsedOk, Newer, Without, Gathered, ReduceTimes;
    TickWf(a);
    TickAges(a);
    var r := Tick(a);
    TickLists(a);
    if seen == [] {
      TickIds(a, id);
    } else {
      var i := a.tree[id];
      assert i in r.used;
      assert SameFrame(a, r, i, 1);
      GatheredId(a.entries[i], id, frame, seen);
      StillGathered(a.entries[i], r.entries[i], id, frame, seen);
      TickBehind(a, i, touched);
    }
  }

  lemma StillGathered(e: Entry, e1: Entry, id: nat, frame: seq<Byte>, seen: seq<Chunk>)
    requires Gathered(e, id, frame, seen) && e1 == e.(time := e1.time)
    ensures Gathered(e1, id, frame, seen)
  {
    hide TrueEntry;
    SameEntryTrue(e, e1, Only(id, frame));
  }

  /** The clock changes no id and no size. */
  lemma TickLists(a: State)
    requires Wf(a)
    ensures SameSizes(a, Tick(a)) && forall x :: 0 <= x < |a.entries| ==> Tick(a).entries[x].id == a.entries[x].id
  {
    hide UsedOk, PurgeTimedOut, MinTime, SubtractTimes;
  }

  lemma TickIds(a: State, id: nat)
    requires Wf(a)
    ensures id in Tick(a).tree ==> id in a.tree
  {
    hide UsedOk, ReduceTimes;
    TickWf(a);
    TickAges(a);
    TickLists(a);
    var r := Tick(a);
    if id in r.tree { assert r.tree[id] in r.used && r.tree[id] in a.used; }
  }

  lemma TickBehind(a: State, i: nat, touched: set<nat>)
    requires Wf(a) && Behind(a, i, touched) && i in Tick(a).used
    ensures Behind(Tick(a), i, touched)
  {
    hide UsedOk, Newer, PurgeTimedOut, MinTime, SubtractTimes;
    TickLists(a);
    var r := Tick(a);
    forall x: nat | x in Newer(r.used, i) && x < |r.entries| ensures r.entries[x].id in touched {
      if a.time == MAX_TIME { PurgeOrder(a, a.used, i, x); }
    }
  }

  // ------------------------------------------------------------------ whole packets

  lemma {:induction false} OwnConcat(a: seq<Chunk>, b: seq<Chunk>, id: nat)
    ensures Own(a + b, id) == Own(a, id) + Own(b, id)
  {
    if a == [] {
      assert a + b == b;
    } else {
      assert (a + b)[1..] == a[1..] + b;
      OwnConcat(a[1..], b, id);
    }
  }

  lemma OtherIdsConcat(a: seq<Chunk>, b: seq<Chunk>, id: nat)
    ensures OtherIds(a + b, id) == OtherIds(a, id) + OtherIds(b, id)
  {
    assert forall c :: c in a + b <==> c in a || c in b;
  }

  /** The next of the frame's chunks can be added. */
  lemma NextFits(all: seq<Chunk>, id: nat, frame: seq<Byte>, n: nat)
    requires AllOf(all, id, frame) && n < |all|
    ensures D.PieceOf(all[n], id, frame) && all[n].frameId == id && all[..n] + [all[n]] == all[..n + 1]
    ensures Disjoint(Intervals(all[..n + 1])) && !(all[n].isLast && HasLast(all[..n]))
    ensures n + 1 == |all| ==> HasLast(all[..n + 1]) && Total(Intervals(all[..n + 1])) == |frame|
  {
    hide Total, D.PieceOf;
    assert D.PieceOf(all[n], id, frame);
    PieceFacts(all[n], id, frame);
    var part := Intervals(all[..n + 1]);
    forall i, j | 0 <= i < j < |part| ensures !Overlap(part[i], part[j]) {
      assert !Overlap(Intervals(all)[i], Intervals(all)[j]);
    }
    if n + 1 == |all| { assert all[..n + 1] == all; }
    assert all[n].isLast ==> forall i :: 0 <= i < n ==> !all[..n][i].isLast;
  }

  lemma Older(a: State, id: nat, frame: seq<Byte>, seen: seq<Chunk>, touched: set<nat>, age: nat, older: nat)
    requires Tracking(a, id, frame, seen, touched, age) && age <= older
    ensures Tracking(a, id, frame, seen, touched, older)
  {
    hide Wf, Gathered, Behind;
  }

  lemma FirstChunk(a: State, cs: seq<Chunk>, frame: seq<Byte>)
    requires Wf(a) && cs != []
    ensures var o, b := ProcessChunk(a, cs[0]), ProcessChunks(a, cs);
            var r := ProcessChunks(o.st, cs[1..]);
            b.st == r.st && (frame in b.outputs <==> o.output == Some(frame) || frame in r.outputs)
  {
    hide Wf, ProcessChunk;
  }

  lemma FirstIds(cs: seq<Chunk>, id: nat)
    requires cs != []
    ensures OtherIds(cs, id) == OtherIds(cs[1..], id) + if cs[0].frameId == id then {} else {cs[0].frameId}
  {
    assert cs == [cs[0]] + cs[1..];
  }

  /** Emitted, or still tracked and of the same size. */
  ghost predicate Reached(a: State, b: Batch, id: nat, frame: seq<Byte>, seen: seq<Chunk>, touched: set<nat>,
                          age: nat) {
    frame in b.outputs || (SameSizes(a, b.st) && Tracking(b.st, id, frame, seen, touched, age))
  }

  lemma {:induction false} ThroughChunks(a: State, cs: seq<Chunk>, id: nat, frame: seq<Byte>, all: seq<Chunk>, n: nat,
                                         touched: set<nat>, age: nat)
    requires AllOf(all, id, frame) && |all| <= a.numChunks && n <= |all| && all[..n] + Own(cs, id) <= all
    requires Wf(a) && Tracking(a, id, frame, all[..n], touched, age) && age <= |a.entries|
    requires |touched + OtherIds(cs, id)| < |a.entries|
    ensures Reached(a, ProcessChunks(a, cs), id, frame, all[..n] + Own(cs, id), touched + OtherIds(cs, id), age)
    decreases |cs|
  {
    hide Tracking, AllOf, ProcessChunk, ProcessChunks, OtherIds, Wf;
    if cs == [] {
      NoChunks(a, id);
      assert all[..n] + [] == all[..n] && touched + {} == touched;
    } else {
      var o := ProcessChunk(a, cs[0]);
      FirstChunk(a, cs, frame);
      FirstIds(cs, id);
      if cs[0].frameId == id {
        ThroughOwn(a, cs, id, frame, all, n, touched, age);
        assert OtherIds(cs[1..], id) + {} == OtherIds(cs[1..], id);
        if o.output != Some(frame) {
          assert all[..n] + Own(cs, id) == all[..n + 1] + Own(cs[1..], id);
          ThroughChunks(o.st, cs[1..], id, frame, all, n + 1, touched, age);
        }
      } else {
        FewerIds(touched, cs[0].frameId, OtherIds(cs[1..], id));
        OtherChunk(a, id, frame, all[..n], touched, age, cs[0]);
        assert [] + Own(cs[1..], id) == Own(cs[1..], id);
        ThroughChunks(o.st, cs[1..], id, frame, all, n, touched + {cs[0].frameId}, age);
      }
    }
  }

  lemma NoChunks(a: State, id: nat)
    requires Wf(a)
    ensures ProcessChunks(a, []) == Batch(a, []) && OtherIds([], id) == {}
  {
  }

  lemma FewerIds(touched: set<nat>, id: nat, rest: set<nat>)
    ensures |touched + {id}| <= |touched + (rest + {id})| && touched + {id} + rest == touched + (rest + {id})
  {
    SubsetSize(touched + {id}, touched + (rest + {id}));
    assert touched + {id} + rest == touched + (rest + {id});
  }

  lemma ThroughOwn(a: State, cs: seq<Chunk>, id: nat, frame: seq<Byte>, all: seq<Chunk>, n: nat, touched: set<nat>,
                   age: nat)
    requires AllOf(all, id, frame) && |all| <= a.numChunks && n <= |all| && all[..n] + Own(cs, id) <= all
    requires Wf(a) && Tracking(a, id, frame, all[..n], touched, age) && age <= |a.entries|
    requires cs != [] && cs[0].frameId == id
    ensures n < |all| && all[n] == cs[0]
    ensures var o := ProcessChunk(a, cs[0]);
            && SameSizes(a, o.st)
            && (o.output != Some(frame) ==> o.output.None? && Tracking(o.st, id, frame, all[..n + 1], touched, age))
  {
    hide Tracking, AllOf, ProcessChunk;
    var c := cs[0];
    assert Own(cs, id)[0] == c && (all[..n] + Own(cs, id))[n] == c;
    NextFits(all, id, frame, n);
    OwnChunk(a, id, frame, all[..n], touched, age, c);
    var o := ProcessChunk(a, c);
    if o.output != Some(frame) { Older(o.st, id, frame, all[..n + 1], touched, 0, age); }
  }

  lemma {:induction false} ThroughPackets(a: State, delivered: seq<seq<Byte>>, k: nat, id: nat, frame: seq<Byte>)
    requires Wf(a) && id !in a.tree && |frame| <= a.mtu && k <= |delivered| <= |a.entries|
    requires AllOf(Own(PacketLog(delivered), id), id, frame) && |Own(PacketLog(delivered), id)| <= a.numChunks
    requires |OtherIds(PacketLog(delivered), id)| < |a.entries|
    ensures var log := PacketLog(delivered[..k]);
            Reached(a, Receive(a, delivered[..k]), id, frame, Own(log, id), OtherIds(log, id), k)
    decreases k
  {
    hide Tracking, AllOf, Wf;
    if k == 0 {
      assert delivered[..0] == [];
      NotBegun(a, id, frame);
    } else {
      ThroughPackets(a, delivered, k - 1, id, frame);
      assert delivered[..k][..k - 1] == delivered[..k - 1];
      var b, p := Receive(a, delivered[..k - 1]), delivered[k - 1];
      if frame !in b.outputs { ThroughPacket(b.st, delivered, k, id, frame); }
    }
  }

  lemma NotBegun(a: State, id: nat, frame: seq<Byte>)
    requires Wf(a) && id !in a.tree && |frame| <= a.mtu
    ensures Tracking(a, id, frame, [], OtherIds([], id), 0)
  {
  }

  lemma LogPrefix(delivered: seq<seq<Byte>>, k: nat, id: nat)
    requires k <= |delivered|
    ensures Own(PacketLog(delivered[..k]), id) <= Own(PacketLog(delivered), id)
    ensures OtherIds(PacketLog(delivered[..k]), id) <= OtherIds(PacketLog(delivered), id)
    decreases |delivered| - k
  {
    if k == |delivered| {
      assert delivered[..k] == delivered;
    } else {
      LogPrefix(delivered, k + 1, id);
      assert delivered[..k + 1] == delivered[..k] + [delivered[k]];
      PacketLogSnoc(delivered[..k], delivered[k]);
      OwnConcat(PacketLog(delivered[..k]), ParseChunks(delivered[k]), id);
      OtherIdsConcat(PacketLog(delivered[..k]), ParseChunks(delivered[k]), id);
    }
  }

  lemma ThroughPacket(b: State, delivered: seq<seq<Byte>>, k: nat, id: nat, frame: seq<Byte>)
    requires 0 < k <= |delivered| <= |b.entries| && Wf(b)
    requires AllOf(Own(PacketLog(delivered), id), id, frame) && |Own(PacketLog(delivered), id)| <= b.numChunks
    requires |OtherIds(PacketLog(delivered), id)| < |b.entries|
    requires var log := PacketLog(delivered[..k - 1]); Tracking(b, id, frame, Own(log, id), OtherIds(log, id), k - 1)
    ensures var log := PacketLog(delivered[..k]);
            Reached(b, ProcessPacket(b, delivered[k - 1]), id, frame, Own(log, id), OtherIds(log, id), k)
  {
    hide Tracking, AllOf, Wf, ParseChunks, PacketLog, Tick, OtherIds, ProcessChunks, Own;
    var before, cs, all := PacketLog(delivered[..k - 1]), ParseChunks(delivered[k - 1]), Own(PacketLog(delivered), id);
    LogPrefix(delivered, k - 1, id);
    LogPrefix(delivered, k, id);
    assert delivered[..k] == delivered[..k - 1] + [delivered[k - 1]];
    PacketLogSnoc(delivered[..k - 1], delivered[k - 1]);
    OwnConcat(before, cs, id);
    OtherIdsConcat(before, cs, id);
    var n := |Own(before, id)|;
    assert all[..n] == Own(before, id);
    SubsetSize(OtherIds(before, id) + OtherIds(cs, id), OtherIds(PacketLog(delivered), id));
    ThroughChunks(b, cs, id, frame, all, n, OtherIds(before, id), k - 1);
    var r := ProcessChunks(b, cs);
    if frame !in r.outputs {
      TickTracking(r.st, id, frame, all[..n] + Own(cs, id), OtherIds(before, id) + OtherIds(cs, id), k - 1);
    }
  }

  lemma FullIsComplete(e: Entry, mtu: nat, id: nat, frame: seq<Byte>, all: seq<Chunk>)
    requires Gathered(e, id, frame, all) && AllOf(all, id, frame) && ChunksOk(e, mtu)
    ensures Complete(e)
  {
  }

  /** A frame all of whose pieces are there is not kept waiting. */
  lemma NotLeftOver(a: State, id: nat, frame: seq<Byte>, all: seq<Chunk>, touched: set<nat>, age: nat)
    requires AllOf(all, id, frame)
    ensures !Tracking(a, id, frame, all, touched, age)
  {
    hide Gathered, Complete, ChunksOk, Behind;
    if Tracking(a, id, frame, all, touched, age) {
      assert a.tree[id] in a.used && UsedOk(a, a.entries[a.tree[id]]);
      FullIsComplete(a.entries[a.tree[id]], a.mtu, id, frame, all);
    }
  }

  /**
   * Any-order delivery. If the packets delivered carry all pieces of a frame, each once and in any order, mixed with
   * any other chunks whatever; if there are no more packets than frames in the pool, the time a frame is kept for; and
   * if fewer other ids occur than there are frames in the pool: then the frame is emitted.
   */
  lemma FrameGetsThrough(a: State, delivered: seq<seq<Byte>>, id: nat, frame: seq<Byte>)
    requires Wf(a) && id !in a.tree && |frame| <= a.mtu && |delivered| <= |a.entries|
    requires AllOf(Own(PacketLog(delivered), id), id, frame) && |Own(PacketLog(delivered), id)| <= a.numChunks
    requires |OtherIds(PacketLog(delivered), id)| < |a.entries|
    ensures frame in Receive(a, delivered).outputs
  {
    hide Tracking, AllOf, Wf, PacketLog, Receive;
    ThroughPackets(a, delivered, |delivered|, id, frame);
    assert delivered[..|delivered|] == delivered;
    var log := PacketLog(delivered);
    NotLeftOver(Receive(a, delivered).st, id, frame, Own(log, id), OtherIds(log, id), |delivered|);
  }
}
