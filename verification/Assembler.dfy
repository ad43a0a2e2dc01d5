/** FragmentProtoAssembler: the frame pool, the packet clock and what one chunk does to them. */
module Assembler {
  import opened Bytes
  import opened Lists
  import opened FragmentWire
  import opened IntervalCover

  /** FPA_MAX_TIME */
  const MAX_TIME: nat := 0xFFFF_FFFF

  /** `length` is -1 until the last chunk is seen; `buffer` keeps stale bytes from earlier uses of the entry. */
  datatype Entry = Entry(id: nat, time: nat, chunks: seq<Interval>, sum: nat, length: int, lengthSoFar: nat,
                         buffer: seq<Byte>)

  /** `free` and `used` list entry numbers, oldest first; `tree` finds a used entry by frame id. */
  datatype State = State(mtu: nat, numChunks: nat, time: nat, entries: seq<Entry>, free: seq<nat>, used: seq<nat>,
                         tree: map<nat, nat>)

  // ------------------------------------------------------------------ invariant

  ghost predicate PoolOk(a: State) {
    && Distinct(a.free) && Distinct(a.used)
    && (forall i: nat :: (i in a.free || i in a.used) <==> i < |a.entries|)
    && (forall i: nat :: i in a.free ==> i !in a.used)
    && (forall id :: id in a.tree ==> a.tree[id] in a.used && a.entries[a.tree[id]].id == id)
    && (forall i :: i in a.used ==> a.entries[i].id in a.tree && a.tree[a.entries[i].id] == i)
  }

  /** The accepted chunks are disjoint and inside what is known of the frame. */
  ghost predicate ChunksOk(e: Entry, mtu: nat) {
    && Disjoint(e.chunks)
    && e.sum == Total(e.chunks)
    && -1 <= e.length <= mtu
    && Within(e.chunks, if e.length >= 0 then e.length else e.lengthSoFar)
  }

  predicate Complete(e: Entry) {
    e.length >= 0 && e.sum >= e.length
  }

  ghost predicate UsedOk(a: State, e: Entry) {
    e.time <= a.time && ChunksOk(e, a.mtu) && |e.chunks| < a.numChunks && !Complete(e)
  }

  ghost predicate EntriesOk(a: State) {
    && (forall i :: 0 <= i < |a.entries| ==> |a.entries[i].buffer| == a.mtu)
    && (forall i :: i in a.used && i < |a.entries| ==> UsedOk(a, a.entries[i]))
  }

  ghost predicate Wf(a: State) {
    && 0 < |a.entries| < MAX_TIME && a.numChunks > 0 && a.time <= MAX_TIME
    && PoolOk(a) && EntriesOk(a)
  }

  /** A pool as `FragmentProtoAssembler_Init` leaves it; the buffers hold anything. */
  ghost predicate Initial(a: State) {
    && 0 < |a.entries| < MAX_TIME && a.numChunks > 0 && a.time == 0
    && a.used == [] && a.tree == map[]
    && |a.free| == |a.entries| && (forall i :: 0 <= i < |a.free| ==> a.free[i] == i)
    && (forall i :: 0 <= i < |a.entries| ==> |a.entries[i].buffer| == a.mtu)
  }

  lemma InitialWf(a: State)
    requires Initial(a)
    ensures Wf(a)
  {
    forall i: nat
      ensures (i in a.free || i in a.used) <==> i < |a.entries|
    {
      if i < |a.entries| { assert a.free[i] == i; }
    }
  }

  // ------------------------------------------------------------------ pool operations

  function FreeFrame(a: State, i: nat): State
    requires i < |a.entries|
  {
    a.(used := Without(a.used, i), tree := a.tree - {a.entries[i].id}, free := a.free + [i])
  }

  lemma FreeFrameWf(a: State, i: nat)
    requires PoolOk(a) && i in a.used
    ensures PoolOk(FreeFrame(a, i))
    ensures EntriesOk(a) ==> EntriesOk(FreeFrame(a, i))
  {
    hide ChunksOk, Complete, Without;
  }

  /** Room for a new frame: recycle the oldest used entry if none is free. */
  function MakeRoom(a: State): (r: State)
    requires PoolOk(a) && 0 < |a.entries|
    ensures PoolOk(r) && r.free != [] && (EntriesOk(a) ==> EntriesOk(r))
    ensures r == a.(used := r.used, tree := r.tree, free := r.free)
    ensures forall i :: i in r.used ==> i in a.used
    ensures forall id :: id in r.tree ==> id in a.tree
  {
    if a.free == [] then
      assert 0 in a.used;
      FreeFrameWf(a, a.used[0]);
      FreeFrame(a, a.used[0])
    else a
  }

  function NewEntry(id: nat, time: nat, buffer: seq<Byte>): Entry {
    Entry(id, time, [], 0, -1, 0, buffer)
  }

  function AllocateFrame(a: State, id: nat): (r: State)
    requires Wf(a) && id !in a.tree
    ensures Wf(r) && id in r.tree
  {
    var b := MakeRoom(a);
    assert b.free[0] in b.free;
    TakeFreeWf(b, id);
    TakeFree(b, id)
  }

  /** Turns the first free entry into the newest used one. */
  function TakeFree(b: State, id: nat): State
    requires b.free != [] && b.free[0] < |b.entries|
  {
    var i := b.free[0];
    b.(free := b.free[1..], used := b.used + [i], tree := b.tree[id := i],
       entries := b.entries[i := NewEntry(id, b.time, b.entries[i].buffer)])
  }

  lemma NewEntryOk(id: nat, time: nat, buffer: seq<Byte>, mtu: nat)
    ensures ChunksOk(NewEntry(id, time, buffer), mtu) && !Complete(NewEntry(id, time, buffer))
  {
    assert Total([]) == 0;
  }

  lemma TakeFreeWf(b: State, id: nat)
    requires Wf(b) && id !in b.tree && b.free != [] && b.free[0] < |b.entries|
    ensures Wf(TakeFree(b, id))
  {
    hide ChunksOk, Complete;
    var i, r := b.free[0], TakeFree(b, id);
    assert b.free == [i] + b.free[1..];
    assert i !in b.free[1..] && i !in b.used;
    assert PoolOk(r) by {
      hide EntriesOk;
      forall j: nat
        ensures (j in r.free || j in r.used) <==> j < |r.entries|
        ensures j in r.free ==> j !in r.used
      {
        assert j in b.free <==> j == i || j in r.free;
        assert j in r.used <==> j == i || j in b.used;
      }
      assert i in r.used;
    }
    assert EntriesOk(r) by {
      hide PoolOk;
      NewEntryOk(id, b.time, b.entries[i].buffer, b.mtu);
      forall j | j in r.used && j < |r.entries|
        ensures UsedOk(r, r.entries[j])
      {
        assert j != i ==> UsedOk(b, b.entries[j]);
      }
    }
    hide PoolOk, EntriesOk;
  }

  predicate TimedOut(a: State, e: Entry) {
    a.time - e.time > |a.entries|
  }

  /** The frame a chunk belongs to, starting afresh if there is none or it is too old. */
  function FindFrame(a: State, id: nat): (r: State)
    requires Wf(a)
    ensures Wf(r) && id in r.tree
  {
    if id !in a.tree then AllocateFrame(a, id)
    else if TimedOut(a, a.entries[a.tree[id]]) then
      FreeFrameWf(a, a.tree[id]);
      AllocateFrame(FreeFrame(a, a.tree[id]), id)
    else a
  }

  // ------------------------------------------------------------------ one chunk

  predicate Rejects(e: Entry, c: Chunk) {
    || (exists i :: 0 <= i < |e.chunks| && Overlap(e.chunks[i], Interval(c.start, |c.payload|)))
    || (if c.isLast then e.length >= 0 || e.lengthSoFar > c.End() else e.length >= 0 && c.End() > e.length)
  }

  function Overwrite(buffer: seq<Byte>, start: nat, payload: seq<Byte>): seq<Byte>
    requires start + |payload| <= |buffer|
  {
    buffer[..start] + payload + buffer[start + |payload|..]
  }

  function AddChunk(e: Entry, c: Chunk, time: nat): Entry
    requires c.End() <= |e.buffer|
  {
    e.(time := time,
       chunks := e.chunks + [Interval(c.start, |c.payload|)],
       sum := e.sum + |c.payload|,
       length := if c.isLast then c.End() else e.length,
       lengthSoFar := if !c.isLast && e.length < 0 && e.lengthSoFar < c.End() then c.End() else e.lengthSoFar,
       buffer := Overwrite(e.buffer, c.start, c.payload))
  }

  lemma AddChunkOk(e: Entry, c: Chunk, time: nat)
    requires ChunksOk(e, |e.buffer|) && c.End() <= |e.buffer| && !Rejects(e, c)
    ensures ChunksOk(AddChunk(e, c, time), |e.buffer|)
    ensures var e1 := AddChunk(e, c, time); e1.id == e.id && |e1.buffer| == |e.buffer|
  {
    var k := Interval(c.start, |c.payload|);
    var cs := e.chunks + [k];
    TotalSnoc(e.chunks, k);
    forall i, j | 0 <= i < j < |cs|
      ensures !Overlap(cs[i], cs[j])
    {
      if j == |e.chunks| { assert !Overlap(e.chunks[i], k); }
    }
  }

  datatype Outcome = Outcome(st: State, output: Option<seq<Byte>>)

  /** Fewer bytes than promised can never be too many: a frame that is not incomplete is exactly full. */
  lemma SumWithinLength(e: Entry, mtu: nat)
    requires ChunksOk(e, mtu) && e.length >= 0
    ensures e.sum <= e.length
  {
    DisjointCover(e.chunks, e.length);
  }

  function StoreChunk(a: State, c: Chunk): (r: Outcome)
    requires Wf(a) && c.frameId in a.tree && c.End() <= a.mtu
    ensures Wf(r.st)
  {
    var i := a.tree[c.frameId];
    var e := a.entries[i];
    FreeFrameWf(a, i);
    if Rejects(e, c) then Outcome(FreeFrame(a, i), None)
    else
      var e1 := AddChunk(e, c, a.time);
      var a1 := a.(entries := a.entries[i := e1]);
      AddChunkOk(e, c, a.time);
      StoredWf(a, i, e1);
      if Complete(e1) then
        SumWithinLength(e1, a.mtu);
        Outcome(FreeFrame(a1, i), Some(e1.buffer[..e1.length]))
      else if |e1.chunks| == a.numChunks then Outcome(FreeFrame(a1, i), None)
      else Outcome(a1, None)
  }

  lemma SameUsedOk(a: State, b: State)
    requires b.time == a.time && b.mtu == a.mtu && b.numChunks == a.numChunks
    ensures forall e :: UsedOk(a, e) <==> UsedOk(b, e)
  {
  }

  lemma StoredPool(a: State, i: nat, e1: Entry)
    requires PoolOk(a) && i in a.used && e1.id == a.entries[i].id
    ensures PoolOk(a.(entries := a.entries[i := e1]))
  {
  }

  lemma StoredEntries(a: State, b: State, i: nat, e1: Entry)
    requires EntriesOk(a) && i < |a.entries| && |e1.buffer| == a.mtu
    requires b.time == a.time && b.mtu == a.mtu && b.numChunks == a.numChunks && b.entries == a.entries[i := e1]
    requires forall j :: j in b.used ==> j in a.used
    requires i !in b.used || UsedOk(a, e1)
    ensures EntriesOk(b)
  {
    hide UsedOk;
    SameUsedOk(a, b);
  }

  lemma StoredWf(a: State, i: nat, e1: Entry)
    requires Wf(a) && i in a.used && e1.id == a.entries[i].id && |e1.buffer| == a.mtu
    ensures var a1 := a.(entries := a.entries[i := e1]);
            && Wf(FreeFrame(a1, i))
            && (UsedOk(a, e1) ==> Wf(a1))
  {
    assert i < |a.entries| && Distinct(a.used);
    hide PoolOk, EntriesOk, UsedOk;
    var a1 := a.(entries := a.entries[i := e1]);
    StoredPool(a, i, e1);
    FreeFrameWf(a1, i);
    StoredEntries(a, FreeFrame(a1, i), i, e1);
    if UsedOk(a, e1) {
      StoredEntries(a, a1, i, e1);
    }
  }

  function ProcessChunk(a: State, c: Chunk): (r: Outcome)
    requires Wf(a)
    ensures Wf(r.st)
  {
    if c.start > a.mtu || |c.payload| > a.mtu - c.start then Outcome(a, None)
    else StoreChunk(FindFrame(a, c.frameId), c)
  }

  // ------------------------------------------------------------------ the clock

  /** The first loop of `reduce_times`, over the list as it was at the start. */
  function PurgeTimedOut(a: State, todo: seq<nat>): (r: State)
    requires PoolOk(a) && Distinct(todo) && forall i :: i in todo ==> i in a.used
    ensures PoolOk(r) && (EntriesOk(a) ==> EntriesOk(r))
    ensures r == a.(used := r.used, tree := r.tree, free := r.free)
    ensures forall i :: i in r.used <==> i in a.used && !(i in todo && TimedOut(a, a.entries[i]))
    decreases |todo|
  {
    if todo == [] then a
    else
      FreeFrameWf(a, todo[0]);
      PurgeTimedOut(if TimedOut(a, a.entries[todo[0]]) then FreeFrame(a, todo[0]) else a, todo[1..])
  }

  function MinTime(entries: seq<Entry>, used: seq<nat>): (m: nat)
    requires used != [] && forall i :: i in used ==> i < |entries|
    ensures forall i :: i in used ==> m <= entries[i].time
    ensures exists k :: 0 <= k < |used| && used[k] < |entries| && entries[used[k]].time == m
  {
    assert used[0] in used;
    var t := entries[used[0]].time;
    if |used| == 1 then t
    else
      assert forall i :: i in used[1..] ==> i in used;
      var m := MinTime(entries, used[1..]);
      if t <= m then t else m
  }

  function SubtractTimes(entries: seq<Entry>, used: seq<nat>, amount: nat): (r: seq<Entry>)
    requires forall i :: i in used ==> i < |entries| && amount <= entries[i].time
    ensures |r| == |entries|
    ensures forall i :: 0 <= i < |r| ==>
              r[i] == if i in used then entries[i].(time := entries[i].time - amount) else entries[i]
  {
    seq(|entries|, i requires 0 <= i < |entries| =>
      if i in used then entries[i].(time := entries[i].time - amount) else entries[i])
  }

  function ReduceTimes(a: State): (r: State)
    requires Wf(a)
    ensures Wf(r)
  {
    hide Wf, PoolOk, EntriesOk, UsedOk, PurgeTimedOut, MinTime, SubtractTimes, TimedOut;
    PurgedWf(a);
    var b := PurgeTimedOut(a, a.used);
    if b.used == [] then
      IdleWf(b);
      b.(time := 0)
    else
      MinTimeBound(b);
      var m := MinTime(b.entries, b.used);
      var r := b.(time := b.time - m, entries := SubtractTimes(b.entries, b.used, m));
      ReducedWf(b, m);
      r
  }

  lemma PurgedWf(a: State)
    requires Wf(a)
    ensures PoolOk(a) && Distinct(a.used) && Wf(PurgeTimedOut(a, a.used))
  {
    hide EntriesOk, PurgeTimedOut, TimedOut;
  }

  lemma IdleWf(b: State)
    requires Wf(b) && b.used == []
    ensures Wf(b.(time := 0))
  {
  }

  lemma MinTimeBound(b: State)
    requires Wf(b) && b.used != []
    ensures forall i :: i in b.used ==> i < |b.entries|
    ensures MinTime(b.entries, b.used) <= b.time
  {
    assert forall i :: i in b.used ==> i < |b.entries|;
    hide MinTime;
    assert b.used[0] in b.used;
    assert UsedOk(b, b.entries[b.used[0]]);
  }

  lemma StillUsedOk(a: State, e: Entry, r: State, e1: Entry)
    requires UsedOk(a, e) && e1 == e.(time := e1.time) && r.time - e1.time == a.time - e.time
    requires r.mtu == a.mtu && r.numChunks == a.numChunks
    ensures UsedOk(r, e1)
  {
  }

  lemma ReducedWf(b: State, m: nat)
    requires Wf(b) && (forall i :: i in b.used ==> m <= b.entries[i].time) && m <= b.time
    ensures Wf(b.(time := b.time - m, entries := SubtractTimes(b.entries, b.used, m)))
  {
    hide UsedOk, SubtractTimes;
    var r := b.(time := b.time - m, entries := SubtractTimes(b.entries, b.used, m));
    forall i | i in r.used && i < |r.entries|
      ensures UsedOk(r, r.entries[i])
    {
      StillUsedOk(b, b.entries[i], r, r.entries[i]);
    }
    assert PoolOk(r);
  }

  /** Entry `i` holds the same frame in `r` as in `a`, `aged` packets older. */
  predicate SameFrame(a: State, r: State, i: nat, aged: nat) {
    && i < |a.entries| && i < |r.entries|
    && r.time - r.entries[i].time == a.time - a.entries[i].time + aged
    && r.entries[i] == a.entries[i].(time := r.entries[i].time)
  }

  /** Renormalising drops exactly the timed-out frames and keeps the age and content of every other one. */
  lemma ReduceTimesKeepsAges(a: State)
    requires Wf(a)
    ensures var r := ReduceTimes(a);
            && (forall i :: i in r.used <==> i in a.used && !TimedOut(a, a.entries[i]))
            && (forall i :: i in r.used ==> SameFrame(a, r, i, 0))
            && (a.time == MAX_TIME ==> r.time < MAX_TIME)
            && (r.used == [] ==> r.time == 0)
            && r.mtu == a.mtu && r.numChunks == a.numChunks
  {
    hide UsedOk, PurgeTimedOut, SubtractTimes;
    var b := PurgeTimedOut(a, a.used);
    if b.used != [] && a.time == MAX_TIME {
      var m := MinTime(b.entries, b.used);
      var k :| 0 <= k < |b.used| && b.used[k] < |b.entries| && b.entries[b.used[k]].time == m;
      assert b.used[k] in b.used;
      assert !TimedOut(a, a.entries[b.used[k]]);
    }
  }

  /** The end of a packet: the clock moves on, renormalised if it stands at its maximum. */
  function Tick(a: State): State
    requires Wf(a)
  {
    if a.time == MAX_TIME then
      var b := ReduceTimes(a);
      if b.used != [] then b.(time := b.time + 1) else b
    else a.(time := a.time + 1)
  }

  lemma TickWf(a: State)
    requires Wf(a)
    ensures Wf(Tick(a))
  {
    hide ReduceTimes, PoolOk, EntriesOk;
    if a.time == MAX_TIME {
      ReduceTimesKeepsAges(a);
      var b := ReduceTimes(a);
      if b.used != [] {
        LaterWf(b);
      }
    } else {
      LaterWf(a);
    }
  }

  lemma LaterWf(a: State)
    requires Wf(a) && a.time < MAX_TIME
    ensures Wf(a.(time := a.time + 1))
  {
    var r := a.(time := a.time + 1);
    assert PoolOk(r);
    assert forall e :: UsedOk(a, e) ==> UsedOk(r, e);
  }

  /** After the clock moved, a frame that survives is one packet older. */
  lemma TickAges(a: State)
    requires Wf(a)
    ensures var r := Tick(a);
            && (forall i :: i in r.used ==> i in a.used && SameFrame(a, r, i, 1))
            && (forall i :: i in a.used && i !in r.used ==> TimedOut(a, a.entries[i]))
            && r.mtu == a.mtu && r.numChunks == a.numChunks
  {
    hide UsedOk, ReduceTimes;
    if a.time == MAX_TIME {
      ReduceTimesKeepsAges(a);
    }
  }

  // ------------------------------------------------------------------ packets

  datatype Batch = Batch(st: State, outputs: seq<seq<Byte>>)

  function ProcessChunks(a: State, cs: seq<Chunk>): (r: Batch)
    requires Wf(a)
    ensures Wf(r.st)
    decreases |cs|
  {
    if cs == [] then Batch(a, [])
    else
      var o := ProcessChunk(a, cs[0]);
      var rest := ProcessChunks(o.st, cs[1..]);
      Batch(rest.st, (if o.output.Some? then [o.output.value] else []) + rest.outputs)
  }

  function ProcessPacket(a: State, data: seq<Byte>): (r: Batch)
    requires Wf(a)
    ensures Wf(r.st)
  {
    var b := ProcessChunks(a, ParseChunks(data));
    TickWf(b.st);
    Batch(Tick(b.st), b.outputs)
  }

  function Receive(a: State, packets: seq<seq<Byte>>): (r: Batch)
    requires Wf(a)
    ensures Wf(r.st)
  {
    if packets == [] then Batch(a, [])
    else
      var b := Receive(a, packets[..|packets| - 1]);
      var p := ProcessPacket(b.st, packets[|packets| - 1]);
      Batch(p.st, b.outputs + p.outputs)
  }
}
