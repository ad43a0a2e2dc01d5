/** The assembler as the source has it: a pool updated in place, and input that pauses whenever a frame goes out. */
module AssemblerObject {
  import opened Bytes
  import opened Lists
  import opened FragmentWire
  import opened IntervalCover
  import A = Assembler

  class FragmentProtoAssembler {
    const mtu: nat
    const numChunks: nat
    var time: nat
    var entries: seq<A.Entry>
    var free: seq<nat>
    var used: seq<nat>
    var tree: map<nat, nat>
    var input: Option<seq<Byte>>
    var inPos: nat

    ghost function Model(): A.State
      reads this
    {
      A.State(mtu, numChunks, time, entries, free, used, tree)
    }

    ghost predicate Valid()
      reads this
    {
      A.Wf(Model()) && (input.Some? ==> inPos <= |input.value|)
    }

    /** What is still to come of the packet in hand: the state after it and the frames it will release. */
    ghost function Remaining(): A.Batch
      requires Valid() && input.Some?
      reads this
    {
      A.ProcessPacket(Model(), input.value[inPos..])
    }

    constructor (mtu: nat, numFrames: nat, numChunks: nat)
      requires 0 < numFrames < A.MAX_TIME && numChunks > 0
      ensures A.Initial(Model()) && Valid() && input == None
      ensures this.mtu == mtu && this.numChunks == numChunks && |entries| == numFrames
    {
      this.mtu, this.numChunks, time := mtu, numChunks, 0;
      entries := seq(numFrames, i => A.NewEntry(0, 0, seq(mtu, j => 0)));
      free, used, tree := seq(numFrames, i => i), [], map[];
      input, inPos := None, 0;
      new;
      A.InitialWf(Model());
    }

    /** free_frame */
    method FreeFrame(i: nat)
      requires A.PoolOk(Model()) && i in used
      modifies `used, `tree, `free
      ensures Model() == A.FreeFrame(old(Model()), i)
      ensures A.PoolOk(Model()) && (A.EntriesOk(old(Model())) ==> A.EntriesOk(Model()))
      ensures i in free && i !in used && entries[i].id !in tree
    {
      A.FreeFrameWf(Model(), i);
      used := Without(used, i);
      tree := tree - {entries[i].id};
      free := free + [i];
    }

    /** allocate_new_frame */
    method AllocateNewFrame(id: nat) returns (i: nat)
      requires A.Wf(Model()) && id !in tree
      modifies `used, `tree, `free, `entries
      ensures Model() == A.AllocateFrame(old(Model()), id) && i == tree[id]
    {
      hide A.UsedOk, Without, Distinct;
      if free == [] {
        assert 0 in used;
        assert used[0] in used;
        FreeFrame(used[0]);
      }
      assert Model() == A.MakeRoom(old(Model()));
      i := free[0];
      assert i in free;
      hide A.PoolOk, A.EntriesOk, A.MakeRoom;
      free := free[1..];
      entries := entries[i := A.NewEntry(id, time, entries[i].buffer)];
      used := used + [i];
      tree := tree[id := i];
    }

    /** reduce_times, first loop: drops timed-out frames and finds the least time of the others */
    method PurgeTimedOut() returns (minTime: Option<nat>)
      requires A.PoolOk(Model())
      modifies `used, `tree, `free
      ensures Model() == A.PurgeTimedOut(old(Model()), old(used))
      ensures MinOf(minTime, entries, used, [])
    {
      ghost var a := Model();
      assert Distinct(used);
      hide A.PoolOk, A.PurgeTimedOut, MinOf, Without;
      NoneYet(entries, used);
      var todo := used;
      minTime := None;
      while todo != []
        invariant A.PoolOk(Model()) && Distinct(todo) && forall i :: i in todo ==> i in used
        invariant A.PurgeTimedOut(Model(), todo) == A.PurgeTimedOut(a, a.used)
        invariant MinOf(minTime, entries, used, todo)
        decreases |todo|
      {
        PurgeStep(Model(), todo);
        var i := todo[0];
        MinOfStep(minTime, entries, used, todo);
        if time - entries[i].time > |entries| {
          FreeFrame(i);
        } else if minTime.None? || entries[i].time < minTime.value {
          minTime := Some(entries[i].time);
        }
        todo := todo[1..];
      }
    }

    /** reduce_times, second loop */
    method SubtractFromAll(amount: nat)
      requires Distinct(used) && forall i :: i in used ==> i < |entries| && amount <= entries[i].time
      modifies `entries
      ensures entries == A.SubtractTimes(old(entries), used, amount)
    {
      hide Reduced;
      ghost var before := entries;
      NoneReduced(before, amount);
      var k := 0;
      while k < |used|
        invariant 0 <= k <= |used| && Reduced(entries, before, used[..k], amount)
      {
        var i := used[k];
        assert i in used && i !in used[..k] && used[..k + 1] == used[..k] + [i];
        ReducedStep(entries, before, used[..k], i, amount);
        entries := entries[i := entries[i].(time := entries[i].time - amount)];
        k := k + 1;
      }
      assert used[..k] == used;
      AllReduced(entries, before, used, amount);
    }

    /** reduce_times */
    method ReduceTimes()
      requires A.Wf(Model())
      modifies `used, `tree, `free, `entries, `time
      ensures Model() == A.ReduceTimes(old(Model()))
    {
      hide A.PurgeTimedOut, A.SubtractTimes, A.MinTime, A.UsedOk, MinOf, Distinct;
      A.PurgedWf(Model());
      var minTime := PurgeTimedOut();
      MinOfDone(minTime, entries, used);
      if minTime.None? {
        time := 0;
      } else {
        A.MinTimeBound(Model());
        SubtractFromAll(minTime.value);
        time := time - minTime.value;
      }
    }

    /** The end of process_input: the packet clock */
    method AdvanceClock()
      requires A.Wf(Model())
      modifies `used, `tree, `free, `entries, `time
      ensures Model() == A.Tick(old(Model()))
    {
      hide A.ReduceTimes, A.PoolOk, A.EntriesOk;
      if time == A.MAX_TIME {
        ReduceTimes();
        if used != [] {
          time := time + 1;
        }
      } else {
        time := time + 1;
      }
    }

    /** process_chunk, after the bounds of the chunk were checked */
    method ProcessChunk(c: Chunk) returns (output: Option<seq<Byte>>)
      requires Valid()
      modifies `used, `tree, `free, `entries
      ensures Valid()
      ensures A.Outcome(Model(), output) == A.ProcessChunk(old(Model()), c)
    {
      hide A.FindFrame, A.StoreChunk, A.PoolOk, A.EntriesOk;
      if c.start > mtu || |c.payload| > mtu - c.start {
        return None;
      }
      var i := FindFrame(c.frameId);
      output := StoreChunk(c, i);
    }

    /** The frame a chunk belongs to; one that is timed out is begun anew. */
    method FindFrame(id: nat) returns (i: nat)
      requires A.Wf(Model())
      modifies `used, `tree, `free, `entries
      ensures Model() == A.FindFrame(old(Model()), id) && id in tree && i == tree[id]
    {
      if id !in tree {
        i := AllocateNewFrame(id);
        return;
      }
      i := tree[id];
      if time - entries[i].time > |entries| {
        FreeFrame(i);
        i := AllocateNewFrame(id);
      }
    }

    method StoreChunk(c: Chunk, i: nat) returns (output: Option<seq<Byte>>)
      requires A.Wf(Model()) && c.frameId in tree && tree[c.frameId] == i && c.End() <= mtu
      modifies `used, `tree, `free, `entries
      ensures A.Outcome(Model(), output) == A.StoreChunk(old(Model()), c)
    {
      hide A.AddChunk, A.ChunksOk, Overlap;
      var e := entries[i];
      assert A.UsedOk(Model(), e) && e.id == c.frameId;
      // the assertions of the source: room for one more chunk, and never more bytes than the frame has
      assert |e.chunks| < numChunks;
      var reject := OverlapsAny(e.chunks, Interval(c.start, |c.payload|));
      if c.isLast {
        reject := reject || e.length >= 0 || e.lengthSoFar > c.End();
      } else {
        reject := reject || (e.length >= 0 && c.End() > e.length);
      }
      if reject {
        FreeFrame(i);
        return None;
      }
      var e1 := A.AddChunk(e, c, time);
      A.AddChunkOk(e, c, time);
      A.StoredPool(Model(), i, e1);
      entries := entries[i := e1];
      if e1.length < 0 || e1.sum < e1.length {
        if |e1.chunks| == numChunks {
          FreeFrame(i);
        }
        return None;
      }
      A.SumWithinLength(e1, mtu);
      assert e1.sum == e1.length;
      FreeFrame(i);
      output := Some(e1.buffer[..e1.length]);
    }

    /** process_input: works the packet off until a frame is complete or the packet is finished */
    method ProcessInput() returns (output: Option<seq<Byte>>)
      requires Valid() && input.Some?
      modifies this
      ensures Valid()
      ensures output.None? ==> input.None? && old(Remaining()) == A.Batch(Model(), [])
      ensures output.Some? ==> input == old(input) && inPos > old(inPos)
      ensures output.Some? ==> old(Remaining()) == A.Batch(Remaining().st, [output.value] + Remaining().outputs)
    {
      hide A.ProcessPacket, A.ProcessChunk, A.Wf, A.Tick, ParseChunks, ParseChunk;
      output := None;
      ghost var all := Remaining();
      while inPos < |input.value|
        invariant Valid() && input == old(input) && old(inPos) <= inPos
        invariant Remaining() == all && output.None?
      {
        var r := ParseChunk(input.value[inPos..]);
        if r.Malformed? {
          break;
        }
        ghost var rest := input.value[inPos..];
        ghost var before := Model();
        output := ProcessChunk(r.chunk);
        inPos := inPos + HEADER_SIZE + |r.chunk.payload|;
        assert input.value[inPos..] == r.rest;
        NextOfPacket(before, rest, r.chunk, r.rest);
        if output.Some? {
          return;
        }
      }
      NothingMore(Model(), input.value[inPos..]);
      A.TickWf(Model());
      AdvanceClock();
      input := None;
    }

    /** input_handler_send */
    method InputSend(data: seq<Byte>) returns (output: Option<seq<Byte>>)
      requires Valid() && input.None?
      modifies this
      ensures Valid()
      ensures output.None? ==> input.None? && A.ProcessPacket(old(Model()), data) == A.Batch(Model(), [])
      ensures output.Some? ==> input.Some? && A.ProcessPacket(old(Model()), data)
                                            == A.Batch(Remaining().st, [output.value] + Remaining().outputs)
    {
      input, inPos := Some(data), 0;
      assert data[0..] == data;
      output := ProcessInput();
    }

    /** output_handler_done */
    method OutputDone() returns (output: Option<seq<Byte>>)
      requires Valid() && input.Some?
      modifies this
      ensures Valid()
      ensures output.None? ==> input.None? && old(Remaining()) == A.Batch(Model(), [])
      ensures output.Some? ==> input == old(input) && inPos > old(inPos)
      ensures output.Some? ==> old(Remaining()) == A.Batch(Remaining().st, [output.value] + Remaining().outputs)
    {
      output := ProcessInput();
    }

    /** A packet and the output's acknowledgements together: pausing for them changes nothing. */
    method ReceivePacket(data: seq<Byte>) returns (outputs: seq<seq<Byte>>)
      requires Valid() && input.None?
      modifies this
      ensures Valid() && input.None?
      ensures A.Batch(Model(), outputs) == A.ProcessPacket(old(Model()), data)
    {
      hide A.ProcessPacket, A.Wf;
      ghost var all := A.ProcessPacket(Model(), data);
      outputs := [];
      var output := InputSend(data);
      while output.Some?
        invariant Valid() && output.Some? == input.Some?
        invariant output.Some? ==> all == A.Batch(Remaining().st, outputs + [output.value] + Remaining().outputs)
        invariant output.None? ==> all == A.Batch(Model(), outputs)
        decreases if output.Some? then 1 + |input.value| - inPos else 0
      {
        outputs := outputs + [output.value];
        output := OutputDone();
      }
    }
  }

  /** `minTime` is the least time among the used entries that are no longer to do. */
  ghost predicate MinOf(minTime: Option<nat>, entries: seq<A.Entry>, used: seq<nat>, todo: seq<nat>) {
    && (forall i :: i in used && i !in todo && i < |entries| ==>
          minTime.Some? && minTime.value <= entries[i].time)
    && (minTime.Some? ==> exists i :: i in used && i !in todo && i < |entries| && entries[i].time == minTime.value)
  }

  lemma NoneYet(entries: seq<A.Entry>, used: seq<nat>)
    ensures MinOf(None, entries, used, used)
  {
  }

  lemma PurgeStep(a: A.State, todo: seq<nat>)
    requires A.PoolOk(a) && Distinct(todo) && todo != [] && forall i :: i in todo ==> i in a.used
    ensures todo[0] in a.used && todo[0] < |a.entries| && Distinct(a.used) && Distinct(todo[1..])
    ensures var b := if A.TimedOut(a, a.entries[todo[0]]) then A.FreeFrame(a, todo[0]) else a;
            && A.PoolOk(b) && (forall i :: i in todo[1..] ==> i in b.used)
            && A.PurgeTimedOut(a, todo) == A.PurgeTimedOut(b, todo[1..])
  {
    var t, rest := todo[0], todo[1..];
    assert todo == [t] + rest && t in todo && t !in rest;
    assert forall i :: i in rest ==> i in todo;
    A.FreeFrameWf(a, t);
  }

  /** One entry fewer to do; it may be unlinked, left alone, or become the least. */
  lemma MinOfStep(minTime: Option<nat>, entries: seq<A.Entry>, used: seq<nat>, todo: seq<nat>)
    requires MinOf(minTime, entries, used, todo) && Distinct(used) && Distinct(todo) && todo != []
    requires todo[0] in used && todo[0] < |entries|
    ensures MinOf(minTime, entries, Without(used, todo[0]), todo[1..])
    ensures var t := entries[todo[0]].time;
            MinOf(if minTime.None? || t < minTime.value then Some(t) else minTime, entries, used, todo[1..])
  {
    var t, rest := todo[0], todo[1..];
    assert todo == [t] + rest && t !in rest;
    assert forall i :: i in todo <==> i == t || i in rest;
  }

  lemma MinOfDone(minTime: Option<nat>, entries: seq<A.Entry>, used: seq<nat>)
    requires MinOf(minTime, entries, used, []) && forall i :: i in used ==> i < |entries|
    ensures minTime.None? <==> used == []
    ensures minTime.Some? ==> minTime.value == A.MinTime(entries, used)
  {
    if used != [] {
      assert used[0] in used;
      var m := A.MinTime(entries, used);
      var k :| 0 <= k < |used| && used[k] < |entries| && entries[used[k]].time == m;
      assert used[k] in used;
    }
  }

  /** chunks_overlap against every chunk already stored */
  method OverlapsAny(chunks: seq<Interval>, c: Interval) returns (found: bool)
    ensures found <==> exists i :: 0 <= i < |chunks| && Overlap(chunks[i], c)
  {
    var i := 0;
    while i < |chunks|
      invariant 0 <= i <= |chunks|
      invariant forall j :: 0 <= j < i ==> !Overlap(chunks[j], c)
    {
      if Overlap(chunks[i], c) {
        return true;
      }
      i := i + 1;
    }
    return false;
  }

  lemma NextOfPacket(a: A.State, data: seq<Byte>, c: Chunk, rest: seq<Byte>)
    requires A.Wf(a) && ParseChunk(data) == Parsed(c, rest)
    ensures var o := A.ProcessChunk(a, c);
            var later := A.ProcessPacket(o.st, rest);
            A.ProcessPacket(a, data)
            == A.Batch(later.st, (if o.output.Some? then [o.output.value] else []) + later.outputs)
  {
    assert ParseChunks(data) == [c] + ParseChunks(rest);
    assert ([c] + ParseChunks(rest))[1..] == ParseChunks(rest);
  }

  lemma NothingMore(a: A.State, data: seq<Byte>)
    requires A.Wf(a) && ParseChunk(data).Malformed?
    ensures A.ProcessPacket(a, data) == A.Batch(A.Tick(a), [])
  {
  }

  /** The times of the entries in `done`, and no others, are reduced. */
  ghost predicate Reduced(entries: seq<A.Entry>, before: seq<A.Entry>, done: seq<nat>, amount: nat) {
    && |entries| == |before|
    && forall i :: 0 <= i < |before| ==>
         entries[i].time == (if i in done then before[i].time - amount else before[i].time)
         && entries[i] == before[i].(time := entries[i].time)
  }

  lemma NoneReduced(entries: seq<A.Entry>, amount: nat)
    ensures Reduced(entries, entries, [], amount)
  {
  }

  /** One more frame's time is reduced. */
  lemma ReducedStep(entries: seq<A.Entry>, before: seq<A.Entry>, done: seq<nat>, i: nat, amount: nat)
    requires Reduced(entries, before, done, amount) && i < |before| && i !in done && amount <= before[i].time
    ensures |entries| == |before| && entries[i].time == before[i].time
    ensures Reduced(entries[i := entries[i].(time := entries[i].time - amount)], before, done + [i], amount)
  {
  }

  lemma AllReduced(entries: seq<A.Entry>, before: seq<A.Entry>, used: seq<nat>, amount: nat)
    requires Reduced(entries, before, used, amount)
    requires forall i :: i in used ==> i < |before| && amount <= before[i].time
    ensures entries == A.SubtractTimes(before, used, amount)
  {
    hide A.SubtractTimes;
  }
}
