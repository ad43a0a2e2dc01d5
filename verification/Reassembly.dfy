/** What the assembler makes of a disassembler's packets: nothing false ever, and everything when none is lost. */
module Reassembly {
  import opened Bytes
  import opened Lists
  import opened FragmentWire
  import opened IntervalCover
  import opened InOrderLog
  import D = Disassembler
  import opened DisassemblerRuns
  import opened CancelRuns
  import opened Assembler

  // ------------------------------------------------------------------ safety

  /** The frames put in, the ids that strays share with them, and the grid the strays keep off. */
  datatype Sent = Sent(frames: seq<seq<Byte>>, strays: set<nat>, capacity: nat) {
    ghost predicate Says(c: Chunk) {
      capacity > 0 && Sound(c, frames, strays, capacity)
    }

    ghost predicate SaysAll(cs: seq<Chunk>) {
      capacity > 0 && AllSound(cs, frames, strays, capacity)
    }
  }

  /** Chunk `k` of entry `e` came from the frame the id names. */
  ghost predicate TruePart(e: Entry, k: Interval, sent: Sent)
    requires sent.capacity > 0
  {
    && e.id < |sent.frames| && k.End() <= |sent.frames[e.id]|
    && (e.id in sent.strays ==> k.start % sent.capacity == 0)
    && (forall x :: k.Has(x) && 0 <= x < |e.buffer| ==> e.buffer[x] == sent.frames[e.id][x])
  }

  /** Chunk `k` of entry `e` came from a withdrawn frame. */
  ghost predicate StrayPart(e: Entry, k: Interval, sent: Sent)
    requires sent.capacity > 0
  {
    e.id in sent.strays && k.len > 0 && k.End() % sent.capacity != 0
  }

  ghost predicate PartsOk(e: Entry, sent: Sent)
    requires sent.capacity > 0
  {
    forall i :: 0 <= i < |e.chunks| ==> TruePart(e, e.chunks[i], sent) || StrayPart(e, e.chunks[i], sent)
  }

  /** The length comes from a true part that ends there. */
  ghost predicate LengthOk(e: Entry, sent: Sent)
    requires sent.capacity > 0
  {
    e.length >= 0 ==>
      && e.id < |sent.frames| && e.length == |sent.frames[e.id]|
      && exists i :: 0 <= i < |e.chunks| && TruePart(e, e.chunks[i], sent) && e.chunks[i].End() == e.length
  }

  ghost predicate TrueEntry(e: Entry, sent: Sent) {
    sent.capacity > 0 && PartsOk(e, sent) && LengthOk(e, sent)
  }

  ghost predicate TrueState(a: State, sent: Sent) {
    forall i :: i in a.used && i < |a.entries| ==> TrueEntry(a.entries[i], sent)
  }

  /** Writing elsewhere in the buffer leaves a part as it is. */
  lemma PartStays(e: Entry, c: Chunk, time: nat, k: Interval, sent: Sent)
    requires sent.capacity > 0 && c.End() <= |e.buffer| && !Overlap(k, Interval(c.start, |c.payload|))
    ensures TruePart(e, k, sent) ==> TruePart(AddChunk(e, c, time), k, sent)
    ensures StrayPart(e, k, sent) ==> StrayPart(AddChunk(e, c, time), k, sent)
  {
  }

  lemma NewPart(e: Entry, c: Chunk, time: nat, sent: Sent)
    requires sent.Says(c) && e.id == c.frameId && c.End() <= |e.buffer|
    ensures var e1, k := AddChunk(e, c, time), Interval(c.start, |c.payload|);
            && (TruePart(e1, k, sent) || StrayPart(e1, k, sent))
            && (c.isLast ==> TruePart(e1, k, sent) && c.End() == |sent.frames[e.id]|)
  {
  }

  lemma AddChunkTrue(e: Entry, c: Chunk, time: nat, sent: Sent)
    requires TrueEntry(e, sent) && sent.Says(c) && e.id == c.frameId && c.End() <= |e.buffer| && !Rejects(e, c)
    ensures TrueEntry(AddChunk(e, c, time), sent)
    ensures AddChunk(e, c, time).id == e.id && |AddChunk(e, c, time).buffer| == |e.buffer|
  {
    hide TruePart, StrayPart;
    var e1, k := AddChunk(e, c, time), Interval(c.start, |c.payload|);
    NewPart(e, c, time, sent);
    forall i | 0 <= i < |e.chunks|
      ensures TruePart(e, e.chunks[i], sent) ==> TruePart(e1, e.chunks[i], sent)
      ensures StrayPart(e, e.chunks[i], sent) ==> StrayPart(e1, e.chunks[i], sent)
    {
      PartStays(e, c, time, e.chunks[i], sent);
    }
    assert e1.chunks[|e.chunks|] == k;
    if !c.isLast && e.length >= 0 {
      var i :| 0 <= i < |e.chunks| && TruePart(e, e.chunks[i], sent) && e.chunks[i].End() == e.length;
      assert e1.chunks[i] == e.chunks[i];
    }
  }

  /** In a frame that is complete, a stray would need another behind it, and so on past the end. */
  lemma {:induction false} NoStray(e: Entry, mtu: nat, sent: Sent, i: nat)
    requires TrueEntry(e, sent) && ChunksOk(e, mtu) && Complete(e) && i < |e.chunks|
    ensures TruePart(e, e.chunks[i], sent)
    decreases e.length - e.chunks[i].End()
  {
    hide Total, TruePart;
    var k := e.chunks[i];
    DisjointCover(e.chunks, e.length);
    assert TruePart(e, k, sent) || StrayPart(e, k, sent);
    if k.End() == e.length && k.len > 0 {
      var j :| 0 <= j < |e.chunks| && TruePart(e, e.chunks[j], sent) && e.chunks[j].End() == e.length;
      if StrayPart(e, k, sent) {
        OnGridStart(e, e.chunks[j], sent);
        SameEnd(e.chunks, i, j);
      }
    } else if StrayPart(e, k, sent) {
      assert Hit(e.chunks, k.End());
      var j :| 0 <= j < |e.chunks| && e.chunks[j].Has(k.End());
      Abut(e.chunks, i, j);
      NoStray(e, mtu, sent, j);
      OnGridStart(e, e.chunks[j], sent);
    }
  }

  lemma OnGridStart(e: Entry, k: Interval, sent: Sent)
    requires sent.capacity > 0 && TruePart(e, k, sent)
    ensures e.id in sent.strays ==> k.start % sent.capacity == 0
  {
  }

  lemma SameEnd(cs: seq<Interval>, i: nat, j: nat)
    requires Disjoint(cs) && i < |cs| && j < |cs| && cs[i].len > 0 && cs[j].len > 0 && cs[i].End() == cs[j].End()
    ensures i == j
  {
    assert Overlap(cs[i], cs[j]) && Overlap(cs[j], cs[i]);
  }

  /** Of two disjoint intervals, the one that holds the other's end begins there. */
  lemma Abut(cs: seq<Interval>, i: nat, j: nat)
    requires Disjoint(cs) && i < |cs| && j < |cs| && cs[i].len > 0 && cs[j].Has(cs[i].End())
    ensures cs[j].start == cs[i].End() && cs[j].End() > cs[i].End()
  {
    assert i != j;
    assert !Overlap(cs[if i < j then i else j], cs[if i < j then j else i]);
  }

  lemma CompleteIsFrame(e: Entry, mtu: nat, sent: Sent)
    requires TrueEntry(e, sent) && ChunksOk(e, mtu) && Complete(e) && |e.buffer| == mtu
    ensures e.id < |sent.frames| && e.buffer[..e.length] == sent.frames[e.id]
  {
    hide StrayPart, Total;
    DisjointCover(e.chunks, e.length);
    forall x | 0 <= x < e.length
      ensures e.buffer[x] == sent.frames[e.id][x]
    {
      assert Hit(e.chunks, x);
      var i :| 0 <= i < |e.chunks| && e.chunks[i].Has(x);
      NoStray(e, mtu, sent, i);
      assert TruePart(e, e.chunks[i], sent);
    }
  }

  lemma FindFrameTrue(a: State, id: nat, sent: Sent)
    requires Wf(a) && TrueState(a, sent) && sent.capacity > 0
    ensures TrueState(FindFrame(a, id), sent)
  {
    hide ChunksOk, TrueEntry;
    assert forall time, buffer :: TrueEntry(NewEntry(id, time, buffer), sent) by { NewEntryTrue(id, sent); }
  }

  lemma NewEntryTrue(id: nat, sent: Sent)
    requires sent.capacity > 0
    ensures forall time, buffer :: TrueEntry(NewEntry(id, time, buffer), sent)
  {
  }

  lemma ProcessChunkTrue(a: State, c: Chunk, sent: Sent)
    requires Wf(a) && TrueState(a, sent) && sent.Says(c)
    ensures var o := ProcessChunk(a, c);
            TrueState(o.st, sent) && (o.output.Some? ==> o.output.value in sent.frames)
  {
    if c.End() <= a.mtu {
      FindFrameTrue(a, c.frameId, sent);
      StoreChunkTrue(FindFrame(a, c.frameId), c, sent);
    }
  }

  lemma StoreChunkTrue(a: State, c: Chunk, sent: Sent)
    requires Wf(a) && TrueState(a, sent) && sent.Says(c) && c.frameId in a.tree && c.End() <= a.mtu
    ensures var o := StoreChunk(a, c);
            && TrueState(o.st, sent)
            && (o.output.Some? ==> o.output.value in sent.frames)
  {
    hide TrueEntry, ChunksOk, Rejects, AddChunk, Complete;
    var i := a.tree[c.frameId];
    var e := a.entries[i];
    assert TrueEntry(e, sent) && UsedOk(a, e);
    assert e.id == c.frameId;
    if !Rejects(e, c) {
      AddChunkTrue(e, c, a.time, sent);
      AddChunkOk(e, c, a.time);
      var e1 := AddChunk(e, c, a.time);
      if Complete(e1) {
        CompleteIsFrame(e1, a.mtu, sent);
      }
    }
  }

  ghost predicate AllIn(outputs: seq<seq<Byte>>, frames: seq<seq<Byte>>) {
    forall k :: 0 <= k < |outputs| ==> outputs[k] in frames
  }

  lemma {:induction false} ProcessChunksTrue(a: State, cs: seq<Chunk>, sent: Sent)
    requires Wf(a) && TrueState(a, sent) && sent.SaysAll(cs)
    ensures var b := ProcessChunks(a, cs);
            TrueState(b.st, sent) && AllIn(b.outputs, sent.frames)
    decreases |cs|
  {
    hide Sound, ProcessChunk, TrueState, Wf;
    if cs != [] {
      ProcessChunkTrue(a, cs[0], sent);
      ProcessChunksTrue(ProcessChunk(a, cs[0]).st, cs[1..], sent);
    }
  }

  lemma TickTrue(a: State, sent: Sent)
    requires Wf(a) && TrueState(a, sent)
    ensures TrueState(Tick(a), sent)
  {
    hide UsedOk, Tick, TruePart;
    TickAges(a);
    var r := Tick(a);
    forall i | i in r.used && i < |r.entries|
      ensures TrueEntry(r.entries[i], sent)
    {
      assert SameFrame(a, r, i, 1);
      SameEntryTrue(a.entries[i], r.entries[i], sent);
    }
  }

  lemma SameEntryTrue(e: Entry, e1: Entry, sent: Sent)
    requires TrueEntry(e, sent) && e1 == e.(time := e1.time)
    ensures TrueEntry(e1, sent)
  {
    forall k | TruePart(e, k, sent) ensures TruePart(e1, k, sent) { }
    forall i | 0 <= i < |e1.chunks| ensures TruePart(e1, e1.chunks[i], sent) || StrayPart(e1, e1.chunks[i], sent) {
      assert TruePart(e, e.chunks[i], sent) || StrayPart(e, e.chunks[i], sent);
    }
  }

  lemma {:induction false} ReceiveTrue(a: State, packets: seq<seq<Byte>>, sent: Sent)
    requires Wf(a) && TrueState(a, sent) && sent.capacity > 0
    requires forall k :: 0 <= k < |packets| ==> sent.SaysAll(ParseChunks(packets[k]))
    ensures var b := Receive(a, packets);
            TrueState(b.st, sent) && AllIn(b.outputs, sent.frames)
  {
    hide TrueState, AllSound, Wf, ParseChunks, Tick;
    if packets == [] {
      assert Receive(a, packets) == Batch(a, []);
    } else {
      var n := |packets| - 1;
      ReceiveTrue(a, packets[..n], sent);
      var b := Receive(a, packets[..n]);
      PacketTrue(b.st, packets[n], sent);
    }
  }

  lemma PacketTrue(a: State, data: seq<Byte>, sent: Sent)
    requires Wf(a) && TrueState(a, sent) && sent.SaysAll(ParseChunks(data))
    ensures var b := ProcessPacket(a, data);
            TrueState(b.st, sent) && AllIn(b.outputs, sent.frames)
  {
    hide TrueState, AllSound, Wf, ParseChunks, Tick;
    ProcessChunksTrue(a, ParseChunks(data), sent);
    TickTrue(ProcessChunks(a, ParseChunks(data)).st, sent);
  }

  lemma {:induction false} LogHoldsPacket(packets: seq<seq<Byte>>, k: nat, sent: Sent)
    requires k < |packets| && sent.SaysAll(PacketLog(packets))
    ensures sent.SaysAll(ParseChunks(packets[k]))
  {
    hide ParseChunks, Sound;
    var n := |packets| - 1;
    var before, last := PacketLog(packets[..n]), ParseChunks(packets[n]);
    assert PacketLog(packets) == before + last;
    assert forall i :: 0 <= i < |before| ==> before[i] == PacketLog(packets)[i];
    if k < n {
      LogHoldsPacket(packets[..n], k, sent);
    } else {
      assert forall i :: 0 <= i < |last| ==> last[i] == PacketLog(packets)[|before| + i];
    }
  }

  /** Whatever selection of sound packets arrives, only frames put in come out. */
  lemma SoundPacketsSafe(r: Run, a: State, delivered: seq<seq<Byte>>, sent: Sent)
    requires Initial(a) && sent.SaysAll(Log(r))
    requires forall k :: 0 <= k < |delivered| ==> delivered[k] in r.packets
    ensures Wf(a) && AllIn(Receive(a, delivered).outputs, sent.frames)
  {
    hide ParseChunks, PacketLog, Sound;
    InitialWf(a);
    assert forall i :: 0 <= i < |PacketLog(r.packets)| ==> PacketLog(r.packets)[i] == Log(r)[i];
    forall k | 0 <= k < |delivered|
      ensures sent.SaysAll(ParseChunks(delivered[k]))
    {
      assert delivered[k] in r.packets;
      var j :| 0 <= j < |r.packets| && r.packets[j] == delivered[k];
      LogHoldsPacket(r.packets, j, sent);
    }
    ReceiveTrue(a, delivered, sent);
  }

  /**
   * Reassembly safety. Take the packets of any run of at most 65536 frames in which no partly written frame is
   * withdrawn; lose, repeat and reorder them at will: whatever the assembler emits is one of the frames put in.
   */
  lemma ReassemblySafety(cfg: D.Config, es: seq<D.Event>, a: State, delivered: seq<seq<Byte>>)
    requires cfg.Valid() && NoMidFrameCancel(cfg, es)
    requires |Contributing(Execute(cfg, es))| <= UINT16_RANGE
    requires Initial(a)
    requires forall k :: 0 <= k < |delivered| ==> delivered[k] in Execute(cfg, es).packets
    ensures Wf(a) && AllIn(Receive(a, delivered).outputs, Contributing(Execute(cfg, es)))
  {
    hide ParseChunks, PacketLog, Genuine, Execute;
    var r := Execute(cfg, es);
    ChunksAreGenuine(cfg, es);
    GenuineIsSound(Log(r), Contributing(r));
    SoundPacketsSafe(r, a, delivered, Sent(Contributing(r), {}, 1));
  }

  lemma GenuineIsSound(log: seq<Chunk>, frames: seq<seq<Byte>>)
    requires AllGenuine(log, frames)
    ensures AllSound(log, frames, {}, 1)
  {
    hide Genuine;
    forall i | 0 <= i < |log| ensures Sound(log[i], frames, {}, 1) { assert Genuine(log[i], frames); }
  }

  /**
   * Safety with cancels. Without a chunk limit the same holds even if partly written frames are withdrawn, as long
   * as no withdrawn part is a whole number of packet capacities.
   */
  lemma SafetyDespiteCancels(cfg: D.Config, es: seq<D.Event>, a: State, delivered: seq<seq<Byte>>)
    requires cfg.Valid() && cfg.chunkMtu < 0 && HarmlessCancels(cfg, es)
    requires IdsUsed(Execute(cfg, es), Strays(cfg, es)) <= UINT16_RANGE
    requires Initial(a)
    requires forall k :: 0 <= k < |delivered| ==> delivered[k] in Execute(cfg, es).packets
    ensures Wf(a) && AllIn(Receive(a, delivered).outputs, Contributing(Execute(cfg, es)))
  {
    hide ParseChunks, PacketLog, Execute, RunSound, Sound;
    var r, strays := Execute(cfg, es), Strays(cfg, es);
    ChunksAreSound(cfg, es);
    RunIsSound(cfg, r, strays);
    SoundPacketsSafe(r, a, delivered, Sent(Contributing(r), strays, cfg.Capacity()));
  }

  // ------------------------------------------------------------------ lossless, in order

  /** Entry `e` holds `n` chunks that are the first bytes of a frame, and no length yet. */
  predicate HoldsData(e: Entry, id: nat, n: nat, data: seq<Byte>) {
    && e.id == id && |e.chunks| == n
    && e.length == -1 && e.sum == e.lengthSoFar == |data|
    && |data| <= |e.buffer| && e.buffer[..|data|] == data
  }

  /** The pool holds the frame under way and nothing else; it was last touched at most `age` packets ago. */
  predicate Holds(a: State, partial: seq<Chunk>, age: nat) {
    if partial == [] then a.used == []
    else
      && |a.used| == 1 && a.used[0] < |a.entries|
      && HoldsData(a.entries[a.used[0]], partial[0].frameId, |partial|, Payload(partial))
      && a.time - a.entries[a.used[0]].time <= age
  }

  lemma EmptyPool(a: State)
    requires Wf(a) && a.used == []
    ensures a.tree == map[] && a.free != [] && a.free[0] < |a.entries|
  {
    assert forall id :: id !in a.tree;
    assert 0 in a.free;
    assert a.free[0] in a.free;
  }

  lemma HoldsFind(a: State, partial: seq<Chunk>, id: nat)
    requires Wf(a) && Holds(a, partial, 1) && (partial != [] ==> id == partial[0].frameId)
    ensures var b := FindFrame(a, id);
            && b.mtu == a.mtu && b.numChunks == a.numChunks && b.time == a.time
            && |b.used| == 1 && b.tree[id] == b.used[0] < |b.entries|
            && HoldsData(b.entries[b.used[0]], id, |partial|, Payload(partial))
  {
    hide ChunksOk;
    if partial == [] {
      EmptyPool(a);
    }
  }

  /** A chunk that continues the frame is accepted, and completes it exactly if it is marked last. */
  lemma AddInOrder(e: Entry, partial: seq<Chunk>, c: Chunk, time: nat)
    requires HoldsData(e, c.frameId, |partial|, Payload(partial)) && ChunksOk(e, |e.buffer|)
    requires Follows(partial, c) && c.End() <= |e.buffer|
    ensures !Rejects(e, c)
    ensures var e1, data := AddChunk(e, c, time), Payload(partial + [c]);
            && e1.id == c.frameId && e1.time == time && |e1.buffer| == |e.buffer|
            && |data| == c.End() && e1.buffer[..c.End()] == data && |e1.chunks| == |partial| + 1
            && (c.isLast ==> Complete(e1) && e1.length == c.End())
            && (!c.isLast ==> !Complete(e1) && HoldsData(e1, c.frameId, |partial| + 1, data))
  {
    PayloadSnoc(partial, c);
    assert Within(e.chunks, c.start);
  }

  /** The assembler follows the reference receiver through one chunk. */
  lemma SimulateChunk(a: State, before: InOrder, c: Chunk)
    requires Wf(a) && Holds(a, before.partial, 1)
    requires Follows(before.partial, c) && c.End() <= a.mtu
    requires |Extend(before, c).partial| < a.numChunks
    ensures var o, r := ProcessChunk(a, c), Extend(before, c);
            && Holds(o.st, r.partial, 0) && Holds(o.st, r.partial, 1)
            && o.st.mtu == a.mtu && o.st.numChunks == a.numChunks
            && r.frames == before.frames + (if o.output.Some? then [o.output.value] else [])
  {
    hide ChunksOk, HoldsData, Complete, Rejects, AddChunk, Payload, FindFrame;
    HoldsFind(a, before.partial, c.frameId);
    var b := FindFrame(a, c.frameId);
    var i := b.used[0];
    assert b.used == [i] && i in b.used;
    AddInOrder(b.entries[i], before.partial, c, b.time);
    assert Without([i], i) == [];
  }

  lemma LastOfLog(log: seq<Chunk>, c: Chunk, mtu: nat, n: nat)
    requires Sequential(log + [c], mtu) && ChunksWithin(log + [c], n)
    ensures Follows(Reassemble(log).partial, c) && c.End() <= mtu
    ensures |Extend(Reassemble(log), c).partial| < n
  {
    assert (log + [c])[..|log|] == log;
  }

  lemma {:induction false} SimulateChunks(a: State, log: seq<Chunk>, cs: seq<Chunk>, mtu: nat)
    requires Wf(a) && Holds(a, Reassemble(log).partial, 1) && mtu <= a.mtu
    requires Sequential(log + cs, mtu) && ChunksWithin(log + cs, a.numChunks)
    ensures var b := ProcessChunks(a, cs);
            && (cs != [] ==> Holds(b.st, Reassemble(log + cs).partial, 0))
            && b.st.mtu == a.mtu && b.st.numChunks == a.numChunks
            && Reassemble(log + cs).frames == Reassemble(log).frames + b.outputs
    decreases |cs|
  {
    hide Holds, Wf, Sequential, ChunksWithin, ProcessChunk, Follows, Extend, Reassemble;
    if cs == [] {
      assert log + cs == log;
    } else {
      var next := log + [cs[0]];
      assert log + cs == next + cs[1..];
      assert (log + cs)[..|next|] == next && next[..|log|] == log;
      PrefixOfLog(log + cs, |next|, mtu, a.numChunks);
      ReassembleSnoc(log, cs[0]);
      LastOfLog(log, cs[0], mtu, a.numChunks);
      SimulateChunk(a, Reassemble(log), cs[0]);
      SimulateChunks(ProcessChunk(a, cs[0]).st, next, cs[1..], mtu);
      if |cs| == 1 {
        assert log + cs == next;
      }
    }
  }

  lemma HoldsTick(a: State, partial: seq<Chunk>)
    requires Wf(a) && Holds(a, partial, 0)
    ensures Holds(Tick(a), partial, 1)
    ensures Tick(a).mtu == a.mtu && Tick(a).numChunks == a.numChunks
  {
    hide ChunksOk, HoldsData, Tick, Payload;
    TickWf(a);
    TickAges(a);
    var r := Tick(a);
    if partial == [] {
      AtMostOneMember(r.used, 0);
    } else {
      var i := a.used[0];
      assert i in a.used && i in r.used;
      AtMostOneMember(r.used, i);
      assert SameFrame(a, r, i, 1);
      SameData(a.entries[i], r.entries[i], partial[0].frameId, |partial|, Payload(partial));
    }
  }

  lemma SameData(e: Entry, e1: Entry, id: nat, n: nat, data: seq<Byte>)
    requires HoldsData(e, id, n, data) && e1 == e.(time := e1.time)
    ensures HoldsData(e1, id, n, data)
  {
  }

  /** Every packet carries at least one chunk. */
  predicate PacketsCarryChunks(packets: seq<seq<Byte>>) {
    forall k :: 0 <= k < |packets| ==> ParseChunks(packets[k]) != []
  }

  lemma {:induction false} SimulatePackets(a: State, packets: seq<seq<Byte>>, mtu: nat)
    requires Initial(a) && Wf(a) && mtu <= a.mtu && PacketsCarryChunks(packets)
    requires Sequential(PacketLog(packets), mtu) && ChunksWithin(PacketLog(packets), a.numChunks)
    ensures var b := Receive(a, packets);
            && Holds(b.st, Reassemble(PacketLog(packets)).partial, 1)
            && b.st.mtu == a.mtu && b.st.numChunks == a.numChunks
            && b.outputs == Reassemble(PacketLog(packets)).frames
  {
    hide ParseChunks, Holds, Sequential, ChunksWithin, Wf;
    if packets == [] {
      assert Holds(a, [], 1) by { EmptyHolds(a); }
    } else {
      var n := |packets| - 1;
      var log, cs := PacketLog(packets[..n]), ParseChunks(packets[n]);
      assert PacketLog(packets) == log + cs;
      assert (log + cs)[..|log|] == log;
      PrefixOfLog(log + cs, |log|, mtu, a.numChunks);
      SimulatePackets(a, packets[..n], mtu);
      var b := Receive(a, packets[..n]);
      SimulateChunks(b.st, log, cs, mtu);
      HoldsTick(ProcessChunks(b.st, cs).st, Reassemble(log + cs).partial);
    }
  }

  lemma EmptyHolds(a: State)
    requires Initial(a)
    ensures Holds(a, [], 1)
  {
  }

  lemma WriteCarries(cfg: D.Config, st: D.State)
    requires D.ReadyToWrite(cfg, st) && D.WellFormed(st.out.value)
    ensures D.WriteChunks(cfg, st).packet.Some? ==> ParseChunks(D.WriteChunks(cfg, st).packet.value) != []
  {
    hide ParseChunks, EncodeChunks, D.CutChunks;
    PacketGrows(st.out.value, D.CutChunks(cfg, st.frameId, st.input.value, st.inUsed, |st.out.value|));
  }

  lemma {:induction false} EveryPacketCarries(cfg: D.Config, es: seq<D.Event>)
    requires cfg.Valid()
    ensures PacketsCarryChunks(Execute(cfg, es).packets)
  {
    hide D.CutChunks, ParseChunks, D.WriteChunks;
    if es != [] {
      EveryPacketCarries(cfg, es[..|es| - 1]);
      var r, e := Execute(cfg, es[..|es| - 1]), es[|es| - 1];
      if D.Enabled(cfg, r.st, e) {
        match e
        case Send(frame) =>
          if r.st.out.Some? { WriteCarries(cfg, r.st.(input := Some(frame), inUsed := 0)); }
        case Recv =>
          EmptyPacket();
          if r.st.input.Some? { WriteCarries(cfg, r.st.(out := Some([]))); }
        case Timeout =>
          assert EncodeChunks([]) == [];
        case Cancel =>
      }
    }
  }

  /**
   * Lossless round trip. Whatever the interleaving of frames, output buffers and timeouts, an assembler that gets
   * every packet once and in order, and whose table has room for the chunks each frame was cut into, emits the frames
   * in order, through any number of wraps of the 16-bit id. Only frames in a packet not yet handed out are missing.
   */
  lemma LosslessRoundTrip(cfg: D.Config, es: seq<D.Event>, a: State)
    requires cfg.Valid() && NoMidFrameCancel(cfg, es)
    requires Initial(a) && cfg.inputMtu <= a.mtu
    requires ChunksWithin(Log(Execute(cfg, es)), a.numChunks)
    ensures Wf(a)
    ensures var r := Execute(cfg, es);
            && Receive(a, r.packets).outputs <= r.frames
            && (r.st.out.None? || r.st.out.value == [] ==> Receive(a, r.packets).outputs == r.frames)
  {
    hide Sequential, ChunksWithin, ParseChunks;
    var r := Execute(cfg, es);
    InitialWf(a);
    LogIsInputInOrder(cfg, es);
    EveryPacketCarries(cfg, es);
    var log, sent := Log(r), PacketLog(r.packets);
    assert log[..|sent|] == sent;
    PrefixOfLog(log, |sent|, cfg.inputMtu, a.numChunks);
    SimulatePackets(a, r.packets, cfg.inputMtu);
    EmptyPacket();
    if r.st.out.None? || r.st.out.value == [] {
      assert log == sent;
    }
  }

  /** The same for two ends set up as DatagramPeerIO sets them up: no chunk limit, a table of the computed size. */
  lemma PeerRoundTrip(cfg: D.Config, es: seq<D.Event>, a: State)
    requires cfg.Valid() && cfg.chunkMtu < 0 && NoMidFrameCancel(cfg, es)
    requires Initial(a) && a.mtu == cfg.inputMtu && a.numChunks == MaxChunksForFrame(cfg.outputMtu, cfg.inputMtu)
    ensures Wf(a)
    ensures var r := Execute(cfg, es);
            && Receive(a, r.packets).outputs <= r.frames
            && (r.st.out.None? || r.st.out.value == [] ==> Receive(a, r.packets).outputs == r.frames)
  {
    ChunkCountBound(cfg, es);
    LosslessRoundTrip(cfg, es, a);
  }
}
