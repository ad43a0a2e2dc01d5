/**
 * Runs in which frames are withdrawn half-way. The chunks already sent stay behind as strays, under an id the next
 * frame will use again. Without a chunk limit they do no harm as long as they end off the grid of whole packets.
 */
module CancelRuns {
  import opened Bytes
  import opened Lists
  import opened FragmentWire
  import opened Disassembler
  import opened DisassemblerRuns

  /** The cancel at hand withdraws a part that ends where some chunk of a frame begun in an empty packet may begin. */
  predicate OnGrid(cfg: Config, st: State)
    requires cfg.Valid()
  {
    st.inUsed > 0 && st.inUsed % cfg.Capacity() == 0
  }

  /** The guard: no cancel on the grid. */
  predicate HarmlessCancels(cfg: Config, es: seq<Event>)
    requires cfg.Valid()
  {
    es == [] ||
    (var before, e := es[..|es| - 1], es[|es| - 1];
     && HarmlessCancels(cfg, before)
     && (e.Cancel? && Enabled(cfg, Execute(cfg, before).st, e) ==> !OnGrid(cfg, Execute(cfg, before).st)))
  }

  /** An event that leaves stray chunks behind. */
  predicate LeavesStrays(cfg: Config, st: State, e: Event) {
    e.Cancel? && Enabled(cfg, st, e) && st.inUsed > 0
  }

  function StraysAfter(cfg: Config, r: Run, strays: set<nat>, e: Event): set<nat> {
    if LeavesStrays(cfg, r.st, e) then strays + {|r.frames|} else strays
  }

  /** The ids under which strays are around. */
  function Strays(cfg: Config, es: seq<Event>): set<nat>
    requires cfg.Valid()
  {
    if es == [] then {}
    else StraysAfter(cfg, Execute(cfg, es[..|es| - 1]), Strays(cfg, es[..|es| - 1]), es[|es| - 1])
  }

  /** How many ids have chunks under them. */
  function IdsUsed(r: Run, strays: set<nat>): nat {
    |r.frames| + if (r.st.input.Some? && r.st.inUsed > 0) || |r.frames| in strays then 1 else 0
  }

  // ------------------------------------------------------------------ what a chunk can be

  /** Part of a withdrawn frame: not marked last, and it ends off the grid. */
  predicate StrayChunk(c: Chunk, strays: set<nat>, capacity: nat)
    requires capacity > 0
  {
    c.frameId in strays && !c.isLast && c.payload != [] && c.End() % capacity != 0
  }

  /** A true piece of the frame its id names; on the grid, if it shares the id with strays. */
  predicate GridPiece(c: Chunk, frames: seq<seq<Byte>>, strays: set<nat>, capacity: nat)
    requires capacity > 0
  {
    Genuine(c, frames) && (c.frameId in strays ==> c.start % capacity == 0)
  }

  predicate Sound(c: Chunk, frames: seq<seq<Byte>>, strays: set<nat>, capacity: nat)
    requires capacity > 0
  {
    GridPiece(c, frames, strays, capacity) || StrayChunk(c, strays, capacity)
  }

  predicate AllSound(log: seq<Chunk>, frames: seq<seq<Byte>>, strays: set<nat>, capacity: nat)
    requires capacity > 0
  {
    forall i :: 0 <= i < |log| ==> Sound(log[i], frames, strays, capacity)
  }

  /** A piece of the frame under way; all its chunks so far end at the same place on the grid. */
  predicate InProgress(c: Chunk, r: Run, strays: set<nat>, capacity: nat)
    requires capacity > 0
  {
    && r.st.input.Some? && r.st.inUsed > 0 && PieceOf(c, |r.frames|, r.st.input.value)
    && !c.isLast && c.payload != [] && c.End() % capacity == r.st.inUsed % capacity
    && (|r.frames| in strays ==> c.start % capacity == 0)
  }

  predicate Accounted(c: Chunk, r: Run, strays: set<nat>, capacity: nat)
    requires capacity > 0
  {
    Sound(c, r.frames, strays, capacity) || InProgress(c, r, strays, capacity)
  }

  predicate AllAccounted(log: seq<Chunk>, r: Run, strays: set<nat>, capacity: nat)
    requires capacity > 0
  {
    forall i :: 0 <= i < |log| ==> Accounted(log[i], r, strays, capacity)
  }

  /** After strays the next frame is begun in an empty packet, and so stays on the grid. */
  predicate BackOnGrid(st: State, capacity: nat)
    requires capacity > 0
  {
    && (st.out.Some? ==> st.out.value == [])
    && (st.input.Some? ==> st.inUsed % capacity == 0)
  }

  predicate RunSound(cfg: Config, r: Run, strays: set<nat>)
    requires cfg.Valid()
  {
    && AllAccounted(Log(r), r, strays, cfg.Capacity())
    && r.st.frameId == |r.frames| % UINT16_RANGE
    && (forall k :: k in strays ==> k <= |r.frames|)
    && (|r.frames| in strays ==> BackOnGrid(r.st, cfg.Capacity()))
  }

  // ------------------------------------------------------------------ every run

  lemma OneChunkPerWrite(cfg: Config, st: State)
    requires ReadyToWrite(cfg, st) && cfg.chunkMtu < 0
    requires st.inUsed > 0 ==> st.inUsed < |st.input.value|
    ensures var c := NextChunk(cfg, st.frameId, st.input.value, st.inUsed, |st.out.value|);
            && CutChunks(cfg, st.frameId, st.input.value, st.inUsed, |st.out.value|) == [c]
            && (!c.isLast ==> c.payload != [] && |c.payload| == cfg.outputMtu - HEADER_SIZE - |st.out.value|)
  {
  }

  lemma CellsInOrder(p: nat, q: nat, capacity: nat)
    ensures p < q ==> p * capacity + capacity <= q * capacity
  {
    if p < q {
      assert (p + 1) * capacity <= q * capacity;
      assert (p + 1) * capacity == p * capacity + capacity;
    }
  }

  lemma Remainder(a: nat, capacity: nat, q: nat, rest: nat)
    requires capacity > 0 && a == q * capacity + rest && rest < capacity
    ensures a % capacity == rest && a / capacity == q
  {
    assert a == (a / capacity) * capacity + a % capacity;
    CellsInOrder(a / capacity, q, capacity);
    CellsInOrder(q, a / capacity, capacity);
  }

  /** A full packet leads from one point of the grid to the same point of the next cell. */
  lemma SameResidue(x: nat, capacity: nat)
    requires capacity > 0
    ensures (x + capacity) % capacity == x % capacity
  {
    var q := x / capacity;
    assert (q + 1) * capacity == q * capacity + capacity;
    Remainder(x + capacity, capacity, q + 1, x % capacity);
  }

  /** The chunks of earlier writes stay accounted for when the frame under way grows. */
  lemma StillAccounted(c: Chunk, r: Run, n: Run, strays: set<nat>, capacity: nat)
    requires capacity > 0 && Accounted(c, r, strays, capacity) && r.st.input.Some?
    requires n.frames == r.frames && n.st.input == r.st.input && n.st.inUsed > 0
    requires r.st.inUsed > 0 ==> n.st.inUsed == r.st.inUsed + capacity
    ensures Accounted(c, n, strays, capacity)
  {
    SameResidue(r.st.inUsed, capacity);
  }

  /** They become pieces of a frame put in when it is finished. */
  lemma FinishedAccounted(c: Chunk, r: Run, n: Run, strays: set<nat>, capacity: nat)
    requires capacity > 0 && Accounted(c, r, strays, capacity) && r.st.input.Some?
    requires n.frames == r.frames + [r.st.input.value]
    ensures Accounted(c, n, strays, capacity)
  {
    if InProgress(c, r, strays, capacity) {
      PieceFacts(c, |r.frames|, r.st.input.value);
      assert n.frames[|r.frames|] == r.st.input.value;
    } else if !StrayChunk(c, strays, capacity) {
      assert n.frames[c.frameId] == r.frames[c.frameId];
    }
  }

  /** What one call of write_chunks does to the run. */
  function AfterWrite(cfg: Config, st: State, packets: seq<seq<Byte>>, frames: seq<seq<Byte>>): Run
    requires ReadyToWrite(cfg, st)
  {
    var o := WriteChunks(cfg, st);
    Run(o.st, if o.packet.Some? then packets + [o.packet.value] else packets,
        if o.frameDone then frames + [st.input.value] else frames)
  }

  /** The chunk just written is accounted for. */
  lemma NewAccounted(cfg: Config, st: State, packets: seq<seq<Byte>>, frames: seq<seq<Byte>>, strays: set<nat>)
    requires ReadyToWrite(cfg, st) && cfg.chunkMtu < 0 && st.frameId == |frames|
    requires st.inUsed > 0 ==> st.inUsed < |st.input.value|
    requires |frames| in strays ==> st.inUsed % cfg.Capacity() == 0
    ensures var c := NextChunk(cfg, st.frameId, st.input.value, st.inUsed, |st.out.value|);
            Accounted(c, AfterWrite(cfg, st, packets, frames), strays, cfg.Capacity())
  {
    hide EncodeChunks;
    OneChunkPerWrite(cfg, st);
    var c := NextChunk(cfg, st.frameId, st.input.value, st.inUsed, |st.out.value|);
    var n := AfterWrite(cfg, st, packets, frames);
    if c.isLast { assert n.frames[|frames|] == st.input.value; }
  }

  lemma WriteSound(cfg: Config, st: State, packets: seq<seq<Byte>>, frames: seq<seq<Byte>>, strays: set<nat>)
    requires ReadyToWrite(cfg, st) && WellFormed(st.out.value) && cfg.chunkMtu < 0
    requires st.frameId == |frames| < UINT16_RANGE
    requires st.inUsed > 0 ==> st.out.value == [] && st.inUsed < |st.input.value|
    requires AllAccounted(PacketLog(packets) + ParseChunks(st.out.value), Run(st, packets, frames), strays,
                          cfg.Capacity())
    requires forall k :: k in strays ==> k <= |frames|
    requires |frames| in strays ==> BackOnGrid(st, cfg.Capacity())
    ensures RunSound(cfg, AfterWrite(cfg, st, packets, frames), strays)
  {
    hide ParseChunks, EncodeChunks, PacketLog, WellFormed, Accounted, CutChunks;
    var log := PacketLog(packets) + ParseChunks(st.out.value);
    var r, n := Run(st, packets, frames), AfterWrite(cfg, st, packets, frames);
    var c, cap := NextChunk(cfg, st.frameId, st.input.value, st.inUsed, |st.out.value|), cfg.Capacity();
    LogAfterWrite(cfg, st, packets);
    OneChunkPerWrite(cfg, st);
    NewAccounted(cfg, st, packets, frames, strays);
    forall i | 0 <= i < |Log(n)| ensures Accounted(Log(n)[i], n, strays, cap) {
      if i < |log| {
        assert Log(n)[i] == log[i];
        assert Accounted(log[i], r, strays, cap);
        if c.isLast {
          FinishedAccounted(log[i], r, n, strays, cap);
        } else {
          StillAccounted(log[i], r, n, strays, cap);
        }
      }
    }
    if !c.isLast { SameResidue(st.inUsed, cap); }
    WriteEmpties(cfg, st);
  }

  /** A frame that goes on leaves no packet behind. */
  lemma WriteEmpties(cfg: Config, st: State)
    requires ReadyToWrite(cfg, st) && cfg.chunkMtu < 0
    requires st.inUsed > 0 ==> st.inUsed < |st.input.value|
    ensures var o := WriteChunks(cfg, st); !o.frameDone ==> o.st.out.None?
  {
    hide PieceOf;
    CutSize(cfg, st.frameId, st.input.value, st.inUsed, |st.out.value|);
  }

  lemma CancelSound(cfg: Config, r: Run, strays: set<nat>)
    requires cfg.Valid() && Consistent(cfg, r.st) && RunSound(cfg, r, strays)
    requires Enabled(cfg, r.st, Cancel) && !OnGrid(cfg, r.st)
    ensures RunSound(cfg, Advance(cfg, r, Cancel), StraysAfter(cfg, r, strays, Cancel))
  {
    hide ParseChunks, PacketLog, WellFormed;
    var n, more, cap := Advance(cfg, r, Cancel), StraysAfter(cfg, r, strays, Cancel), cfg.Capacity();
    assert Log(n) == Log(r);
    forall i | 0 <= i < |Log(n)| ensures Accounted(Log(n)[i], n, more, cap) {
      var c := Log(r)[i];
      assert Accounted(c, r, strays, cap);
      if InProgress(c, r, strays, cap) { PieceFacts(c, |r.frames|, r.st.input.value); }
    }
  }

  lemma AdvanceSound(cfg: Config, r: Run, strays: set<nat>, e: Event)
    requires cfg.Valid() && cfg.chunkMtu < 0 && Consistent(cfg, r.st) && RunSound(cfg, r, strays)
    requires e.Cancel? && Enabled(cfg, r.st, e) ==> !OnGrid(cfg, r.st)
    requires IdsUsed(Advance(cfg, r, e), StraysAfter(cfg, r, strays, e)) <= UINT16_RANGE
    ensures RunSound(cfg, Advance(cfg, r, e), StraysAfter(cfg, r, strays, e))
  {
    hide ParseChunks, EncodeChunks, CutChunks, Accounted, AllAccounted, WellFormed, PacketLog;
    IdsGrow(cfg, r, strays, e);
    EmptyPacket();
    if Enabled(cfg, r.st, e) {
      match e
      case Send(frame) =>
        var st := r.st.(input := Some(frame), inUsed := 0);
        FreshFrame(cfg, r, st, strays);
        if r.st.out.Some? { WriteSound(cfg, st, r.packets, r.frames, strays); }
      case Recv =>
        var st := r.st.(out := Some([]));
        FreshPacket(cfg, r, st, strays);
        if r.st.input.Some? { WriteSound(cfg, st, r.packets, r.frames, strays); }
      case Timeout =>
        PacketLogSnoc(r.packets, r.st.out.value);
        assert Log(Advance(cfg, r, e)) == Log(r);
        SameStateAccounted(r, Advance(cfg, r, e), strays, cfg.Capacity());
      case Cancel => CancelSound(cfg, r, strays);
    }
  }

  lemma SameStateAccounted(r: Run, n: Run, strays: set<nat>, capacity: nat)
    requires capacity > 0 && AllAccounted(Log(r), r, strays, capacity)
    requires n.frames == r.frames && n.st.input == r.st.input && n.st.inUsed == r.st.inUsed
    ensures AllAccounted(Log(r), n, strays, capacity)
  {
    hide ParseChunks, PacketLog, Sound, PieceOf;
    forall i | 0 <= i < |Log(r)| ensures Accounted(Log(r)[i], n, strays, capacity) {
      assert Accounted(Log(r)[i], r, strays, capacity);
    }
  }

  lemma FreshPacket(cfg: Config, r: Run, st: State, strays: set<nat>)
    requires cfg.Valid() && RunSound(cfg, r, strays) && r.st.out.None? && st == r.st.(out := Some([]))
    ensures AllAccounted(PacketLog(r.packets) + ParseChunks([]), Run(st, r.packets, r.frames), strays, cfg.Capacity())
  {
    hide PacketLog, Accounted;
    EmptyPacket();
    assert PacketLog(r.packets) + ParseChunks([]) == Log(r);
    SameStateAccounted(r, Run(st, r.packets, r.frames), strays, cfg.Capacity());
  }

  lemma FreshFrame(cfg: Config, r: Run, st: State, strays: set<nat>)
    requires cfg.Valid() && RunSound(cfg, r, strays) && r.st.input.None?
    requires st == r.st.(input := st.input, inUsed := 0) && st.input.Some?
    ensures AllAccounted(Log(r), Run(st, r.packets, r.frames), strays, cfg.Capacity())
  {
    hide PacketLog, ParseChunks, Sound, PieceOf;
    forall i | 0 <= i < |Log(r)| ensures Accounted(Log(r)[i], Run(st, r.packets, r.frames), strays, cfg.Capacity()) {
      assert Accounted(Log(r)[i], r, strays, cfg.Capacity());
    }
  }

  /** Ids are only ever added, and writing uses the current one. */
  lemma IdsGrow(cfg: Config, r: Run, strays: set<nat>, e: Event)
    requires cfg.Valid() && cfg.chunkMtu < 0 && Consistent(cfg, r.st) && forall k :: k in strays ==> k <= |r.frames|
    ensures var n, more := Advance(cfg, r, e), StraysAfter(cfg, r, strays, e);
            && IdsUsed(r, strays) <= IdsUsed(n, more) && |r.frames| <= |n.frames|
            && (Enabled(cfg, r.st, e) && ((e.Send? && r.st.out.Some?) || (e.Recv? && r.st.input.Some?))
                ==> |r.frames| < IdsUsed(n, more))
  {
    hide ParseChunks, EncodeChunks, CutChunks, PieceOf;
    if Enabled(cfg, r.st, e) {
      if e.Send? && r.st.out.Some? {
        CutSize(cfg, r.st.frameId, e.frame, 0, |r.st.out.value|);
      } else if e.Recv? && r.st.input.Some? {
        CutSize(cfg, r.st.frameId, r.st.input.value, r.st.inUsed, 0);
      }
    }
  }

  /** For every run with harmless cancels only, all chunks sent are accounted for. */
  lemma {:induction false} ChunksAreSound(cfg: Config, es: seq<Event>)
    requires cfg.Valid() && cfg.chunkMtu < 0 && HarmlessCancels(cfg, es)
    requires IdsUsed(Execute(cfg, es), Strays(cfg, es)) <= UINT16_RANGE
    ensures RunSound(cfg, Execute(cfg, es), Strays(cfg, es))
  {
    hide AllAccounted, Consistent;
    if es == [] {
      NothingSent(cfg);
    } else {
      var before := es[..|es| - 1];
      StraysBounded(cfg, before);
      IdsGrow(cfg, Execute(cfg, before), Strays(cfg, before), es[|es| - 1]);
      ChunksAreSound(cfg, before);
      AdvanceSound(cfg, Execute(cfg, before), Strays(cfg, before), es[|es| - 1]);
    }
  }

  lemma NothingSent(cfg: Config)
    requires cfg.Valid()
    ensures AllAccounted(Log(START), START, {}, cfg.Capacity())
  {
    assert Log(START) == [];
  }

  lemma {:induction false} StraysBounded(cfg: Config, es: seq<Event>)
    requires cfg.Valid() && cfg.chunkMtu < 0
    ensures forall k :: k in Strays(cfg, es) ==> k <= |Execute(cfg, es).frames|
  {
    hide Consistent, Advance;
    if es != [] {
      var before := es[..|es| - 1];
      StraysBounded(cfg, before);
      IdsGrow(cfg, Execute(cfg, before), Strays(cfg, before), es[|es| - 1]);
    }
  }

  /** Seen from the frames put in, an accounted chunk is sound. */
  lemma RunIsSound(cfg: Config, r: Run, strays: set<nat>)
    requires cfg.Valid() && RunSound(cfg, r, strays)
    ensures AllSound(Log(r), Contributing(r), strays, cfg.Capacity())
  {
    hide ParseChunks, PacketLog;
    forall i | 0 <= i < |Log(r)| ensures Sound(Log(r)[i], Contributing(r), strays, cfg.Capacity()) {
      var c := Log(r)[i];
      assert Accounted(c, r, strays, cfg.Capacity());
      if InProgress(c, r, strays, cfg.Capacity()) {
        PieceFacts(c, |r.frames|, r.st.input.value);
      } else if !StrayChunk(c, strays, cfg.Capacity()) {
        assert Contributing(r)[c.frameId] == r.frames[c.frameId];
      }
    }
  }
}
