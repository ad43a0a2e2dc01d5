/** When packets of the disassembler leave, how full they are, and that frames share them. */
module PacketTiming {
  import opened Bytes
  import opened Lists
  import opened FragmentWire
  import opened Disassembler
  import opened DisassemblerRuns

  // ------------------------------------------------------------------ how frames are cut

  function Least(a: int, b: int): int {
    if a < b then a else b
  }

  /** The most payload a chunk can have: what is left of the frame, of the packet, and of the limit if there is one. */
  function MostPayload(cfg: Config, left: int, outUsed: int): int {
    var n := Least(left, cfg.outputMtu - 7 - outUsed);
    if cfg.chunkMtu > 0 then Least(n, cfg.chunkMtu) else n
  }

  /** The piece of the frame from `inUsed` on that fits, as long as it can be. */
  ghost predicate LongestPiece(cfg: Config, c: Chunk, frame: seq<Byte>, inUsed: nat, outUsed: nat) {
    && c.start == inUsed && |c.payload| == MostPayload(cfg, |frame| - inUsed, outUsed)
    && c.End() <= |frame| && c.payload == frame[c.start..c.End()] && (c.isLast <==> c.End() == |frame|)
  }

  /** Chunk after chunk is cut from `inUsed` on, each as long as it can be, until the frame or the room ends. */
  ghost predicate Greedy(cfg: Config, cs: seq<Chunk>, frame: seq<Byte>, inUsed: nat, outUsed: nat)
    decreases |cs|
  {
    && cs != [] && LongestPiece(cfg, cs[0], frame, inUsed, outUsed)
    && var end, used := cs[0].End(), outUsed + 7 + |cs[0].payload|;
       if end == |frame| || used + 7 >= cfg.outputMtu then |cs| == 1 else Greedy(cfg, cs[1..], frame, end, used)
  }

  lemma NextIsLongest(cfg: Config, id: nat, frame: seq<Byte>, inUsed: nat, outUsed: nat)
    requires cfg.Valid() && cfg.HasRoom(outUsed) && inUsed <= |frame| <= cfg.inputMtu && id < UINT16_RANGE
    ensures LongestPiece(cfg, NextChunk(cfg, id, frame, inUsed, outUsed), frame, inUsed, outUsed)
  {
  }

  lemma GreedyCons(cfg: Config, c: Chunk, rest: seq<Chunk>, frame: seq<Byte>, inUsed: nat, outUsed: nat)
    requires LongestPiece(cfg, c, frame, inUsed, outUsed)
    requires var used := outUsed + 7 + |c.payload|;
             if c.End() == |frame| || used + 7 >= cfg.outputMtu then rest == []
             else Greedy(cfg, rest, frame, c.End(), used)
    ensures Greedy(cfg, [c] + rest, frame, inUsed, outUsed)
  {
    assert ([c] + rest)[1..] == rest;
  }

  lemma {:induction false} CutIsGreedy(cfg: Config, id: nat, frame: seq<Byte>, inUsed: nat, outUsed: nat)
    requires cfg.Valid() && cfg.HasRoom(outUsed) && inUsed <= |frame| <= cfg.inputMtu && id < UINT16_RANGE
    ensures Greedy(cfg, CutChunks(cfg, id, frame, inUsed, outUsed), frame, inUsed, outUsed)
    decreases |frame| - inUsed
  {
    hide NextChunk, CutChunks, LongestPiece, Greedy, PieceOf;
    var c := NextChunk(cfg, id, frame, inUsed, outUsed);
    NextIsLongest(cfg, id, frame, inUsed, outUsed);
    PieceFacts(c, id, frame);
    CutStep(cfg, id, frame, inUsed, outUsed);
    var used := outUsed + HEADER_SIZE + |c.payload|;
    if c.isLast || !cfg.HasRoom(used) {
      GreedyCons(cfg, c, [], frame, inUsed, outUsed);
      assert [c] + [] == [c];
    } else {
      CutIsGreedy(cfg, id, frame, c.End(), used);
      GreedyCons(cfg, c, CutChunks(cfg, id, frame, c.End(), used), frame, inUsed, outUsed);
    }
  }

  // ------------------------------------------------------------------ sizes

  lemma {:induction false} CutWithin(cfg: Config, id: nat, frame: seq<Byte>, inUsed: nat, outUsed: nat)
    requires cfg.Valid() && cfg.HasRoom(outUsed) && inUsed <= |frame| <= cfg.inputMtu && id < UINT16_RANGE
    ensures var cs := CutChunks(cfg, id, frame, inUsed, outUsed);
            && 7 <= |EncodeChunks(cs)| && outUsed + |EncodeChunks(cs)| <= cfg.outputMtu
            && (cfg.chunkMtu > 0 ==> forall i :: 0 <= i < |cs| ==> |cs[i].payload| <= cfg.chunkMtu)
    decreases |frame| - inUsed
  {
    hide EncodeChunk, CutChunks;
    CutStep(cfg, id, frame, inUsed, outUsed);
    var c := NextChunk(cfg, id, frame, inUsed, outUsed);
    var used := outUsed + HEADER_SIZE + |c.payload|;
    assert EncodeChunks([c]) == EncodeChunk(c) + EncodeChunks([]) == EncodeChunk(c);
    if !c.isLast && cfg.HasRoom(used) {
      CutWithin(cfg, id, frame, c.End(), used);
      var rest := CutChunks(cfg, id, frame, c.End(), used);
      assert ([c] + rest)[1..] == rest;
    }
  }

  /** The packets of a run: at least a header, at most the MTU, and no chunk above the limit. */
  predicate PacketsFit(cfg: Config, packets: seq<seq<Byte>>) {
    forall k :: 0 <= k < |packets| ==> PacketFits(cfg, packets[k])
  }

  predicate PacketFits(cfg: Config, p: seq<Byte>) {
    7 <= |p| <= cfg.outputMtu && ChunksFit(cfg, ParseChunks(p))
  }

  predicate ChunksFit(cfg: Config, cs: seq<Chunk>) {
    cfg.chunkMtu > 0 ==> forall i :: 0 <= i < |cs| ==> |cs[i].payload| <= cfg.chunkMtu
  }

  ghost predicate RunFits(cfg: Config, r: Run) {
    PacketsFit(cfg, r.packets) && ChunksFit(cfg, PendingChunks(r.st))
  }

  lemma WriteFits(cfg: Config, st: State)
    requires ReadyToWrite(cfg, st) && WellFormed(st.out.value) && ChunksFit(cfg, ParseChunks(st.out.value))
    ensures var o := WriteChunks(cfg, st);
            && (o.packet.Some? ==> PacketFits(cfg, o.packet.value))
            && ChunksFit(cfg, PendingChunks(o.st))
  {
    hide CutChunks, ParseChunks, EncodeChunks;
    var cs := CutChunks(cfg, st.frameId, st.input.value, st.inUsed, |st.out.value|);
    CutWithin(cfg, st.frameId, st.input.value, st.inUsed, |st.out.value|);
    PacketGrows(st.out.value, cs);
  }

  lemma AdvanceFits(cfg: Config, r: Run, e: Event)
    requires cfg.Valid() && Consistent(cfg, r.st) && RunFits(cfg, r)
    ensures RunFits(cfg, Advance(cfg, r, e))
  {
    hide ParseChunks, CutChunks, EncodeChunks, WriteChunks;
    EmptyPacket();
    if Enabled(cfg, r.st, e) {
      match e
      case Send(frame) =>
        if r.st.out.Some? { WriteFits(cfg, r.st.(input := Some(frame), inUsed := 0)); }
      case Recv =>
        if r.st.input.Some? { WriteFits(cfg, r.st.(out := Some([]))); }
      case Timeout => PendingFits(cfg, r.st);
      case Cancel =>
    }
  }

  lemma PendingFits(cfg: Config, st: State)
    requires Consistent(cfg, st) && st.timer && ChunksFit(cfg, PendingChunks(st))
    ensures PacketFits(cfg, st.out.value)
  {
    hide ParseChunk;
    var p := st.out.value;
    assert p == EncodeChunks(ParseChunks(p)) && p != [];
    assert EncodeChunks([]) == [];
  }

  /** In every run every packet has between a header and the MTU, and no chunk is longer than the chunk limit. */
  lemma {:induction false} EveryPacketFits(cfg: Config, es: seq<Event>)
    requires cfg.Valid()
    ensures RunFits(cfg, Execute(cfg, es))
  {
    if es != [] {
      EveryPacketFits(cfg, es[..|es| - 1]);
      AdvanceFits(cfg, Execute(cfg, es[..|es| - 1]), es[|es| - 1]);
    }
  }

  // ------------------------------------------------------------------ when packets leave

  /** The event cuts chunks of a frame into the output buffer. */
  predicate Writes(cfg: Config, st: State, e: Event) {
    Enabled(cfg, st, e) && ((e.Send? && st.out.Some?) || (e.Recv? && st.input.Some?))
  }

  /** No further chunk with any payload has room. */
  predicate Full(cfg: Config, p: seq<Byte>) {
    |p| + 7 >= cfg.outputMtu
  }

  /** The chunks are added to the packet, which leaves if it must not wait, and else waits with the timer running. */
  ghost predicate Wrote(cfg: Config, out: seq<Byte>, cs: seq<Chunk>, packet: Option<seq<Byte>>, st: State) {
    && AllFit(cs)
    && var p := out + EncodeChunks(cs);
       if cfg.latency < 0 || Full(cfg, p) then packet == Some(p) && st.out.None? && !st.timer
       else packet.None? && st.out == Some(p) && st.timer
  }

  /** As much of the frame as there is room for is written, and so is what becomes of the packet. */
  ghost predicate Writing(cfg: Config, frame: seq<Byte>, inUsed: nat, out: seq<Byte>, packet: Option<seq<Byte>>,
                          st: State) {
    exists cs :: Greedy(cfg, cs, frame, inUsed, |out|) && Wrote(cfg, out, cs, packet, st)
  }

  lemma WriteLeaves(cfg: Config, st: State)
    requires ReadyToWrite(cfg, st)
    ensures var o := WriteChunks(cfg, st); Writing(cfg, st.input.value, st.inUsed, st.out.value, o.packet, o.st)
  {
    var cs := CutChunks(cfg, st.frameId, st.input.value, st.inUsed, |st.out.value|);
    CutIsGreedy(cfg, st.frameId, st.input.value, st.inUsed, |st.out.value|);
    hide Greedy, CutChunks, EncodeChunks;
    var o := WriteChunks(cfg, st);
    assert Wrote(cfg, st.out.value, cs, o.packet, o.st);
  }

  function Buffered(st: State): seq<Byte> {
    if st.out.Some? then st.out.value else []
  }

  function Handed(packet: Option<seq<Byte>>): seq<seq<Byte>> {
    if packet.Some? then [packet.value] else []
  }

  /**
   * In every run, at any event: a packet leaves only when chunks were written or when the timer expires. With a
   * latency of 0 or more what was written leaves at once exactly if it fills the packet, and otherwise waits with the
   * timer running, on top of what was there; a timer hands out what has waited. With a negative latency whatever is
   * written leaves at once. What is written is as much of the frame as there is room for.
   */
  lemma WhenPacketsLeave(cfg: Config, es: seq<Event>, e: Event)
    requires cfg.Valid()
    ensures var r, n := Execute(cfg, es), Execute(cfg, es + [e]);
            if Writes(cfg, r.st, e) then
              var frame, inUsed := if e.Send? then e.frame else r.st.input.value, if e.Send? then 0 else r.st.inUsed;
              exists packet ::
                && Writing(cfg, frame, inUsed, Buffered(r.st), packet, n.st)
                && n.packets == r.packets + Handed(packet)
            else if e.Timeout? && r.st.timer then
              && n.packets == r.packets + [Buffered(r.st)] && Buffered(r.st) != [] && !Full(cfg, Buffered(r.st))
              && n.st.out.None? && !n.st.timer
            else n.packets == r.packets && n.st.timer == r.st.timer
  {
    ExecuteSnoc(cfg, es, e);
    hide Execute, Writing, WriteChunks, WellFormed;
    var r := Execute(cfg, es);
    if Writes(cfg, r.st, e) {
      var st1 := if e.Send? then r.st.(input := Some(e.frame), inUsed := 0) else r.st.(out := Some([]));
      WriteLeaves(cfg, st1);
      var o := WriteChunks(cfg, st1);
      assert Execute(cfg, es + [e]).packets == r.packets + Handed(o.packet);
    }
  }

  // ------------------------------------------------------------------ small frames share a packet

  function Room(frames: seq<seq<Byte>>): nat {
    if frames == [] then 0 else Room(frames[..|frames| - 1]) + 7 + |frames[|frames| - 1]|
  }

  function Sends(frames: seq<seq<Byte>>): seq<Event> {
    if frames == [] then [] else Sends(frames[..|frames| - 1]) + [Send(frames[|frames| - 1])]
  }

  /** Each frame whole in one chunk, under consecutive ids. */
  function WholeChunks(frames: seq<seq<Byte>>, id: nat): (cs: seq<Chunk>)
    ensures |cs| == |frames|
  {
    seq(|frames|, k requires 0 <= k < |frames| => Chunk((id + k) % UINT16_RANGE, 0, true, frames[k]))
  }

  ghost predicate Small(cfg: Config, frames: seq<seq<Byte>>) {
    forall k :: 0 <= k < |frames| ==>
      |frames[k]| <= cfg.inputMtu && (cfg.chunkMtu > 0 ==> |frames[k]| <= cfg.chunkMtu)
  }

  lemma CutWhole(cfg: Config, id: nat, frame: seq<Byte>, outUsed: nat)
    requires cfg.Valid() && id < UINT16_RANGE && |frame| <= cfg.inputMtu
    requires outUsed + 7 + |frame| <= cfg.outputMtu && outUsed + 7 < cfg.outputMtu
    requires cfg.chunkMtu > 0 ==> |frame| <= cfg.chunkMtu
    ensures CutChunks(cfg, id, frame, 0, outUsed) == [Chunk(id, 0, true, frame)]
  {
    assert frame[0..|frame|] == frame;
  }

  lemma WholeFits(cfg: Config, frames: seq<seq<Byte>>, id: nat)
    requires cfg.Valid() && Small(cfg, frames)
    ensures AllFit(WholeChunks(frames, id))
  {
  }

  /** One more frame that leaves room is added to the waiting packet. */
  lemma SendShares(cfg: Config, st: State, frame: seq<Byte>, cs: seq<Chunk>)
    requires cfg.Valid() && Consistent(cfg, st) && cfg.latency >= 0 && st.input.None?
    requires AllFit(cs) && st.out == Some(EncodeChunks(cs)) && Small(cfg, [frame])
    requires |EncodeChunks(cs)| + 7 + |frame| + 7 < cfg.outputMtu
    ensures Enabled(cfg, st, Send(frame))
    ensures var o, c := Handle(cfg, st, Send(frame)), Chunk(st.frameId, 0, true, frame);
            && AllFit(cs + [c]) && |EncodeChunks(cs + [c])| == |EncodeChunks(cs)| + 7 + |frame|
            && o.packet.None? && o.st.input.None? && o.st.out == Some(EncodeChunks(cs + [c]))
            && o.st.frameId == (st.frameId + 1) % UINT16_RANGE && o.st.timer
  {
    hide CutChunks, EncodeChunks, WellFormed;
    assert [frame][0] == frame;
    var c := Chunk(st.frameId, 0, true, frame);
    CutWhole(cfg, st.frameId, frame, |EncodeChunks(cs)|);
    EncodeSnoc(cs, c);
    hide Small, AllFit;
  }

  lemma EncodeSnoc(cs: seq<Chunk>, c: Chunk)
    requires AllFit(cs) && c.Fits()
    ensures AllFit([c]) && AllFit(cs + [c]) && EncodeChunks(cs + [c]) == EncodeChunks(cs) + EncodeChunks([c])
    ensures |EncodeChunks([c])| == 7 + |c.payload|
  {
    hide EncodeChunk;
    EncodeChunksConcat(cs, [c]);
    assert EncodeChunks([c]) == EncodeChunk(c) + EncodeChunks([]) == EncodeChunk(c);
  }

  lemma {:induction false} Waiting(cfg: Config, es: seq<Event>, frames: seq<seq<Byte>>)
    requires cfg.Valid() && cfg.latency >= 0 && Small(cfg, frames) && Room(frames) + 7 < cfg.outputMtu
    requires var st := Execute(cfg, es).st; st.input.None? && st.out == Some([])
    ensures var r, n := Execute(cfg, es), Execute(cfg, es + Sends(frames)); var cs := WholeChunks(frames, r.st.frameId);
            && AllFit(cs) && n.packets == r.packets && n.st.input.None? && n.st.out == Some(EncodeChunks(cs))
            && |EncodeChunks(cs)| == Room(frames) && (n.st.timer <==> frames != [])
            && n.st.frameId == (r.st.frameId + |frames|) % UINT16_RANGE
  {
    hide Execute, Handle, EncodeChunks;
    var r := Execute(cfg, es);
    var id := r.st.frameId;
    WholeFits(cfg, frames, id);
    if frames == [] {
      assert es + Sends(frames) == es && WholeChunks(frames, id) == [];
      NothingEncoded();
      ConsistentFacts(cfg, es);
    } else {
      var k := |frames| - 1;
      var before, f := frames[..k], frames[k];
      assert Small(cfg, before) && Small(cfg, [f]);
      hide Small, WellFormed, WholeChunks;
      Waiting(cfg, es, before);
      var m, cs := Execute(cfg, es + Sends(before)), WholeChunks(before, id);
      assert Consistent(cfg, m.st);
      SendShares(cfg, m.st, f, cs);
      assert es + Sends(frames) == (es + Sends(before)) + [Send(f)];
      ExecuteSnoc(cfg, es + Sends(before), Send(f));
      WholeSnoc(frames, id);
      NextId(id, k);
    }
  }

  lemma WholeSnoc(frames: seq<seq<Byte>>, id: nat)
    requires frames != []
    ensures var k := |frames| - 1;
            WholeChunks(frames, id) ==
            WholeChunks(frames[..k], id) + [Chunk((id + k) % UINT16_RANGE, 0, true, frames[k])]
  {
  }

  lemma NextId(id: nat, k: nat)
    ensures ((id + k) % UINT16_RANGE + 1) % UINT16_RANGE == (id + k + 1) % UINT16_RANGE
  {
  }

  lemma NothingEncoded()
    ensures EncodeChunks([]) == []
  {
  }

  lemma ConsistentFacts(cfg: Config, es: seq<Event>)
    requires cfg.Valid()
    ensures var st := Execute(cfg, es).st;
            st.frameId < UINT16_RANGE && (st.timer <==> st.out.Some? && st.out.value != [])
  {
  }

  lemma ExecuteSnoc(cfg: Config, es: seq<Event>, e: Event)
    requires cfg.Valid()
    ensures Execute(cfg, es + [e]) == Advance(cfg, Execute(cfg, es), e)
  {
    assert (es + [e])[..|es|] == es;
  }

  /**
   * With a latency of 0 or more, frames sent one after the other into an empty output buffer that has room for them
   * all leave together, whole and in order, in one packet when the timer expires.
   */
  lemma FramesShareAPacket(cfg: Config, es: seq<Event>, frames: seq<seq<Byte>>)
    requires cfg.Valid() && cfg.latency >= 0 && Small(cfg, frames) && Room(frames) + 7 < cfg.outputMtu && frames != []
    requires var st := Execute(cfg, es).st; st.input.None? && st.out == Some([])
    ensures var r, n := Execute(cfg, es), Execute(cfg, es + Sends(frames) + [Timeout]);
            exists p :: n.packets == r.packets + [p] && ParseChunks(p) == WholeChunks(frames, r.st.frameId)
  {
    hide Execute, EncodeChunks, ParseChunks;
    var r, m := Execute(cfg, es), Execute(cfg, es + Sends(frames));
    var cs := WholeChunks(frames, r.st.frameId);
    Waiting(cfg, es, frames);
    ExecuteSnoc(cfg, es + Sends(frames), Timeout);
    ParseEncodedChunks(cs, []);
    EmptyPacket();
    assert EncodeChunks(cs) + [] == EncodeChunks(cs) && cs + [] == cs;
    assert Execute(cfg, es + Sends(frames) + [Timeout]).packets == r.packets + [EncodeChunks(cs)];
  }
}
