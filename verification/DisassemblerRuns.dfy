/** Every run of the disassembler: its invariant, and what the packets it emits say. */
module DisassemblerRuns {
  import opened Bytes
  import opened Lists
  import opened FragmentWire
  import opened InOrderLog
  import opened Disassembler

  /** A run so far: `packets` handed to the output, `frames` taken whole from the input. */
  datatype Run = Run(st: State, packets: seq<seq<Byte>>, frames: seq<seq<Byte>>)

  const START := Run(INITIAL, [], [])

  function Advance(cfg: Config, r: Run, e: Event): Run
    requires cfg.Valid() && Consistent(cfg, r.st)
  {
    if !Enabled(cfg, r.st, e) then r
    else
      var o := Handle(cfg, r.st, e);
      var packets := if o.packet.Some? then r.packets + [o.packet.value] else r.packets;
      var frame := if e.Send? then Some(e.frame) else r.st.input;
      var frames := if o.frameDone && frame.Some? then r.frames + [frame.value] else r.frames;
      Run(o.st, packets, frames)
  }

  /** An event that cannot occur is skipped, so every sequence of events is a run. */
  function Execute(cfg: Config, es: seq<Event>): (r: Run)
    requires cfg.Valid()
    ensures Consistent(cfg, r.st)
  {
    if es == [] then START
    else
      var before := Execute(cfg, es[..|es| - 1]);
      AdvanceConsistent(cfg, before, es[|es| - 1]);
      Advance(cfg, before, es[|es| - 1])
  }

  /** The caller never withdraws a frame that was partly written. */
  predicate NoMidFrameCancel(cfg: Config, es: seq<Event>)
    requires cfg.Valid()
  {
    es == [] ||
    (var before, e := es[..|es| - 1], es[|es| - 1];
     && NoMidFrameCancel(cfg, before)
     && (e.Cancel? && Enabled(cfg, Execute(cfg, before).st, e) ==> Execute(cfg, before).st.inUsed == 0))
  }

  /** All chunks of the packets, in the order they left. */
  function PacketLog(packets: seq<seq<Byte>>): seq<Chunk> {
    if packets == [] then [] else PacketLog(packets[..|packets| - 1]) + ParseChunks(packets[|packets| - 1])
  }

  function PendingChunks(st: State): seq<Chunk> {
    if st.out.Some? then ParseChunks(st.out.value) else []
  }

  function Log(r: Run): seq<Chunk> {
    PacketLog(r.packets) + PendingChunks(r.st)
  }

  // ------------------------------------------------------------------ consistency

  /** `write_chunks` one iteration at a time. */
  lemma CutStep(cfg: Config, id: nat, frame: seq<Byte>, inUsed: nat, outUsed: nat)
    requires cfg.Valid() && cfg.HasRoom(outUsed) && inUsed <= |frame| <= cfg.inputMtu && id < UINT16_RANGE
    ensures var cs, c := CutChunks(cfg, id, frame, inUsed, outUsed), NextChunk(cfg, id, frame, inUsed, outUsed);
            var used := outUsed + HEADER_SIZE + |c.payload|;
            if c.isLast || !cfg.HasRoom(used) then cs == [c]
            else
              var rest := CutChunks(cfg, id, frame, c.End(), used);
              cs == [c] + rest && cs[|cs| - 1] == rest[|rest| - 1]
  {
  }

  lemma {:induction false} CutSize(cfg: Config, id: nat, frame: seq<Byte>, inUsed: nat, outUsed: nat)
    requires cfg.Valid() && cfg.HasRoom(outUsed) && inUsed <= |frame| <= cfg.inputMtu && id < UINT16_RANGE
    ensures var cs := CutChunks(cfg, id, frame, inUsed, outUsed); var last := cs[|cs| - 1];
            && PieceOf(last, id, frame)
            && (!last.isLast ==> inUsed < last.End() < |frame| && !cfg.HasRoom(outUsed + |EncodeChunks(cs)|))
    decreases |frame| - inUsed
  {
    hide NextChunk, EncodeChunk, CutChunks;
    CutStep(cfg, id, frame, inUsed, outUsed);
    var c := NextChunk(cfg, id, frame, inUsed, outUsed);
    var used := outUsed + HEADER_SIZE + |c.payload|;
    assert EncodeChunks([c]) == EncodeChunk(c) + EncodeChunks([]) == EncodeChunk(c);
    if !c.isLast && cfg.HasRoom(used) {
      CutSize(cfg, id, frame, c.End(), used);
      var rest := CutChunks(cfg, id, frame, c.End(), used);
      assert ([c] + rest)[1..] == rest;
    }
  }

  lemma PacketGrows(out: seq<Byte>, cs: seq<Chunk>)
    requires WellFormed(out) && AllFit(cs)
    ensures WellFormed(out + EncodeChunks(cs))
    ensures ParseChunks(out + EncodeChunks(cs)) == ParseChunks(out) + cs
  {
    var all := ParseChunks(out) + cs;
    EncodeChunksConcat(ParseChunks(out), cs);
    ParseEncodedChunks(all, []);
    assert EncodeChunks(all) + [] == out + EncodeChunks(cs);
    assert ParseChunks([]) == [];
    assert all + [] == all;
  }

  lemma WriteConsistent(cfg: Config, st: State)
    requires ReadyToWrite(cfg, st) && WellFormed(st.out.value)
    ensures Consistent(cfg, WriteChunks(cfg, st).st)
  {
    hide CutChunks, ParseChunks, ParseChunk, EncodeChunk, PieceOf;
    var cs := CutChunks(cfg, st.frameId, st.input.value, st.inUsed, |st.out.value|);
    CutSize(cfg, st.frameId, st.input.value, st.inUsed, |st.out.value|);
    PacketGrows(st.out.value, cs);
    assert EncodeChunks(cs) != [];
  }

  lemma AdvanceConsistent(cfg: Config, r: Run, e: Event)
    requires cfg.Valid() && Consistent(cfg, r.st)
    ensures Consistent(cfg, Advance(cfg, r, e).st)
  {
    if Enabled(cfg, r.st, e) {
      match e
      case Send(frame) =>
        if r.st.out.Some? { WriteConsistent(cfg, r.st.(input := Some(frame), inUsed := 0)); }
      case Recv =>
        if r.st.input.Some? { WriteConsistent(cfg, r.st.(out := Some([]))); }
      case Timeout =>
      case Cancel =>
    }
  }

  // ------------------------------------------------------------------ the log is in order

  /** The frame under way, as far as it was written. */
  function Written(st: State): seq<Byte> {
    if st.input.Some? && st.inUsed <= |st.input.value| then st.input.value[..st.inUsed] else []
  }

  /** The log, read in order, is exactly the frames taken so far and then the written part of the current one. */
  predicate LogMatches(log: seq<Chunk>, mtu: nat, frames: seq<seq<Byte>>, written: seq<Byte>, id: nat) {
    var r := Reassemble(log);
    && Sequential(log, mtu) && Numbered(log)
    && r.frames == frames
    && Payload(r.partial) == written
    && (written == [] ==> r.partial == [])
    && (forall i :: 0 <= i < |r.partial| ==> r.partial[i].frameId == id)
  }

  lemma PieceFacts(c: Chunk, id: nat, frame: seq<Byte>)
    requires PieceOf(c, id, frame)
    ensures c.frameId == id && c.End() <= |frame| && (c.isLast <==> c.End() == |frame|)
    ensures c.payload == frame[c.start..c.End()]
  {
  }

  /** `last` is the latest chunk of `frame` in the log. */
  ghost predicate MatchesUpTo(log: seq<Chunk>, mtu: nat, frames: seq<seq<Byte>>, frame: seq<Byte>, id: nat,
                              last: Chunk) {
    && last.End() <= |frame|
    && (last.isLast ==> LogMatches(log, mtu, frames + [frame], [], id))
    && (!last.isLast ==> LogMatches(log, mtu, frames, frame[..last.End()], id))
  }

  lemma MatchOneChunk(log: seq<Chunk>, mtu: nat, frames: seq<seq<Byte>>, frame: seq<Byte>, id: nat, c: Chunk)
    requires c.start <= |frame| <= mtu && LogMatches(log, mtu, frames, frame[..c.start], id)
    requires id == |frames| % UINT16_RANGE
    requires PieceOf(c, id, frame) && (!c.isLast ==> c.payload != [])
    ensures MatchesUpTo(log + [c], mtu, frames, frame, id, c)
  {
    hide Sequential, Numbered, Reassemble, Payload, PieceOf;
    assert c.payload == frame[c.start..c.End()] && c.frameId == id && (c.isLast <==> c.End() == |frame|) by {
      PieceFacts(c, id, frame);
    }
    var partial := Reassemble(log).partial;
    EmptyPayload();
    SequentialSnoc(log, c, mtu);
    NumberedSnoc(log, c);
    ReassembleSnoc(log, c);
    PayloadSnoc(partial, c);
    assert frame[..c.start] + c.payload == frame[..c.End()];
    assert frame[..|frame|] == frame;
  }

  lemma Unfinished(log: seq<Chunk>, mtu: nat, frames: seq<seq<Byte>>, frame: seq<Byte>, id: nat, last: Chunk)
    requires MatchesUpTo(log, mtu, frames, frame, id, last) && !last.isLast && last.End() <= |frame|
    ensures LogMatches(log, mtu, frames, frame[..last.End()], id)
  {
  }

  /** Between frames the next id is free. */
  lemma AnyId(log: seq<Chunk>, mtu: nat, frames: seq<seq<Byte>>, id: nat, next: nat)
    requires LogMatches(log, mtu, frames, [], id)
    ensures LogMatches(log, mtu, frames, [], next)
  {
  }

  lemma {:induction false} MatchCut(cfg: Config, id: nat, frame: seq<Byte>, inUsed: nat, outUsed: nat,
                                    log: seq<Chunk>, frames: seq<seq<Byte>>)
    requires cfg.Valid() && cfg.HasRoom(outUsed) && inUsed <= |frame| <= cfg.inputMtu && id == |frames| % UINT16_RANGE
    requires LogMatches(log, cfg.inputMtu, frames, frame[..inUsed], id)
    ensures var cs := CutChunks(cfg, id, frame, inUsed, outUsed);
            MatchesUpTo(log + cs, cfg.inputMtu, frames, frame, id, cs[|cs| - 1])
    decreases |frame| - inUsed
  {
    hide LogMatches, PieceOf, NextChunk, MatchesUpTo, CutChunks;
    var c := NextChunk(cfg, id, frame, inUsed, outUsed);
    var used := outUsed + HEADER_SIZE + |c.payload|;
    CutStep(cfg, id, frame, inUsed, outUsed);
    MatchOneChunk(log, cfg.inputMtu, frames, frame, id, c);
    if !c.isLast && cfg.HasRoom(used) {
      PieceFacts(c, id, frame);
      Unfinished(log + [c], cfg.inputMtu, frames, frame, id, c);
      MatchCut(cfg, id, frame, c.End(), used, log + [c], frames);
      assert log + ([c] + CutChunks(cfg, id, frame, c.End(), used))
          == (log + [c]) + CutChunks(cfg, id, frame, c.End(), used);
    }
  }

  predicate RunMatches(cfg: Config, r: Run) {
    && LogMatches(Log(r), cfg.inputMtu, r.frames, Written(r.st), r.st.frameId)
    && r.st.frameId == |r.frames| % UINT16_RANGE
  }

  lemma PacketLogSnoc(packets: seq<seq<Byte>>, p: seq<Byte>)
    ensures PacketLog(packets + [p]) == PacketLog(packets) + ParseChunks(p)
  {
    assert (packets + [p])[..|packets|] == packets;
  }

  /** How `write_chunks` extends the log. */
  lemma LogAfterWrite(cfg: Config, st: State, packets: seq<seq<Byte>>)
    requires ReadyToWrite(cfg, st) && WellFormed(st.out.value)
    ensures var o := WriteChunks(cfg, st);
            var packets1 := if o.packet.Some? then packets + [o.packet.value] else packets;
            PacketLog(packets1) + PendingChunks(o.st)
            == PacketLog(packets) + ParseChunks(st.out.value)
               + CutChunks(cfg, st.frameId, st.input.value, st.inUsed, |st.out.value|)
  {
    hide ParseChunks, EncodeChunks, CutChunks, PacketLog;
    var cs := CutChunks(cfg, st.frameId, st.input.value, st.inUsed, |st.out.value|);
    PacketGrows(st.out.value, cs);
    var o := WriteChunks(cfg, st);
    if o.packet.Some? {
      PacketLogSnoc(packets, o.packet.value);
    }
  }

  lemma WriteMatches(cfg: Config, st: State, packets: seq<seq<Byte>>, frames: seq<seq<Byte>>)
    requires ReadyToWrite(cfg, st) && WellFormed(st.out.value)
    requires LogMatches(PacketLog(packets) + ParseChunks(st.out.value), cfg.inputMtu, frames,
                        st.input.value[..st.inUsed], st.frameId)
    requires st.frameId == |frames| % UINT16_RANGE
    ensures var o := WriteChunks(cfg, st);
            var packets1 := if o.packet.Some? then packets + [o.packet.value] else packets;
            RunMatches(cfg, Run(o.st, packets1, if o.frameDone then frames + [st.input.value] else frames))
  {
    hide LogMatches, ParseChunks, EncodeChunks, CutChunks, PacketLog;
    LogAfterWrite(cfg, st, packets);
    var log := PacketLog(packets) + ParseChunks(st.out.value);
    MatchCut(cfg, st.frameId, st.input.value, st.inUsed, |st.out.value|, log, frames);
    var o := WriteChunks(cfg, st);
    if o.frameDone {
      AnyId(log + CutChunks(cfg, st.frameId, st.input.value, st.inUsed, |st.out.value|), cfg.inputMtu,
            frames + [st.input.value], st.frameId, o.st.frameId);
    }
  }

  lemma AdvanceMatches(cfg: Config, r: Run, e: Event)
    requires cfg.Valid() && Consistent(cfg, r.st) && RunMatches(cfg, r)
    requires e.Cancel? && Enabled(cfg, r.st, e) ==> r.st.inUsed == 0
    ensures RunMatches(cfg, Advance(cfg, r, e))
  {
    hide LogMatches, ParseChunks, EncodeChunks, CutChunks;
    EmptyPacket();
    if Enabled(cfg, r.st, e) {
      match e
      case Send(frame) =>
        if r.st.out.Some? { WriteMatches(cfg, r.st.(input := Some(frame), inUsed := 0), r.packets, r.frames); }
      case Recv =>
        if r.st.input.Some? { WriteMatches(cfg, r.st.(out := Some([])), r.packets, r.frames); }
      case Timeout =>
        PacketLogSnoc(r.packets, r.st.out.value);
        assert Log(Advance(cfg, r, e)) == Log(r);
      case Cancel =>
    }
  }

  /** For every run: what has been sent, read back in order, is what was put in, numbered from 0 modulo 65536. */
  lemma {:induction false} LogIsInputInOrder(cfg: Config, es: seq<Event>)
    requires cfg.Valid() && NoMidFrameCancel(cfg, es)
    ensures RunMatches(cfg, Execute(cfg, es))
  {
    if es == [] {
      assert Log(START) == [];
    } else {
      LogIsInputInOrder(cfg, es[..|es| - 1]);
      AdvanceMatches(cfg, Execute(cfg, es[..|es| - 1]), es[|es| - 1]);
    }
  }

  // ------------------------------------------------------------------ every chunk tells the truth

  /** The frames of which at least one chunk was written, oldest first. */
  function Contributing(r: Run): seq<seq<Byte>> {
    if r.st.input.Some? && r.st.inUsed > 0 then r.frames + [r.st.input.value] else r.frames
  }

  predicate Genuine(c: Chunk, frames: seq<seq<Byte>>) {
    c.frameId < |frames| && PieceOf(c, c.frameId, frames[c.frameId])
  }

  predicate AllGenuine(log: seq<Chunk>, frames: seq<seq<Byte>>) {
    forall i :: 0 <= i < |log| ==> Genuine(log[i], frames)
  }

  predicate AllPieces(cs: seq<Chunk>, id: nat, frame: seq<Byte>) {
    forall i :: 0 <= i < |cs| ==> PieceOf(cs[i], id, frame)
  }

  lemma {:induction false} CutPieces(cfg: Config, id: nat, frame: seq<Byte>, inUsed: nat, outUsed: nat)
    requires cfg.Valid() && cfg.HasRoom(outUsed) && inUsed <= |frame| <= cfg.inputMtu && id < UINT16_RANGE
    ensures AllPieces(CutChunks(cfg, id, frame, inUsed, outUsed), id, frame)
    decreases |frame| - inUsed
  {
    var c := NextChunk(cfg, id, frame, inUsed, outUsed);
    var used := outUsed + HEADER_SIZE + |c.payload|;
    if !c.isLast && cfg.HasRoom(used) {
      CutPieces(cfg, id, frame, c.End(), used);
      var rest := CutChunks(cfg, id, frame, c.End(), used);
      assert CutChunks(cfg, id, frame, inUsed, outUsed) == [c] + rest;
    }
  }

  lemma GenuineChunks(log: seq<Chunk>, cs: seq<Chunk>, frames: seq<seq<Byte>>, frame: seq<Byte>)
    requires AllGenuine(log, frames) || AllGenuine(log, frames + [frame])
    requires AllPieces(cs, |frames|, frame)
    ensures AllGenuine(log + cs, frames + [frame])
  {
    hide PieceOf;
    forall i | 0 <= i < |log + cs|
      ensures Genuine((log + cs)[i], frames + [frame])
    {
      if i < |log| {
        assert (log + cs)[i] == log[i];
      } else {
        assert (log + cs)[i] == cs[i - |log|];
        assert PieceOf(cs[i - |log|], |frames|, frame);
        PieceFacts(cs[i - |log|], |frames|, frame);
      }
    }
  }

  predicate RunGenuine(r: Run) {
    AllGenuine(Log(r), Contributing(r)) && r.st.frameId == |r.frames| % UINT16_RANGE
  }

  lemma WriteGenuine(cfg: Config, st: State, packets: seq<seq<Byte>>, frames: seq<seq<Byte>>)
    requires ReadyToWrite(cfg, st) && WellFormed(st.out.value) && st.frameId == |frames| < UINT16_RANGE
    requires AllGenuine(PacketLog(packets) + ParseChunks(st.out.value),
                        if st.inUsed > 0 then frames + [st.input.value] else frames)
    ensures var o := WriteChunks(cfg, st);
            var packets1 := if o.packet.Some? then packets + [o.packet.value] else packets;
            var r := Run(o.st, packets1, if o.frameDone then frames + [st.input.value] else frames);
            RunGenuine(r) && Contributing(r) == frames + [st.input.value]
  {
    hide ParseChunks, EncodeChunks, CutChunks, PieceOf, AllGenuine;
    LogAfterWrite(cfg, st, packets);
    CutPieces(cfg, st.frameId, st.input.value, st.inUsed, |st.out.value|);
    GenuineChunks(PacketLog(packets) + ParseChunks(st.out.value),
                  CutChunks(cfg, st.frameId, st.input.value, st.inUsed, |st.out.value|), frames, st.input.value);
    CutSize(cfg, st.frameId, st.input.value, st.inUsed, |st.out.value|);
  }

  lemma AdvanceGenuine(cfg: Config, r: Run, e: Event)
    requires cfg.Valid() && Consistent(cfg, r.st) && RunGenuine(r)
    requires e.Cancel? && Enabled(cfg, r.st, e) ==> r.st.inUsed == 0
    requires |Contributing(Advance(cfg, r, e))| <= UINT16_RANGE
    ensures RunGenuine(Advance(cfg, r, e))
  {
    hide ParseChunks, EncodeChunks, CutChunks, PieceOf, AllGenuine, WriteChunks;
    ContributingGrows(cfg, r, e);
    EmptyPacket();
    if Enabled(cfg, r.st, e) {
      match e
      case Send(frame) =>
        if r.st.out.Some? { WriteGenuine(cfg, r.st.(input := Some(frame), inUsed := 0), r.packets, r.frames); }
      case Recv =>
        if r.st.input.Some? {
          WriteGenuine(cfg, r.st.(out := Some([])), r.packets, r.frames);
        }
      case Timeout =>
        PacketLogSnoc(r.packets, r.st.out.value);
        assert Log(Advance(cfg, r, e)) == Log(r);
      case Cancel =>
    }
  }

  lemma EmptyPacket()
    ensures ParseChunks([]) == [] && WellFormed([])
  {
  }

  lemma ContributingGrows(cfg: Config, r: Run, e: Event)
    requires cfg.Valid() && Consistent(cfg, r.st)
    requires e.Cancel? && Enabled(cfg, r.st, e) ==> r.st.inUsed == 0
    ensures Contributing(r) <= Contributing(Advance(cfg, r, e))
    ensures |r.frames| <= |Advance(cfg, r, e).frames|
    ensures Enabled(cfg, r.st, e) && ((e.Send? && r.st.out.Some?) || (e.Recv? && r.st.input.Some?))
            ==> |r.frames| < |Contributing(Advance(cfg, r, e))|
  {
    hide ParseChunks, EncodeChunks, CutChunks, PieceOf;
    if Enabled(cfg, r.st, e) {
      if e.Send? && r.st.out.Some? {
        CutSize(cfg, r.st.frameId, e.frame, 0, |r.st.out.value|);
      } else if e.Recv? && r.st.input.Some? {
        CutSize(cfg, r.st.frameId, r.st.input.value, r.st.inUsed, 0);
      }
    }
  }

  /** For every run of at most 65536 frames, each chunk sent is a true piece of the frame its id names. */
  lemma {:induction false} ChunksAreGenuine(cfg: Config, es: seq<Event>)
    requires cfg.Valid() && NoMidFrameCancel(cfg, es)
    requires |Contributing(Execute(cfg, es))| <= UINT16_RANGE
    ensures RunGenuine(Execute(cfg, es))
  {
    if es == [] {
      assert Log(START) == [];
    } else {
      var before := Execute(cfg, es[..|es| - 1]);
      ContributingGrows(cfg, before, es[|es| - 1]);
      ChunksAreGenuine(cfg, es[..|es| - 1]);
      AdvanceGenuine(cfg, before, es[|es| - 1]);
    }
  }

  // ------------------------------------------------------------------ how many chunks a frame takes

  /** The bound the peer uses to size its reassembly table. */
  function MaxChunksForFrame(carrierMtu: nat, frameMtu: nat): nat
    requires carrierMtu > HEADER_SIZE
  {
    DivideUp(frameMtu, carrierMtu - HEADER_SIZE) + 1
  }

  lemma BelowDivideUp(k: nat, a: nat, b: nat)
    requires b > 0 && k * b < a
    ensures k < DivideUp(a, b)
  {
    var q := DivideUp(a, b);
    assert q * b == (a / b) * b + (if a % b > 0 then b else 0);
    assert k * b < q * b;
  }

  /** Without a chunk limit, every chunk of an unfinished frame but its first filled a packet of its own. */
  predicate FilledPackets(cfg: Config, log: seq<Chunk>)
    requires cfg.Valid()
  {
    var p := Reassemble(log).partial;
    && FewChunksEach(log, cfg.Capacity())
    && ChunksWithin(log, MaxChunksForFrame(cfg.outputMtu, cfg.inputMtu))
    && (p != [] ==> (|p| - 1) * cfg.Capacity() < |Payload(p)|)
  }

  lemma OneMoreFilled(n: nat, cap: nat, data: nat, len: nat)
    requires n > 0 ==> (n - 1) * cap < data && len == cap
    requires n == 0 ==> data == 0 && len > 0
    ensures n * cap < data + len
  {
    assert n > 0 ==> n * cap == (n - 1) * cap + cap;
  }

  lemma OneChunkCounts(cfg: Config, log: seq<Chunk>, frames: seq<seq<Byte>>, frame: seq<Byte>, id: nat, c: Chunk)
    requires cfg.Valid() && |frame| <= cfg.inputMtu && PieceOf(c, id, frame) && (!c.isLast ==> c.payload != [])
    requires c.start > 0 ==> c.start < |frame|
    requires LogMatches(log, cfg.inputMtu, frames, frame[..c.start], id) && FilledPackets(cfg, log)
    requires !c.isLast && c.start > 0 ==> |c.payload| == cfg.Capacity()
    ensures FilledPackets(cfg, log + [c])
  {
    hide Sequential, Numbered, Reassemble, Payload, ChunksWithin, FewChunksEach, DivideUp, PieceOf;
    PieceFacts(c, id, frame);
    var p, cap := Reassemble(log).partial, cfg.Capacity();
    ReassembleSnoc(log, c);
    PayloadSnoc(p, c);
    EmptyPayload();
    if !c.isLast {
      OneMoreFilled(|p|, cap, c.start, |c.payload|);
      BelowDivideUp(|p|, cfg.inputMtu, cap);
    } else if p != [] {
      BelowDivideUp(|p| - 1, c.End(), cap);
    }
    FewChunksSnoc(log, c, cap);
    ChunksWithinSnoc(log, c, MaxChunksForFrame(cfg.outputMtu, cfg.inputMtu));
  }

  lemma WriteCounts(cfg: Config, st: State, packets: seq<seq<Byte>>, frames: seq<seq<Byte>>)
    requires ReadyToWrite(cfg, st) && WellFormed(st.out.value) && cfg.chunkMtu < 0
    requires st.inUsed > 0 ==> st.out.value == [] && st.inUsed < |st.input.value|
    requires LogMatches(PacketLog(packets) + ParseChunks(st.out.value), cfg.inputMtu, frames,
                        st.input.value[..st.inUsed], st.frameId)
    requires FilledPackets(cfg, PacketLog(packets) + ParseChunks(st.out.value))
    ensures var o := WriteChunks(cfg, st);
            var packets1 := if o.packet.Some? then packets + [o.packet.value] else packets;
            FilledPackets(cfg, PacketLog(packets1) + PendingChunks(o.st))
  {
    hide LogMatches, FilledPackets, ParseChunks, EncodeChunks;
    LogAfterWrite(cfg, st, packets);
    var c := NextChunk(cfg, st.frameId, st.input.value, st.inUsed, |st.out.value|);
    assert CutChunks(cfg, st.frameId, st.input.value, st.inUsed, |st.out.value|) == [c];
    OneChunkCounts(cfg, PacketLog(packets) + ParseChunks(st.out.value), frames, st.input.value, st.frameId, c);
  }

  lemma AdvanceCounts(cfg: Config, r: Run, e: Event)
    requires cfg.Valid() && Consistent(cfg, r.st) && cfg.chunkMtu < 0
    requires e.Cancel? && Enabled(cfg, r.st, e) ==> r.st.inUsed == 0
    requires RunMatches(cfg, r) && FilledPackets(cfg, Log(r))
    ensures FilledPackets(cfg, Log(Advance(cfg, r, e)))
  {
    hide LogMatches, FilledPackets, CutChunks, EncodeChunks, ParseChunks;
    EmptyPacket();
    if Enabled(cfg, r.st, e) {
      match e
      case Send(frame) =>
        if r.st.out.Some? { WriteCounts(cfg, r.st.(input := Some(frame), inUsed := 0), r.packets, r.frames); }
      case Recv =>
        if r.st.input.Some? { WriteCounts(cfg, r.st.(out := Some([])), r.packets, r.frames); }
      case Timeout =>
        PacketLogSnoc(r.packets, r.st.out.value);
        assert Log(Advance(cfg, r, e)) == Log(r);
      case Cancel =>
    }
  }

  /**
   * For every run without a chunk limit, a frame of n bytes takes at most ceil(n / capacity) + 1 chunks, and so no
   * frame takes more than `fragmentproto_max_chunks_for_frame`.
   */
  lemma {:induction false} ChunkCountBound(cfg: Config, es: seq<Event>)
    requires cfg.Valid() && cfg.chunkMtu < 0 && NoMidFrameCancel(cfg, es)
    ensures FewChunksEach(Log(Execute(cfg, es)), cfg.Capacity())
    ensures ChunksWithin(Log(Execute(cfg, es)), MaxChunksForFrame(cfg.outputMtu, cfg.inputMtu))
    ensures FilledPackets(cfg, Log(Execute(cfg, es)))
  {
    if es == [] {
      assert Log(START) == [];
    } else {
      ChunkCountBound(cfg, es[..|es| - 1]);
      LogIsInputInOrder(cfg, es[..|es| - 1]);
      AdvanceCounts(cfg, Execute(cfg, es[..|es| - 1]), es[|es| - 1]);
    }
  }
}
