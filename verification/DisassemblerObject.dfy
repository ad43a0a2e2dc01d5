/** The disassembler as the source has it: fields updated in place, one method per handler. */
module DisassemblerObject {
  import opened Bytes
  import opened Lists
  import opened FragmentWire
  import D = Disassembler
  import opened DisassemblerRuns

  lemma NothingWritten(out: seq<Byte>)
    ensures AllFit([]) && out + EncodeChunks([]) == out
  {
  }

  /** One pass of the loop in `write_chunks`; `all` is everything the call will write. */
  lemma WriteStep(cfg: D.Config, id: nat, frame: seq<Byte>, inUsed: nat, before: seq<Byte>, written: seq<Chunk>,
                  all: seq<Chunk>)
    requires cfg.Valid() && inUsed <= |frame| <= cfg.inputMtu && id < UINT16_RANGE && AllFit(written)
    requires cfg.HasRoom(|before + EncodeChunks(written)|)
    requires all == written + D.CutChunks(cfg, id, frame, inUsed, |before + EncodeChunks(written)|)
    ensures var c := D.NextChunk(cfg, id, frame, inUsed, |before + EncodeChunks(written)|);
            && AllFit(written + [c]) && c.End() <= |frame| && c.start == inUsed
            && before + EncodeChunks(written + [c]) == before + EncodeChunks(written) + EncodeChunk(c)
            && (c.End() < |frame| ==> inUsed < c.End())
            && (var used := |before + EncodeChunks(written + [c])|;
                if c.End() < |frame| && cfg.HasRoom(used) then
                  all == written + [c] + D.CutChunks(cfg, id, frame, c.End(), used)
                else all == written + [c] && (c.isLast <==> c.End() == |frame|))
  {
    hide D.NextChunk, D.CutChunks, EncodeChunk;
    var out := before + EncodeChunks(written);
    var c := D.NextChunk(cfg, id, frame, inUsed, |out|);
    PieceFacts(c, id, frame);
    CutStep(cfg, id, frame, inUsed, |out|);
    EncodeChunksConcat(written, [c]);
    assert EncodeChunks([c]) == EncodeChunk(c) + EncodeChunks([]) == EncodeChunk(c);
  }

  class FragmentProtoDisassembler {
    const cfg: D.Config
    var input: Option<seq<Byte>>
    var inUsed: nat
    var out: Option<seq<Byte>>
    var frameId: nat
    var timerRunning: bool

    ghost function Model(): D.State
      reads this
    {
      D.State(input, inUsed, out, frameId, timerRunning)
    }

    ghost predicate Valid()
      reads this
    {
      cfg.Valid() && D.Consistent(cfg, Model())
    }

    constructor (cfg: D.Config)
      requires cfg.Valid()
      ensures Valid() && this.cfg == cfg && Model() == D.INITIAL
    {
      this.cfg := cfg;
      input, inUsed, out, frameId, timerRunning := None, 0, None, 0, false;
    }

    /** write_chunks */
    method WriteChunks() returns (packet: Option<seq<Byte>>, frameDone: bool)
      requires D.ReadyToWrite(cfg, Model())
      modifies this
      ensures D.Outcome(Model(), packet, frameDone) == D.WriteChunks(cfg, old(Model()))
    {
      hide EncodeChunk, EncodeChunks, D.CutChunks, D.NextChunk, AllFit;
      assert old(out.value) + EncodeChunks([]) == old(out.value) by { NothingWritten(old(out.value)); }
      var frame := input.value;
      ghost var all := D.CutChunks(cfg, frameId, frame, inUsed, |out.value|);
      ghost var written: seq<Chunk> := [];
      // do ... while: the first chunk is written unconditionally, even for an empty frame
      var more := true;
      while more
        invariant input == Some(frame) && frameId == old(frameId) && timerRunning == old(timerRunning)
        invariant inUsed <= |frame| && out.Some? && AllFit(written)
        invariant out.value == old(out.value) + EncodeChunks(written)
        invariant more ==> cfg.HasRoom(|out.value|)
        invariant more ==> all == written + D.CutChunks(cfg, frameId, frame, inUsed, |out.value|)
        invariant !more ==> written != [] && all == written && inUsed == all[|all| - 1].End()
                            && (all[|all| - 1].isLast <==> inUsed == |frame|)
        decreases more, |frame| - inUsed
      {
        var c := D.NextChunk(cfg, frameId, frame, inUsed, |out.value|);
        WriteStep(cfg, frameId, frame, inUsed, old(out.value), written, all);
        out := Some(out.value + EncodeChunk(c));
        inUsed := inUsed + |c.payload|;
        written := written + [c];
        more := inUsed < |frame| && cfg.HasRoom(|out.value|);
      }

      frameDone := inUsed == |frame|;
      if frameDone {
        input := None;
        frameId := (frameId + 1) % UINT16_RANGE;
      }

      if !cfg.HasRoom(|out.value|) || cfg.latency < 0 {
        packet := out;
        out, timerRunning := None, false;
      } else {
        packet, timerRunning := None, true;
      }
    }

    /** input_handler_send */
    method InputSend(data: seq<Byte>) returns (packet: Option<seq<Byte>>, frameDone: bool)
      requires Valid() && D.Enabled(cfg, Model(), D.Send(data))
      modifies this
      ensures Valid()
      ensures D.Outcome(Model(), packet, frameDone) == D.Handle(cfg, old(Model()), D.Send(data))
    {
      AdvanceConsistent(cfg, Run(Model(), [], []), D.Send(data));
      input, inUsed, packet, frameDone := Some(data), 0, None, false;
      if out.Some? {
        packet, frameDone := WriteChunks();
      }
    }

    /** input_handler_requestcancel */
    method RequestCancel()
      requires Valid() && D.Enabled(cfg, Model(), D.Cancel)
      modifies this
      ensures Valid()
      ensures D.Outcome(Model(), None, false) == D.Handle(cfg, old(Model()), D.Cancel)
    {
      input := None;
    }

    /** output_handler_recv */
    method OutputRecv() returns (packet: Option<seq<Byte>>, frameDone: bool)
      requires Valid() && D.Enabled(cfg, Model(), D.Recv)
      modifies this
      ensures Valid()
      ensures D.Outcome(Model(), packet, frameDone) == D.Handle(cfg, old(Model()), D.Recv)
    {
      AdvanceConsistent(cfg, Run(Model(), [], []), D.Recv);
      EmptyPacket();
      out, packet, frameDone := Some([]), None, false;
      if input.Some? {
        packet, frameDone := WriteChunks();
      }
    }

    /** timer_handler */
    method TimerHandler() returns (packet: Option<seq<Byte>>)
      requires Valid() && D.Enabled(cfg, Model(), D.Timeout)
      modifies this
      ensures Valid() && old(input).None?
      ensures D.Outcome(Model(), packet, false) == D.Handle(cfg, old(Model()), D.Timeout)
    {
      packet := out;
      out, timerRunning := None, false;
    }
  }
}
