/** FragmentProtoDisassembler as a state machine over its events. */
module Disassembler {
  import opened Bytes
  import opened Lists
  import opened FragmentWire

  datatype Config = Config(inputMtu: nat, outputMtu: nat, chunkMtu: int, latency: int) {
    predicate Valid() {
      inputMtu < UINT16_RANGE && outputMtu > HEADER_SIZE && chunkMtu != 0
    }

    /** Payload room of an empty packet. */
    function Capacity(): int {
      outputMtu - HEADER_SIZE
    }

    predicate HasRoom(outUsed: nat) {
      outUsed + HEADER_SIZE < outputMtu
    }

    function ChunkLength(inAvail: nat, outUsed: nat): (n: nat)
      requires Valid() && HasRoom(outUsed)
      ensures n <= inAvail && outUsed + HEADER_SIZE + n <= outputMtu && (inAvail > 0 ==> n > 0)
    {
      var room := outputMtu - outUsed - HEADER_SIZE;
      var n := if inAvail < room then inAvail else room;
      if 0 < chunkMtu < n then chunkMtu else n
    }
  }

  /** `input`/`inUsed`: the frame being cut; `out`: the packet being filled; both None when absent. */
  datatype State = State(input: Option<seq<Byte>>, inUsed: nat, out: Option<seq<Byte>>, frameId: nat, timer: bool)

  const INITIAL := State(None, 0, None, 0, false)

  datatype Outcome = Outcome(st: State, packet: Option<seq<Byte>>, frameDone: bool)

  function NextChunk(cfg: Config, id: nat, frame: seq<Byte>, inUsed: nat, outUsed: nat): (c: Chunk)
    requires cfg.Valid() && cfg.HasRoom(outUsed) && inUsed <= |frame| <= cfg.inputMtu && id < UINT16_RANGE
    ensures c.Fits() && outUsed + HEADER_SIZE + |c.payload| <= cfg.outputMtu
    ensures PieceOf(c, id, frame) && c.start == inUsed && (!c.isLast ==> c.payload != [])
  {
    var n := cfg.ChunkLength(|frame| - inUsed, outUsed);
    Chunk(id, inUsed, n == |frame| - inUsed, frame[inUsed..inUsed + n])
  }

  /** A chunk that tells the truth about `frame`. */
  predicate PieceOf(c: Chunk, id: nat, frame: seq<Byte>) {
    && c.frameId == id
    && c.End() <= |frame|
    && c.payload == frame[c.start..c.End()]
    && (c.isLast <==> c.End() == |frame|)
  }

  /** The chunks one call of `write_chunks` puts into the packet. */
  function CutChunks(cfg: Config, id: nat, frame: seq<Byte>, inUsed: nat, outUsed: nat): (cs: seq<Chunk>)
    requires cfg.Valid() && cfg.HasRoom(outUsed) && inUsed <= |frame| <= cfg.inputMtu && id < UINT16_RANGE
    ensures cs != [] && AllFit(cs)
    decreases |frame| - inUsed
  {
    var c := NextChunk(cfg, id, frame, inUsed, outUsed);
    var used := outUsed + HEADER_SIZE + |c.payload|;
    if c.isLast || !cfg.HasRoom(used) then [c]
    else [c] + CutChunks(cfg, id, frame, c.End(), used)
  }

  predicate WellFormed(out: seq<Byte>) {
    out == EncodeChunks(ParseChunks(out))
  }

  /** What holds between any two events. */
  predicate Consistent(cfg: Config, st: State) {
    && st.frameId < UINT16_RANGE
    && !(st.input.Some? && st.out.Some?)
    && (st.input.Some? ==> st.inUsed <= |st.input.value| <= cfg.inputMtu &&
                           (st.inUsed > 0 ==> st.inUsed < |st.input.value|))
    && (st.out.Some? ==> cfg.HasRoom(|st.out.value|) && WellFormed(st.out.value))
    && (st.timer <==> st.out.Some? && st.out.value != [])
    && (st.timer ==> cfg.latency >= 0)
  }

  predicate ReadyToWrite(cfg: Config, st: State) {
    && cfg.Valid() && st.frameId < UINT16_RANGE
    && st.input.Some? && st.inUsed <= |st.input.value| <= cfg.inputMtu
    && st.out.Some? && cfg.HasRoom(|st.out.value|)
  }

  function WriteChunks(cfg: Config, st: State): Outcome
    requires ReadyToWrite(cfg, st)
  {
    var cs := CutChunks(cfg, st.frameId, st.input.value, st.inUsed, |st.out.value|);
    var last := cs[|cs| - 1];
    var out := st.out.value + EncodeChunks(cs);
    var st1 := if last.isLast then st.(input := None, inUsed := last.End(), frameId := (st.frameId + 1) % UINT16_RANGE)
               else st.(inUsed := last.End());
    if !cfg.HasRoom(|out|) || cfg.latency < 0 then
      Outcome(st1.(out := None, timer := false), Some(out), last.isLast)
    else
      Outcome(st1.(out := Some(out), timer := true), None, last.isLast)
  }

  datatype Event = Send(frame: seq<Byte>) | Recv | Timeout | Cancel

  predicate Enabled(cfg: Config, st: State, e: Event) {
    match e
    case Send(frame) => st.input.None? && |frame| <= cfg.inputMtu
    case Recv => st.out.None?
    case Timeout => st.timer
    case Cancel => st.input.Some?
  }

  function Handle(cfg: Config, st: State, e: Event): Outcome
    requires cfg.Valid() && Consistent(cfg, st) && Enabled(cfg, st, e)
  {
    match e
    case Send(frame) =>
      var st1 := st.(input := Some(frame), inUsed := 0);
      if st1.out.Some? then WriteChunks(cfg, st1) else Outcome(st1, None, false)
    case Recv =>
      var st1 := st.(out := Some([]));
      if st1.input.Some? then WriteChunks(cfg, st1) else Outcome(st1, None, false)
    case Timeout => Outcome(st.(out := None, timer := false), st.out, false)
    case Cancel => Outcome(st.(input := None), None, false)
  }
}
