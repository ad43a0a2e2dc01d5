/**
 * What a cancel on the grid does: the part of the frame already sent joins the rest of any longer frame sent next,
 * under the one id they share. With this, safety after a cancel is decided by where the withdrawn part ends.
 */
module CancelTrap {
  import opened Bytes
  import opened Lists
  import opened FragmentWire
  import opened InOrderLog
  import D = Disassembler
  import opened DisassemblerRuns
  import opened CancelRuns
  import A = Assembler
  import opened Reassembly

  // ------------------------------------------------------------------ frames cut on the grid

  /** The `q`-th point of the grid: `q` times the capacity. */
  function Grid(q: nat, capacity: nat): nat {
    if q == 0 then 0 else Grid(q - 1, capacity) + capacity
  }

  lemma {:induction false} GridIsProduct(q: nat, capacity: nat)
    ensures Grid(q, capacity) == q * capacity
  {
    if q > 0 {
      GridIsProduct(q - 1, capacity);
      assert q * capacity == (q - 1) * capacity + capacity;
    }
  }

  lemma GridBelow(q: nat, capacity: nat, n: nat)
    requires capacity > 0 && Grid(q, capacity) < n
    ensures q < DivideUp(n, capacity)
  {
    GridIsProduct(q, capacity);
    BelowDivideUp(q, n, capacity);
  }

  function Cell(id: nat, h: seq<Byte>, from: nat, to: nat, isLast: bool): (p: seq<Byte>)
    requires from <= to <= |h| < UINT16_RANGE && id < UINT16_RANGE
  {
    EncodeChunk(Chunk(id, from, isLast, h[from..to]))
  }

  /** The packets of the first `q` whole cells of `h`, one chunk each. */
  function Whole(capacity: nat, id: nat, h: seq<Byte>, q: nat): (ps: seq<seq<Byte>>)
    requires capacity > 0 && Grid(q, capacity) <= |h| < UINT16_RANGE && id < UINT16_RANGE
  {
    if q == 0 then [] else
      var n := Grid(q - 1, capacity);
      Whole(capacity, id, h, q - 1) + [Cell(id, h, n, n + capacity, false)]
  }

  /** The packets of the rest of `h`, the last one marked. */
  function Rest(capacity: nat, id: nat, h: seq<Byte>, from: nat): (ps: seq<seq<Byte>>)
    requires capacity > 0 && from <= |h| < UINT16_RANGE && id < UINT16_RANGE
    decreases |h| - from
  {
    if |h| - from <= capacity then [Cell(id, h, from, |h|, true)]
    else [Cell(id, h, from, from + capacity, false)] + Rest(capacity, id, h, from + capacity)
  }

  /** Whole cells of two frames that begin alike are the same packets. */
  lemma {:induction false} SameWhole(capacity: nat, id: nat, f: seq<Byte>, h: seq<Byte>, q: nat)
    requires capacity > 0 && id < UINT16_RANGE
    requires Grid(q, capacity) <= |f| < UINT16_RANGE && Grid(q, capacity) <= |h| < UINT16_RANGE
    requires f[..Grid(q, capacity)] == h[..Grid(q, capacity)]
    ensures Whole(capacity, id, f, q) == Whole(capacity, id, h, q)
  {
    if q > 0 {
      var n := Grid(q - 1, capacity);
      assert f[..n] == f[..n + capacity][..n] == h[..n];
      SameWhole(capacity, id, f, h, q - 1);
      assert f[n..n + capacity] == f[..n + capacity][n..] == h[n..n + capacity];
    }
  }

  lemma {:induction false} SameRest(capacity: nat, id: nat, g: seq<Byte>, h: seq<Byte>, from: nat)
    requires capacity > 0 && id < UINT16_RANGE && from <= |g| == |h| < UINT16_RANGE && g[from..] == h[from..]
    ensures Rest(capacity, id, g, from) == Rest(capacity, id, h, from)
    decreases |h| - from
  {
    if |h| - from > capacity {
      assert g[from..from + capacity] == g[from..][..capacity] == h[from..from + capacity];
      assert g[from + capacity..] == g[from..][capacity..] == h[from + capacity..];
      SameRest(capacity, id, g, h, from + capacity);
    } else {
      assert g[from..|g|] == g[from..] && h[from..|h|] == h[from..];
    }
  }

  lemma {:induction false} RestWithin(capacity: nat, id: nat, g: seq<Byte>, q: nat, p: seq<Byte>)
    requires capacity > 0 && id < UINT16_RANGE && Grid(q, capacity) < |g| < UINT16_RANGE
    requires p in Rest(capacity, id, g, Grid(q, capacity))
    ensures p in Rest(capacity, id, g, 0)
  {
    if q > 0 {
      RestWithin(capacity, id, g, q - 1, p);
    }
  }

  // ------------------------------------------------------------------ what they say to a receiver

  /** So far the packets carry the first `q` cells of `h`, in order. */
  ghost predicate Carried(capacity: nat, id: nat, h: seq<Byte>, q: nat, ps: seq<seq<Byte>>, n: nat)
    requires capacity > 0 && Grid(q, capacity) <= |h|
  {
    var log := PacketLog(ps);
    var r := Reassemble(log);
    && PacketsCarryChunks(ps) && Sequential(log, |h|) && ChunksWithin(log, n)
    && r.frames == [] && |r.partial| == q && Payload(r.partial) == h[..Grid(q, capacity)]
    && (forall i :: 0 <= i < |r.partial| ==> r.partial[i].frameId == id)
  }

  lemma OneChunkPacket(c: Chunk)
    requires c.Fits()
    ensures ParseChunks(EncodeChunk(c)) == [c]
  {
    ParseEncodedFirst(c, []);
    assert EncodeChunk(c) + [] == EncodeChunk(c);
    EmptyPacket();
  }

  /** One more packet with one chunk. */
  lemma LogGrows(ps: seq<seq<Byte>>, c: Chunk)
    requires c.Fits() && PacketsCarryChunks(ps)
    ensures PacketLog(ps + [EncodeChunk(c)]) == PacketLog(ps) + [c] && PacketsCarryChunks(ps + [EncodeChunk(c)])
  {
    hide EncodeChunk, ParseChunks;
    OneChunkPacket(c);
    PacketLogSnoc(ps, EncodeChunk(c));
  }

  lemma CarryCell(capacity: nat, id: nat, h: seq<Byte>, q: nat, ps: seq<seq<Byte>>, n: nat)
    requires capacity > 0 && id < UINT16_RANGE && Grid(q, capacity) <= |h| < UINT16_RANGE
    requires Grid(q, capacity) + capacity < |h|
    requires Carried(capacity, id, h, q, ps, n) && DivideUp(|h|, capacity) <= n
    ensures Carried(capacity, id, h, q + 1,
                    ps + [Cell(id, h, Grid(q, capacity), Grid(q, capacity) + capacity, false)], n)
  {
    hide EncodeChunk, Sequential, ChunksWithin, Reassemble, Payload, PacketLog, DivideUp;
    var from := Grid(q, capacity);
    var c := Chunk(id, from, false, h[from..from + capacity]);
    var log := PacketLog(ps);
    LogGrows(ps, c);
    ReassembleSnoc(log, c);
    PayloadSnoc(Reassemble(log).partial, c);
    SequentialSnoc(log, c, |h|);
    GridBelow(q + 1, capacity, |h|);
    ChunksWithinSnoc(log, c, n);
    assert h[..from] + h[from..from + capacity] == h[..from + capacity];
  }

  lemma CarryLast(capacity: nat, id: nat, h: seq<Byte>, q: nat, ps: seq<seq<Byte>>, n: nat)
    requires capacity > 0 && id < UINT16_RANGE && Grid(q, capacity) <= |h| < UINT16_RANGE && n > 0
    requires Carried(capacity, id, h, q, ps, n)
    ensures var all := ps + [Cell(id, h, Grid(q, capacity), |h|, true)];
            && PacketsCarryChunks(all) && Sequential(PacketLog(all), |h|) && ChunksWithin(PacketLog(all), n)
            && Reassemble(PacketLog(all)).frames == [h]
  {
    hide EncodeChunk, Sequential, ChunksWithin, Reassemble, Payload, PacketLog;
    var from := Grid(q, capacity);
    var c := Chunk(id, from, true, h[from..|h|]);
    var log := PacketLog(ps);
    LogGrows(ps, c);
    ReassembleSnoc(log, c);
    PayloadSnoc(Reassemble(log).partial, c);
    SequentialSnoc(log, c, |h|);
    ChunksWithinSnoc(log, c, n);
    assert h[..from] + h[from..|h|] == h;
  }

  lemma {:induction false} CarryWhole(capacity: nat, id: nat, h: seq<Byte>, q: nat, n: nat)
    requires capacity > 0 && id < UINT16_RANGE && Grid(q, capacity) < |h| < UINT16_RANGE && DivideUp(|h|, capacity) <= n
    ensures Carried(capacity, id, h, q, Whole(capacity, id, h, q), n)
  {
    hide DivideUp, Carried, Cell;
    if q == 0 {
      GridBelow(0, capacity, |h|);
      NothingCarried(capacity, id, h, n);
    } else {
      CarryWhole(capacity, id, h, q - 1, n);
      CarryCell(capacity, id, h, q - 1, Whole(capacity, id, h, q - 1), n);
    }
  }

  lemma NothingCarried(capacity: nat, id: nat, h: seq<Byte>, n: nat)
    requires capacity > 0 && n > 0
    ensures Carried(capacity, id, h, 0, [], n)
  {
    assert PacketLog([]) == [] && h[..0] == [];
  }

  lemma {:induction false} CarryRest(capacity: nat, id: nat, h: seq<Byte>, q: nat, ps: seq<seq<Byte>>, n: nat)
    requires capacity > 0 && id < UINT16_RANGE && Grid(q, capacity) < |h| < UINT16_RANGE && DivideUp(|h|, capacity) <= n
    requires Carried(capacity, id, h, q, ps, n)
    ensures var all := ps + Rest(capacity, id, h, Grid(q, capacity));
            && PacketsCarryChunks(all) && Sequential(PacketLog(all), |h|) && ChunksWithin(PacketLog(all), n)
            && Reassemble(PacketLog(all)).frames == [h]
    decreases |h| - Grid(q, capacity)
  {
    hide Carried, DivideUp, PacketsCarryChunks, Sequential, ChunksWithin, Reassemble, PacketLog, Cell;
    var from := Grid(q, capacity);
    if |h| - from <= capacity {
      GridBelow(q, capacity, |h|);
      CarryLast(capacity, id, h, q, ps, n);
    } else {
      CarryCell(capacity, id, h, q, ps, n);
      var cell := Cell(id, h, from, from + capacity, false);
      CarryRest(capacity, id, h, q + 1, ps + [cell], n);
      assert ps + ([cell] + Rest(capacity, id, h, from + capacity)) ==
             ps + [cell] + Rest(capacity, id, h, from + capacity);
    }
  }

  /** A fresh assembler that gets the cells of `h` emits `h`. */
  lemma CellsYieldFrame(capacity: nat, id: nat, h: seq<Byte>, q: nat, a: A.State)
    requires capacity > 0 && id < UINT16_RANGE && Grid(q, capacity) < |h| < UINT16_RANGE
    requires A.Initial(a) && |h| <= a.mtu && DivideUp(|h|, capacity) <= a.numChunks
    ensures A.Wf(a)
    ensures A.Receive(a, Whole(capacity, id, h, q) + Rest(capacity, id, h, Grid(q, capacity))).outputs == [h]
  {
    hide Carried, DivideUp, Whole, Rest, PacketsCarryChunks, Sequential, ChunksWithin, Reassemble, PacketLog;
    A.InitialWf(a);
    CarryWhole(capacity, id, h, q, a.numChunks);
    CarryRest(capacity, id, h, q, Whole(capacity, id, h, q), a.numChunks);
    SimulatePackets(a, Whole(capacity, id, h, q) + Rest(capacity, id, h, Grid(q, capacity)), |h|);
  }

  // ------------------------------------------------------------------ what the disassembler sends

  /** What one write into an empty packet puts out. */
  lemma WriteCell(cfg: D.Config, st: D.State)
    requires D.ReadyToWrite(cfg, st) && cfg.chunkMtu < 0 && st.out == Some([])
    requires st.inUsed > 0 ==> st.inUsed < |st.input.value|
    ensures var g, from, cap, o := st.input.value, st.inUsed, cfg.Capacity(), D.WriteChunks(cfg, st);
            if |g| - from <= cap then
              && o.frameDone && o.st.input.None? && o.st.frameId == (st.frameId + 1) % UINT16_RANGE
              && ((o.packet == Some(Cell(st.frameId, g, from, |g|, true)) && o.st.out.None?)
                  || (o.packet.None? && o.st.out == Some(Cell(st.frameId, g, from, |g|, true)) && o.st.timer))
            else
              && !o.frameDone && o.st == st.(inUsed := from + cap, out := None, timer := false)
              && o.packet == Some(Cell(st.frameId, g, from, from + cap, false))
  {
    hide EncodeChunk;
    OneChunkPerWrite(cfg, st);
    var c := D.NextChunk(cfg, st.frameId, st.input.value, st.inUsed, 0);
    assert EncodeChunks([c]) == EncodeChunk(c) + EncodeChunks([]) == EncodeChunk(c);
    assert [] + EncodeChunk(c) == EncodeChunk(c);
  }

  lemma ExecuteSnoc(cfg: D.Config, es: seq<D.Event>, e: D.Event)
    requires cfg.Valid()
    ensures Execute(cfg, es + [e]) == Advance(cfg, Execute(cfg, es), e)
    ensures Strays(cfg, es + [e]) == StraysAfter(cfg, Execute(cfg, es), Strays(cfg, es), e)
  {
    assert (es + [e])[..|es|] == es;
  }

  predicate NoCancels(es: seq<D.Event>) {
    forall i :: 0 <= i < |es| ==> !es[i].Cancel?
  }

  /** An output buffer brings out one more cell. */
  lemma RecvCell(cfg: D.Config, r: Run)
    requires cfg.Valid() && cfg.chunkMtu < 0 && D.Consistent(cfg, r.st) && r.st.input.Some? && r.st.out.None?
    requires |r.st.input.value| - r.st.inUsed > cfg.Capacity()
    ensures var g, from, cap := r.st.input.value, r.st.inUsed, cfg.Capacity();
            Advance(cfg, r, D.Recv) == Run(r.st.(inUsed := from + cap, timer := false),
                                           r.packets + [Cell(r.st.frameId, g, from, from + cap, false)], r.frames)
  {
    hide Cell, D.WriteChunks;
    WriteCell(cfg, r.st.(out := Some([])));
  }

  /** An output buffer and a timeout bring out the last cell. */
  lemma RecvLast(cfg: D.Config, r: Run)
    requires cfg.Valid() && cfg.chunkMtu < 0 && D.Consistent(cfg, r.st) && r.st.input.Some? && r.st.out.None?
    requires |r.st.input.value| - r.st.inUsed <= cfg.Capacity()
    ensures D.Consistent(cfg, Advance(cfg, r, D.Recv).st)
    ensures var g, n := r.st.input.value, Advance(cfg, Advance(cfg, r, D.Recv), D.Timeout);
            && n.frames == r.frames + [g] && n.st.input.None? && n.st.out.None?
            && n.packets == r.packets + [Cell(r.st.frameId, g, r.st.inUsed, |g|, true)]
  {
    hide Cell, D.WriteChunks, ParseChunks;
    AdvanceConsistent(cfg, r, D.Recv);
    WriteCell(cfg, r.st.(out := Some([])));
  }

  /** Output buffers and a timeout bring out the rest of a frame begun in an empty packet. */
  lemma {:induction false} SendRest(cfg: D.Config, es: seq<D.Event>) returns (more: seq<D.Event>)
    requires cfg.Valid() && cfg.chunkMtu < 0
    requires var st := Execute(cfg, es).st; st.input.Some? && st.out.None?
    ensures NoCancels(more) && Strays(cfg, es + more) == Strays(cfg, es)
    ensures var r, n := Execute(cfg, es), Execute(cfg, es + more);
            && n.frames == r.frames + [r.st.input.value] && n.st.input.None? && n.st.out.None?
            && n.packets == r.packets + Rest(cfg.Capacity(), r.st.frameId, r.st.input.value, r.st.inUsed)
    decreases |Execute(cfg, es).st.input.value| - Execute(cfg, es).st.inUsed
  {
    hide Cell, D.WriteChunks, ParseChunks, Advance, Execute, Strays, D.WellFormed;
    var r, cap := Execute(cfg, es), cfg.Capacity();
    var g, from, es1 := r.st.input.value, r.st.inUsed, es + [D.Recv];
    ExecuteSnoc(cfg, es, D.Recv);
    if |g| - from > cap {
      RecvCell(cfg, r);
      var rest := SendRest(cfg, es1);
      more := [D.Recv] + rest;
      assert es + more == es1 + rest;
      var cell := Cell(r.st.frameId, g, from, from + cap, false);
      assert r.packets + [cell] + Rest(cap, r.st.frameId, g, from + cap)
          == r.packets + Rest(cap, r.st.frameId, g, from);
    } else {
      RecvLast(cfg, r);
      ExecuteSnoc(cfg, es1, D.Timeout);
      more := [D.Recv, D.Timeout];
      assert es + more == es1 + [D.Timeout];
    }
  }

  /** The last packets are the whole cells of the frame under way. */
  ghost predicate SentWhole(cfg: D.Config, r: Run, q: nat)
    requires cfg.Valid()
  {
    && r.st.input.Some? && r.st.frameId < UINT16_RANGE && |r.st.input.value| < UINT16_RANGE
    && r.st.inUsed == Grid(q, cfg.Capacity()) <= |r.st.input.value| && q <= |r.packets|
    && r.packets[|r.packets| - q..] == Whole(cfg.Capacity(), r.st.frameId, r.st.input.value, q)
  }

  lemma OneMoreWhole(cfg: D.Config, r: Run, n: Run, q: nat)
    requires cfg.Valid() && SentWhole(cfg, r, q) && r.st.inUsed + cfg.Capacity() <= |r.st.input.value|
    requires n.st == r.st.(inUsed := r.st.inUsed + cfg.Capacity())
    requires n.packets == r.packets
                          + [Cell(r.st.frameId, r.st.input.value, r.st.inUsed, r.st.inUsed + cfg.Capacity(), false)]
    ensures SentWhole(cfg, n, q + 1)
  {
    hide Cell;
    assert n.packets[|n.packets| - (q + 1)..]
        == r.packets[|r.packets| - q..]
           + [Cell(r.st.frameId, r.st.input.value, r.st.inUsed, r.st.inUsed + cfg.Capacity(), false)];
  }

  /** A part-filled packet takes the frame off the grid. */
  lemma OffGrid(cfg: D.Config, st: D.State)
    requires D.ReadyToWrite(cfg, st) && cfg.chunkMtu < 0 && st.inUsed == 0 && st.out.value != []
    ensures var o := D.WriteChunks(cfg, st); o.st.input.Some? ==> !OnGrid(cfg, o.st)
  {
    hide EncodeChunk, EncodeChunks;
    OneChunkPerWrite(cfg, st);
  }

  lemma AdvanceWhole(cfg: D.Config, r: Run, e: D.Event) returns (q: nat)
    requires cfg.Valid() && cfg.chunkMtu < 0 && D.Consistent(cfg, r.st)
    requires r.st.input.Some? && OnGrid(cfg, r.st) ==> exists q :: SentWhole(cfg, r, q)
    ensures var n := Advance(cfg, r, e); n.st.input.Some? && OnGrid(cfg, n.st) ==> SentWhole(cfg, n, q)
  {
    hide Cell, D.WriteChunks, ParseChunks, EncodeChunks;
    q := 0;
    var n := Advance(cfg, r, e);
    if D.Enabled(cfg, r.st, e) && e.Send? && r.st.out.Some? {
      var st := r.st.(input := Some(e.frame), inUsed := 0);
      if r.st.out.value == [] { q := BeginWhole(cfg, Run(st, r.packets, r.frames), n); } else { OffGrid(cfg, st); }
    } else if D.Enabled(cfg, r.st, e) && e.Recv? && r.st.input.Some? {
      if r.st.inUsed == 0 {
        q := BeginWhole(cfg, Run(r.st.(out := Some([])), r.packets, r.frames), n);
      } else {
        q := GoOnWhole(cfg, r, n);
      }
    } else if n.st.input.Some? && OnGrid(cfg, n.st) {
      q :| SentWhole(cfg, r, q);
    }
  }

  lemma BeginWhole(cfg: D.Config, r: Run, n: Run) returns (q: nat)
    requires D.ReadyToWrite(cfg, r.st) && cfg.chunkMtu < 0 && r.st.inUsed == 0 && r.st.out == Some([])
    requires n.st == D.WriteChunks(cfg, r.st).st
    requires var o := D.WriteChunks(cfg, r.st);
             n.packets == if o.packet.Some? then r.packets + [o.packet.value] else r.packets
    ensures n.st.input.Some? ==> SentWhole(cfg, n, q)
  {
    hide Cell, D.WriteChunks;
    WriteCell(cfg, r.st);
    q := 1;
    if |r.st.input.value| > cfg.Capacity() {
      assert r.packets[|r.packets|..] == [];
      OneMoreWhole(cfg, r.(st := r.st.(out := None, timer := false)), n, 0);
    }
  }

  lemma GoOnWhole(cfg: D.Config, r: Run, n: Run) returns (q: nat)
    requires cfg.Valid() && cfg.chunkMtu < 0 && D.Consistent(cfg, r.st) && r.st.input.Some? && r.st.out.None?
    requires r.st.inUsed > 0 && (OnGrid(cfg, r.st) ==> exists q :: SentWhole(cfg, r, q))
    requires var o := D.WriteChunks(cfg, r.st.(out := Some([])));
             && n.st == o.st
             && n.packets == if o.packet.Some? then r.packets + [o.packet.value] else r.packets
    ensures n.st.input.Some? && OnGrid(cfg, n.st) ==> SentWhole(cfg, n, q)
  {
    hide Cell, D.WriteChunks;
    WriteCell(cfg, r.st.(out := Some([])));
    q := 0;
    SameResidue(r.st.inUsed, cfg.Capacity());
    if n.st.input.Some? && OnGrid(cfg, n.st) {
      var p: nat :| SentWhole(cfg, r, p);
      OneMoreWhole(cfg, r, n, p);
      q := p + 1;
    }
  }

  lemma {:induction false} GridIsSent(cfg: D.Config, es: seq<D.Event>) returns (q: nat)
    requires cfg.Valid() && cfg.chunkMtu < 0
    ensures var r := Execute(cfg, es); r.st.input.Some? && OnGrid(cfg, r.st) ==> SentWhole(cfg, r, q)
  {
    hide SentWhole, D.Consistent, Advance;
    q := 0;
    if es != [] {
      var p := GridIsSent(cfg, es[..|es| - 1]);
      q := AdvanceWhole(cfg, Execute(cfg, es[..|es| - 1]), es[|es| - 1]);
    }
  }

  // ------------------------------------------------------------------ frames that get mixed

  /** The state right after the cancel and the next frame. */
  lemma CancelAndSend(cfg: D.Config, es: seq<D.Event>, g: seq<Byte>)
    requires cfg.Valid() && Execute(cfg, es).st.input.Some? && |g| <= cfg.inputMtu
    ensures var r, n := Execute(cfg, es), Execute(cfg, es + [D.Cancel] + [D.Send(g)]);
            && r.st.out.None? && n == r.(st := r.st.(input := Some(g), inUsed := 0))
    ensures Execute(cfg, es).st.inUsed > 0 ==>
              Strays(cfg, es + [D.Cancel] + [D.Send(g)]) == Strays(cfg, es) + {|Execute(cfg, es).frames|}
  {
    hide D.WriteChunks, ParseChunks, Execute, Strays, D.WellFormed;
    ExecuteSnoc(cfg, es, D.Cancel);
    ExecuteSnoc(cfg, es + [D.Cancel], D.Send(g));
  }

  /** The first cells of the withdrawn frame and the other cells of the next one are all among the packets sent. */
  lemma AllWereSent(capacity: nat, id: nat, f: seq<Byte>, g: seq<Byte>, q: nat, before: seq<seq<Byte>>, p: seq<Byte>)
    requires capacity > 0 && id < UINT16_RANGE && Grid(q, capacity) <= |f| < UINT16_RANGE
    requires Grid(q, capacity) < |g| < UINT16_RANGE
    requires q <= |before| && before[|before| - q..] == Whole(capacity, id, f, q)
    requires p in Whole(capacity, id, f, q) + Rest(capacity, id, g, Grid(q, capacity))
    ensures p in before + Rest(capacity, id, g, 0)
  {
    hide Whole, Rest;
    if p in Whole(capacity, id, f, q) {
      assert p in before[|before| - q..];
    } else {
      RestWithin(capacity, id, g, q, p);
    }
  }

  /** The cells of two frames make one frame. */
  lemma MixedCells(capacity: nat, id: nat, f: seq<Byte>, g: seq<Byte>, q: nat, a: A.State)
    requires capacity > 0 && id < UINT16_RANGE && Grid(q, capacity) <= |f| < UINT16_RANGE
    requires Grid(q, capacity) < |g| < UINT16_RANGE
    requires A.Initial(a) && |g| <= a.mtu && DivideUp(|g|, capacity) <= a.numChunks
    ensures A.Wf(a)
    ensures A.Receive(a, Whole(capacity, id, f, q) + Rest(capacity, id, g, Grid(q, capacity))).outputs
         == [f[..Grid(q, capacity)] + g[Grid(q, capacity)..]]
  {
    hide Whole, Rest, DivideUp, A.Receive, A.Initial, A.Wf;
    var n := Grid(q, capacity);
    var h := f[..n] + g[n..];
    assert h[..n] == f[..n] && h[n..] == g[n..];
    SameWhole(capacity, id, f, h, q);
    SameRest(capacity, id, g, h, n);
    CellsYieldFrame(capacity, id, h, q, a);
  }

  /** What was sent after the cancel, and what of it is to be delivered. */
  lemma SendNext(cfg: D.Config, es: seq<D.Event>, g: seq<Byte>, q: nat)
    returns (more: seq<D.Event>, delivered: seq<seq<Byte>>)
    requires cfg.Valid() && cfg.chunkMtu < 0 && SentWhole(cfg, Execute(cfg, es), q) && q > 0
    requires Execute(cfg, es).st.inUsed < |g| <= cfg.inputMtu
    ensures NoCancels(more)
    ensures var r := Execute(cfg, es);
            delivered == Whole(cfg.Capacity(), r.st.frameId, r.st.input.value, q)
                         + Rest(cfg.Capacity(), r.st.frameId, g, Grid(q, cfg.Capacity()))
    ensures var r, n := Execute(cfg, es), Execute(cfg, es + [D.Cancel] + more);
            && n.frames == r.frames + [g] && n.st.input.None?
            && (forall k :: 0 <= k < |delivered| ==> delivered[k] in n.packets)
    ensures Strays(cfg, es + [D.Cancel] + more) == Strays(cfg, es) + {|Execute(cfg, es).frames|}
  {
    hide D.WriteChunks, ParseChunks, Execute, Strays, D.WellFormed, Whole, Rest;
    var r, cap := Execute(cfg, es), cfg.Capacity();
    CancelAndSend(cfg, es, g);
    var sent := es + [D.Cancel] + [D.Send(g)];
    var rest := SendRest(cfg, sent);
    more := [D.Send(g)] + rest;
    assert sent + rest == es + [D.Cancel] + more;
    delivered := Whole(cap, r.st.frameId, r.st.input.value, q) + Rest(cap, r.st.frameId, g, Grid(q, cap));
    forall k | 0 <= k < |delivered| ensures delivered[k] in r.packets + Rest(cap, r.st.frameId, g, 0) {
      AllWereSent(cap, r.st.frameId, r.st.input.value, g, q, r.packets, delivered[k]);
    }
  }

  /**
   * After any run, if a frame `f` is withdrawn when a whole number of cells of it was sent, and any longer frame `g` is
   * sent next, then some of the packets make a fresh assembler emit the beginning of `f` with the end of `g`.
   */
  lemma OnGridCancelMixesFrames(cfg: D.Config, es: seq<D.Event>, g: seq<Byte>, a: A.State)
    returns (more: seq<D.Event>, delivered: seq<seq<Byte>>)
    requires cfg.Valid() && cfg.chunkMtu < 0
    requires Execute(cfg, es).st.input.Some? && OnGrid(cfg, Execute(cfg, es).st)
    requires Execute(cfg, es).st.inUsed < |g| <= cfg.inputMtu
    requires A.Initial(a) && |g| <= a.mtu && DivideUp(|g|, cfg.Capacity()) <= a.numChunks
    ensures NoCancels(more) && A.Wf(a)
    ensures var r, n := Execute(cfg, es), Execute(cfg, es + [D.Cancel] + more);
            && Contributing(n) == n.frames == r.frames + [g] && n.st.input.None?
            && (forall k :: 0 <= k < |delivered| ==> delivered[k] in n.packets)
            && r.st.inUsed <= |r.st.input.value|
            && A.Receive(a, delivered).outputs == [r.st.input.value[..r.st.inUsed] + g[r.st.inUsed..]]
    ensures Strays(cfg, es + [D.Cancel] + more) == Strays(cfg, es) + {|Execute(cfg, es).frames|}
  {
    hide Execute, Strays, D.Consistent, Whole, Rest, DivideUp, A.Receive, A.Initial, A.Wf;
    var r := Execute(cfg, es);
    var q := GridIsSent(cfg, es);
    more, delivered := SendNext(cfg, es, g, q);
    MixedCells(cfg.Capacity(), r.st.frameId, r.st.input.value, g, q, a);
  }

  /** For example: the first packet of any frame too long for it, and all but the first of the next frame. */
  lemma MidFrameCancelMixesFrames(cfg: D.Config, f: seq<Byte>, g: seq<Byte>, a: A.State)
    returns (more: seq<D.Event>, delivered: seq<seq<Byte>>)
    requires cfg.Valid() && cfg.chunkMtu < 0
    requires cfg.Capacity() < |f| <= cfg.inputMtu && cfg.Capacity() < |g| <= cfg.inputMtu
    requires A.Initial(a) && |g| <= a.mtu && DivideUp(|g|, cfg.Capacity()) <= a.numChunks
    ensures A.Wf(a)
    ensures var n := Execute(cfg, [D.Send(f), D.Recv, D.Cancel] + more);
            && Contributing(n) == [g]
            && (forall k :: 0 <= k < |delivered| ==> delivered[k] in n.packets)
            && A.Receive(a, delivered).outputs == [f[..cfg.Capacity()] + g[cfg.Capacity()..]]
  {
    hide D.WriteChunks, ParseChunks, Execute, Strays, D.WellFormed, DivideUp, A.Receive, A.Initial, A.Wf;
    var es := [D.Send(f), D.Recv];
    FirstCell(cfg, f);
    more, delivered := OnGridCancelMixesFrames(cfg, es, g, a);
    assert es + [D.Cancel] + more == [D.Send(f), D.Recv, D.Cancel] + more;
  }

  lemma FirstCell(cfg: D.Config, f: seq<Byte>)
    requires cfg.Valid() && cfg.chunkMtu < 0 && cfg.Capacity() < |f| <= cfg.inputMtu
    ensures var r := Execute(cfg, [D.Send(f), D.Recv]);
            && r.st.input == Some(f) && r.st.inUsed == cfg.Capacity() && OnGrid(cfg, r.st) && r.frames == []
  {
    hide D.WriteChunks, ParseChunks, D.WellFormed, Execute;
    assert [] + [D.Send(f)] == [D.Send(f)] && [D.Send(f)] + [D.Recv] == [D.Send(f), D.Recv];
    ExecuteSnoc(cfg, [], D.Send(f));
    ExecuteSnoc(cfg, [D.Send(f)], D.Recv);
    assert Execute(cfg, []) == START by { NoEvents(cfg); }
    RecvCell(cfg, Execute(cfg, [D.Send(f)]));
    Remainder(cfg.Capacity(), cfg.Capacity(), 1, 0);
  }

  lemma NoEvents(cfg: D.Config)
    requires cfg.Valid()
    ensures Execute(cfg, []) == START
  {
  }

  // ------------------------------------------------------------------ when a cancel is safe

  /** Whatever is sent after the run and whatever of it arrives, only frames put in are emitted. */
  ghost predicate SafeHereafter(cfg: D.Config, es: seq<D.Event>)
    requires cfg.Valid()
  {
    forall more: seq<D.Event>, a: A.State, delivered: seq<seq<Byte>> ::
      && NoCancels(more) && IdsUsed(Execute(cfg, es + more), Strays(cfg, es + more)) <= UINT16_RANGE
      && A.Initial(a) && (forall k :: 0 <= k < |delivered| ==> delivered[k] in Execute(cfg, es + more).packets)
      ==> A.Wf(a) && AllIn(A.Receive(a, delivered).outputs, Contributing(Execute(cfg, es + more)))
  }

  lemma {:induction false} StillHarmless(cfg: D.Config, es: seq<D.Event>, more: seq<D.Event>)
    requires cfg.Valid() && HarmlessCancels(cfg, es) && NoCancels(more)
    ensures HarmlessCancels(cfg, es + more)
    decreases |more|
  {
    if more == [] {
      assert es + more == es;
    } else {
      var n := |more| - 1;
      StillHarmless(cfg, es, more[..n]);
      assert (es + more)[..|es| + n] == es + more[..n];
      assert (es + more)[|es| + n] == more[n];
    }
  }

  /** The smallest assembler for frames of `h`'s size. */
  function SmallAssembler(h: seq<Byte>, chunks: nat): (a: A.State)
    requires chunks > 0
    ensures A.Initial(a) && a.mtu == |h| && a.numChunks == chunks
  {
    A.State(|h|, chunks, 0, [A.NewEntry(0, 0, h)], [0], [], map[])
  }

  /** A frame that begins unlike `f` and ends in `t`. */
  function Unlike(f: seq<Byte>, n: nat, t: seq<Byte>): (g: seq<Byte>)
    requires 0 < n <= |f|
    ensures |g| == n + |t| && g[n..] == t && g != f[..n] + t
  {
    var first: int := f[0];
    var g := [(first + 1) % 256] + f[1..n] + t;
    assert g[0] != (f[..n] + t)[0];
    g
  }

  lemma UnsafeOnGrid(cfg: D.Config, es: seq<D.Event>, t: seq<Byte>)
    requires cfg.Valid() && cfg.chunkMtu < 0 && IdsUsed(Execute(cfg, es), Strays(cfg, es)) <= UINT16_RANGE
    requires Execute(cfg, es).st.input.Some? && OnGrid(cfg, Execute(cfg, es).st)
    requires var st := Execute(cfg, es).st;
             && t != [] && st.inUsed + |t| <= cfg.inputMtu && st.inUsed <= |st.input.value|
             && st.input.value[..st.inUsed] + t !in Execute(cfg, es).frames
    ensures !SafeHereafter(cfg, es + [D.Cancel])
  {
    hide Execute, Strays, D.Consistent, DivideUp, A.Receive, A.Initial, A.Wf, Unlike, SmallAssembler;
    var r := Execute(cfg, es);
    var f, n := r.st.input.value, r.st.inUsed;
    var g := Unlike(f, n, t);
    GridBelow(0, cfg.Capacity(), |g|);
    var a := SmallAssembler(g, DivideUp(|g|, cfg.Capacity()));
    var more, delivered := OnGridCancelMixesFrames(cfg, es, g, a);
    StraysBounded(cfg, es);
    var w := Execute(cfg, es + [D.Cancel] + more);
    assert A.Receive(a, delivered).outputs[0] == f[..n] + t;
    assert !AllIn(A.Receive(a, delivered).outputs, Contributing(w));
  }

  lemma SafeOffGrid(cfg: D.Config, es: seq<D.Event>)
    requires cfg.Valid() && cfg.chunkMtu < 0 && HarmlessCancels(cfg, es)
    requires !OnGrid(cfg, Execute(cfg, es).st)
    ensures SafeHereafter(cfg, es + [D.Cancel])
  {
    hide Execute, Strays, A.Receive, A.Initial, A.Wf, IdsUsed;
    var es1 := es + [D.Cancel];
    assert es1[..|es|] == es;
    assert HarmlessCancels(cfg, es1);
    forall more: seq<D.Event>, a: A.State, delivered: seq<seq<Byte>> |
      && NoCancels(more) && IdsUsed(Execute(cfg, es1 + more), Strays(cfg, es1 + more)) <= UINT16_RANGE
      && A.Initial(a) && (forall k :: 0 <= k < |delivered| ==> delivered[k] in Execute(cfg, es1 + more).packets)
      ensures A.Wf(a) && AllIn(A.Receive(a, delivered).outputs, Contributing(Execute(cfg, es1 + more)))
    {
      StillHarmless(cfg, es1, more);
      SafetyDespiteCancels(cfg, es1 + more, a, delivered);
    }
  }

  /**
   * Without a chunk limit, a cancel leaves the receiver safe exactly if what was sent of the frame is not a whole
   * number of packet capacities (or nothing was). The frame may be completed by some `t` to one never sent: if every
   * completion had been sent before, a mixed frame could not be told from a true one.
   */
  lemma CancelIsSafeIff(cfg: D.Config, es: seq<D.Event>, t: seq<Byte>)
    requires cfg.Valid() && cfg.chunkMtu < 0 && HarmlessCancels(cfg, es)
    requires IdsUsed(Execute(cfg, es), Strays(cfg, es)) <= UINT16_RANGE && Execute(cfg, es).st.input.Some?
    requires var st := Execute(cfg, es).st;
             && st.inUsed <= |st.input.value| && t != [] && st.inUsed + |t| <= cfg.inputMtu
             && st.input.value[..st.inUsed] + t !in Execute(cfg, es).frames
    ensures SafeHereafter(cfg, es + [D.Cancel]) <==> !OnGrid(cfg, Execute(cfg, es).st)
  {
    hide Execute, Strays, SafeHereafter, IdsUsed;
    if OnGrid(cfg, Execute(cfg, es).st) { UnsafeOnGrid(cfg, es, t); } else { SafeOffGrid(cfg, es); }
  }
}
