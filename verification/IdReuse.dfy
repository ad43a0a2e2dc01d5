/** Frames without number: ids are used again after 65536 frames, and safely so if old packets do not come too late. */
module IdReuse {
  import opened Bytes
  import opened FragmentWire
  import opened InOrderLog
  import D = Disassembler
  import opened DisassemblerRuns
  import opened Assembler
  import opened Reassembly
  import opened FrameHistory

  // ------------------------------------------------------------------ any stream whose equal ids are far apart

  /** Each arrival is a true part of the frame with its number. */
  ghost predicate Labelled(log: seq<Arrival>, frames: seq<seq<Byte>>, number: Arrival -> nat) {
    forall x :: x in log ==> number(x) < |frames| && Tells(x.chunk, frames[number(x)])
  }

  /** Within `gap` packets an id stands for one frame. */
  ghost predicate FarApart(log: seq<Arrival>, number: Arrival -> nat, gap: nat) {
    forall x, y :: x in log && y in log && x.chunk.frameId == y.chunk.frameId && 0 <= y.at - x.at <= gap ==>
      number(x) == number(y)
  }

  lemma {:induction false} OneNumber(parts: seq<Arrival>, log: seq<Arrival>, number: Arrival -> nat, gap: nat, i: nat)
    requires i < |parts| && Continuous(parts, gap) && FarApart(log, number, gap)
    requires forall x :: x in parts ==> x in log && x.chunk.frameId == parts[0].chunk.frameId
    ensures number(parts[i]) == number(parts[0])
  {
    if i > 0 {
      OneNumber(parts, log, number, gap, i - 1);
      assert parts[i] in parts && parts[i - 1] in parts;
    }
  }

  /** Parts that all belong to one frame make that frame. */
  lemma MadeIsFrame(frame: seq<Byte>, parts: seq<Arrival>, whole: seq<Byte>)
    requires MadeOf(frame, parts) && forall i :: 0 <= i < |parts| ==> Tells(parts[i].chunk, whole)
    ensures frame == whole
  {
    var l :| 0 <= l < |parts| && parts[l].chunk.isLast;
    assert Tells(parts[l].chunk, frame) && Tells(parts[l].chunk, whole);
    forall x | 0 <= x < |frame| ensures frame[x] == whole[x] {
      assert PartAt(parts, x);
      var i :| 0 <= i < |parts| && parts[i].chunk.start <= x < parts[i].chunk.End();
      var c := parts[i].chunk;
      assert Tells(c, frame) && Tells(c, whole);
      assert frame[x] == c.payload[x - c.start] == whole[x];
    }
  }

  lemma EmittedIsFrame(frame: seq<Byte>, log: seq<Arrival>, mtu: nat, gap: nat, frames: seq<seq<Byte>>,
                       number: Arrival -> nat)
    requires EmittedFrom(frame, log, mtu, gap) && Labelled(log, frames, number) && FarApart(log, number, gap)
    ensures frame in frames
  {
    hide Under, MadeOf, Continuous;
    var m: nat, n: nat :| EmittedAt(frame, log, mtu, gap, m, n);
    var u := Under(log[..m + 1], log[m].chunk.frameId, mtu);
    var parts := Latest(u, n);
    forall x | x in parts ensures x in log && x.chunk.frameId == parts[0].chunk.frameId {
      assert x in u && parts[0] in u && x in log[..m + 1];
    }
    forall i | 0 <= i < |parts| ensures Tells(parts[i].chunk, frames[number(parts[0])]) {
      OneNumber(parts, log, number, gap, i);
      assert parts[i] in parts;
    }
    assert parts[0] in parts;
    MadeIsFrame(frame, parts, frames[number(parts[0])]);
  }

  /**
   * Whatever the number of frames, only whole frames come out of a stream in which chunks of different frames under
   * the same id are more packets apart than the pool has entries.
   */
  lemma SafeWhenFarApart(a: State, packets: seq<seq<Byte>>, frames: seq<seq<Byte>>, number: Arrival -> nat)
    requires Initial(a) && Labelled(Arrivals(packets), frames, number)
    requires FarApart(Arrivals(packets), number, |a.entries|)
    ensures Wf(a) && AllIn(Receive(a, packets).outputs, frames)
  {
    hide Labelled, FarApart, Arrivals, EmittedFrom, Receive;
    EmittedFromLatest(a, packets);
    var outputs := Receive(a, packets).outputs;
    forall k | 0 <= k < |outputs| ensures outputs[k] in frames {
      EmittedIsFrame(outputs[k], Arrivals(packets), a.mtu, |a.entries|, frames, number);
    }
  }

  // ------------------------------------------------------------------ which frame a chunk of a disassembler is of

  /** The frame that log entry `j` belongs to, counted from 0 without wrapping. */
  function NumberAt(log: seq<Chunk>, j: nat): nat
    requires j <= |log|
  {
    |Reassemble(log[..j]).frames|
  }

  /** Chunk `j` of the log tells the truth about its frame, finished or not. */
  ghost predicate LogTellsAt(log: seq<Chunk>, j: nat)
    requires j < |log|
  {
    var r, n := Reassemble(log), NumberAt(log, j);
    && log[j].frameId == n % UINT16_RANGE
    && (n < |r.frames| ==> Tells(log[j], r.frames[n]))
    && (n >= |r.frames| ==>
          n == |r.frames| && r.partial != [] && !log[j].isLast && Tells(log[j], Payload(r.partial)))
  }

  lemma {:induction false} LogTells(log: seq<Chunk>, mtu: nat, j: nat)
    requires Sequential(log, mtu) && Numbered(log) && j < |log|
    ensures LogTellsAt(log, j)
  {
    hide Reassemble, Payload;
    var n := |log| - 1;
    var before, c := log[..n], log[n];
    var b := Reassemble(before);
    assert log == before + [c];
    ReassembleSnoc(before, c);
    PayloadSnoc(b.partial, c);
    assert before[..j] == log[..j];
    if j < n {
      LogTells(before, mtu, j);
      assert before[j] == log[j];
    } else {
      assert log[..j] == before;
    }
  }

  /** Chunk `i` of packet `p` of a run. */
  function NumberOf(r: Run, p: nat, i: nat): nat
    requires p < |r.packets| && i <= |ParseChunks(r.packets[p])|
  {
    |Reassemble(PacketLog(r.packets[..p]) + ParseChunks(r.packets[p])[..i]).frames|
  }

  /** Where the chunk stands in the log. */
  lemma {:induction false} PlaceInLog(packets: seq<seq<Byte>>, p: nat)
    requires p < |packets|
    ensures PacketLog(packets[..p]) + ParseChunks(packets[p]) <= PacketLog(packets)
  {
    hide ParseChunks;
    var n := |packets| - 1;
    if p < n {
      PlaceInLog(packets[..n], p);
      assert packets[..n][..p] == packets[..p];
    }
  }

  /** Every chunk of a packet tells the truth about the frame it is numbered with. */
  lemma ChunkTells(cfg: D.Config, es: seq<D.Event>, p: nat, i: nat)
    requires cfg.Valid() && NoMidFrameCancel(cfg, es)
    requires var r := Execute(cfg, es); p < |r.packets| && i < |ParseChunks(r.packets[p])|
    ensures var r := Execute(cfg, es); var n, c := NumberOf(r, p, i), ParseChunks(r.packets[p])[i];
            c.frameId == n % UINT16_RANGE && n < |Contributing(r)| && Tells(c, Contributing(r)[n])
  {
    hide Execute, ParseChunks, PacketLog, Reassemble, Sequential, Numbered, Payload;
    LogIsInputInOrder(cfg, es);
    var r := Execute(cfg, es);
    var start, cs, log := PacketLog(r.packets[..p]), ParseChunks(r.packets[p]), Log(r);
    PlaceInLog(r.packets, p);
    assert start + cs <= log;
    var j := |start| + i;
    assert log[j] == (start + cs)[j] == cs[i];
    assert log[..j] == (start + cs)[..j] == start + cs[..i];
    LogTells(log, cfg.inputMtu, j);
  }

  // ------------------------------------------------------------------ any selection of a disassembler's packets

  /** The packets delivered: packet `picks[k]` of the run is the `k`th to arrive. */
  function Delivered(r: Run, picks: seq<nat>): (s: seq<seq<Byte>>)
    requires forall k :: 0 <= k < |picks| ==> picks[k] < |r.packets|
    ensures |s| == |picks|
  {
    seq(|picks|, k requires 0 <= k < |picks| => r.packets[picks[k]])
  }

  predicate LessThanWrap(x: nat, y: nat) {
    x < y + UINT16_RANGE && y < x + UINT16_RANGE
  }

  /** Packets that arrive at most `gap` apart are of frames fewer than 65536 apart. */
  ghost predicate InWindow(r: Run, picks: seq<nat>, gap: nat)
    requires forall k :: 0 <= k < |picks| ==> picks[k] < |r.packets|
  {
    forall k, l, i, j ::
      && 0 <= k <= l < |picks| && l - k <= gap
      && 0 <= i < |ParseChunks(r.packets[picks[k]])| && 0 <= j < |ParseChunks(r.packets[picks[l]])| ==>
        LessThanWrap(NumberOf(r, picks[k], i), NumberOf(r, picks[l], j))
  }

  function Number(r: Run, picks: seq<nat>, x: Arrival): nat {
    if x.at < |picks| && picks[x.at] < |r.packets| && x.index <= |ParseChunks(r.packets[picks[x.at]])|
    then NumberOf(r, picks[x.at], x.index) else 0
  }

  lemma {:induction false} ArrivalIs(packets: seq<seq<Byte>>, x: Arrival)
    requires x in Arrivals(packets)
    ensures x.at < |packets| && x.index < |ParseChunks(packets[x.at])| && x.chunk == ParseChunks(packets[x.at])[x.index]
  {
    hide ParseChunks;
    var n := |packets| - 1;
    if x in Arrivals(packets[..n]) { ArrivalIs(packets[..n], x); }
  }

  /**
   * Safety for any number of frames. Lose, repeat and reorder the packets of any run in which no partly written frame
   * is withdrawn: as long as packets that arrive close to each other are of frames fewer than 65536 apart, whatever
   * the assembler emits is one of the frames put in. Close means within as many packets as the pool has entries.
   */
  lemma SafetyBeyondWrap(cfg: D.Config, es: seq<D.Event>, a: State, picks: seq<nat>)
    requires cfg.Valid() && NoMidFrameCancel(cfg, es) && Initial(a)
    requires forall k :: 0 <= k < |picks| ==> picks[k] < |Execute(cfg, es).packets|
    requires InWindow(Execute(cfg, es), picks, |a.entries|)
    ensures var r := Execute(cfg, es);
            Wf(a) && AllIn(Receive(a, Delivered(r, picks)).outputs, Contributing(r))
  {
    hide Execute, ParseChunks, Arrivals, NumberOf, Tells;
    var r, gap := Execute(cfg, es), |a.entries|;
    var packets := Delivered(r, picks);
    var number := (x: Arrival) => Number(r, picks, x);
    var log := Arrivals(packets);
    forall x | x in log ensures number(x) < |Contributing(r)| && Tells(x.chunk, Contributing(r)[number(x)])
                                && x.chunk.frameId == number(x) % UINT16_RANGE
    {
      ArrivalIs(packets, x);
      ChunkTells(cfg, es, picks[x.at], x.index);
    }
    forall x, y | x in log && y in log && x.chunk.frameId == y.chunk.frameId && 0 <= y.at - x.at <= gap
      ensures number(x) == number(y)
    {
      ArrivalIs(packets, x);
      ArrivalIs(packets, y);
      SameModulo(number(x), number(y));
    }
    SafeWhenFarApart(a, packets, Contributing(r), number);
  }

  lemma SameModulo(x: nat, y: nat)
    requires x % UINT16_RANGE == y % UINT16_RANGE && LessThanWrap(x, y)
    ensures x == y
  {
  }
}
