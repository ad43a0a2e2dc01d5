/**
 * Where an emitted frame comes from: the latest chunks that arrived under its id, without a gap longer than the pool
 * tolerates. So ids may be used again, for any number of frames, once the old ones are far enough away.
 */
module FrameHistory {
  import opened Bytes
  import opened Lists
  import opened FragmentWire
  import opened IntervalCover
  import opened Assembler

  // ------------------------------------------------------------------ a frame that is too old

  /** What a chunk that begins a frame leads to: it is the whole frame, or nothing is emitted. */
  function Alone(c: Chunk, mtu: nat): Option<seq<Byte>> {
    if c.start == 0 && c.isLast && |c.payload| <= mtu then Some(c.payload) else None
  }

  /** What finding the frame of a chunk changes. */
  lemma FindShape(a: State, id: nat)
    requires Wf(a)
    ensures var b := FindFrame(a, id);
            && b.time == a.time && b.mtu == a.mtu && b.numChunks == a.numChunks && |b.entries| == |a.entries|
            && b.tree[id] in b.used
            && (forall j :: j in b.used && j != b.tree[id] ==>
                  j in a.used && j < |a.entries| && j < |b.entries| && b.entries[j] == a.entries[j])
  {
    hide ChunksOk, Complete, Without, Distinct, EntriesOk;
  }

  /** A frame that was not touched for more packets than there are entries is not continued. */
  lemma FindStale(a: State, id: nat)
    requires Wf(a)
    requires id in a.tree ==> a.time - a.entries[a.tree[id]].time > |a.entries|
    ensures var b := FindFrame(a, id);
            && b.tree[id] < |b.entries|
            && b.entries[b.tree[id]] == NewEntry(id, a.time, b.entries[b.tree[id]].buffer)
  {
    hide ChunksOk, Without, Distinct;
  }

  lemma FindRecent(a: State, id: nat)
    requires Wf(a) && id in a.tree && a.time - a.entries[a.tree[id]].time <= |a.entries|
    ensures FindFrame(a, id) == a
  {
  }

  /** Nothing that arrived before is emitted with a chunk whose frame is unknown or too old. */
  lemma StaleStartsAfresh(a: State, c: Chunk)
    requires Wf(a)
    requires c.frameId in a.tree ==> a.time - a.entries[a.tree[c.frameId]].time > |a.entries|
    ensures ProcessChunk(a, c).output == Alone(c, a.mtu)
  {
    hide Wf;
    if c.End() <= a.mtu {
      FindStale(a, c.frameId);
      FindShape(a, c.frameId);
      FirstChunk(FindFrame(a, c.frameId), c);
    }
  }

  lemma FirstChunk(b: State, c: Chunk)
    requires Wf(b) && c.frameId in b.tree && c.End() <= b.mtu && b.tree[c.frameId] < |b.entries|
    requires var e := b.entries[b.tree[c.frameId]]; e == NewEntry(c.frameId, b.time, e.buffer)
    ensures StoreChunk(b, c).output == Alone(c, b.mtu)
  {
    var e := b.entries[b.tree[c.frameId]];
    assert !Rejects(e, c);
    if c.isLast && c.start == 0 { assert Overwrite(e.buffer, 0, c.payload)[..|c.payload|] == c.payload; }
    hide Wf, FreeFrame, ChunksOk;
  }

  // ------------------------------------------------------------------ arrivals

  /** Chunk number `index` of packet number `at`. */
  datatype Arrival = Arrival(at: nat, index: nat, chunk: Chunk)

  function Stamp(cs: seq<Chunk>, at: nat): (r: seq<Arrival>)
    ensures |r| == |cs|
  {
    seq(|cs|, i requires 0 <= i < |cs| => Arrival(at, i, cs[i]))
  }

  function Arrivals(packets: seq<seq<Byte>>): seq<Arrival> {
    if packets == [] then []
    else Arrivals(packets[..|packets| - 1]) + Stamp(ParseChunks(packets[|packets| - 1]), |packets| - 1)
  }

  /** The arrivals under one id, of chunks within the MTU. */
  function Under(log: seq<Arrival>, id: nat, mtu: nat): (r: seq<Arrival>)
    ensures forall x :: x in r ==> x in log && x.chunk.frameId == id
  {
    if log == [] then []
    else
      var u, x := Under(log[..|log| - 1], id, mtu), log[|log| - 1];
      if x.chunk.frameId == id && x.chunk.End() <= mtu then u + [x] else u
  }

  lemma UnderSnoc(log: seq<Arrival>, x: Arrival, id: nat, mtu: nat)
    ensures Under(log + [x], id, mtu) ==
            if x.chunk.frameId == id && x.chunk.End() <= mtu then Under(log, id, mtu) + [x] else Under(log, id, mtu)
  {
    assert (log + [x])[..|log|] == log;
  }

  function Latest<T>(s: seq<T>, n: nat): seq<T>
    requires n <= |s|
  {
    s[|s| - n..]
  }

  lemma LatestSnoc<T>(s: seq<T>, x: T, n: nat)
    requires n <= |s|
    ensures Latest(s + [x], n + 1) == Latest(s, n) + [x]
  {
  }

  /** Each part arrived at most `gap` packets after the one before it. */
  predicate Continuous(parts: seq<Arrival>, gap: nat) {
    forall i :: 0 < i < |parts| ==> 0 <= parts[i].at - parts[i - 1].at <= gap
  }

  /** The chunk says this about the frame. */
  predicate Tells(c: Chunk, frame: seq<Byte>) {
    c.End() <= |frame| && c.payload == frame[c.start..c.End()] && (c.isLast ==> c.End() == |frame|)
  }

  /** The frame consists of these parts: each is in its place, one is the last, and nothing is missing. */
  ghost predicate MadeOf(frame: seq<Byte>, parts: seq<Arrival>) {
    && (forall i :: 0 <= i < |parts| ==> Tells(parts[i].chunk, frame))
    && (exists i :: 0 <= i < |parts| && parts[i].chunk.isLast)
    && (forall x :: 0 <= x < |frame| ==> PartAt(parts, x))
  }

  ghost predicate PartAt(parts: seq<Arrival>, x: int) {
    exists i :: 0 <= i < |parts| && parts[i].chunk.start <= x < parts[i].chunk.End()
  }

  /** Some moment after `log[m]`, the frame was made of the `n` latest arrivals under the id of that chunk. */
  ghost predicate EmittedAt(frame: seq<Byte>, log: seq<Arrival>, mtu: nat, gap: nat, m: nat, n: nat) {
    && m < |log|
    && var u := Under(log[..m + 1], log[m].chunk.frameId, mtu);
       0 < n <= |u| && MadeOf(frame, Latest(u, n)) && Continuous(Latest(u, n), gap)
  }

  ghost predicate EmittedFrom(frame: seq<Byte>, log: seq<Arrival>, mtu: nat, gap: nat) {
    exists m, n :: EmittedAt(frame, log, mtu, gap, m, n)
  }

  ghost predicate AllFrom(outputs: seq<seq<Byte>>, log: seq<Arrival>, mtu: nat, gap: nat) {
    forall k :: 0 <= k < |outputs| ==> EmittedFrom(outputs[k], log, mtu, gap)
  }

  lemma LaterFrom(outputs: seq<seq<Byte>>, log: seq<Arrival>, more: seq<Arrival>, mtu: nat, gap: nat)
    requires AllFrom(outputs, log, mtu, gap)
    ensures AllFrom(outputs, log + more, mtu, gap)
  {
    hide Under, MadeOf, Continuous;
    forall k | 0 <= k < |outputs| ensures EmittedFrom(outputs[k], log + more, mtu, gap) {
      var m: nat, n: nat :| EmittedAt(outputs[k], log, mtu, gap, m, n);
      assert (log + more)[..m + 1] == log[..m + 1];
      assert EmittedAt(outputs[k], log + more, mtu, gap, m, n);
    }
  }

  // ------------------------------------------------------------------ what the pool holds

  predicate HoldsPart(e: Entry, k: nat, c: Chunk)
    requires k < |e.chunks|
  {
    && e.chunks[k] == Interval(c.start, |c.payload|) && c.End() <= |e.buffer|
    && e.buffer[c.start..c.End()] == c.payload && (c.isLast ==> e.length == c.End())
  }

  /** The entry holds these parts and no others. */
  ghost predicate HoldsParts(e: Entry, parts: seq<Arrival>) {
    && |parts| == |e.chunks| && (forall k :: 0 <= k < |parts| ==> HoldsPart(e, k, parts[k].chunk))
    && (e.length >= 0 ==> exists k :: 0 <= k < |parts| && parts[k].chunk.isLast)
  }

  ghost predicate EntryHistory(e: Entry, u: seq<Arrival>, age: int, gap: nat, now: nat) {
    && 0 < |e.chunks| <= |u| && HoldsParts(e, Latest(u, |e.chunks|)) && Continuous(Latest(u, |e.chunks|), gap)
    && u[|u| - 1].at + age == now
  }

  /** While packet `now` is being processed, every frame holds the latest arrivals under its id. */
  ghost predicate History(a: State, log: seq<Arrival>, now: nat) {
    forall i :: i in a.used && i < |a.entries| ==>
      var e := a.entries[i];
      EntryHistory(e, Under(log, e.id, a.mtu), a.time - e.time, |a.entries|, now)
  }

  /** The same for all frames but one. */
  ghost predicate OthersHistory(b: State, log: seq<Arrival>, now: nat, i: nat) {
    forall j :: j in b.used && j < |b.entries| && j != i ==>
      var e := b.entries[j];
      EntryHistory(e, Under(log, e.id, b.mtu), b.time - e.time, |b.entries|, now)
  }

  /** A frame ready for the next chunk: new, or touched recently enough. */
  ghost predicate Continues(e: Entry, u: seq<Arrival>, age: int, gap: nat, now: nat) {
    (e.chunks == [] && e.length < 0) || (EntryHistory(e, u, age, gap, now) && 0 <= age <= gap)
  }

  /** A new chunk joins the parts held. */
  lemma OneMorePart(e: Entry, parts: seq<Arrival>, x: Arrival, time: nat)
    requires HoldsParts(e, parts) && x.chunk.End() <= |e.buffer| && !Rejects(e, x.chunk)
    ensures HoldsParts(AddChunk(e, x.chunk, time), parts + [x])
  {
    var c := x.chunk;
    var e1, ps := AddChunk(e, c, time), parts + [x];
    forall k | 0 <= k < |ps| ensures HoldsPart(e1, k, ps[k].chunk) {
      if k < |parts| {
        assert HoldsPart(e, k, parts[k].chunk);
        assert !Overlap(e.chunks[k], Interval(c.start, |c.payload|));
        PartUntouched(e.buffer, parts[k].chunk, c);
      }
    }
    if c.isLast {
      assert ps[|parts|].chunk.isLast;
    } else if e.length >= 0 {
      var k :| 0 <= k < |parts| && parts[k].chunk.isLast;
      assert ps[k].chunk.isLast;
    }
  }

  lemma PartUntouched(buffer: seq<Byte>, p: Chunk, c: Chunk)
    requires p.End() <= |buffer| && c.End() <= |buffer|
    requires !Overlap(Interval(p.start, |p.payload|), Interval(c.start, |c.payload|))
    ensures Overwrite(buffer, c.start, c.payload)[p.start..p.End()] == buffer[p.start..p.End()]
  {
  }

  /** A complete entry is made of the parts it holds. */
  lemma CompleteIsMade(e: Entry, parts: seq<Arrival>)
    requires HoldsParts(e, parts) && ChunksOk(e, |e.buffer|) && Complete(e)
    ensures MadeOf(e.buffer[..e.length], parts)
  {
    hide Total;
    var frame := e.buffer[..e.length];
    DisjointCover(e.chunks, e.length);
    forall i | 0 <= i < |parts| ensures Tells(parts[i].chunk, frame) {
      assert HoldsPart(e, i, parts[i].chunk);
      assert e.chunks[i].End() <= e.length;
    }
    forall x | 0 <= x < |frame| ensures PartAt(parts, x) {
      assert Hit(e.chunks, x);
      var i :| 0 <= i < |e.chunks| && e.chunks[i].Has(x);
      assert HoldsPart(e, i, parts[i].chunk);
    }
  }

  lemma LaterHistory(e: Entry, u: seq<Arrival>, age: int, gap: nat, now: nat, e1: Entry)
    requires EntryHistory(e, u, age, gap, now) && e1 == e.(time := e1.time)
    ensures EntryHistory(e1, u, age + 1, gap, now + 1)
  {
    forall k | 0 <= k < |e.chunks| ensures HoldsPart(e1, k, Latest(u, |e.chunks|)[k].chunk) {
      assert HoldsPart(e, k, Latest(u, |e.chunks|)[k].chunk);
    }
  }

  lemma TickHistory(a: State, log: seq<Arrival>, now: nat)
    requires Wf(a) && History(a, log, now)
    ensures History(Tick(a), log, now + 1)
  {
    hide Under, EntryHistory, UsedOk, Tick;
    TickAges(a);
    var r := Tick(a);
    forall i | i in r.used && i < |r.entries|
      ensures EntryHistory(r.entries[i], Under(log, r.entries[i].id, r.mtu), r.time - r.entries[i].time, |r.entries|,
                           now + 1)
    {
      assert SameFrame(a, r, i, 1);
      var e := a.entries[i];
      LaterHistory(e, Under(log, e.id, a.mtu), a.time - e.time, |a.entries|, now, r.entries[i]);
      TickSize(a);
    }
  }

  lemma TickSize(a: State)
    requires Wf(a)
    ensures |Tick(a).entries| == |a.entries|
  {
    hide Wf;
  }

  // ------------------------------------------------------------------ one chunk

  /** The frame a chunk belongs to, after it was found: as held before, or with nothing in it. */
  lemma FindHistory(a: State, log: seq<Arrival>, now: nat, id: nat)
    requires Wf(a) && History(a, log, now)
    ensures var b := FindFrame(a, id); var e, u := b.entries[b.tree[id]], Under(log, id, b.mtu);
            && b.tree[id] < |b.entries| && e.id == id && e.time <= b.time
            && OthersHistory(b, log, now, b.tree[id]) && Continues(e, u, b.time - e.time, |b.entries|, now)
  {
    hide EntryHistory, Under, FindFrame, EntriesOk;
    FindShape(a, id);
    if id in a.tree && a.time - a.entries[a.tree[id]].time <= |a.entries| {
      FindRecent(a, id);
      EntryTimes(a, a.tree[id]);
    } else {
      FindStale(a, id);
    }
  }

  lemma EntryTimes(a: State, i: nat)
    requires Wf(a) && i in a.used
    ensures i < |a.entries| && a.entries[i].time <= a.time
  {
    assert UsedOk(a, a.entries[i]);
  }

  lemma ContinuousSnoc(parts: seq<Arrival>, x: Arrival, gap: nat)
    requires Continuous(parts, gap) && (parts != [] ==> 0 <= x.at - parts[|parts| - 1].at <= gap)
    ensures Continuous(parts + [x], gap)
  {
  }

  lemma NothingHeldYet(e: Entry, u: seq<Arrival>, gap: nat)
    requires e.chunks == [] && e.length < 0
    ensures HoldsParts(e, Latest(u, 0)) && Continuous(Latest(u, 0), gap) && Latest(u, 0) == []
  {
  }

  /** The parts of the frame once the chunk is stored. */
  lemma StoredHistory(e: Entry, u: seq<Arrival>, age: int, gap: nat, now: nat, x: Arrival, time: nat)
    requires x.at == now && x.chunk.End() <= |e.buffer| && !Rejects(e, x.chunk)
    requires Continues(e, u, age, gap, now)
    ensures EntryHistory(AddChunk(e, x.chunk, time), u + [x], 0, gap, now)
  {
    hide HoldsParts, Continuous, AddChunk, Rejects;
    var n := |e.chunks|;
    if n == 0 { NothingHeldYet(e, u, gap); }
    assert n <= |u|;
    var parts := Latest(u, n);
    assert parts != [] ==> parts[|parts| - 1] == u[|u| - 1];
    LatestSnoc(u, x, n);
    OneMorePart(e, parts, x, time);
    ContinuousSnoc(parts, x, gap);
    AddedOne(e, x.chunk, time);
  }

  lemma AddedOne(e: Entry, c: Chunk, time: nat)
    requires c.End() <= |e.buffer|
    ensures var e1 := AddChunk(e, c, time);
            |e1.chunks| == |e.chunks| + 1 && e1.id == e.id && e1.time == time && |e1.buffer| == |e.buffer|
  {
  }

  /** What storing a chunk changes. */
  lemma StoreShape(b: State, c: Chunk)
    requires Wf(b) && c.frameId in b.tree && c.End() <= b.mtu
    ensures b.tree[c.frameId] < |b.entries| && |b.entries[b.tree[c.frameId]].buffer| == b.mtu
    ensures var i := b.tree[c.frameId]; var e, o := b.entries[i], StoreChunk(b, c); var e1 := AddChunk(e, c, b.time);
            && o.st.time == b.time && o.st.mtu == b.mtu && |o.st.entries| == |b.entries|
            && (forall j :: j in o.st.used && j != i ==> j in b.used && o.st.entries[j] == b.entries[j])
            && (i in o.st.used ==> !Rejects(e, c) && o.st.entries[i] == e1)
            && (Rejects(e, c) ==> c.frameId !in o.st.tree && o.output.None?)
            && (o.output.Some? ==>
                  && !Rejects(e, c) && Complete(e1) && ChunksOk(e1, b.mtu) && e1.length <= b.mtu
                  && o.output.value == e1.buffer[..e1.length])
  {
    hide Rejects, AddChunk, Complete, ChunksOk, Without;
    var i := b.tree[c.frameId];
    var e := b.entries[i];
    assert UsedOk(b, e);
    if !Rejects(e, c) { AddChunkOk(e, c, b.time); }
  }

  /** One chunk: the frames go on holding the latest arrivals under their ids, and what is emitted is made of them. */
  lemma ChunkHistory(a: State, log: seq<Arrival>, now: nat, x: Arrival)
    requires Wf(a) && History(a, log, now) && x.at == now
    ensures var o := ProcessChunk(a, x.chunk);
            && History(o.st, log + [x], now) && o.st.mtu == a.mtu && |o.st.entries| == |a.entries|
            && (o.output.Some? ==> EmittedFrom(o.output.value, log + [x], a.mtu, |a.entries|))
  {
    hide EntryHistory, Under, FindFrame, StoreChunk, Wf;
    var c := x.chunk;
    forall id ensures Under(log + [x], id, a.mtu) ==
                      if c.frameId == id && c.End() <= a.mtu then Under(log, id, a.mtu) + [x] else Under(log, id, a.mtu)
    {
      UnderSnoc(log, x, id, a.mtu);
    }
    if c.End() <= a.mtu {
      FindHistory(a, log, now, c.frameId);
      FindShape(a, c.frameId);
      StoreHistory(FindFrame(a, c.frameId), log, now, x);
    }
  }

  lemma StoreHistory(b: State, log: seq<Arrival>, now: nat, x: Arrival)
    requires Wf(b) && x.at == now && x.chunk.End() <= b.mtu && x.chunk.frameId in b.tree
    requires var id := x.chunk.frameId; var i := b.tree[id];
             && i < |b.entries|
             && var e, u := b.entries[i], Under(log, id, b.mtu);
                e.id == id && OthersHistory(b, log, now, i) && Continues(e, u, b.time - e.time, |b.entries|, now)
    ensures var o := StoreChunk(b, x.chunk);
            && History(o.st, log + [x], now) && o.st.mtu == b.mtu && |o.st.entries| == |b.entries|
            && (o.output.Some? ==> EmittedFrom(o.output.value, log + [x], b.mtu, |b.entries|))
  {
    hide EntryHistory, Under, StoreChunk, AddChunk, Rejects, Complete, ChunksOk;
    var c := x.chunk;
    var i := b.tree[c.frameId];
    var e, u, o := b.entries[i], Under(log, c.frameId, b.mtu), StoreChunk(b, c);
    StoreShape(b, c);
    UnderSnoc(log, x, c.frameId, b.mtu);
    OthersStored(b, log, now, x);
    hide Wf, EmittedFrom;
    if !Rejects(e, c) {
      StoredHistory(e, u, b.time - e.time, |b.entries|, now, x, b.time);
      AddedOne(e, c, b.time);
      if o.output.Some? { StoredIsEmitted(AddChunk(e, c, b.time), log, x, b.mtu, |b.entries|, now); }
    }
  }

  lemma OthersStored(b: State, log: seq<Arrival>, now: nat, x: Arrival)
    requires Wf(b) && x.chunk.End() <= b.mtu && x.chunk.frameId in b.tree
    requires OthersHistory(b, log, now, b.tree[x.chunk.frameId])
    ensures OthersHistory(StoreChunk(b, x.chunk).st, log + [x], now, b.tree[x.chunk.frameId])
  {
    hide EntryHistory, Under, StoreChunk, AddChunk, EntriesOk;
    var i, o := b.tree[x.chunk.frameId], StoreChunk(b, x.chunk);
    StoreShape(b, x.chunk);
    forall j | j in o.st.used && j < |o.st.entries| && j != i
      ensures var e := o.st.entries[j];
              EntryHistory(e, Under(log + [x], e.id, b.mtu), b.time - e.time, |b.entries|, now)
    {
      OtherId(b, i, j);
      UnderSnoc(log, x, b.entries[j].id, b.mtu);
    }
  }

  lemma OtherId(b: State, i: nat, j: nat)
    requires Wf(b) && i in b.used && j in b.used && i != j
    ensures i < |b.entries| && j < |b.entries| && b.entries[i].id != b.entries[j].id
  {
    hide EntriesOk;
  }

  lemma StoredIsEmitted(e1: Entry, log: seq<Arrival>, x: Arrival, mtu: nat, gap: nat, now: nat)
    requires EntryHistory(e1, Under(log + [x], x.chunk.frameId, mtu), 0, gap, now)
    requires Complete(e1) && ChunksOk(e1, mtu) && |e1.buffer| == mtu
    ensures e1.length <= mtu && EmittedFrom(e1.buffer[..e1.length], log + [x], mtu, gap)
  {
    hide Under;
    var all, n := log + [x], |e1.chunks|;
    var u := Under(all, x.chunk.frameId, mtu);
    CompleteIsMade(e1, Latest(u, n));
    hide MadeOf, Continuous, HoldsParts;
    assert all[..|log| + 1] == all && all[|log|] == x;
    assert EmittedAt(e1.buffer[..e1.length], all, mtu, gap, |log|, n);
  }

  // ------------------------------------------------------------------ every stream

  function StampFrom(cs: seq<Chunk>, at: nat, k: nat): seq<Arrival>
    requires k <= |cs|
  {
    Stamp(cs, at)[k..]
  }

  lemma {:induction false} ChunksHistory(a: State, log: seq<Arrival>, cs: seq<Chunk>, now: nat, k: nat)
    requires Wf(a) && History(a, log, now) && k <= |cs|
    ensures var b, all := ProcessChunks(a, cs[k..]), log + StampFrom(cs, now, k);
            && History(b.st, all, now) && b.st.mtu == a.mtu && |b.st.entries| == |a.entries|
            && AllFrom(b.outputs, all, a.mtu, |a.entries|)
    decreases |cs| - k
  {
    hide History, EmittedFrom, ProcessChunk, Wf;
    if k == |cs| {
      assert cs[k..] == [] && log + StampFrom(cs, now, k) == log;
    } else {
      var x := Arrival(now, k, cs[k]);
      var o := ProcessChunk(a, cs[k]);
      ChunkHistory(a, log, now, x);
      ChunksHistory(o.st, log + [x], cs, now, k + 1);
      assert cs[k..][0] == cs[k] && cs[k..][1..] == cs[k + 1..];
      assert StampFrom(cs, now, k) == [x] + StampFrom(cs, now, k + 1);
      assert log + StampFrom(cs, now, k) == (log + [x]) + StampFrom(cs, now, k + 1);
      if o.output.Some? {
        LaterFrom([o.output.value], log + [x], StampFrom(cs, now, k + 1), a.mtu, |a.entries|);
        assert EmittedFrom([o.output.value][0], log + StampFrom(cs, now, k), a.mtu, |a.entries|);
      }
    }
  }

  /**
   * Whatever packets arrive, every frame emitted is made of the latest chunks that arrived under one id, all of them
   * since its first part, each at most as many packets after the one before as the pool has entries.
   */
  lemma {:induction false} EmittedFromLatest(a: State, packets: seq<seq<Byte>>)
    requires Initial(a)
    ensures Wf(a)
    ensures var b := Receive(a, packets);
            && History(b.st, Arrivals(packets), |packets|) && b.st.mtu == a.mtu && |b.st.entries| == |a.entries|
            && AllFrom(b.outputs, Arrivals(packets), a.mtu, |a.entries|)
  {
    InitialWf(a);
    hide History, EmittedFrom, ProcessChunks, Wf, ParseChunks, Tick;
    if packets == [] {
      NothingHeld(a);
    } else {
      var n := |packets| - 1;
      EmittedFromLatest(a, packets[..n]);
      var b, log, cs := Receive(a, packets[..n]), Arrivals(packets[..n]), ParseChunks(packets[n]);
      ChunksHistory(b.st, log, cs, n, 0);
      assert cs[0..] == cs && StampFrom(cs, n, 0) == Stamp(cs, n);
      var p := ProcessChunks(b.st, cs);
      TickHistory(p.st, Arrivals(packets), n);
      TickAges(p.st);
      TickSize(p.st);
      LaterFrom(b.outputs, log, Stamp(cs, n), a.mtu, |a.entries|);
    }
  }

  lemma NothingHeld(a: State)
    requires Initial(a)
    ensures History(a, [], 0)
  {
  }
}
