/** What a sequence of chunks says when every chunk arrives once and in order. */
module InOrderLog {
  import opened Bytes
  import opened FragmentWire

  datatype InOrder = InOrder(frames: seq<seq<Byte>>, partial: seq<Chunk>)

  function Payload(cs: seq<Chunk>): seq<Byte> {
    if cs == [] then [] else Payload(cs[..|cs| - 1]) + cs[|cs| - 1].payload
  }

  /** The reference receiver: concatenate payloads up to each chunk marked last. */
  function Reassemble(log: seq<Chunk>): InOrder {
    if log == [] then InOrder([], []) else Extend(Reassemble(log[..|log| - 1]), log[|log| - 1])
  }

  function Extend(r: InOrder, c: Chunk): InOrder {
    if c.isLast then InOrder(r.frames + [Payload(r.partial + [c])], [])
    else InOrder(r.frames, r.partial + [c])
  }

  predicate Follows(partial: seq<Chunk>, c: Chunk) {
    && c.start == |Payload(partial)|
    && (partial != [] ==> c.frameId == partial[0].frameId)
  }

  /** Each chunk continues the frame under way where it stops, and frames stay within `mtu`. */
  predicate Sequential(log: seq<Chunk>, mtu: nat) {
    log == [] ||
    (var before, c := log[..|log| - 1], log[|log| - 1];
     && Sequential(before, mtu)
     && Follows(Reassemble(before).partial, c)
     && c.End() <= mtu)
  }

  /** No frame takes more than `n` chunks: an unfinished one always leaves room for one more. */
  predicate ChunksWithin(log: seq<Chunk>, n: nat) {
    && |Reassemble(log).partial| < n
    && (log != [] ==> ChunksWithin(log[..|log| - 1], n))
  }

  /**
   * Frames are numbered from 0 in the order they are finished, modulo 65536, and each chunk carries its frame's number.
   */
  predicate Numbered(log: seq<Chunk>) {
    log == [] ||
    (var before, c := log[..|log| - 1], log[|log| - 1];
     Numbered(before) && c.frameId == |Reassemble(before).frames| % UINT16_RANGE)
  }

  function DivideUp(a: nat, b: nat): nat
    requires b > 0
  {
    a / b + if a % b > 0 then 1 else 0
  }

  /** Each finished frame of n bytes took at most ceil(n / capacity) + 1 chunks. */
  predicate FewChunksEach(log: seq<Chunk>, capacity: nat)
    requires capacity > 0
  {
    log == [] ||
    (var before, c := log[..|log| - 1], log[|log| - 1];
     var frame := Reassemble(before).partial + [c];
     FewChunksEach(before, capacity) && (c.isLast ==> |frame| <= DivideUp(|Payload(frame)|, capacity) + 1))
  }

  lemma NumberedSnoc(log: seq<Chunk>, c: Chunk)
    requires Numbered(log) && c.frameId == |Reassemble(log).frames| % UINT16_RANGE
    ensures Numbered(log + [c])
  {
    assert (log + [c])[..|log|] == log;
  }

  lemma FewChunksSnoc(log: seq<Chunk>, c: Chunk, capacity: nat)
    requires capacity > 0 && FewChunksEach(log, capacity)
    requires var frame := Reassemble(log).partial + [c];
             c.isLast ==> |frame| <= DivideUp(|Payload(frame)|, capacity) + 1
    ensures FewChunksEach(log + [c], capacity)
  {
    assert (log + [c])[..|log|] == log;
  }

  lemma EmptyPayload()
    ensures Payload([]) == []
  {
  }

  lemma PayloadSnoc(cs: seq<Chunk>, c: Chunk)
    ensures Payload(cs + [c]) == Payload(cs) + c.payload
  {
    assert (cs + [c])[..|cs|] == cs;
  }

  lemma ReassembleSnoc(log: seq<Chunk>, c: Chunk)
    ensures Reassemble(log + [c]) == Extend(Reassemble(log), c)
  {
    assert (log + [c])[..|log|] == log;
  }

  lemma SequentialSnoc(log: seq<Chunk>, c: Chunk, mtu: nat)
    requires Sequential(log, mtu) && Follows(Reassemble(log).partial, c) && c.End() <= mtu
    ensures Sequential(log + [c], mtu)
  {
    assert (log + [c])[..|log|] == log;
  }

  lemma ChunksWithinSnoc(log: seq<Chunk>, c: Chunk, n: nat)
    requires ChunksWithin(log, n) && |Extend(Reassemble(log), c).partial| < n
    ensures ChunksWithin(log + [c], n)
  {
    assert (log + [c])[..|log|] == log;
  }

  lemma {:induction false} PrefixOfLog(log: seq<Chunk>, k: nat, mtu: nat, n: nat)
    requires Sequential(log, mtu) && ChunksWithin(log, n) && k <= |log|
    ensures Sequential(log[..k], mtu) && ChunksWithin(log[..k], n)
    ensures Reassemble(log[..k]).frames <= Reassemble(log).frames
  {
    if k == |log| {
      assert log[..k] == log;
    } else {
      PrefixOfLog(log[..|log| - 1], k, mtu, n);
      assert log[..|log| - 1][..k] == log[..k];
    }
  }
}
