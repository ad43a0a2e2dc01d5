/** The packet format of FragmentProto: a packet is a run of chunks, each a 7-byte header and its payload. */
module FragmentWire {
  import opened Bytes

  const HEADER_SIZE: nat := 7
  const UINT16_RANGE: nat := 65536

  datatype Chunk = Chunk(frameId: nat, start: nat, isLast: bool, payload: seq<Byte>) {
    predicate Fits() {
      frameId < UINT16_RANGE && start < UINT16_RANGE && |payload| < UINT16_RANGE
    }

    function End(): nat {
      start + |payload|
    }
  }

  function HostToLittle16(n: nat): (b: seq<Byte>)
    requires n < UINT16_RANGE
    ensures |b| == 2 && LittleToHost16(b) == n
  {
    [n % 256, n / 256]
  }

  function LittleToHost16(b: seq<Byte>): (n: nat)
    requires |b| == 2
    ensures n < UINT16_RANGE
  {
    var lo: int, hi: int := b[0], b[1];
    lo + 256 * hi
  }

  function EncodeChunk(c: Chunk): (b: seq<Byte>)
    requires c.Fits()
    ensures |b| == HEADER_SIZE + |c.payload|
  {
    HostToLittle16(c.frameId) + HostToLittle16(c.start) + HostToLittle16(|c.payload|)
    + [if c.isLast then 1 else 0] + c.payload
  }

  /** The header, byte by byte: frame id, start and length with the low byte first, then the mark; then the payload. */
  lemma ChunkLayout(c: Chunk)
    requires c.Fits()
    ensures var b := EncodeChunk(c);
            && |b| == 7 + |c.payload|
            && b[0] == c.frameId % 256 && b[1] == c.frameId / 256
            && b[2] == c.start % 256 && b[3] == c.start / 256
            && b[4] == |c.payload| % 256 && b[5] == |c.payload| / 256
            && b[6] == (if c.isLast then 1 else 0)
            && b[7..] == c.payload
  {
  }

  predicate AllFit(cs: seq<Chunk>) {
    forall i :: 0 <= i < |cs| ==> cs[i].Fits()
  }

  function EncodeChunks(cs: seq<Chunk>): (b: seq<Byte>)
    requires AllFit(cs)
  {
    if cs == [] then [] else EncodeChunk(cs[0]) + EncodeChunks(cs[1..])
  }

  datatype Parsed = Malformed | Parsed(chunk: Chunk, rest: seq<Byte>)

  /** One round of the read loop: the header, its `is_last` check and the payload bounds check. */
  function ParseChunk(b: seq<Byte>): (r: Parsed)
    ensures r.Parsed? ==> r.chunk.Fits() && |r.rest| == |b| - HEADER_SIZE - |r.chunk.payload|
    ensures r.Parsed? ==> r.rest == b[HEADER_SIZE + |r.chunk.payload|..]
  {
    if |b| < HEADER_SIZE then Malformed
    else
      var len := LittleToHost16(b[4..6]);
      if b[6] > 1 || |b| - HEADER_SIZE < len then Malformed
      else Parsed(Chunk(LittleToHost16(b[0..2]), LittleToHost16(b[2..4]), b[6] == 1, b[HEADER_SIZE..HEADER_SIZE + len]),
                  b[HEADER_SIZE + len..])
  }

  /** The chunks the read loop hands on before it ends or gives the rest of the packet up. */
  function ParseChunks(b: seq<Byte>): (cs: seq<Chunk>)
    ensures AllFit(cs)
    decreases |b|
  {
    match ParseChunk(b)
    case Malformed => []
    case Parsed(c, rest) => [c] + ParseChunks(rest)
  }

  lemma ParseEncodedChunk(c: Chunk, tail: seq<Byte>)
    requires c.Fits()
    ensures ParseChunk(EncodeChunk(c) + tail) == Parsed(c, tail)
  {
    var b := EncodeChunk(c) + tail;
    var n := |c.payload|;
    assert b[0..2] == HostToLittle16(c.frameId);
    assert b[2..4] == HostToLittle16(c.start);
    assert b[4..6] == HostToLittle16(n);
    assert b[6] == if c.isLast then 1 else 0;
    assert b[HEADER_SIZE..HEADER_SIZE + n] == c.payload;
    assert b[HEADER_SIZE + n..] == tail;
  }

  /** Whatever is read off the front of a packet is how that chunk is written; all else is malformed. */
  lemma ParsedChunkIsEncoded(b: seq<Byte>)
    requires ParseChunk(b).Parsed?
    ensures var r := ParseChunk(b); b == EncodeChunk(r.chunk) + r.rest
  {
    var r := ParseChunk(b);
    SplitLittle16(b[0..2]);
    SplitLittle16(b[2..4]);
    SplitLittle16(b[4..6]);
    var len := LittleToHost16(b[4..6]);
    assert b == b[0..2] + b[2..4] + b[4..6] + [b[6]] + b[7..7 + len] + b[7 + len..];
  }

  lemma SplitLittle16(b: seq<Byte>)
    requires |b| == 2
    ensures HostToLittle16(LittleToHost16(b)) == b
  {
  }

  lemma ParseEncodedFirst(c: Chunk, tail: seq<Byte>)
    requires c.Fits()
    ensures ParseChunks(EncodeChunk(c) + tail) == [c] + ParseChunks(tail)
  {
    ParseEncodedChunk(c, tail);
  }

  /** Parsing undoes encoding, whatever follows. */
  lemma {:induction false} ParseEncodedChunks(cs: seq<Chunk>, tail: seq<Byte>)
    requires AllFit(cs)
    ensures ParseChunks(EncodeChunks(cs) + tail) == cs + ParseChunks(tail)
  {
    hide EncodeChunk, ParseChunk, ParseChunks;
    if cs == [] {
      assert EncodeChunks(cs) + tail == tail;
    } else {
      var c, more := cs[0], EncodeChunks(cs[1..]) + tail;
      calc {
        ParseChunks(EncodeChunks(cs) + tail);
        { assert EncodeChunks(cs) + tail == EncodeChunk(c) + more; }
        ParseChunks(EncodeChunk(c) + more);
        { ParseEncodedFirst(c, more); }
        [c] + ParseChunks(more);
        { ParseEncodedChunks(cs[1..], tail); }
        [c] + (cs[1..] + ParseChunks(tail));
        { assert cs == [c] + cs[1..]; }
        cs + ParseChunks(tail);
      }
    }
  }

  lemma {:induction false} EncodeChunksConcat(a: seq<Chunk>, b: seq<Chunk>)
    requires AllFit(a) && AllFit(b)
    ensures AllFit(a + b)
    ensures EncodeChunks(a + b) == EncodeChunks(a) + EncodeChunks(b)
  {
    hide EncodeChunk, Chunk.Fits;
    if a == [] {
      assert a + b == b;
    } else {
      EncodeChunksConcat(a[1..], b);
      assert (a + b)[1..] == a[1..] + b;
    }
  }
}
