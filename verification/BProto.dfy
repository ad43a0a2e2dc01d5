/** The bproto encoding for any message schema: what the generated writers emit and parsers accept. */
module BProto {
  import opened Bytes
  import opened Lists

  const UINT16_RANGE: nat := 0x1_0000
  const UINT32_RANGE: nat := 0x1_0000_0000
  const HEADER_SIZE: nat := 4
  const DATA_HEADER_SIZE: nat := 4

  datatype FieldType = UInt8 | UInt16 | UInt32 | UInt64 | Data | ConstData(size: nat) {
    /** BPROTO_TYPE_* */
    function Code(): nat {
      match this
      case UInt8 => 1
      case UInt16 => 2
      case UInt32 => 3
      case UInt64 => 4
      case Data => 5
      case ConstData(_) => 6
    }
  }

  datatype Cardinality = Repeated | RequiredRepeated | Optional | Required {
    predicate Allows(count: nat) {
      match this
      case Repeated => true
      case RequiredRepeated => count >= 1
      case Optional => count <= 1
      case Required => count == 1
    }
  }

  datatype Field = Field(id: nat, ftype: FieldType, card: Cardinality)

  type Schema = seq<Field>

  predicate ValidSchema(schema: Schema) {
    && (forall k :: 0 <= k < |schema| ==> schema[k].id < UINT16_RANGE)
    && (forall k :: 0 <= k < |schema| && schema[k].ftype.ConstData? ==> schema[k].ftype.size < UINT32_RANGE)
    && (forall j, k :: 0 <= j < k < |schema| ==> schema[j].id != schema[k].id)
  }

  /** One entry of a message; an integer is carried as its little-endian bytes. */
  datatype Item = Item(id: nat, code: nat, payload: seq<Byte>) {
    predicate Fits() {
      && id < UINT16_RANGE && 1 <= code <= 6
      && (code <= 4 ==> |payload| == UIntSize(code))
      && |payload| < UINT32_RANGE
    }

    predicate Is(f: Field) {
      id == f.id && code == f.ftype.Code() && (f.ftype.ConstData? ==> |payload| == f.ftype.size)
    }
  }

  function UIntSize(code: nat): nat
    requires 1 <= code <= 4
  {
    if code == 1 then 1 else if code == 2 then 2 else if code == 3 then 4 else 8
  }

  // ------------------------------------------------------------------ integers

  function Power256(n: nat): nat {
    if n == 0 then 1 else 256 * Power256(n - 1)
  }

  function HostToLittle(v: nat, size: nat): (b: seq<Byte>)
    ensures |b| == size
  {
    if size == 0 then [] else [v % 256] + HostToLittle(v / 256, size - 1)
  }

  function LittleToHost(b: seq<Byte>): nat {
    if b == [] then 0
    else
      var low: int := b[0];
      low + 256 * LittleToHost(b[1..])
  }

  lemma {:induction false} LittleRoundTrip(v: nat, size: nat)
    requires v < Power256(size)
    ensures LittleToHost(HostToLittle(v, size)) == v
  {
    if size > 0 {
      LittleRoundTrip(v / 256, size - 1);
      var b := HostToLittle(v, size);
      assert b[1..] == HostToLittle(v / 256, size - 1);
    }
  }

  lemma PowersOf256()
    ensures Power256(2) == UINT16_RANGE && Power256(4) == UINT32_RANGE
  {
    assert Power256(1) == 256;
    assert Power256(2) == 65536;
    assert Power256(3) == 16777216;
  }

  // ------------------------------------------------------------------ wire format

  function EncodeItem(it: Item): (b: seq<Byte>)
    requires it.Fits()
    ensures |b| >= HEADER_SIZE
  {
    HostToLittle(it.id, 2) + HostToLittle(it.code, 2)
    + (if it.code <= 4 then it.payload else HostToLittle(|it.payload|, 4) + it.payload)
  }

  predicate AllFit(its: seq<Item>) {
    forall i :: 0 <= i < |its| ==> its[i].Fits()
  }

  function EncodeItems(its: seq<Item>): (b: seq<Byte>)
    requires AllFit(its)
  {
    if its == [] then [] else EncodeItem(its[0]) + EncodeItems(its[1..])
  }

  datatype Parsed = Malformed | Parsed(item: Item, rest: seq<Byte>)

  /** One round of the loops of `Parser_Init` and of the getters. */
  function ParseItem(b: seq<Byte>): (r: Parsed)
    ensures r.Parsed? ==> |r.rest| + HEADER_SIZE <= |b| && r.rest == b[|b| - |r.rest|..]
  {
    if |b| < HEADER_SIZE then Malformed
    else
      var id, code, body := LittleToHost(b[0..2]), LittleToHost(b[2..4]), b[HEADER_SIZE..];
      if 1 <= code <= 4 then
        var n := UIntSize(code);
        if |body| < n then Malformed else Parsed(Item(id, code, body[..n]), body[n..])
      else if code == 5 || code == 6 then
        if |body| < DATA_HEADER_SIZE then Malformed
        else
          var n := LittleToHost(body[..DATA_HEADER_SIZE]);
          if |body| - DATA_HEADER_SIZE < n then Malformed
          else Parsed(Item(id, code, body[DATA_HEADER_SIZE..DATA_HEADER_SIZE + n]), body[DATA_HEADER_SIZE + n..])
      else Malformed
  }

  function ParseItems(b: seq<Byte>): (r: Option<seq<Item>>)
    decreases |b|
  {
    if b == [] then Some([])
    else
      match ParseItem(b)
      case Malformed => None
      case Parsed(it, rest) =>
        var more := ParseItems(rest);
        if more.None? then None else Some([it] + more.value)
  }

  lemma ParseEncodedItem(it: Item, tail: seq<Byte>)
    requires it.Fits()
    ensures ParseItem(EncodeItem(it) + tail) == Parsed(it, tail)
  {
    hide LittleToHost, HostToLittle, Power256;
    var b := EncodeItem(it) + tail;
    PowersOf256();
    LittleRoundTrip(it.id, 2);
    LittleRoundTrip(it.code, 2);
    LittleRoundTrip(|it.payload|, 4);
    assert b[0..2] == HostToLittle(it.id, 2);
    assert b[2..4] == HostToLittle(it.code, 2);
    var body, n := b[HEADER_SIZE..], |it.payload|;
    if it.code <= 4 {
      assert body == it.payload + tail;
      assert body[..n] == it.payload && body[n..] == tail;
    } else {
      assert body == HostToLittle(n, 4) + it.payload + tail;
      assert body[..4] == HostToLittle(n, 4);
      assert body[4..4 + n] == it.payload && body[4 + n..] == tail;
    }
  }

  lemma ParseEncodedFirst(it: Item, tail: seq<Byte>)
    requires it.Fits()
    ensures var more := ParseItems(tail);
            ParseItems(EncodeItem(it) + tail) == if more.None? then None else Some([it] + more.value)
  {
    hide ParseItem, EncodeItem;
    ParseEncodedItem(it, tail);
  }

  /** Parsing undoes encoding. */
  lemma {:induction false} ParseEncodedItems(its: seq<Item>)
    requires AllFit(its)
    ensures ParseItems(EncodeItems(its)) == Some(its)
  {
    hide ParseItem, EncodeItem;
    if its != [] {
      ParseEncodedItems(its[1..]);
      ParseEncodedFirst(its[0], EncodeItems(its[1..]));
      assert its == [its[0]] + its[1..];
    }
  }

  lemma LittleBound(b: seq<Byte>)
    ensures LittleToHost(b) < Power256(|b|)
  {
    if b != [] {
      LittleBound(b[1..]);
    }
  }

  lemma {:induction false} LittleUnique(b: seq<Byte>)
    ensures HostToLittle(LittleToHost(b), |b|) == b
  {
    if b != [] {
      LittleUnique(b[1..]);
      var v := LittleToHost(b);
      assert v % 256 == b[0] && v / 256 == LittleToHost(b[1..]);
      assert b == [b[0]] + b[1..];
    }
  }

  /** Whatever is read off the front of a buffer is how that item is written. */
  lemma ParsedIsEncoded(b: seq<Byte>)
    requires ParseItem(b).Parsed?
    ensures var r := ParseItem(b); r.item.Fits() && b == EncodeItem(r.item) + r.rest
  {
    hide LittleToHost, HostToLittle, Power256;
    var r := ParseItem(b);
    var head, kind, body := b[0..2], b[2..4], b[HEADER_SIZE..];
    PowersOf256();
    LittleBound(head);
    LittleUnique(head);
    LittleUnique(kind);
    if r.item.code <= 4 {
      assert body == r.item.payload + r.rest;
      assert b == head + kind + r.item.payload + r.rest;
    } else {
      var len := body[..4];
      LittleBound(len);
      LittleUnique(len);
      assert body == len + r.item.payload + r.rest;
      assert b == head + kind + (len + r.item.payload) + r.rest;
    }
  }

  lemma {:induction false} EncodeItemsConcat(a: seq<Item>, b: seq<Item>)
    requires AllFit(a) && AllFit(b)
    ensures AllFit(a + b) && EncodeItems(a + b) == EncodeItems(a) + EncodeItems(b)
  {
    hide EncodeItem;
    if a == [] {
      assert a + b == b;
    } else {
      EncodeItemsConcat(a[1..], b);
      assert (a + b)[1..] == a[1..] + b;
    }
  }

  // ------------------------------------------------------------------ what a message says

  datatype Value = Number(n: nat) | Bytes(b: seq<Byte>)

  function ValueOf(it: Item): Value {
    if it.code <= 4 then Number(LittleToHost(it.payload)) else Bytes(it.payload)
  }

  /** The values of one field, in the order they were added. */
  function Values(its: seq<Item>, f: Field): seq<Value> {
    if its == [] then []
    else (if its[0].Is(f) then [ValueOf(its[0])] else []) + Values(its[1..], f)
  }

  lemma {:induction false} ValuesConcat(a: seq<Item>, b: seq<Item>, f: Field)
    ensures Values(a + b, f) == Values(a, f) + Values(b, f)
  {
    if a == [] {
      assert a + b == b;
    } else {
      ValuesConcat(a[1..], b, f);
      assert (a + b)[1..] == a[1..] + b;
    }
  }

  predicate NoneIs(its: seq<Item>, f: Field) {
    forall i :: 0 <= i < |its| ==> !its[i].Is(f)
  }

  lemma {:induction false} NoValues(its: seq<Item>, f: Field)
    ensures NoneIs(its, f) <==> Values(its, f) == []
  {
    if its != [] {
      NoValues(its[1..], f);
      assert NoneIs(its, f) <==> !its[0].Is(f) && NoneIs(its[1..], f) by {
        assert forall i :: 0 < i < |its| ==> its[i] == its[1..][i - 1];
        if !its[0].Is(f) && NoneIs(its[1..], f) {
          forall i | 0 <= i < |its| ensures !its[i].Is(f) {
            if i > 0 { assert !its[1..][i - 1].Is(f); }
          }
        }
      }
    }
  }

  /** Distinct ids: an item belongs to one field. */
  lemma OneField(schema: Schema, it: Item, j: nat, k: nat)
    requires ValidSchema(schema) && j < |schema| && k < |schema| && it.id == schema[j].id && it.Is(schema[k])
    ensures j == k
  {
  }

  predicate Known(schema: Schema, it: Item) {
    exists k :: 0 <= k < |schema| && it.Is(schema[k])
  }

  predicate AllKnown(schema: Schema, its: seq<Item>) {
    forall i :: 0 <= i < |its| ==> Known(schema, its[i])
  }

  predicate CountsAllowed(schema: Schema, its: seq<Item>) {
    forall k :: 0 <= k < |schema| ==> schema[k].card.Allows(|Values(its, schema[k])|)
  }

  /** The messages of a schema. */
  predicate Conforms(schema: Schema, its: seq<Item>) {
    AllFit(its) && AllKnown(schema, its) && CountsAllowed(schema, its)
  }
}
