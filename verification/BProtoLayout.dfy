/** The bytes of a bproto message, position by position, and which messages a parser takes. */
module BProtoLayout {
  import opened Bytes
  import opened BProto

  // ------------------------------------------------------------------ numbers, low byte first

  const PLACES: seq<nat> := [0x1, 0x100, 0x1_0000, 0x100_0000, 0x1_0000_0000, 0x100_0000_0000, 0x1_0000_0000_0000,
                             0x100_0000_0000_0000]

  /** The `n` bytes of `b` from `at` on are the number, low byte first. */
  predicate LowFirst(b: seq<Byte>, at: nat, n: nat, v: nat)
    requires n <= 8
  {
    at + n <= |b| && forall j :: 0 <= j < n ==> b[at + j] == (v / PLACES[j]) % 256
  }

  lemma {:induction false} LittleDigits(v: nat, size: nat, j: nat)
    requires j < size <= 8
    ensures HostToLittle(v, size)[j] == (v / PLACES[j]) % 256
  {
    if j > 0 {
      LittleDigits(v / 256, size - 1, j - 1);
      NextPlace(v, j);
    }
  }

  lemma NextPlace(v: nat, j: nat)
    requires 0 < j < 8
    ensures (v / 256) / PLACES[j - 1] == v / PLACES[j]
  {
    if j == 1 {
    } else if j == 2 {
    } else if j == 3 {
    } else if j == 4 {
    } else if j == 5 {
    } else if j == 6 {
    } else {
      assert j == 7;
    }
  }

  lemma LittleAt(b: seq<Byte>, at: nat, n: nat, v: nat)
    requires n <= 8 && at + n <= |b| && b[at..at + n] == HostToLittle(v, n)
    ensures LowFirst(b, at, n, v)
  {
    forall j | 0 <= j < n ensures b[at + j] == (v / PLACES[j]) % 256 {
      LittleDigits(v, n, j);
      assert b[at..at + n][j] == b[at + j];
    }
  }

  // ------------------------------------------------------------------ items

  /** Id and type, two bytes each. */
  predicate Headed(b: seq<Byte>, id: nat, code: nat) {
    LowFirst(b, 0, 2, id) && LowFirst(b, 2, 2, code)
  }

  /** The bytes that stand for one value of a field. */
  predicate LaidOut(f: Field, v: Value, b: seq<Byte>) {
    match f.ftype
    case UInt8 => v.Number? && |b| == 4 + 1 && Headed(b, f.id, 1) && LowFirst(b, 4, 1, v.n)
    case UInt16 => v.Number? && |b| == 4 + 2 && Headed(b, f.id, 2) && LowFirst(b, 4, 2, v.n)
    case UInt32 => v.Number? && |b| == 4 + 4 && Headed(b, f.id, 3) && LowFirst(b, 4, 4, v.n)
    case UInt64 => v.Number? && |b| == 4 + 8 && Headed(b, f.id, 4) && LowFirst(b, 4, 8, v.n)
    case Data => v.Bytes? && Headed(b, f.id, 5) && DataAt(b, v.b)
    case ConstData(size) => v.Bytes? && |v.b| == size && Headed(b, f.id, 6) && DataAt(b, v.b)
  }

  /** The length in four bytes, and the data. */
  predicate DataAt(b: seq<Byte>, data: seq<Byte>) {
    |b| == 8 + |data| && LowFirst(b, 4, 4, |data|) && b[8..] == data
  }

  /** How an item is written. */
  lemma ItemLayout(it: Item)
    requires it.Fits()
    ensures var b := EncodeItem(it);
            && Headed(b, it.id, it.code)
            && (it.code <= 4 ==> b[4..] == it.payload)
            && (it.code > 4 ==> DataAt(b, it.payload))
  {
    hide HostToLittle;
    var b := EncodeItem(it);
    assert b[0..2] == HostToLittle(it.id, 2) && b[2..4] == HostToLittle(it.code, 2);
    LittleAt(b, 0, 2, it.id);
    LittleAt(b, 2, 2, it.code);
    if it.code <= 4 {
      assert b[4..] == it.payload;
    } else {
      assert b[4..8] == HostToLittle(|it.payload|, 4) && b[8..] == it.payload;
      LittleAt(b, 4, 4, |it.payload|);
    }
  }

  // ------------------------------------------------------------------ accepted messages

  /** The item has the type of the field, with as many bytes as that type has. */
  predicate Typed(it: Item, t: FieldType) {
    match t
    case UInt8 => it.code == 1 && |it.payload| == 1
    case UInt16 => it.code == 2 && |it.payload| == 2
    case UInt32 => it.code == 3 && |it.payload| == 4
    case UInt64 => it.code == 4 && |it.payload| == 8
    case Data => it.code == 5
    case ConstData(size) => it.code == 6 && |it.payload| == size
  }

  predicate TypedIn(schema: Schema, it: Item) {
    exists k :: 0 <= k < |schema| && schema[k].id == it.id && Typed(it, schema[k].ftype)
  }

  /** How many items have the id. */
  function CountId(its: seq<Item>, id: nat): nat {
    if its == [] then 0 else (if its[0].id == id then 1 else 0) + CountId(its[1..], id)
  }

  predicate CountOk(card: Cardinality, n: nat) {
    match card
    case Repeated => true
    case RequiredRepeated => n > 0
    case Optional => n == 0 || n == 1
    case Required => n == 1
  }

  lemma TypedIsField(it: Item, f: Field)
    requires it.Fits()
    ensures it.Is(f) <==> it.id == f.id && Typed(it, f.ftype)
  {
  }

  lemma TypedIsKnown(schema: Schema, it: Item)
    requires it.Fits()
    ensures Known(schema, it) <==> TypedIn(schema, it)
  {
    hide Item.Is, Typed;
    forall k | 0 <= k < |schema| ensures it.Is(schema[k]) <==> it.id == schema[k].id && Typed(it, schema[k].ftype) {
      TypedIsField(it, schema[k]);
    }
  }

  lemma {:induction false} CountsAgree(schema: Schema, its: seq<Item>, k: nat)
    requires ValidSchema(schema) && k < |schema| && AllKnown(schema, its)
    ensures |Values(its, schema[k])| == CountId(its, schema[k].id)
  {
    hide ValidSchema, Item.Is;
    if its != [] {
      assert AllKnown(schema, its[1..]);
      CountsAgree(schema, its[1..], k);
      assert Known(schema, its[0]);
      var j :| 0 <= j < |schema| && its[0].Is(schema[j]);
      IdOfField(its[0], schema[j]);
      IdOfField(its[0], schema[k]);
      if its[0].id == schema[k].id { OneField(schema, its[0], k, j); }
    }
  }

  lemma IdOfField(it: Item, f: Field)
    ensures it.Is(f) ==> it.id == f.id
  {
  }

  /**
   * A parser takes a message exactly if every item is of a field of the schema, with the id and type of the field and
   * the bytes the type asks for, and each field occurs as often as it may and must.
   */
  lemma AcceptedMessages(schema: Schema, its: seq<Item>)
    requires ValidSchema(schema) && AllFit(its)
    ensures Conforms(schema, its) <==>
            && (forall i :: 0 <= i < |its| ==> TypedIn(schema, its[i]))
            && (forall k :: 0 <= k < |schema| ==> CountOk(schema[k].card, CountId(its, schema[k].id)))
  {
    hide Known, TypedIn, Values, ValidSchema;
    forall i | 0 <= i < |its| ensures Known(schema, its[i]) <==> TypedIn(schema, its[i]) {
      TypedIsKnown(schema, its[i]);
    }
    if AllKnown(schema, its) {
      forall k | 0 <= k < |schema| ensures |Values(its, schema[k])| == CountId(its, schema[k].id) {
        CountsAgree(schema, its, k);
      }
    }
  }
}
