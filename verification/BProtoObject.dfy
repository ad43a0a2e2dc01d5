/** The generated writer and parser, parametric in the schema. */
module BProtoObject {
  import opened Bytes
  import opened Lists
  import opened BProto
  import opened BProtoLayout

  // ------------------------------------------------------------------ items of a field

  /** `v` is a value the `Add` function of field `f` takes. */
  predicate Fitting(f: Field, v: Value) {
    match f.ftype
    case UInt8 => v.Number? && v.n < Power256(1)
    case UInt16 => v.Number? && v.n < Power256(2)
    case UInt32 => v.Number? && v.n < Power256(4)
    case UInt64 => v.Number? && v.n < Power256(8)
    case Data => v.Bytes? && |v.b| < UINT32_RANGE
    case ConstData(size) => v.Bytes? && |v.b| == size
  }

  function MakeItem(f: Field, v: Value): Item {
    var code := f.ftype.Code();
    Item(f.id, code, if v.Bytes? then v.b else HostToLittle(v.n, if code <= 4 then UIntSize(code) else 0))
  }

  lemma MakeItemSays(f: Field, v: Value)
    requires Fitting(f, v) && f.id < UINT16_RANGE && (f.ftype.ConstData? ==> f.ftype.size < UINT32_RANGE)
    ensures var it := MakeItem(f, v); it.Fits() && it.Is(f) && ValueOf(it) == v
  {
    if v.Number? {
      LittleRoundTrip(v.n, UIntSize(f.ftype.Code()));
    }
  }

  /** What the writer appends for a value is laid out so. */
  lemma ValueLayout(f: Field, v: Value)
    requires Fitting(f, v) && f.id < UINT16_RANGE && (f.ftype.ConstData? ==> f.ftype.size < UINT32_RANGE)
    ensures MakeItem(f, v).Fits() && LaidOut(f, v, EncodeItem(MakeItem(f, v)))
  {
    MakeItemSays(f, v);
    var it := MakeItem(f, v);
    ItemLayout(it);
    hide HostToLittle, EncodeItem, LowFirst;
    if v.Number? {
      var b := EncodeItem(it);
      assert b[4..4 + |it.payload|] == it.payload;
      LittleAt(b, 4, |it.payload|, v.n);
    }
  }

  lemma {:induction false} ItemsOfBytes(b: seq<Byte>)
    requires ParseItems(b).Some?
    ensures AllFit(ParseItems(b).value) && EncodeItems(ParseItems(b).value) == b
    decreases |b|
  {
    hide ParseItem, EncodeItem;
    if b != [] {
      var r := ParseItem(b);
      ParsedIsEncoded(b);
      ItemsOfBytes(r.rest);
      var its := ParseItems(b).value;
      assert its[1..] == ParseItems(r.rest).value;
      assert its == [r.item] + its[1..];
    }
  }

  /** Written items followed by anything. */
  lemma {:induction false} ParseAfter(done: seq<Item>, tail: seq<Byte>)
    requires AllFit(done)
    ensures var more := ParseItems(tail);
            ParseItems(EncodeItems(done) + tail) == if more.None? then None else Some(done + more.value)
  {
    hide ParseItem, EncodeItem, ParseItems;
    if done == [] {
      assert EncodeItems(done) + tail == tail;
      assert ParseItems(tail).Some? ==> done + ParseItems(tail).value == ParseItems(tail).value;
    } else {
      ParseAfter(done[1..], tail);
      var later := EncodeItems(done[1..]) + tail;
      assert EncodeItems(done) + tail == EncodeItem(done[0]) + later;
      ParseEncodedFirst(done[0], later);
      assert ParseItems(tail).Some? ==>
        [done[0]] + (done[1..] + ParseItems(tail).value) == done + ParseItems(tail).value;
    }
  }

  // ------------------------------------------------------------------ writer

  datatype Addition = Addition(field: nat, value: Value)

  predicate FittingAdditions(schema: Schema, adds: seq<Addition>) {
    forall i :: 0 <= i < |adds| ==> adds[i].field < |schema| && Fitting(schema[adds[i].field], adds[i].value)
  }

  function ItemsOf(schema: Schema, adds: seq<Addition>): seq<Item>
    requires FittingAdditions(schema, adds)
  {
    seq(|adds|, i requires 0 <= i < |adds| => MakeItem(schema[adds[i].field], adds[i].value))
  }

  /** The values added to field `k`, in order. */
  function Added(adds: seq<Addition>, k: nat): seq<Value> {
    if adds == [] then []
    else Added(adds[..|adds| - 1], k) + (if adds[|adds| - 1].field == k then [adds[|adds| - 1].value] else [])
  }

  lemma {:induction false} AddedValues(schema: Schema, adds: seq<Addition>, k: nat)
    requires ValidSchema(schema) && FittingAdditions(schema, adds) && k < |schema|
    ensures Values(ItemsOf(schema, adds), schema[k]) == Added(adds, k)
  {
    hide MakeItem, Fitting, ValueOf, Item.Fits;
    if adds != [] {
      var n := |adds| - 1;
      var f, v := adds[n].field, adds[n].value;
      AddedValues(schema, adds[..n], k);
      var it := MakeItem(schema[f], v);
      MakeItemSays(schema[f], v);
      var before := ItemsOf(schema, adds[..n]);
      assert ItemsOf(schema, adds) == before + [it];
      ValuesConcat(before, [it], schema[k]);
      assert Values([it], schema[k]) == if it.Is(schema[k]) then [v] else [];
      if it.Is(schema[k]) { OneField(schema, it, f, k); }
    }
  }

  /**
   * Round trip: a message built by any sequence of `Add` calls that meets the cardinalities is accepted, and for each
   * field it says exactly the values added, in order.
   */
  lemma MessageRoundTrip(schema: Schema, adds: seq<Addition>)
    requires ValidSchema(schema) && FittingAdditions(schema, adds)
    requires forall k :: 0 <= k < |schema| ==> schema[k].card.Allows(|Added(adds, k)|)
    ensures var its := ItemsOf(schema, adds);
            && AllFit(its) && ParseItems(EncodeItems(its)) == Some(its) && Conforms(schema, its)
            && forall k :: 0 <= k < |schema| ==> Values(its, schema[k]) == Added(adds, k)
  {
    var its := ItemsOf(schema, adds);
    forall k | 0 <= k < |schema|
      ensures Values(its, schema[k]) == Added(adds, k)
    {
      AddedValues(schema, adds, k);
    }
    forall i | 0 <= i < |its|
      ensures its[i].Fits() && Known(schema, its[i])
    {
      MakeItemSays(schema[adds[i].field], adds[i].value);
    }
    ParseEncodedItems(its);
  }

  lemma OneMoreAddition(schema: Schema, adds: seq<Addition>, k: nat, v: Value)
    requires ValidSchema(schema) && FittingAdditions(schema, adds) && AllFit(ItemsOf(schema, adds))
    requires k < |schema| && Fitting(schema[k], v)
    ensures var more, it := adds + [Addition(k, v)], MakeItem(schema[k], v);
            && it.Fits() && FittingAdditions(schema, more) && AllFit(ItemsOf(schema, more))
            && EncodeItems(ItemsOf(schema, more)) == EncodeItems(ItemsOf(schema, adds)) + EncodeItem(it)
            && forall j: nat :: |Added(more, j)| == |Added(adds, j)| + if j == k then 1 else 0
  {
    hide EncodeItem, MakeItem, Fitting;
    var more, it := adds + [Addition(k, v)], MakeItem(schema[k], v);
    MakeItemSays(schema[k], v);
    assert ItemsOf(schema, more) == ItemsOf(schema, adds) + [it];
    EncodeItemsConcat(ItemsOf(schema, adds), [it]);
    assert EncodeItems([it]) == EncodeItem(it) + EncodeItems([]) == EncodeItem(it);
    assert more[..|more| - 1] == adds;
  }

  class MessageWriter {
    const schema: Schema
    var out: seq<Byte>
    var counts: seq<nat>
    ghost var adds: seq<Addition>

    ghost predicate Valid()
      reads this
    {
      && ValidSchema(schema) && FittingAdditions(schema, adds) && |counts| == |schema|
      && AllFit(ItemsOf(schema, adds)) && out == EncodeItems(ItemsOf(schema, adds))
      && (forall k :: 0 <= k < |schema| ==> counts[k] == |Added(adds, k)|)
    }

    constructor (schema: Schema)
      requires ValidSchema(schema)
      ensures Valid() && this.schema == schema && adds == []
    {
      this.schema, out, adds := schema, [], [];
      counts := seq(|schema|, i => 0);
    }

    /** Writer_Add of field `k`; an optional or required field is added at most once */
    method Add(k: nat, v: Value)
      requires Valid() && k < |schema| && Fitting(schema[k], v)
      requires schema[k].card.Optional? || schema[k].card.Required? ==> counts[k] == 0
      modifies this
      ensures Valid() && adds == old(adds) + [Addition(k, v)]
      ensures old(out) <= out && LaidOut(schema[k], v, out[|old(out)|..])
    {
      hide EncodeItem, EncodeItems, ItemsOf, MakeItem, Added, FittingAdditions, AllFit, LaidOut, Fitting;
      OneMoreAddition(schema, adds, k, v);
      ValueLayout(schema[k], v);
      out := out + EncodeItem(MakeItem(schema[k], v));
      counts := counts[k := counts[k] + 1];
      adds := adds + [Addition(k, v)];
    }

    /** Writer_Finish, whose assertions ask for the cardinalities */
    method Finish() returns (message: seq<Byte>)
      requires Valid() && forall k :: 0 <= k < |schema| ==> schema[k].card.Allows(counts[k])
      ensures message == out && ParseItems(message).Some? && Conforms(schema, ParseItems(message).value)
      ensures forall k :: 0 <= k < |schema| ==> Values(ParseItems(message).value, schema[k]) == Added(adds, k)
    {
      MessageRoundTrip(schema, adds);
      message := out;
    }
  }

  // ------------------------------------------------------------------ where a field's items lie

  /** Items before the first one of field `f`. */
  function Lead(its: seq<Item>, f: Field): (n: nat)
    ensures n <= |its| && NoneIs(its[..n], f)
    ensures n < |its| ==> its[n].Is(f)
  {
    if its == [] || its[0].Is(f) then 0
    else
      var m := Lead(its[1..], f);
      assert its[..m + 1] == [its[0]] + its[1..][..m];
      m + 1
  }

  /** Items up to and including the last one of field `f`. */
  function Upto(its: seq<Item>, f: Field): (n: nat)
    ensures n <= |its| && NoneIs(its[n..], f)
    ensures n > 0 ==> its[n - 1].Is(f)
  {
    if its == [] || its[|its| - 1].Is(f) then |its|
    else
      var m := Upto(its[..|its| - 1], f);
      assert its[m..] == its[..|its| - 1][m..] + [its[|its| - 1]];
      m
  }

  /** Where item `n` begins in the message. */
  function Offset(its: seq<Item>, n: nat): nat
    requires AllFit(its) && n <= |its|
  {
    |EncodeItems(its[..n])|
  }

  /** `start` and `span` of field `f` after the items `its`; `start` is the buffer length while there is none. */
  predicate RegionOk(its: seq<Item>, f: Field, bufLen: nat, start: nat, span: nat)
    requires AllFit(its)
  {
    if NoneIs(its, f) then start == bufLen && span == 0
    else start == Offset(its, Lead(its, f)) && start + span == Offset(its, Upto(its, f)) && start < bufLen
  }

  lemma OffsetSnoc(its: seq<Item>, it: Item, n: nat)
    requires AllFit(its) && it.Fits() && n <= |its|
    ensures AllFit(its + [it]) && Offset(its + [it], n) == Offset(its, n)
    ensures Offset(its + [it], |its| + 1) == Offset(its, |its|) + |EncodeItem(it)|
  {
    hide EncodeItem;
    assert (its + [it])[..n] == its[..n];
    assert (its + [it])[..|its| + 1] == its + [it] && its[..|its|] == its;
    EncodeItemsConcat(its, [it]);
    assert EncodeItems([it]) == EncodeItem(it) + EncodeItems([]) == EncodeItem(it);
  }

  lemma NoneSnoc(its: seq<Item>, it: Item, f: Field)
    ensures NoneIs(its + [it], f) <==> NoneIs(its, f) && !it.Is(f)
  {
    var r := its + [it];
    assert r[|its|] == it;
    assert forall i :: 0 <= i < |its| ==> r[i] == its[i];
  }

  lemma {:induction false} LeadSnoc(its: seq<Item>, it: Item, f: Field)
    requires !NoneIs(its, f) || it.Is(f)
    ensures Lead(its + [it], f) == if NoneIs(its, f) then |its| else Lead(its, f)
  {
    if its == [] {
    } else if !its[0].Is(f) {
      assert (its + [it])[1..] == its[1..] + [it];
      assert NoneIs(its, f) <==> NoneIs(its[1..], f) by {
        assert its == [its[0]] + its[1..];
        NoValues(its, f);
        NoValues(its[1..], f);
      }
      LeadSnoc(its[1..], it, f);
    }
  }

  /** The update one item makes to the region of its field, and that it leaves the others alone. */
  lemma RegionSnoc(its: seq<Item>, it: Item, f: Field, bufLen: nat, start: nat, span: nat)
    requires AllFit(its) && it.Fits() && RegionOk(its, f, bufLen, start, span)
    requires Offset(its, |its|) < bufLen
    ensures AllFit(its + [it])
    ensures var at := Offset(its, |its|);
            if it.Is(f) then
              var s := if start == bufLen then at else start;
              s <= at && RegionOk(its + [it], f, bufLen, s, at + |EncodeItem(it)| - s)
            else RegionOk(its + [it], f, bufLen, start, span)
  {
    hide EncodeItem, EncodeItems, Lead, Upto;
    var r := its + [it];
    NoneSnoc(its, it, f);
    assert r[..|r| - 1] == its && r[|r| - 1] == it;
    assert Upto(r, f) == if it.Is(f) then |r| else Upto(its, f) by { UptoSnoc(its, it, f); }
    OffsetSnoc(its, it, |its|);
    if !NoneIs(its, f) || it.Is(f) {
      LeadSnoc(its, it, f);
      OffsetSnoc(its, it, Lead(its, f));
      OffsetSnoc(its, it, Upto(its, f));
      OffsetGrows(its, Lead(its, f));
    }
  }

  lemma UptoSnoc(its: seq<Item>, it: Item, f: Field)
    ensures Upto(its + [it], f) == if it.Is(f) then |its| + 1 else Upto(its, f)
  {
    assert (its + [it])[..|its|] == its;
  }

  lemma OffsetGrows(its: seq<Item>, n: nat)
    requires AllFit(its) && n <= |its|
    ensures Offset(its, n) <= Offset(its, |its|)
  {
    EncodeItemsConcat(its[..n], its[n..]);
    assert its[..n] + its[n..] == its && its[..|its|] == its;
  }

  /** The bytes of a field's region are whole items, all values of the field among them, the last one at the end. */
  lemma RegionHolds(its: seq<Item>, f: Field, start: nat, span: nat)
    requires AllFit(its) && RegionOk(its, f, |EncodeItems(its)|, start, span)
    ensures start + span <= |EncodeItems(its)|
    ensures var rem := ParseItems(EncodeItems(its)[start..start + span]);
            && rem.Some? && Values(rem.value, f) == Values(its, f)
            && (rem.value != [] ==> rem.value[|rem.value| - 1].Is(f))
            && (forall it :: it in rem.value ==> it in its)
  {
    hide EncodeItem, EncodeItems, Lead, Upto, ParseItem, NoneIs;
    if NoneIs(its, f) {
      assert EncodeItems(its)[start..start + span] == [];
      NothingLeft();
      NoValues(its, f);
    } else {
      var i, j := Lead(its, f), Upto(its, f);
      LeadBelowUpto(its, f);
      var mid := its[i..j];
      PartBytes(its, i, j);
      ParseEncodedItems(mid);
      PartValues(its, i, j, f);
      assert mid[|mid| - 1] == its[j - 1];
    }
  }

  lemma PartBytes(its: seq<Item>, i: nat, j: nat)
    requires AllFit(its) && i <= j <= |its|
    ensures Offset(its, i) <= Offset(its, j) <= |EncodeItems(its)|
    ensures EncodeItems(its)[Offset(its, i)..Offset(its, j)] == EncodeItems(its[i..j])
  {
    hide EncodeItems, Item.Fits;
    var pre, mid, post := its[..i], its[i..j], its[j..];
    assert AllFit(pre) && AllFit(mid) && AllFit(post);
    assert its == pre + mid + post && its[..j] == pre + mid;
    ThreeParts(pre, mid, post);
  }

  lemma ThreeParts(pre: seq<Item>, mid: seq<Item>, post: seq<Item>)
    requires AllFit(pre) && AllFit(mid) && AllFit(post)
    ensures AllFit(pre + mid) && AllFit(pre + mid + post)
    ensures var x, xy, all := EncodeItems(pre), EncodeItems(pre + mid), EncodeItems(pre + mid + post);
            |x| <= |xy| <= |all| && all[|x|..|xy|] == EncodeItems(mid)
  {
    hide EncodeItems, AllFit;
    EncodeItemsConcat(pre, mid);
    EncodeItemsConcat(pre + mid, post);
    MiddleOfThree(EncodeItems(pre), EncodeItems(mid), EncodeItems(post));
  }

  lemma MiddleOfThree(x: seq<Byte>, y: seq<Byte>, z: seq<Byte>)
    ensures (x + y + z)[|x|..|x| + |y|] == y
  {
  }

  lemma PartValues(its: seq<Item>, i: nat, j: nat, f: Field)
    requires i <= j <= |its| && NoneIs(its[..i], f) && NoneIs(its[j..], f)
    ensures Values(its[i..j], f) == Values(its, f)
  {
    hide Values;
    var pre, mid, post := its[..i], its[i..j], its[j..];
    assert its == pre + mid + post;
    ValuesConcat(pre, mid, f);
    ValuesConcat(pre + mid, post, f);
    NoValues(pre, f);
    NoValues(post, f);
  }

  lemma LeadBelowUpto(its: seq<Item>, f: Field)
    requires !NoneIs(its, f)
    ensures Lead(its, f) < Upto(its, f)
  {
    hide Lead, Upto;
    var i, j := Lead(its, f), Upto(its, f);
    var k :| 0 <= k < |its| && its[k].Is(f);
    NoneInPart(its, 0, i, f, k);
    NoneInPart(its, j, |its|, f, k);
    assert its[0..i] == its[..i] && its[j..|its|] == its[j..];
  }

  lemma NoneInPart(its: seq<Item>, lo: nat, hi: nat, f: Field, k: nat)
    requires lo <= hi <= |its|
    ensures NoneIs(its[lo..hi], f) && lo <= k < hi ==> !its[k].Is(f)
  {
    assert forall m :: lo <= m < hi ==> its[m] == its[lo..hi][m - lo];
  }

  // ------------------------------------------------------------------ parser

  class MessageParser {
    const schema: Schema
    var buf: seq<Byte>
    var start: seq<nat>
    var span: seq<nat>
    var pos: seq<nat>

    ghost predicate Shaped()
      reads this
    {
      && ValidSchema(schema) && |start| == |span| == |pos| == |schema|
      && forall k :: 0 <= k < |schema| ==> pos[k] <= span[k] && start[k] + span[k] <= |buf|
    }

    /** The items of the message from the read position of field `k` to the end of its region. */
    ghost function Rest(k: nat): Option<seq<Item>>
      requires Shaped() && k < |schema|
      reads this
    {
      ParseItems(buf[start[k] + pos[k]..start[k] + span[k]])
    }

    ghost predicate Valid()
      reads this
    {
      Shaped() && forall k :: 0 <= k < |schema| ==> RestOk(schema, schema[k], Rest(k))
    }

    /** The values `Get` of field `k` has still to return. */
    ghost function Pending(k: nat): seq<Value>
      requires Valid() && k < |schema|
      reads this
    {
      Values(Rest(k).value, schema[k])
    }

    constructor (schema: Schema)
      requires ValidSchema(schema)
      ensures this.schema == schema
    {
      this.schema, buf := schema, [];
      start, span, pos := [], [], [];
    }

    /** Parser_Init */
    method Init(buffer: seq<Byte>) returns (ok: bool)
      requires ValidSchema(schema)
      modifies this
      ensures ok <==> ParseItems(buffer).Some? && Conforms(schema, ParseItems(buffer).value)
      ensures ok ==> Valid()
      ensures ok ==> forall k :: 0 <= k < |schema| ==> Pending(k) == Values(ParseItems(buffer).value, schema[k])
    {
      hide ParseItem, ParseItems, EncodeItem, EncodeItems, Conforms, AllKnown, AllFit, FieldsOk, RestOk;
      hide Values, Item.Fits, Item.Is, Known, ValidSchema, Cardinality.Allows;
      buf := buffer;
      start := seq(|schema|, i => |buffer|);
      span := seq(|schema|, i => 0);
      pos := seq(|schema|, i => 0);
      var counts: seq<nat> := seq(|schema|, i => 0);
      ghost var done: seq<Item> := [];
      var at := 0;
      BeforeAnyItem(schema, |buffer|);
      assert buffer[..0] == [] == EncodeItems([]);
      while at < |buf|
        invariant buf == buffer && at <= |buf| && |start| == |span| == |pos| == |counts| == |schema|
        invariant AllFit(done) && AllKnown(schema, done) && buffer[..at] == EncodeItems(done)
        invariant forall k :: 0 <= k < |schema| ==> pos[k] == 0
        invariant FieldsOk(schema, done, |buf|, start, span, counts)
      {
        NextItem(schema, done, buffer, at);
        var r := ParseItem(buf[at..]);
        if r.Malformed? {
          return false;
        }
        var k := FieldOf(schema, r.item);
        if k == |schema| {
          return false;
        }
        var next := |buf| - |r.rest|;
        FieldsSnoc(schema, done, r.item, k, |buf|, start, span, counts);
        KnownSnoc(schema, done, r.item);
        start := start[k := if start[k] == |buf| then at else start[k]];
        span := span[k := next - start[k]];
        counts := counts[k := counts[k] + 1];
        done := done + [r.item];
        at := next;
      }
      assert buffer[..at] == buffer;
      ParseEncodedItems(done);
      ok := CheckCounts(schema, counts);
      FieldsDone(schema, done, buf, start, span, counts);
    }

    /** Parser_Get of field `k`: the next value of the field, if any; its assertions hold on any accepted message */
    method Get(k: nat) returns (value: Option<Value>)
      requires Valid() && k < |schema|
      modifies `pos
      ensures Valid() && forall j :: 0 <= j < |schema| && j != k ==> pos[j] == old(pos)[j]
      ensures old(Pending(k)) == [] ==> value == None && Pending(k) == []
      ensures old(Pending(k)) != [] ==> value == Some(old(Pending(k))[0]) && Pending(k) == old(Pending(k))[1..]
    {
      hide ParseItem, ParseItems, EncodeItem, RestOk;
      var f := schema[k];
      ghost var pending := Pending(k);
      while pos[k] < span[k]
        invariant Valid() && (forall j :: 0 <= j < |schema| && j != k ==> pos[j] == old(pos)[j])
        invariant Pending(k) == pending
        decreases span[k] - pos[k]
      {
        var b := buf[start[k] + pos[k]..start[k] + span[k]];
        var r := ParseItem(b);
        RestStep(schema, k, b);
        pos := pos[k := span[k] - |r.rest|];
        assert buf[start[k] + pos[k]..start[k] + span[k]] == r.rest;
        if r.item.code == f.ftype.Code() && r.item.id == f.id {
          return Some(ValueOf(r.item));
        }
      }
      assert buf[start[k] + pos[k]..start[k] + span[k]] == [];
      NothingLeft();
      value := None;
    }

    /** Parser_GotEverything */
    method GotEverything() returns (all: bool)
      requires Valid()
      ensures all <==> forall k :: 0 <= k < |schema| ==> Pending(k) == []
    {
      hide ParseItem, ParseItems, RestOk;
      var k := 0;
      all := true;
      while k < |schema|
        invariant 0 <= k <= |schema|
        invariant all <==> forall j :: 0 <= j < k ==> Pending(j) == []
      {
        RestEmpty(schema[k], schema, buf[start[k] + pos[k]..start[k] + span[k]]);
        assert Pending(k) == [] <==> pos[k] == span[k];
        all := all && pos[k] == span[k];
        k := k + 1;
      }
    }
  }

  /** What the read position of a field guarantees: whole known items, ending in one of the field's. */
  predicate RestOk(schema: Schema, f: Field, rest: Option<seq<Item>>) {
    && rest.Some? && AllKnown(schema, rest.value)
    && (rest.value != [] ==> rest.value[|rest.value| - 1].Is(f))
  }

  /** The `switch` on the type and id of an item; |schema| if there is no such field */
  method FieldOf(schema: Schema, it: Item) returns (k: nat)
    ensures k <= |schema| && (k < |schema| ==> it.Is(schema[k])) && (k == |schema| ==> !Known(schema, it))
  {
    k := 0;
    while k < |schema| && !it.Is(schema[k])
      invariant 0 <= k <= |schema| && forall j :: 0 <= j < k ==> !it.Is(schema[j])
    {
      k := k + 1;
    }
  }

  method CheckCounts(schema: Schema, counts: seq<nat>) returns (ok: bool)
    requires |counts| == |schema|
    ensures ok <==> forall k :: 0 <= k < |schema| ==> schema[k].card.Allows(counts[k])
  {
    var k := 0;
    while k < |schema|
      invariant 0 <= k <= |schema| && forall j :: 0 <= j < k ==> schema[j].card.Allows(counts[j])
    {
      if !schema[k].card.Allows(counts[k]) {
        return false;
      }
      k := k + 1;
    }
    return true;
  }

  /** The per-field variables of `Parser_Init` after the items `its`. */
  ghost predicate FieldsOk(schema: Schema, its: seq<Item>, bufLen: nat, start: seq<nat>, span: seq<nat>,
                           counts: seq<nat>) {
    && |start| == |span| == |counts| == |schema| && AllFit(its)
    && (forall k :: 0 <= k < |schema| ==> RegionOk(its, schema[k], bufLen, start[k], span[k]))
    && (forall k :: 0 <= k < |schema| ==> counts[k] == |Values(its, schema[k])|)
  }

  lemma BeforeAnyItem(schema: Schema, bufLen: nat)
    ensures AllFit([]) && AllKnown(schema, []) && EncodeItems([]) == []
    ensures FieldsOk(schema, [], bufLen, seq(|schema|, i => bufLen), seq(|schema|, i => 0), seq(|schema|, i => 0))
  {
  }

  lemma FieldsSnoc(schema: Schema, its: seq<Item>, it: Item, k: nat, bufLen: nat, start: seq<nat>, span: seq<nat>,
                   counts: seq<nat>)
    requires ValidSchema(schema) && FieldsOk(schema, its, bufLen, start, span, counts)
    requires it.Fits() && k < |schema| && it.Is(schema[k]) && Offset(its, |its|) < bufLen
    ensures var at := Offset(its, |its|);
            var s := if start[k] == bufLen then at else start[k];
            && s <= at
            && FieldsOk(schema, its + [it], bufLen, start[k := s], span[k := at + |EncodeItem(it)| - s],
                        counts[k := counts[k] + 1])
  {
    hide RegionOk, EncodeItem, Offset, Values;
    forall j | 0 <= j < |schema|
      ensures AllFit(its + [it]) && |Values(its + [it], schema[j])| == counts[j] + (if j == k then 1 else 0)
      ensures var at := Offset(its, |its|);
              if j == k then
                var s := if start[j] == bufLen then at else start[j];
                s <= at && RegionOk(its + [it], schema[j], bufLen, s, at + |EncodeItem(it)| - s)
              else RegionOk(its + [it], schema[j], bufLen, start[j], span[j])
    {
      RegionSnoc(its, it, schema[j], bufLen, start[j], span[j]);
      if it.Is(schema[j]) { OneField(schema, it, k, j); }
      ValuesConcat(its, [it], schema[j]);
      OneValue(it, schema[j]);
    }
  }

  lemma OneValue(it: Item, f: Field)
    ensures Values([it], f) == if it.Is(f) then [ValueOf(it)] else []
  {
  }

  /** At the end of the message: the counts decide, and every field stands at the start of its values. */
  lemma FieldsDone(schema: Schema, its: seq<Item>, buf: seq<Byte>, start: seq<nat>, span: seq<nat>, counts: seq<nat>)
    requires AllFit(its) && AllKnown(schema, its) && buf == EncodeItems(its)
    requires FieldsOk(schema, its, |buf|, start, span, counts)
    ensures Conforms(schema, its) <==> forall k :: 0 <= k < |schema| ==> schema[k].card.Allows(counts[k])
    ensures forall k :: 0 <= k < |schema| ==>
              && start[k] + span[k] <= |buf|
              && RestOk(schema, schema[k], ParseItems(buf[start[k]..start[k] + span[k]]))
              && Values(ParseItems(buf[start[k]..start[k] + span[k]]).value, schema[k]) == Values(its, schema[k])
  {
    hide RegionOk, ParseItems, Values, AllKnown, EncodeItems;
    forall k | 0 <= k < |schema|
      ensures start[k] + span[k] <= |buf|
      ensures RestOk(schema, schema[k], ParseItems(buf[start[k]..start[k] + span[k]]))
      ensures Values(ParseItems(buf[start[k]..start[k] + span[k]]).value, schema[k]) == Values(its, schema[k])
    {
      RegionHolds(its, schema[k], start[k], span[k]);
      KnownSubset(schema, its, ParseItems(buf[start[k]..start[k] + span[k]]).value);
    }
  }

  lemma MalformedTail(tail: seq<Byte>)
    requires tail != [] && ParseItem(tail).Malformed?
    ensures ParseItems(tail).None?
  {
  }

  lemma UnknownItem(schema: Schema, done: seq<Item>, tail: seq<Byte>)
    requires tail != [] && ParseItem(tail).Parsed? && !Known(schema, ParseItem(tail).item)
    ensures ParseItems(tail).Some? ==> !Conforms(schema, done + ParseItems(tail).value)
  {
    hide ParseItem;
    if ParseItems(tail).Some? {
      var all := done + ParseItems(tail).value;
      assert all[|done|] == ParseItem(tail).item;
    }
  }

  lemma KnownSnoc(schema: Schema, done: seq<Item>, it: Item)
    requires AllKnown(schema, done) && Known(schema, it)
    ensures AllKnown(schema, done + [it])
  {
  }

  /** One round of `Parser_Init` after the items `done`, in terms of the whole message. */
  lemma NextItem(schema: Schema, done: seq<Item>, buffer: seq<Byte>, at: nat)
    requires AllFit(done) && at < |buffer| && buffer[..at] == EncodeItems(done)
    ensures Offset(done, |done|) == at
    ensures var r := ParseItem(buffer[at..]);
            && (r.Malformed? ==> ParseItems(buffer).None?)
            && (r.Parsed? ==>
                  var next := |buffer| - |r.rest|;
                  && r.item.Fits() && next == at + |EncodeItem(r.item)| && next <= |buffer| && AllFit(done + [r.item])
                  && buffer[..next] == EncodeItems(done + [r.item])
                  && (Known(schema, r.item) || ParseItems(buffer).None? || !Conforms(schema, ParseItems(buffer).value)))
  {
    hide ParseItem, ParseItems, EncodeItem, EncodeItems, Conforms, Known;
    assert done[..|done|] == done;
    var tail := buffer[at..];
    assert buffer == buffer[..at] + tail;
    ParseAfter(done, tail);
    var r := ParseItem(tail);
    if r.Malformed? {
      MalformedTail(tail);
    } else {
      ParsedIsEncoded(tail);
      EncodeItemsConcat(done, [r.item]);
      EncodeOne(r.item);
      assert buffer[..|buffer| - |r.rest|] == buffer[..at] + EncodeItem(r.item);
      if !Known(schema, r.item) {
        UnknownItem(schema, done, tail);
      }
    }
  }

  lemma EncodeOne(it: Item)
    requires it.Fits()
    ensures EncodeItems([it]) == EncodeItem(it)
  {
    hide EncodeItem;
    assert EncodeItems([it]) == EncodeItem(it) + EncodeItems([]);
  }

  lemma KnownSubset(schema: Schema, its: seq<Item>, some: seq<Item>)
    requires AllKnown(schema, its) && forall it :: it in some ==> it in its
    ensures AllKnown(schema, some)
  {
    forall i | 0 <= i < |some|
      ensures Known(schema, some[i])
    {
      assert some[i] in some;
    }
  }

  /** One round of a getter: an item is there, and skipping or returning it leaves the position sound. */
  lemma RestStep(schema: Schema, k: nat, b: seq<Byte>)
    requires ValidSchema(schema) && k < |schema| && b != [] && RestOk(schema, schema[k], ParseItems(b))
    ensures var f, r := schema[k], ParseItem(b);
            && r.Parsed? && RestOk(schema, f, ParseItems(r.rest))
            && Values(ParseItems(b).value, f)
               == (if r.item.code == f.ftype.Code() && r.item.id == f.id then [ValueOf(r.item)] else [])
                  + Values(ParseItems(r.rest).value, f)
  {
    hide ParseItem;
    var f, r := schema[k], ParseItem(b);
    var its, rest := ParseItems(b).value, ParseItems(r.rest).value;
    assert its == [r.item] + rest && its[1..] == rest;
    assert its[0] == r.item && Known(schema, its[0]);
    if r.item.code == f.ftype.Code() && r.item.id == f.id {
      var j :| 0 <= j < |schema| && r.item.Is(schema[j]);
      OneField(schema, r.item, k, j);
    }
    KnownSubset(schema, its, rest);
    if rest != [] {
      assert rest[|rest| - 1] == its[|its| - 1];
    }
  }

  lemma NothingLeft()
    ensures ParseItems([]) == Some([]) && forall f :: Values([], f) == []
  {
  }

  /** The region ends with a value of the field: no value is left exactly when no byte is. */
  lemma RestEmpty(f: Field, schema: Schema, b: seq<Byte>)
    requires RestOk(schema, f, ParseItems(b))
    ensures Values(ParseItems(b).value, f) == [] <==> b == []
  {
    hide ParseItem;
    var its := ParseItems(b).value;
    NoValues(its, f);
    ItemsOfBytes(b);
    if b != [] {
      assert its != [];
    }
  }
}
