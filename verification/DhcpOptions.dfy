/** The options of a DHCP reply: which byte strings the client accepts and what it reads from them. */
module DhcpOptions {
  import opened Bytes
  import opened Lists

  const PAD: Byte := 0
  const END: Byte := 255
  const SUBNET_MASK := 1
  const ROUTER := 3
  const DOMAIN_NAME_SERVER := 6
  const IP_ADDRESS_LEASE_TIME := 51
  const DHCP_MESSAGE_TYPE := 53
  const DHCP_SERVER_IDENTIFIER := 54
  const MAX_DOMAIN_NAME_SERVERS := 16

  datatype Reply = Reply(msgType: Option<nat>, serverId: Option<nat>, lease: Option<nat>, mask: Option<nat>,
                         router: Option<nat>, servers: seq<nat>)

  const NOTHING := Reply(None, None, None, None, None, [])

  /** A 32-bit value in network byte order. */
  function Word(v: seq<Byte>): nat
    requires |v| == 4
  {
    var a: int, b: int, c: int, d: int := v[0], v[1], v[2], v[3];
    ((a * 256 + b) * 256 + c) * 256 + d
  }

  function Words(v: seq<Byte>, n: nat): seq<nat>
    requires 4 * n <= |v|
  {
    seq(n, i requires 0 <= i < n => Word(v[4 * i..4 * i + 4]))
  }

  /** What one option adds to the reply; a known option of the wrong length spoils the reply. */
  function Apply(r: Reply, kind: nat, v: seq<Byte>): Option<Reply> {
    if kind == DHCP_MESSAGE_TYPE then (if |v| == 1 then Some(r.(msgType := Some(v[0]))) else None)
    else if kind == DHCP_SERVER_IDENTIFIER then (if |v| == 4 then Some(r.(serverId := Some(Word(v)))) else None)
    else if kind == IP_ADDRESS_LEASE_TIME then (if |v| == 4 then Some(r.(lease := Some(Word(v)))) else None)
    else if kind == SUBNET_MASK then (if |v| == 4 then Some(r.(mask := Some(Word(v)))) else None)
    else if kind == ROUTER then (if |v| == 4 then Some(r.(router := Some(Word(v)))) else None)
    else if kind == DOMAIN_NAME_SERVER then
      var n := |v| / 4;
      var kept := if n < MAX_DOMAIN_NAME_SERVERS then n else MAX_DOMAIN_NAME_SERVERS;
      if |v| % 4 == 0 then Some(r.(servers := Words(v, kept))) else None
    else Some(r)
  }

  /** The option loop of recv_handler_done. */
  function Parse(b: seq<Byte>, r: Reply, haveEnd: bool): Option<Reply>
    decreases |b|
  {
    if b == [] then (if haveEnd then Some(r) else None)
    else if b[0] == PAD then Parse(b[1..], r, haveEnd)
    else if haveEnd then None
    else if b[0] == END then Parse(b[1..], r, true)
    else if |b| < 2 || b[1] > |b| - 2 then None
    else
      var next := Apply(r, b[0], b[2..2 + b[1]]);
      if next.None? then None else Parse(b[2 + b[1]..], next.value, false)
  }

  // ------------------------------------------------------------------ what is accepted

  datatype Item = Padding | Opt(kind: nat, value: seq<Byte>) {
    predicate Fits() {
      Opt? ==> 0 < kind < 255 && |value| < 256
    }
  }

  predicate AllFit(items: seq<Item>) {
    forall i :: 0 <= i < |items| ==> items[i].Fits()
  }

  function EncodeItem(item: Item): seq<Byte>
    requires item.Fits()
  {
    match item
    case Padding => [PAD]
    case Opt(kind, value) => [kind, |value|] + value
  }

  function Encode(items: seq<Item>): seq<Byte>
    requires AllFit(items)
  {
    if items == [] then [] else EncodeItem(items[0]) + Encode(items[1..])
  }

  function Zeros(n: nat): (z: seq<Byte>)
    ensures |z| == n
  {
    seq(n, _ => PAD)
  }

  /** A whole options field: the options, the end option, and padding. */
  function EncodeField(items: seq<Item>, padding: nat): seq<Byte>
    requires AllFit(items)
  {
    Encode(items) + [END] + Zeros(padding)
  }

  /** The reply a list of options stands for; of several options of one kind the last counts. */
  function ApplyAll(r: Reply, items: seq<Item>): Option<Reply>
    decreases |items|
  {
    if items == [] then Some(r)
    else if items[0].Padding? then ApplyAll(r, items[1..])
    else
      var next := Apply(r, items[0].kind, items[0].value);
      if next.None? then None else ApplyAll(next.value, items[1..])
  }

  lemma {:induction false} ParseZeros(n: nat, r: Reply)
    ensures Parse(Zeros(n), r, true) == Some(r)
  {
    if n > 0 {
      assert Zeros(n)[1..] == Zeros(n - 1);
      ParseZeros(n - 1, r);
    }
  }

  lemma FieldCons(item: Item, rest: seq<Item>, padding: nat)
    requires item.Fits() && AllFit(rest)
    ensures AllFit([item] + rest)
    ensures EncodeField([item] + rest, padding) == EncodeItem(item) + EncodeField(rest, padding)
  {
    assert ([item] + rest)[1..] == rest;
  }

  /** One option is read off the front. */
  lemma ParseOption(kind: nat, value: seq<Byte>, rest: seq<Byte>, r: Reply)
    requires Opt(kind, value).Fits()
    ensures Parse(EncodeItem(Opt(kind, value)) + rest, r, false)
         == var next := Apply(r, kind, value); if next.None? then None else Parse(rest, next.value, false)
  {
    hide Apply;
    var b := EncodeItem(Opt(kind, value)) + rest;
    assert b[0] == kind && b[1] == |value|;
    assert b[2..2 + |value|] == value && b[2 + |value|..] == rest;
  }

  lemma {:induction false} ParseEncoded(items: seq<Item>, padding: nat, r: Reply)
    requires AllFit(items)
    ensures Parse(EncodeField(items, padding), r, false) == ApplyAll(r, items)
    decreases |items|, 1
  {
    if items == [] {
      var b := EncodeField(items, padding);
      assert b == [END] + Zeros(padding) && b[1..] == Zeros(padding);
      ParseZeros(padding, r);
    } else {
      ParseCons(items, padding, r);
    }
  }

  lemma ParseCons(items: seq<Item>, padding: nat, r: Reply)
    requires items != [] && AllFit(items)
    ensures Parse(EncodeField(items, padding), r, false) == ApplyAll(r, items)
    decreases |items|, 0
  {
    hide Apply, Zeros, Parse, EncodeField, EncodeItem;
    var rest := items[1..];
    assert items[0].Fits() && items == [items[0]] + rest;
    FieldCons(items[0], rest, padding);
    match items[0]
    case Padding =>
      ParsePadding(EncodeField(rest, padding), r);
      ParseEncoded(rest, padding, r);
    case Opt(kind, value) =>
      ParseOption(kind, value, EncodeField(rest, padding), r);
      var next := Apply(r, kind, value);
      if next.Some? { ParseEncoded(rest, padding, next.value); }
  }

  lemma ParsePadding(rest: seq<Byte>, r: Reply)
    ensures Parse(EncodeItem(Padding) + rest, r, false) == Parse(rest, r, false)
  {
    assert (EncodeItem(Padding) + rest)[1..] == rest;
  }

  lemma {:induction false} PaddingOnly(b: seq<Byte>, r: Reply)
    requires Parse(b, r, true).Some?
    ensures b == Zeros(|b|)
    decreases |b|
  {
    if b != [] {
      PaddingOnly(b[1..], r);
      assert b == [PAD] + b[1..];
    }
  }

  lemma {:induction false} AcceptedIsEncoded(b: seq<Byte>, r: Reply) returns (items: seq<Item>, padding: nat)
    requires Parse(b, r, false).Some?
    ensures AllFit(items) && b == EncodeField(items, padding)
    decreases |b|
  {
    hide Apply, Zeros, EncodeField;
    if b[0] == PAD {
      var rest;
      rest, padding := AcceptedIsEncoded(b[1..], r);
      FieldCons(Padding, rest, padding);
      items := [Padding] + rest;
    } else if b[0] == END {
      PaddingOnly(b[1..], r);
      items, padding := [], |b| - 1;
      EndOnly(b, padding);
    } else {
      var n: nat := b[1];
      var next, rest := Apply(r, b[0], b[2..2 + n]).value, [];
      rest, padding := AcceptedIsEncoded(b[2 + n..], next);
      FieldCons(Opt(b[0], b[2..2 + n]), rest, padding);
      items := [Opt(b[0], b[2..2 + n])] + rest;
      assert b == ([b[0], b[1]] + b[2..2 + n]) + b[2 + n..];
    }
  }

  lemma EndOnly(b: seq<Byte>, padding: nat)
    requires b != [] && b[0] == END && b[1..] == Zeros(padding)
    ensures b == EncodeField([], padding)
  {
    assert b == [END] + b[1..];
  }

  /** The client accepts exactly the encodings of lists of options it can apply, and reads what they stand for. */
  lemma AcceptsExactlyEncodings(b: seq<Byte>, r: Reply)
    ensures Parse(b, NOTHING, false) == Some(r)
       <==> exists items: seq<Item>, padding: nat ::
              AllFit(items) && b == EncodeField(items, padding) && ApplyAll(NOTHING, items) == Some(r)
  {
    hide Apply, Zeros, Parse, ApplyAll, EncodeField;
    if Parse(b, NOTHING, false) == Some(r) {
      var items, padding := AcceptedIsEncoded(b, NOTHING);
      ParseEncoded(items, padding, NOTHING);
    }
    forall items: seq<Item>, padding: nat | AllFit(items) && b == EncodeField(items, padding)
      ensures Parse(b, NOTHING, false) == ApplyAll(NOTHING, items)
    {
      ParseEncoded(items, padding, NOTHING);
    }
  }
}
