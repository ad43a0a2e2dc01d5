/** What the DHCP client makes of a reply and of an expired timer, said in terms of the options on the wire. */
module DhcpReplies {
  import opened Bytes
  import opened Lists
  import opened DhcpOptions
  import opened DhcpLease

  // ------------------------------------------------------------------ what options say

  /** The value of the last option of a kind. */
  function LastOf(items: seq<Item>, kind: nat): Option<seq<Byte>> {
    if items == [] then None
    else
      var x := items[|items| - 1];
      if x.Opt? && x.kind == kind then Some(x.value) else LastOf(items[..|items| - 1], kind)
  }

  /** Four bytes, the most significant first. */
  function Address(v: seq<Byte>): int
    requires |v| == 4
  {
    var a: int, b: int, c: int, d: int := v[0], v[1], v[2], v[3];
    a * 0x100_0000 + b * 0x1_0000 + c * 0x100 + d
  }

  /** The options the client reads have the length they must have. */
  predicate LengthOk(item: Item) {
    item.Opt? ==>
      && (item.kind == 53 ==> |item.value| == 1)
      && (item.kind in {54, 51, 1, 3} ==> |item.value| == 4)
      && (item.kind == 6 ==> |item.value| % 4 == 0)
  }

  predicate LengthsOk(items: seq<Item>) {
    forall i :: 0 <= i < |items| ==> LengthOk(items[i])
  }

  predicate SaysAddress(v: Option<seq<Byte>>, x: Option<nat>) {
    if v.None? then x.None? else |v.value| == 4 && x.Some? && x.value == Address(v.value)
  }

  /** At most 16 name servers, in order. */
  predicate SaysServers(v: Option<seq<Byte>>, servers: seq<nat>) {
    if v.None? then servers == []
    else
      && |v.value| % 4 == 0 && |servers| == (if |v.value| / 4 < 16 then |v.value| / 4 else 16)
      && forall i :: 0 <= i < |servers| ==> servers[i] == Address(v.value[4 * i..4 * i + 4])
  }

  /** The reply says what the last option of each kind says. */
  predicate Says(items: seq<Item>, r: Reply) {
    && (var t := LastOf(items, 53);
        if t.None? then r.msgType.None? else |t.value| == 1 && r.msgType == Some(t.value[0]))
    && SaysAddress(LastOf(items, 54), r.serverId) && SaysAddress(LastOf(items, 51), r.lease)
    && SaysAddress(LastOf(items, 1), r.mask) && SaysAddress(LastOf(items, 3), r.router)
    && SaysServers(LastOf(items, 6), r.servers)
  }

  lemma LastOfSnoc(items: seq<Item>, x: Item, kind: nat)
    ensures LastOf(items + [x], kind) == if x.Opt? && x.kind == kind then Some(x.value) else LastOf(items, kind)
  {
    assert (items + [x])[..|items|] == items;
  }

  lemma {:induction false} ApplySnoc(r: Reply, items: seq<Item>, x: Item)
    ensures var before := ApplyAll(r, items);
            ApplyAll(r, items + [x]) ==
            if before.None? then None else if x.Padding? then before else Apply(before.value, x.kind, x.value)
    decreases |items|
  {
    hide Apply;
    if items == [] {
      assert ([] + [x])[1..] == [];
    } else {
      assert (items + [x])[1..] == items[1..] + [x];
      if items[0].Padding? {
        ApplySnoc(r, items[1..], x);
      } else if Apply(r, items[0].kind, items[0].value).Some? {
        ApplySnoc(Apply(r, items[0].kind, items[0].value).value, items[1..], x);
      }
    }
  }

  /** One more option. */
  lemma SaysSnoc(items: seq<Item>, r: Reply, x: Item)
    requires Says(items, r)
    ensures x.Padding? ==> Says(items + [x], r)
    ensures x.Opt? && !LengthOk(x) ==> Apply(r, x.kind, x.value).None?
    ensures x.Opt? && LengthOk(x) ==>
              Apply(r, x.kind, x.value).Some? && Says(items + [x], Apply(r, x.kind, x.value).value)
  {
    hide LastOf;
    LastOfSnoc(items, x, 53);
    LastOfSnoc(items, x, 54);
    LastOfSnoc(items, x, 51);
    LastOfSnoc(items, x, 1);
    LastOfSnoc(items, x, 3);
    LastOfSnoc(items, x, 6);
  }

  /** Options are taken exactly if all have their lengths, and stand for what the last of each kind says. */
  lemma {:induction false} OptionsSay(items: seq<Item>)
    ensures ApplyAll(NOTHING, items).Some? <==> LengthsOk(items)
    ensures LengthsOk(items) ==> Says(items, ApplyAll(NOTHING, items).value)
  {
    hide Apply, Says, LengthOk;
    if items == [] {
      NothingSaid();
    } else {
      var n := |items| - 1;
      var before, x := items[..n], items[n];
      assert items == before + [x];
      OptionsSay(before);
      ApplySnoc(NOTHING, before, x);
      if LengthsOk(before) {
        SaysSnoc(before, ApplyAll(NOTHING, before).value, x);
        PaddingIsFine();
      }
    }
  }

  lemma NothingSaid()
    ensures Says([], NOTHING)
  {
  }

  lemma PaddingIsFine()
    ensures LengthOk(Padding)
  {
  }

  /** The bytes of an options field: kind, length and value of each option, zeros between them, 255 and zeros. */
  lemma OptionBytes(items: seq<Item>, padding: nat, kind: nat, value: seq<Byte>)
    requires AllFit(items) && Opt(kind, value).Fits()
    ensures EncodeItem(Padding) == [0] && EncodeItem(Opt(kind, value)) == [kind, |value|] + value
    ensures |EncodeField(items, padding)| == |Encode(items)| + 1 + padding
    ensures var b, n := EncodeField(items, padding), |Encode(items)|;
            b[..n] == Encode(items) && b[n] == 255 && forall i :: n < i < |b| ==> b[i] == 0
  {
  }

  // ------------------------------------------------------------------ what a packet says

  /** A reply to the client's transaction, from the header on, with its options. */
  ghost predicate IsReply(c: Core, mac: nat, p: Packet, items: seq<Item>, padding: nat) {
    && p.Packet? && p.op == 2 && p.htype == 1 && p.hlen == 6 && p.magic == 0x63825363
    && p.xid == c.xid && p.clientMac == mac
    && AllFit(items) && LengthsOk(items) && p.options == EncodeField(items, padding)
  }

  ghost predicate Carries(c: Core, mac: nat, p: Packet, r: Reply) {
    exists items: seq<Item>, padding: nat :: IsReply(c, mac, p, items, padding) && Says(items, r)
  }

  lemma SaysOneThing(items: seq<Item>, r: Reply, s: Reply)
    requires Says(items, r) && Says(items, s)
    ensures r == s
  {
    assert r.servers == s.servers;
  }

  lemma NoticedIsCarried(c: Core, mac: nat, p: Packet, r: Reply)
    ensures Noticed(c, mac, p) == Some(r) <==>
            !c.phase.Resetting? && Carries(c, mac, p, r) && r.msgType in {Some(2), Some(5), Some(6)} && r.serverId.Some?
  {
    hide Parse, ApplyAll, EncodeField, Says, LengthsOk;
    if p.Packet? {
      AcceptsExactlyEncodings(p.options, r);
      if Parse(p.options, NOTHING, false) == Some(r) {
        var items: seq<Item>, padding: nat :| AllFit(items) && p.options == EncodeField(items, padding)
                                              && ApplyAll(NOTHING, items) == Some(r);
        OptionsSay(items);
        assert HeaderOk(c, mac, p) ==> IsReply(c, mac, p, items, padding);
      }
      if Carries(c, mac, p, r) { CarriedIsParsed(c, mac, p, r); }
    }
  }

  lemma CarriedIsParsed(c: Core, mac: nat, p: Packet, r: Reply)
    requires Carries(c, mac, p, r)
    ensures HeaderOk(c, mac, p) && Parse(p.options, NOTHING, false) == Some(r)
  {
    hide Parse, ApplyAll, EncodeField, Says, LengthsOk;
    var items: seq<Item>, padding: nat :| IsReply(c, mac, p, items, padding) && Says(items, r);
    OptionsSay(items);
    SaysOneThing(items, r, ApplyAll(NOTHING, items).value);
    ParseEncoded(items, padding, NOTHING);
  }

  // ------------------------------------------------------------------ what the client does

  /** The message, its server, and the address it is about, if it grants one. */
  predicate Grants(p: Packet, r: Reply, kind: nat) {
    p.Packet? && r.msgType == Some(kind) && r.serverId.Some? && p.yiaddr != 0 && r.lease.Some? && r.mask.Some?
  }

  predicate IsNak(c: Core, r: Reply) {
    && r.msgType == Some(6) && r.serverId == Some(c.offered.server)
    && (c.phase.SentRequest? || c.phase.Finished? || c.phase.Renewing?)
  }

  predicate IsOffer(c: Core, p: Packet, r: Reply) {
    c.phase.SentDiscover? && Grants(p, r, 2)
  }

  /** An acknowledgement of the address offered, by the server that offered it. */
  predicate IsAck(c: Core, p: Packet, r: Reply) {
    && (c.phase.SentRequest? || c.phase.Renewing?)
    && Grants(p, r, 5) && p.yiaddr == c.offered.addr && r.serverId == Some(c.offered.server)
  }

  lemma ReactTo(c: Core, mac: nat, p: Packet, r: Reply)
    requires Carries(c, mac, p, r) && !c.phase.Resetting?
    requires r.msgType in {Some(2), Some(5), Some(6)} && r.serverId.Some?
    ensures Noticed(c, mac, p) == Some(r) && p.Packet?
  {
    hide Carries;
    NoticedIsCarried(c, mac, p, r);
  }

  /** A NAK of the offering server ends what the client has, and is reported if the client was up. */
  lemma NakEndsLease(c: Core, mac: nat, p: Packet, r: Reply, now: int)
    requires CoreOk(c) && Carries(c, mac, p, r) && IsNak(c, r)
    ensures var e := Receive(c, mac, p, now);
            && e.core == c.(phase := Resetting, timers := map[ResetTimer := now + 4000])
            && e.sent == [] && e.reports == if c.phase.SentRequest? then [] else [Down]
  {
    hide Carries, Noticed, TimersOf;
    ReactTo(c, mac, p, r);
    OnlyTimers(c);
  }

  /** An offer is answered by a request for the address it offers. */
  lemma OfferIsTaken(c: Core, mac: nat, p: Packet, r: Reply, now: int)
    requires CoreOk(c) && Carries(c, mac, p, r) && IsOffer(c, p, r)
    ensures var e := Receive(c, mac, p, now);
            && e.core == c.(phase := SentRequest, timers := map[RequestTimer := now + 3000], requestCount := 1,
                            offered := Offered(p.yiaddr, r.serverId.value), sending := true)
            && e.sent == (if c.sending then [] else [Request(c.xid, p.yiaddr, r.serverId)]) && e.reports == []
  {
    hide Carries, Noticed, TimersOf;
    ReactTo(c, mac, p, r);
    OnlyTimers(c);
  }

  /** The first ACK brings the client up, with everything the reply says; a later one renews the lease time only. */
  lemma AckIsTaken(c: Core, mac: nat, p: Packet, r: Reply, now: int)
    requires CoreOk(c) && Carries(c, mac, p, r) && IsAck(c, p, r)
    ensures var e := Receive(c, mac, p, now);
            && e.core == c.(phase := Finished, timers := map[RenewTimer := now + 500 * r.lease.value],
                            acked := e.core.acked)
            && e.core.acked == (if c.phase.SentRequest?
                                then Acked(r.lease.value, r.mask.value, r.router, r.servers, p.senderMac)
                                else c.acked.(lease := r.lease.value))
            && e.sent == [] && e.reports == if c.phase.SentRequest? then [Up] else []
  {
    hide Carries, Noticed, TimersOf;
    ReactTo(c, mac, p, r);
    OnlyTimers(c);
  }

  /** Everything else is ignored. */
  lemma OthersAreIgnored(c: Core, mac: nat, p: Packet, now: int)
    requires forall r :: Carries(c, mac, p, r) ==> !IsNak(c, r) && !IsOffer(c, p, r) && !IsAck(c, p, r)
    ensures Receive(c, mac, p, now) == Effect(c, [], [])
  {
    hide Carries, Noticed;
    var n := Noticed(c, mac, p);
    if n.Some? {
      NoticedIsCarried(c, mac, p, n.value);
      NoticedPacket(c, mac, p);
    }
  }

  lemma NoticedPacket(c: Core, mac: nat, p: Packet)
    requires Noticed(c, mac, p).Some?
    ensures p.Packet?
  {
  }

  /** In each state just the timers of that state run. */
  lemma OnlyTimers(c: Core)
    requires CoreOk(c)
    ensures c.phase.SentDiscover? || c.phase.Resetting? ==> c.timers.Keys == {ResetTimer}
    ensures c.phase.SentRequest? ==> c.timers.Keys == {RequestTimer}
    ensures c.phase.Finished? ==> c.timers.Keys == {RenewTimer}
    ensures c.phase.Renewing? ==> c.timers.Keys == {RenewRequestTimer, LeaseTimer}
  {
  }

  // ------------------------------------------------------------------ timers

  /** A search begins with a discover, under a new id if one is asked for or the old one was used 8 times. */
  ghost predicate Searches(c: Core, newId: bool, random: nat, now: int, e: Effect) {
    && e.core == c.(phase := SentDiscover, timers := map[ResetTimer := now + 4000], sending := true,
                    xid := if newId || c.xidUses == 8 then random else c.xid,
                    xidUses := if newId || c.xidUses == 8 then 1 else c.xidUses + 1)
    && e.sent == if c.sending then [] else [Discover(e.core.xid)]
  }

  /** The same request again, in the same state, with these timers. */
  ghost predicate AsksAgain(c: Core, timers: map<Timer, int>, phase: Phase, server: Option<nat>, e: Effect) {
    && e.core == c.(phase := phase, timers := timers, sending := true, requestCount := e.core.requestCount)
    && e.sent == (if c.sending then [] else [Request(c.xid, c.offered.addr, server)]) && e.reports == []
  }

  /** What the expiry of the timer of a state leads to. */
  lemma TimersMean(c: Core, random: nat, now: int)
    requires CoreOk(c)
    ensures c.phase.Resetting? ==>
              var e := Fire(c, ResetTimer, random, now); Searches(c, true, random, now, e) && e.reports == []
    ensures c.phase.SentDiscover? ==>
              var e := Fire(c, ResetTimer, random, now); Searches(c, false, random, now, e) && e.reports == []
    ensures c.phase.SentRequest? && c.requestCount < 4 ==>
              var e := Fire(c, RequestTimer, random, now);
              && AsksAgain(c, map[RequestTimer := now + 3000], SentRequest, Some(c.offered.server), e)
              && e.core.requestCount == c.requestCount + 1
    ensures c.phase.SentRequest? && c.requestCount >= 4 ==>
              var e := Fire(c, RequestTimer, random, now); Searches(c, false, random, now, e) && e.reports == []
    ensures c.phase.Finished? ==>
              var e := Fire(c, RenewTimer, random, now);
              && AsksAgain(c, map[RenewRequestTimer := now + 20000, LeaseTimer := now + 500 * c.acked.lease], Renewing,
                           None, e)
              && e.core.requestCount == c.requestCount
    ensures c.phase.Renewing? ==>
              var e := Fire(c, RenewRequestTimer, random, now);
              && LeaseTimer in c.timers
              && AsksAgain(c, map[RenewRequestTimer := now + 20000, LeaseTimer := c.timers[LeaseTimer]], Renewing,
                           None, e)
              && e.core.requestCount == c.requestCount
    ensures c.phase.Renewing? ==>
              var e := Fire(c, LeaseTimer, random, now); Searches(c, true, random, now, e) && e.reports == [Down]
  {
    hide TimersOf;
    OnlyTimers(c);
    match c.phase
    case Resetting => assert c.timers - {ResetTimer} == map[];
    case SentDiscover => assert c.timers - {ResetTimer} == map[];
    case SentRequest => assert c.timers - {RequestTimer} == map[];
    case Finished => assert c.timers - {RenewTimer} == map[];
    case Renewing =>
      assert RenewRequestTimer in c.timers.Keys && LeaseTimer in c.timers.Keys;
      assert c.timers - {LeaseTimer} - {RenewRequestTimer} == map[];
      assert c.timers - {RenewRequestTimer} == map[LeaseTimer := c.timers[LeaseTimer]];
  }
}
