/** The DHCP client as an object: handlers that update its state, and the loop that reads the options of a reply. */
module DhcpObject {
  import opened Bytes
  import opened Lists
  import opened DhcpOptions
  import opened DhcpLease

  /** The option loop of recv_handler_done: `None` means the packet is ignored. */
  method ParseOptions(b: seq<Byte>) returns (result: Option<Reply>)
    ensures result == Parse(b, NOTHING, false)
  {
    hide Apply, Words;
    var pos, haveEnd, r := 0, false, NOTHING;
    while pos < |b|
      invariant pos <= |b| && Parse(b, NOTHING, false) == Parse(b[pos..], r, haveEnd)
    {
      assert b[pos..][0] == b[pos] && b[pos..][1..] == b[pos + 1..];
      if b[pos] == PAD {
        pos := pos + 1;
        continue;
      }
      if haveEnd {
        return None;
      }
      if b[pos] == END {
        pos := pos + 1;
        haveEnd := true;
        continue;
      }
      if |b| - pos < 2 {
        return None;
      }
      var n: nat := b[pos + 1];
      if n > |b| - pos - 2 {
        return None;
      }
      assert b[pos..][2..2 + n] == b[pos + 2..pos + 2 + n] && b[pos..][2 + n..] == b[pos + 2 + n..];
      var next := ReadOption(r, b[pos], b[pos + 2..pos + 2 + n]);
      if next.None? {
        return None;
      }
      r := next.value;
      pos := pos + 2 + n;
    }
    result := if haveEnd then Some(r) else None;
  }

  /** One option; at most MAX_DOMAIN_NAME_SERVERS name servers are taken. */
  method ReadOption(r: Reply, kind: nat, v: seq<Byte>) returns (next: Option<Reply>)
    ensures next == Apply(r, kind, v)
  {
    if kind != DOMAIN_NAME_SERVER {
      return Apply(r, kind, v);
    }
    if |v| % 4 != 0 {
      return None;
    }
    var servers, i := [], 0;
    while i < |v| / 4 && i < MAX_DOMAIN_NAME_SERVERS
      invariant i <= |v| / 4 && i <= MAX_DOMAIN_NAME_SERVERS && servers == Words(v, i)
    {
      servers := servers + [Word(v[4 * i..4 * i + 4])];
      i := i + 1;
    }
    next := Some(r.(servers := servers));
  }

  class DhcpClientCore {
    const clientMac: nat
    var phase: Phase
    var timers: map<Timer, int>
    var requestCount: nat
    var xid: nat
    var xidUses: nat
    var offered: Offered
    var acked: Acked
    var sending: bool
    /** What was handed to the send interface and reported to the user, oldest first. */
    var sent: seq<Message>
    var reports: seq<Report>
    /** How many of the messages the send interface is done with. */
    ghost var finished: nat

    /** At most one message is out at a time. */
    ghost predicate OneOut()
      reads this
    {
      |sent| == finished + if sending then 1 else 0
    }

    /** The state decides which timers run, the counters are in their ranges, and at most one message is out. */
    ghost predicate Valid()
      reads this
    {
      CoreOk(State()) && OneOut()
    }

    function State(): Core
      reads this
    {
      Core(phase, timers, requestCount, xid, xidUses, offered, acked, sending)
    }

    constructor (mac: nat, random: nat, now: int, offered: Offered, acked: Acked)
      ensures Valid() && clientMac == mac && State() == Initial(random, now, offered, acked).core
      ensures sent == [Discover(random)] && reports == []
    {
      clientMac := mac;
      phase := Resetting;
      timers := map[];
      requestCount, xid, xidUses := 0, 0, 0;
      this.offered := offered;
      this.acked := acked;
      sending := false;
      sent := [];
      reports := [];
      finished := 0;
      new;
      StartProcess(true, random, now);
    }

    /** send_message: while a message is out another one is dropped, so that never two are out */
    method SendMessage(m: Message)
      requires OneOut()
      modifies this`sending, this`sent
      ensures OneOut() && sending && sent == old(sent) + if old(sending) then [] else [m]
    {
      if sending {
        return;
      }
      sent := sent + [m];
      sending := true;
    }

    /** send_handler_done: every message handed over is done with, and the next one will not be dropped */
    method SendHandlerDone()
      requires Valid() && sending
      modifies this`sending, this`finished
      ensures Valid() && finished == |sent| && State() == old(State()).(sending := false)
    {
      sending := false;
      finished := finished + 1;
    }

    /** start_process */
    method StartProcess(forceXid: bool, random: nat, now: int)
      requires timers == map[] && xidUses <= XID_REUSE_MAX && OneOut()
      modifies this`phase, this`timers, this`xid, this`xidUses, this`sending, this`sent
      ensures Valid()
      ensures var e := DhcpLease.StartProcess(old(State()), forceXid, random, now, []);
              State() == e.core && sent == old(sent) + e.sent
    {
      if forceXid || xidUses == XID_REUSE_MAX {
        xid := random;
        xidUses := 0;
      }
      xidUses := xidUses + 1;
      SendMessage(Discover(xid));
      timers := timers[ResetTimer := now + RESET_TIMEOUT];
      phase := SentDiscover;
    }

    method StartReset(stop: set<Timer>, now: int)
      modifies this`phase, this`timers
      ensures phase == Resetting && timers == (old(timers) - stop)[ResetTimer := now + RESET_TIMEOUT]
    {
      timers := timers - stop;
      timers := timers[ResetTimer := now + RESET_TIMEOUT];
      phase := Resetting;
    }

    /** A NAK from the server that made the offer ends the lease. */
    method HandleNak(server: nat, now: int)
      requires Valid()
      modifies this
      ensures Valid() && finished == old(finished)
      ensures var e := OnNak(old(State()), server, now);
              State() == e.core && sent == old(sent) + e.sent && reports == old(reports) + e.reports
    {
      if phase.Resetting? || phase.SentDiscover? || server != offered.server {
        return;
      }
      if phase.SentRequest? {
        StartReset({RequestTimer}, now);
      } else if phase.Finished? {
        StartReset({RenewTimer}, now);
        reports := reports + [Down];
      } else {
        StartReset({RenewRequestTimer, LeaseTimer}, now);
        reports := reports + [Down];
      }
    }

    method HandleOffer(addr: nat, server: nat, now: int)
      requires Valid() && phase.SentDiscover?
      modifies this`offered, this`timers, this`phase, this`requestCount, this`sending, this`sent
      ensures Valid()
      ensures var e := OnOffer(old(State()), addr, server, now); State() == e.core && sent == old(sent) + e.sent
    {
      offered := Offered(addr, server);
      SendMessage(Request(xid, addr, Some(server)));
      timers := timers - {ResetTimer};
      timers := timers[RequestTimer := now + REQUEST_TIMEOUT];
      phase := SentRequest;
      requestCount := 1;
    }

    method HandleFirstAck(r: Reply, lease: nat, mask: nat, senderMac: nat, now: int)
      requires Valid() && phase.SentRequest?
      modifies this`acked, this`timers, this`phase, this`reports
      ensures Valid()
      ensures var e := OnFirstAck(old(State()), r, lease, mask, senderMac, now);
              State() == e.core && reports == old(reports) + e.reports
    {
      acked := Acked(lease, mask, r.router, r.servers, senderMac);
      timers := timers - {RequestTimer};
      timers := timers[RenewTimer := now + RenewTimeout(lease)];
      phase := Finished;
      reports := reports + [Up];
    }

    method HandleRenewAck(lease: nat, now: int)
      requires Valid() && phase.Renewing?
      modifies this`acked, this`timers, this`phase
      ensures Valid()
      ensures State() == OnRenewAck(old(State()), lease, now).core
    {
      acked := acked.(lease := lease);
      timers := timers - {RenewRequestTimer};
      timers := timers - {LeaseTimer};
      timers := timers[RenewTimer := now + RenewTimeout(lease)];
      phase := Finished;
      assert timers == (old(timers) - {RenewRequestTimer, LeaseTimer})[RenewTimer := now + RenewTimeout(lease)];
    }

    /** recv_handler_done */
    method RecvHandlerDone(p: Packet, now: int)
      requires Valid()
      modifies this
      ensures Valid() && finished == old(finished)
      ensures var e := Receive(old(State()), clientMac, p, now);
              State() == e.core && sent == old(sent) + e.sent && reports == old(reports) + e.reports
    {
      hide Parse, OnNak, OnOffer, OnFirstAck, OnRenewAck;
      HandlersKeepTimers(State(), clientMac, p, ResetTimer, 0, now);
      if phase.Resetting? {
        return;
      }
      if !HeaderOk(State(), clientMac, p) {
        return;
      }
      var parsed := ParseOptions(p.options);
      if parsed.None? || parsed.value.msgType.None? {
        return;
      }
      var r := parsed.value;
      if r.msgType.value !in {OFFER, ACK, NAK} || r.serverId.None? {
        return;
      }
      var kind, server := r.msgType.value, r.serverId.value;
      if kind == NAK {
        HandleNak(server, now);
        return;
      }
      if p.yiaddr == 0 || r.lease.None? || r.mask.None? {
        return;
      }
      if phase.SentDiscover? && kind == OFFER {
        OfferReports(State(), p.yiaddr, server, now);
        HandleOffer(p.yiaddr, server, now);
      } else if phase.SentRequest? && kind == ACK {
        if p.yiaddr != offered.addr || server != offered.server {
          return;
        }
        AckSends(State(), r, r.lease.value, r.mask.value, p.senderMac, now);
        HandleFirstAck(r, r.lease.value, r.mask.value, p.senderMac, now);
      } else if phase.Renewing? && kind == ACK {
        if p.yiaddr != offered.addr || server != offered.server {
          return;
        }
        AckSends(State(), r, r.lease.value, r.mask.value, p.senderMac, now);
        HandleRenewAck(r.lease.value, now);
      }
    }

    /** reset_timer_handler */
    method ResetTimerHandler(random: nat, now: int)
      requires Valid() && ResetTimer in timers
      modifies this
      ensures Valid() && finished == old(finished)
      ensures var e := Fire(old(State()), ResetTimer, random, now);
              State() == e.core && sent == old(sent) + e.sent && reports == old(reports) + e.reports
    {
      HandlersKeepTimers(State(), clientMac, Runt, ResetTimer, random, now);
      timers := timers - {ResetTimer};
      assert phase.Resetting? || phase.SentDiscover?;
      StartProcess(phase.Resetting?, random, now);
    }

    /** request_timer_handler */
    method RequestTimerHandler(random: nat, now: int)
      requires Valid() && RequestTimer in timers
      modifies this
      ensures Valid() && finished == old(finished)
      ensures var e := Fire(old(State()), RequestTimer, random, now);
              State() == e.core && sent == old(sent) + e.sent && reports == old(reports) + e.reports
    {
      HandlersKeepTimers(State(), clientMac, Runt, RequestTimer, random, now);
      timers := timers - {RequestTimer};
      assert phase.SentRequest? && 1 <= requestCount <= MAX_REQUESTS;
      if requestCount == MAX_REQUESTS {
        StartProcess(false, random, now);
        return;
      }
      SendMessage(Request(xid, offered.addr, Some(offered.server)));
      timers := timers[RequestTimer := now + REQUEST_TIMEOUT];
      requestCount := requestCount + 1;
    }

    /** renew_timer_handler */
    method RenewTimerHandler(random: nat, now: int)
      requires Valid() && RenewTimer in timers
      modifies this
      ensures Valid() && finished == old(finished)
      ensures var e := Fire(old(State()), RenewTimer, random, now);
              State() == e.core && sent == old(sent) + e.sent && reports == old(reports) + e.reports
    {
      HandlersKeepTimers(State(), clientMac, Runt, RenewTimer, random, now);
      timers := timers - {RenewTimer};
      assert phase.Finished?;
      SendMessage(Request(xid, offered.addr, None));
      timers := timers[RenewRequestTimer := now + RENEW_REQUEST_TIMEOUT];
      timers := timers[LeaseTimer := now + LeaseTimeout(acked.lease)];
      phase := Renewing;
    }

    /** renew_request_timer_handler */
    method RenewRequestTimerHandler(random: nat, now: int)
      requires Valid() && RenewRequestTimer in timers
      modifies this
      ensures Valid() && finished == old(finished)
      ensures var e := Fire(old(State()), RenewRequestTimer, random, now);
              State() == e.core && sent == old(sent) + e.sent && reports == old(reports) + e.reports
    {
      HandlersKeepTimers(State(), clientMac, Runt, RenewRequestTimer, random, now);
      timers := timers - {RenewRequestTimer};
      assert phase.Renewing?;
      SendMessage(Request(xid, offered.addr, None));
      timers := timers[RenewRequestTimer := now + RENEW_REQUEST_TIMEOUT];
    }

    /** lease_timer_handler */
    method LeaseTimerHandler(random: nat, now: int)
      requires Valid() && LeaseTimer in timers
      modifies this
      ensures Valid() && finished == old(finished)
      ensures var e := Fire(old(State()), LeaseTimer, random, now);
              State() == e.core && sent == old(sent) + e.sent && reports == old(reports) + e.reports
    {
      HandlersKeepTimers(State(), clientMac, Runt, LeaseTimer, random, now);
      timers := timers - {LeaseTimer};
      assert phase.Renewing?;
      timers := timers - {RenewRequestTimer};
      StartProcess(true, random, now);
      reports := reports + [Down];
    }
  }

  /** The handlers keep the timers in step with the state. */
  lemma HandlersKeepTimers(c: Core, mac: nat, p: Packet, t: Timer, random: nat, now: int)
    requires CoreOk(c)
    ensures CoreOk(Receive(c, mac, p, now).core)
    ensures t in c.timers ==> CoreOk(Fire(c, t, random, now).core)
  {
    hide Parse, HeaderOk;
  }

  lemma OfferReports(c: Core, addr: nat, server: nat, now: int)
    ensures OnOffer(c, addr, server, now).reports == []
  {
  }

  lemma AckSends(c: Core, r: Reply, lease: nat, mask: nat, senderMac: nat, now: int)
    ensures OnFirstAck(c, r, lease, mask, senderMac, now).sent == []
    ensures OnRenewAck(c, lease, now).sent == [] && OnRenewAck(c, lease, now).reports == []
  {
  }
}
