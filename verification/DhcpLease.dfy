/** The lease machine of the DHCP client: its states, its five timers, and what it tells its user, over every run. */
module DhcpLease {
  import opened Bytes
  import opened Lists
  import opened DhcpOptions

  const RESET_TIMEOUT := 4000
  const REQUEST_TIMEOUT := 3000
  const RENEW_REQUEST_TIMEOUT := 20000
  const MAX_REQUESTS := 4
  const XID_REUSE_MAX := 8

  const BOOTREPLY := 2
  const ETHERNET := 1
  const MAGIC := 0x63825363
  const OFFER := 2
  const ACK := 5
  const NAK := 6

  /** RENEW_TIMEOUT and LEASE_TIMEOUT, in milliseconds for a lease in seconds */
  function RenewTimeout(lease: nat): nat {
    500 * lease
  }

  function LeaseTimeout(lease: nat): nat {
    1000 * lease - RenewTimeout(lease)
  }

  datatype Phase = Resetting | SentDiscover | SentRequest | Finished | Renewing
  datatype Timer = ResetTimer | RequestTimer | RenewTimer | RenewRequestTimer | LeaseTimer

  datatype Offered = Offered(addr: nat, server: nat)
  datatype Acked = Acked(lease: nat, mask: nat, router: Option<nat>, servers: seq<nat>, senderMac: nat)

  /** `timers` holds when the running timers are due. */
  datatype Core = Core(phase: Phase, timers: map<Timer, int>, requestCount: nat, xid: nat, xidUses: nat,
                       offered: Offered, acked: Acked, sending: bool)

  datatype Message = Discover(xid: nat) | Request(xid: nat, addr: nat, server: Option<nat>)
  datatype Report = Up | Down
  datatype Effect = Effect(core: Core, sent: seq<Message>, reports: seq<Report>)

  /** `clientMac` and `senderMac` stand for hardware addresses; `Runt` is shorter than a header. */
  datatype Packet = Runt
                  | Packet(op: nat, htype: nat, hlen: nat, xid: nat, clientMac: nat, magic: nat, yiaddr: nat,
                           options: seq<Byte>, senderMac: nat)

  // ------------------------------------------------------------------ sending

  /** send_message: a message is dropped while an earlier one is being sent. */
  function Send(c: Core, m: Message, reports: seq<Report>): Effect {
    if c.sending then Effect(c, [], reports) else Effect(c.(sending := true), [m], reports)
  }

  /** start_process; `random` is the new transaction ID, if one is generated */
  function StartProcess(c: Core, forceXid: bool, random: nat, now: int, reports: seq<Report>): Effect {
    var renewed := forceXid || c.xidUses == XID_REUSE_MAX;
    var xid := if renewed then random else c.xid;
    Send(c.(xid := xid, xidUses := (if renewed then 0 else c.xidUses) + 1, phase := SentDiscover,
            timers := c.timers[ResetTimer := now + RESET_TIMEOUT]),
         Discover(xid), reports)
  }

  // ------------------------------------------------------------------ received packets

  predicate HeaderOk(c: Core, mac: nat, p: Packet) {
    && p.Packet? && p.op == BOOTREPLY && p.htype == ETHERNET && p.hlen == 6 && p.xid == c.xid && p.clientMac == mac
    && p.magic == MAGIC
  }

  /** The reply, if the client takes notice of the packet. */
  function Noticed(c: Core, mac: nat, p: Packet): Option<Reply> {
    if c.phase.Resetting? || !HeaderOk(c, mac, p) then None else
      var r := Parse(p.options, NOTHING, false);
      if r.Some? && r.value.msgType.Some? && r.value.msgType.value in {OFFER, ACK, NAK} && r.value.serverId.Some? then r
      else None
  }

  function StartReset(c: Core, stop: set<Timer>, now: int, reports: seq<Report>): Effect {
    Effect(c.(phase := Resetting, timers := (c.timers - stop)[ResetTimer := now + RESET_TIMEOUT]), [], reports)
  }

  function OnNak(c: Core, server: nat, now: int): Effect {
    if c.phase.Resetting? || c.phase.SentDiscover? || server != c.offered.server then Effect(c, [], [])
    else if c.phase.SentRequest? then StartReset(c, {RequestTimer}, now, [])
    else if c.phase.Finished? then StartReset(c, {RenewTimer}, now, [Down])
    else StartReset(c, {RenewRequestTimer, LeaseTimer}, now, [Down])
  }

  function OnOffer(c: Core, addr: nat, server: nat, now: int): Effect {
    Send(c.(offered := Offered(addr, server), phase := SentRequest, requestCount := 1,
            timers := (c.timers - {ResetTimer})[RequestTimer := now + REQUEST_TIMEOUT]),
         Request(c.xid, addr, Some(server)), [])
  }

  function OnFirstAck(c: Core, r: Reply, lease: nat, mask: nat, senderMac: nat, now: int): Effect {
    Effect(c.(acked := Acked(lease, mask, r.router, r.servers, senderMac), phase := Finished,
              timers := (c.timers - {RequestTimer})[RenewTimer := now + RenewTimeout(lease)]), [], [Up])
  }

  function OnRenewAck(c: Core, lease: nat, now: int): Effect {
    Effect(c.(acked := c.acked.(lease := lease), phase := Finished,
              timers := (c.timers - {RenewRequestTimer, LeaseTimer})[RenewTimer := now + RenewTimeout(lease)]), [], [])
  }

  /** recv_handler_done */
  function Receive(c: Core, mac: nat, p: Packet, now: int): Effect {
    var notice := Noticed(c, mac, p);
    if notice.None? then Effect(c, [], []) else
      var r := notice.value;
      var kind, server := r.msgType.value, r.serverId.value;
      if kind == NAK then OnNak(c, server, now)
      else if p.yiaddr == 0 || r.lease.None? || r.mask.None? then Effect(c, [], [])
      else if c.phase.SentDiscover? && kind == OFFER then OnOffer(c, p.yiaddr, server, now)
      else if kind == ACK && Offered(p.yiaddr, server) == c.offered && c.phase.SentRequest? then
        OnFirstAck(c, r, r.lease.value, r.mask.value, p.senderMac, now)
      else if kind == ACK && Offered(p.yiaddr, server) == c.offered && c.phase.Renewing? then
        OnRenewAck(c, r.lease.value, now)
      else Effect(c, [], [])
  }

  /** An ACK the client goes by. */
  predicate AcceptsAck(c: Core, mac: nat, p: Packet) {
    && Noticed(c, mac, p).Some?
    && var r := Noticed(c, mac, p).value;
       && r.msgType == Some(ACK) && p.yiaddr != 0 && r.lease.Some? && r.mask.Some?
       && Offered(p.yiaddr, r.serverId.value) == c.offered && (c.phase.SentRequest? || c.phase.Renewing?)
  }

  /** An offer the client takes. */
  predicate TakesOffer(c: Core, mac: nat, p: Packet) {
    && Noticed(c, mac, p).Some?
    && var r := Noticed(c, mac, p).value;
       r.msgType == Some(OFFER) && p.yiaddr != 0 && r.lease.Some? && r.mask.Some? && c.phase.SentDiscover?
  }

  // ------------------------------------------------------------------ timers

  /** The five timer handlers; a timer that fires is no longer running. */
  function Fire(c: Core, t: Timer, random: nat, now: int): Effect {
    var c := c.(timers := c.timers - {t});
    match t
    case ResetTimer => StartProcess(c, c.phase.Resetting?, random, now, [])
    case RequestTimer =>
      if c.requestCount == MAX_REQUESTS then StartProcess(c, false, random, now, [])
      else
        Send(c.(timers := c.timers[RequestTimer := now + REQUEST_TIMEOUT], requestCount := c.requestCount + 1),
             Request(c.xid, c.offered.addr, Some(c.offered.server)), [])
    case RenewTimer =>
      Send(c.(phase := Renewing,
              timers := c.timers[RenewRequestTimer := now + RENEW_REQUEST_TIMEOUT]
                                [LeaseTimer := now + LeaseTimeout(c.acked.lease)]),
           Request(c.xid, c.offered.addr, None), [])
    case RenewRequestTimer =>
      Send(c.(timers := c.timers[RenewRequestTimer := now + RENEW_REQUEST_TIMEOUT]),
           Request(c.xid, c.offered.addr, None), [])
    case LeaseTimer => StartProcess(c.(timers := c.timers - {RenewRequestTimer}), true, random, now, [Down])
  }

  // ------------------------------------------------------------------ the state decides which timers run

  function TimersOf(phase: Phase): set<Timer> {
    match phase
    case Resetting => {ResetTimer}
    case SentDiscover => {ResetTimer}
    case SentRequest => {RequestTimer}
    case Finished => {RenewTimer}
    case Renewing => {RenewRequestTimer, LeaseTimer}
  }

  predicate IsUp(phase: Phase) {
    phase.Finished? || phase.Renewing?
  }

  predicate CoreOk(c: Core) {
    && c.timers.Keys == TimersOf(c.phase) && 1 <= c.xidUses <= XID_REUSE_MAX
    && (c.phase.SentRequest? ==> 1 <= c.requestCount <= MAX_REQUESTS)
  }

  // ------------------------------------------------------------------ runs

  /**
   * `lastAck` is when the last ACK was accepted, `lastOffer` when the last offer was taken, `upAddr` the address the
   * user was told of when it was last told Up.
   */
  datatype World = World(core: Core, now: int, reports: seq<Report>, lastAck: int, lastOffer: int, upAddr: nat)

  datatype Event = Pass(until: int) | Arrive(packet: Packet) | Expire(timer: Timer, random: nat) | SendDone

  /** No timer is kept waiting by more than `late` milliseconds. */
  predicate Enabled(w: World, ev: Event, late: nat) {
    match ev
    case Pass(until) => w.now <= until && forall t :: t in w.core.timers ==> until <= w.core.timers[t] + late
    case Arrive(_) => true
    case Expire(t, _) => t in w.core.timers && w.core.timers[t] <= w.now
    case SendDone => w.core.sending
  }

  function Took(w: World, e: Effect): World {
    w.(core := e.core, reports := w.reports + e.reports,
       upAddr := if Up in e.reports then e.core.offered.addr else w.upAddr)
  }

  function Step(w: World, mac: nat, ev: Event, late: nat): World
    requires Enabled(w, ev, late)
  {
    match ev
    case Pass(until) => w.(now := until)
    case Arrive(p) =>
      Took(w, Receive(w.core, mac, p, w.now)).(lastAck := if AcceptsAck(w.core, mac, p) then w.now else w.lastAck,
                                               lastOffer := if TakesOffer(w.core, mac, p) then w.now else w.lastOffer)
    case Expire(t, random) => Took(w, Fire(w.core, t, random, w.now))
    case SendDone => w.(core := w.core.(sending := false))
  }

  /** BDHCPClientCore_Init */
  function Initial(random: nat, now: int, offered: Offered, acked: Acked): World {
    var raw := Core(Resetting, map[], 0, 0, 0, offered, acked, false);
    World(StartProcess(raw, true, random, now, []).core, now, [], now, now, 0)
  }

  predicate IsRun(w: World, mac: nat, evs: seq<Event>, late: nat)
    decreases |evs|
  {
    evs == [] || (Enabled(w, evs[0], late) && IsRun(Step(w, mac, evs[0], late), mac, evs[1..], late))
  }

  function Run(w: World, mac: nat, evs: seq<Event>, late: nat): World
    requires IsRun(w, mac, evs, late)
    decreases |evs|
  {
    if evs == [] then w else Run(Step(w, mac, evs[0], late), mac, evs[1..], late)
  }

  /** Up and Down take turns, beginning with Up. */
  predicate Alternate(reports: seq<Report>) {
    forall i :: 0 <= i < |reports| ==> reports[i] == if i % 2 == 0 then Up else Down
  }

  /** When the client gives up on an offer, and when the lease of a client that is up runs out. */
  predicate LeaseClock(w: World, late: nat) {
    match w.core.phase
    case SentRequest =>
      && RequestTimer in w.core.timers
      && w.core.timers[RequestTimer] <= w.lastOffer + w.core.requestCount * (REQUEST_TIMEOUT + late) - late
    case Finished =>
      RenewTimer in w.core.timers && w.core.timers[RenewTimer] == w.lastAck + RenewTimeout(w.core.acked.lease)
    case Renewing =>
      LeaseTimer in w.core.timers && w.core.timers[LeaseTimer] <= w.lastAck + 1000 * w.core.acked.lease + late
    case _ => true
  }

  predicate Inv(w: World, late: nat) {
    && CoreOk(w.core)
    && (forall t :: t in w.core.timers ==> w.now <= w.core.timers[t] + late)
    && Alternate(w.reports) && (IsUp(w.core.phase) <==> |w.reports| % 2 == 1)
    && (IsUp(w.core.phase) ==> w.upAddr == w.core.offered.addr)
    && LeaseClock(w, late)
  }

  lemma ReportsStep(reports: seq<Report>, e: seq<Report>)
    requires Alternate(reports) && |e| <= 1
    requires e == [Up] ==> |reports| % 2 == 0
    requires e == [Down] ==> |reports| % 2 == 1
    ensures Alternate(reports + e)
  {
  }

  lemma NakInv(w: World, server: nat, late: nat)
    requires Inv(w, late)
    ensures Inv(Took(w, OnNak(w.core, server, w.now)), late)
  {
    hide Alternate;
    ReportsStep(w.reports, OnNak(w.core, server, w.now).reports);
  }

  lemma OfferInv(w: World, addr: nat, server: nat, late: nat)
    requires Inv(w, late) && w.core.phase.SentDiscover?
    ensures Inv(Took(w, OnOffer(w.core, addr, server, w.now)).(lastOffer := w.now), late)
  {
    hide Alternate;
    ReportsStep(w.reports, []);
  }

  lemma FirstAckInv(w: World, r: Reply, lease: nat, mask: nat, senderMac: nat, late: nat)
    requires Inv(w, late) && w.core.phase.SentRequest?
    ensures Inv(Took(w, OnFirstAck(w.core, r, lease, mask, senderMac, w.now)).(lastAck := w.now), late)
  {
    hide Alternate;
    ReportsStep(w.reports, [Up]);
  }

  lemma RenewAckInv(w: World, lease: nat, late: nat)
    requires Inv(w, late) && w.core.phase.Renewing?
    ensures Inv(Took(w, OnRenewAck(w.core, lease, w.now)).(lastAck := w.now), late)
  {
    hide Alternate;
    ReportsStep(w.reports, []);
  }

  lemma ReceiveInv(w: World, mac: nat, p: Packet, late: nat)
    requires Inv(w, late)
    ensures Inv(Step(w, mac, Arrive(p), late), late)
  {
    hide Parse, Inv, OnNak, OnOffer, OnFirstAck, OnRenewAck;
    var notice := Noticed(w.core, mac, p);
    if notice.Some? {
      var r := notice.value;
      NakInv(w, r.serverId.value, late);
      if p.yiaddr != 0 && r.lease.Some? && r.mask.Some? {
        match w.core.phase
        case SentDiscover => OfferInv(w, p.yiaddr, r.serverId.value, late);
        case SentRequest => FirstAckInv(w, r, r.lease.value, r.mask.value, p.senderMac, late);
        case Renewing => RenewAckInv(w, r.lease.value, late);
        case _ =>
      }
    }
    NothingReported(w);
  }

  /** A packet without effect. */
  lemma NothingReported(w: World)
    ensures Took(w, Effect(w.core, [], [])) == w
  {
  }

  /** A request repeated counts against the limit. */
  lemma RequestAgainInv(w: World, random: nat, late: nat)
    requires Inv(w, late) && RequestTimer in w.core.timers && w.core.timers[RequestTimer] <= w.now
    ensures Inv(Took(w, Fire(w.core, RequestTimer, random, w.now)), late)
  {
    hide Alternate;
    ReportsStep(w.reports, []);
    OneMore(w.core.requestCount, REQUEST_TIMEOUT + late);
  }

  lemma FireInv(w: World, mac: nat, t: Timer, random: nat, late: nat)
    requires Inv(w, late) && Enabled(w, Expire(t, random), late)
    ensures Inv(Step(w, mac, Expire(t, random), late), late)
  {
    hide Alternate;
    if t == RequestTimer {
      RequestAgainInv(w, random, late);
    } else {
      var e := Fire(w.core, t, random, w.now);
      ReportsStep(w.reports, e.reports);
    }
  }

  lemma OneMore(n: nat, each: nat)
    ensures (n + 1) * each == n * each + each
  {
  }

  lemma StepInv(w: World, mac: nat, ev: Event, late: nat)
    requires Inv(w, late) && Enabled(w, ev, late)
    ensures Inv(Step(w, mac, ev, late), late)
  {
    match ev
    case Arrive(p) => ReceiveInv(w, mac, p, late);
    case Expire(t, random) => FireInv(w, mac, t, random, late);
    case _ =>
  }

  lemma {:induction false} RunInv(w: World, mac: nat, evs: seq<Event>, late: nat)
    requires Inv(w, late) && IsRun(w, mac, evs, late)
    ensures Inv(Run(w, mac, evs, late), late)
    decreases |evs|
  {
    hide Inv, Enabled, Step;
    if evs != [] {
      StepInv(w, mac, evs[0], late);
      RunInv(Step(w, mac, evs[0], late), mac, evs[1..], late);
    }
  }

  /**
   * In every run the state decides which timers are running; the user is told Up and Down in turn, beginning with Up;
   * while up, the address is the one that was offered when it was told Up; the client is up for at most 1000 * lease
   * milliseconds after the last ACK it accepted, plus twice what a timer may be late; and it waits for an ACK at most
   * as long as four requests take.
   */
  lemma LeaseSafety(random: nat, start: int, offered: Offered, acked: Acked, mac: nat, evs: seq<Event>, late: nat)
    requires IsRun(Initial(random, start, offered, acked), mac, evs, late)
    ensures var w := Run(Initial(random, start, offered, acked), mac, evs, late);
            && w.core.timers.Keys == TimersOf(w.core.phase)
            && Alternate(w.reports) && (IsUp(w.core.phase) <==> |w.reports| % 2 == 1)
            && (IsUp(w.core.phase) ==> w.upAddr == w.core.offered.addr)
            && (IsUp(w.core.phase) ==> w.now <= w.lastAck + 1000 * w.core.acked.lease + 2 * late)
            && (w.core.phase.SentRequest? ==> w.now <= w.lastOffer + MAX_REQUESTS * (REQUEST_TIMEOUT + late))
  {
    hide Run, IsRun;
    RunInv(Initial(random, start, offered, acked), mac, evs, late);
    var w := Run(Initial(random, start, offered, acked), mac, evs, late);
    if w.core.phase.SentRequest? { MoreRequests(w.core.requestCount, MAX_REQUESTS, REQUEST_TIMEOUT + late); }
  }

  lemma MoreRequests(n: nat, m: nat, each: nat)
    requires n <= m
    ensures n * each <= m * each
  {
  }

  /**
   * What is sent: a discover begins the search and carries the transaction ID in force; a request asks for the offered
   * address, naming the server only as long as there is no lease.
   */
  predicate Sensible(c: Core, m: Message) {
    match m
    case Discover(xid) => c.phase.SentDiscover? && xid == c.xid
    case Request(xid, addr, server) =>
      && xid == c.xid && addr == c.offered.addr
      && (if c.phase.SentRequest? then server == Some(c.offered.server) else c.phase.Renewing? && server == None)
  }

  lemma MessagesAreSensible(c: Core, mac: nat, p: Packet, t: Timer, random: nat, now: int)
    requires CoreOk(c)
    ensures forall m :: m in Receive(c, mac, p, now).sent ==> Sensible(Receive(c, mac, p, now).core, m)
    ensures t in c.timers ==>
              forall m :: m in Fire(c, t, random, now).sent ==> Sensible(Fire(c, t, random, now).core, m)
  {
    hide Parse, HeaderOk;
  }
}
