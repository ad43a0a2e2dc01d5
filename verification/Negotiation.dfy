/**
 * How two peers agree on a connection: one offers its addresses in turn, then the other does, and if no offer is taken
 * both fall back to a relay. The master, the peer with the larger ID, begins.
 */
module Negotiation {
  import opened Lists

  type Scope = nat

  /** An address to bind to: the scopes of its external addresses, and the size of its port range. */
  datatype BindAddr = BindAddr(scopes: seq<Scope>, ports: nat)

  datatype Config = Config(addrs: seq<BindAddr>, known: set<Scope>)

  /** `key` is the secret that comes with an offer, fresh for every link. */
  datatype Msg = YouConnect(key: nat, addr: nat, port: nat, scopes: seq<Scope>) | CannotConnect | CannotBind

  /** NeedsRelay is a peer that waits for a relay or relays through one. */
  datatype Conn = NoConn | IdleLink | Bound(key: nat, addr: nat) | Connected(key: nat) | NeedsRelay

  /** What a client keeps about the other peer. */
  datatype Side = Side(master: bool, binding: bool, pos: nat, conn: Conn, nextKey: nat)

  datatype Effect = Effect(side: Side, out: seq<Msg>)

  /** The ports of addresses that cannot be bound to at the moment. */
  type Taken = set<(nat, nat)>

  /** The first port of the range of address `i` that can be bound to. */
  function FreePort(i: nat, ports: nat, taken: Taken): (r: Option<nat>)
    ensures r.Some? ==> r.value < ports && (i, r.value) !in taken && forall k: nat :: k < r.value ==> (i, k) in taken
    ensures r.None? ==> forall k: nat :: k < ports ==> (i, k) in taken
  {
    FreePortFrom(i, 0, ports, taken)
  }

  function FreePortFrom(i: nat, at: nat, ports: nat, taken: Taken): (r: Option<nat>)
    requires at <= ports
    ensures r.Some? ==> at <= r.value < ports && (i, r.value) !in taken
    ensures r.Some? ==> forall k: nat :: at <= k < r.value ==> (i, k) in taken
    ensures r.None? ==> forall k: nat :: at <= k < ports ==> (i, k) in taken
    decreases ports - at
  {
    if at == ports then None
    else if (i, at) !in taken then Some(at)
    else FreePortFrom(i, at + 1, ports, taken)
  }

  function NeedRelay(s: Side): Side {
    s.(conn := NeedsRelay)
  }

  /** peer_bind */
  function Bind(c: Config, s: Side, taken: Taken): Effect
    decreases |c.addrs| - s.pos
  {
    if s.pos >= |c.addrs| then
      var done := s.(binding := false);
      Effect(if s.master then done else NeedRelay(done), [CannotBind])
    else
      var addr := c.addrs[s.pos];
      if addr.scopes == [] then
        Bind(c, s.(pos := s.pos + 1), taken)
      else
        var linked := s.(conn := IdleLink, nextKey := s.nextKey + 1, pos := s.pos + 1);
        var port := FreePort(s.pos, addr.ports, taken);
        if port.None? then Bind(c, linked, taken)
        else Effect(linked.(conn := Bound(s.nextKey, s.pos)), [YouConnect(s.nextKey, s.pos, port.value, addr.scopes)])
  }

  /** peer_start_binding */
  function StartBinding(c: Config, s: Side, taken: Taken): Effect {
    Bind(c, s.(binding := true, pos := 0), taken)
  }

  predicate Usable(c: Config, scopes: seq<Scope>) {
    exists x :: x in scopes && x in c.known
  }

  /** peer_msg_youconnect, peer_msg_cannotconnect and peer_msg_cannotbind */
  function Receive(c: Config, s: Side, m: Msg, taken: Taken): Effect {
    match m
    case YouConnect(key, _, _, scopes) =>
      if Usable(c, scopes) then Effect(s.(conn := Connected(key), nextKey := s.nextKey + 1), [])
      else Effect(s, [CannotConnect])
    case CannotConnect => if s.binding then Bind(c, s, taken) else Effect(s, [])
    case CannotBind => if s.master then Effect(NeedRelay(s), []) else StartBinding(c, s, taken)
  }

  // ------------------------------------------------------------------ both parties and the chat between them

  /** The messages on their way, and all that were ever sent. */
  datatype World = World(started: bool, master: Side, slave: Side, toSlave: seq<Msg>, toMaster: seq<Msg>,
                         sentByMaster: seq<Msg>, sentBySlave: seq<Msg>)

  const INITIAL := World(false, Side(true, false, 0, NoConn, 0), Side(false, false, 0, NoConn, 0), [], [], [], [])

  /** The peers learn of each other, or a party receives the oldest message sent to it. */
  datatype Event = Start(taken: Taken) | AtMaster(taken: Taken) | AtSlave(taken: Taken)

  predicate Enabled(w: World, ev: Event) {
    match ev
    case Start(_) => !w.started
    case AtMaster(_) => w.toMaster != []
    case AtSlave(_) => w.toSlave != []
  }

  function MasterDid(w: World, e: Effect): World {
    w.(master := e.side, toSlave := w.toSlave + e.out, sentByMaster := w.sentByMaster + e.out)
  }

  function SlaveDid(w: World, e: Effect): World {
    w.(slave := e.side, toMaster := w.toMaster + e.out, sentBySlave := w.sentBySlave + e.out)
  }

  function Step(cm: Config, cs: Config, w: World, ev: Event): World
    requires Enabled(w, ev)
  {
    match ev
    case Start(taken) => MasterDid(w.(started := true), StartBinding(cm, w.master, taken))
    case AtMaster(taken) => MasterDid(w.(toMaster := w.toMaster[1..]), Receive(cm, w.master, w.toMaster[0], taken))
    case AtSlave(taken) => SlaveDid(w.(toSlave := w.toSlave[1..]), Receive(cs, w.slave, w.toSlave[0], taken))
  }

  predicate IsRun(cm: Config, cs: Config, w: World, evs: seq<Event>)
    decreases |evs|
  {
    evs == [] || (Enabled(w, evs[0]) && IsRun(cm, cs, Step(cm, cs, w, evs[0]), evs[1..]))
  }

  function Run(cm: Config, cs: Config, w: World, evs: seq<Event>): World
    requires IsRun(cm, cs, w, evs)
    decreases |evs|
  {
    if evs == [] then w else Run(cm, cs, Step(cm, cs, w, evs[0]), evs[1..])
  }

  function Offers(sent: seq<Msg>): nat {
    if sent == [] then 0 else (if sent[|sent| - 1].YouConnect? then 1 else 0) + Offers(sent[..|sent| - 1])
  }

  lemma OffersConcat(sent: seq<Msg>, out: seq<Msg>)
    requires |out| <= 1
    ensures Offers(sent + out) == Offers(sent) + if |out| == 1 && out[0].YouConnect? then 1 else 0
  {
    if |out| == 1 {
      assert (sent + out)[..|sent|] == sent;
    } else {
      assert sent + out == sent;
    }
  }

  // ------------------------------------------------------------------ one round of binding

  /** Address `k` of `c` has an external address in a scope the other party knows. */
  predicate Shared(c: Config, other: Config, k: nat) {
    k < |c.addrs| && exists x :: x in c.addrs[k].scopes && x in other.known
  }

  /** Whatever happens, the addresses in `good` can be bound to. */
  ghost predicate Leaves(c: Config, good: set<nat>, taken: Taken) {
    forall k :: k in good && k < |c.addrs| ==> exists port: nat :: port < c.addrs[k].ports && (k, port) !in taken
  }

  /** None of the first `n` addresses could have been agreed on. */
  ghost predicate NoneMissed(c: Config, other: Config, good: set<nat>, n: int) {
    forall k: nat :: k < n && k in good ==> !Shared(c, other, k)
  }

  /** The party has an offer out. */
  ghost predicate Offering(c: Config, s: Side) {
    && s.binding && 0 < s.pos <= |c.addrs| && c.addrs[s.pos - 1].scopes != []
    && s.conn.Bound? && s.conn.addr == s.pos - 1 && s.conn.key < s.nextKey
  }

  ghost predicate IsOffer(c: Config, s: Side, m: Msg)
    requires Offering(c, s)
  {
    && m.YouConnect? && m.key == s.conn.key && m.addr == s.conn.addr
    && m.scopes == c.addrs[s.pos - 1].scopes && m.port < c.addrs[s.pos - 1].ports
  }

  /** The port of address `i` that can be bound to and has none such before it. */
  predicate IsFirstFree(i: nat, port: nat, taken: Taken) {
    (i, port) !in taken && forall k: nat :: k < port ==> (i, k) in taken
  }

  ghost predicate Exhausted(c: Config, s: Side) {
    !s.binding && s.pos == |c.addrs|
  }

  /** Binding goes on to the next address that can be offered, or ends. */
  lemma {:induction false} BindOutcome(c: Config, other: Config, good: set<nat>, s: Side, taken: Taken)
    requires s.binding && s.pos <= |c.addrs| && Leaves(c, good, taken) && NoneMissed(c, other, good, s.pos)
    ensures var e := Bind(c, s, taken);
            && |e.out| == 1 && e.side.master == s.master && s.nextKey <= e.side.nextKey
            && (e.out[0].YouConnect? ==>
                  && Offering(c, e.side) && IsOffer(c, e.side, e.out[0]) && s.pos < e.side.pos
                  && IsFirstFree(e.side.pos - 1, e.out[0].port, taken) && s.nextKey <= e.out[0].key
                  && NoneMissed(c, other, good, e.side.pos - 1))
            && (!e.out[0].YouConnect? ==>
                  && e.out[0] == CannotBind && Exhausted(c, e.side) && NoneMissed(c, other, good, e.side.pos)
                  && (!s.master ==> e.side.conn.NeedsRelay?))
    decreases |c.addrs| - s.pos
  {
    if s.pos < |c.addrs| {
      var addr := c.addrs[s.pos];
      if addr.scopes == [] {
        BindOutcome(c, other, good, s.(pos := s.pos + 1), taken);
      } else if FreePort(s.pos, addr.ports, taken).None? {
        BindOutcome(c, other, good, s.(conn := IdleLink, nextKey := s.nextKey + 1, pos := s.pos + 1), taken);
      }
    }
  }

  /** Address `k` has no external address, or no port to bind to. */
  predicate CannotOffer(c: Config, k: nat, taken: Taken)
    requires k < |c.addrs|
  {
    c.addrs[k].scopes == [] || forall port: nat :: port < c.addrs[k].ports ==> (k, port) in taken
  }

  lemma {:induction false} BindSkips(c: Config, s: Side, taken: Taken)
    requires s.pos <= |c.addrs|
    ensures var e := Bind(c, s, taken);
            && |e.out| == 1 && s.pos <= e.side.pos <= |c.addrs|
            && (e.out[0].YouConnect? ==>
                  && s.pos < e.side.pos && e.out[0].addr == e.side.pos - 1 && !CannotOffer(c, e.side.pos - 1, taken)
                  && forall k :: s.pos <= k < e.side.pos - 1 ==> CannotOffer(c, k, taken))
            && (!e.out[0].YouConnect? ==> forall k :: s.pos <= k < |c.addrs| ==> CannotOffer(c, k, taken))
    decreases |c.addrs| - s.pos
  {
    if s.pos < |c.addrs| {
      var addr := c.addrs[s.pos];
      if addr.scopes == [] {
        BindSkips(c, s.(pos := s.pos + 1), taken);
      } else if FreePort(s.pos, addr.ports, taken).None? {
        BindSkips(c, s.(conn := IdleLink, nextKey := s.nextKey + 1, pos := s.pos + 1), taken);
      }
    }
  }

  /** Whatever a party did before, when it starts binding it offers the first of its addresses that it can offer. */
  lemma StartsAtTheFirst(c: Config, s: Side, taken: Taken)
    ensures var e := StartBinding(c, s, taken);
            && |e.out| == 1
            && (e.out[0].YouConnect? ==>
                  && e.out[0].addr < |c.addrs| && !CannotOffer(c, e.out[0].addr, taken)
                  && forall k :: 0 <= k < e.out[0].addr ==> CannotOffer(c, k, taken))
            && (e.out[0].YouConnect? <==> exists k :: 0 <= k < |c.addrs| && !CannotOffer(c, k, taken))
  {
    BindSkips(c, s.(binding := true, pos := 0), taken);
  }

  /** A refusal of an offer that is not out is ignored. */
  lemma OutOfTurn(c: Config, s: Side, taken: Taken)
    requires !s.binding
    ensures Receive(c, s, CannotConnect, taken) == Effect(s, [])
  {
  }

  // ------------------------------------------------------------------ the whole negotiation

  datatype Phase = Waiting | MasterOffers | SlaveRefused | SlaveTook | MasterPassed | SlaveOffers | MasterRefused
                 | MasterTook | SlavePassed | BothRelayed

  /** The slave was not asked to bind yet. */
  ghost predicate Untouched(s: Side) {
    !s.binding && s.pos == 0 && !s.master
  }

  /** `x`, of configuration `c`, has its offer out to the party of configuration `other`. */
  ghost predicate OfferOut(c: Config, other: Config, good: set<nat>, x: Side, toOther: seq<Msg>, back: seq<Msg>) {
    && Offering(c, x) && NoneMissed(c, other, good, x.pos - 1)
    && |toOther| == 1 && IsOffer(c, x, toOther[0]) && back == []
  }

  ghost predicate RefusalOut(c: Config, other: Config, good: set<nat>, x: Side, toOther: seq<Msg>, back: seq<Msg>) {
    x.binding && x.pos <= |c.addrs| && NoneMissed(c, other, good, x.pos) && toOther == [] && back == [CannotConnect]
  }

  /** `y` connected to the offer of `x`, in a scope it knows. */
  ghost predicate Agreed(c: Config, other: Config, x: Side, y: Side) {
    && Offering(c, x) && Shared(c, other, x.pos - 1)
    && y.conn == Connected(x.conn.key)
  }

  ghost predicate InPhase(cm: Config, cs: Config, gm: set<nat>, gs: set<nat>, w: World, ph: Phase) {
    && w.master.master && !w.slave.master && (w.started <==> !ph.Waiting?)
    && match ph
       case Waiting => Untouched(w.slave) && w.toMaster == [] && w.toSlave == []
       case MasterOffers => Untouched(w.slave) && OfferOut(cm, cs, gm, w.master, w.toSlave, w.toMaster)
       case SlaveRefused => Untouched(w.slave) && RefusalOut(cm, cs, gm, w.master, w.toSlave, w.toMaster)
       case SlaveTook => Untouched(w.slave) && Agreed(cm, cs, w.master, w.slave) && w.toMaster == [] && w.toSlave == []
       case MasterPassed =>
         Untouched(w.slave) && Exhausted(cm, w.master) && NoneMissed(cm, cs, gm, w.master.pos)
         && w.toSlave == [CannotBind] && w.toMaster == []
       case SlaveOffers =>
         Exhausted(cm, w.master) && NoneMissed(cm, cs, gm, w.master.pos)
         && OfferOut(cs, cm, gs, w.slave, w.toMaster, w.toSlave)
       case MasterRefused =>
         Exhausted(cm, w.master) && NoneMissed(cm, cs, gm, w.master.pos)
         && RefusalOut(cs, cm, gs, w.slave, w.toMaster, w.toSlave)
       case MasterTook =>
         Exhausted(cm, w.master) && Agreed(cs, cm, w.slave, w.master) && w.toMaster == [] && w.toSlave == []
       case SlavePassed =>
         Exhausted(cm, w.master) && NoneMissed(cm, cs, gm, w.master.pos) && Exhausted(cs, w.slave)
         && NoneMissed(cs, cm, gs, w.slave.pos) && w.slave.conn.NeedsRelay?
         && w.toMaster == [CannotBind] && w.toSlave == []
       case BothRelayed =>
         Exhausted(cm, w.master) && NoneMissed(cm, cs, gm, w.master.pos) && Exhausted(cs, w.slave)
         && NoneMissed(cs, cm, gs, w.slave.pos) && w.slave.conn.NeedsRelay? && w.master.conn.NeedsRelay?
         && w.toMaster == [] && w.toSlave == []
  }

  /** A party has sent no more offers than it has tried addresses. */
  ghost predicate OffersBounded(cm: Config, cs: Config, w: World) {
    && w.master.pos <= |cm.addrs| && w.slave.pos <= |cs.addrs|
    && Offers(w.sentByMaster) <= w.master.pos && Offers(w.sentBySlave) <= w.slave.pos
  }

  ghost predicate Inv(cm: Config, cs: Config, gm: set<nat>, gs: set<nat>, w: World) {
    && OffersBounded(cm, cs, w) && (!w.started ==> w == INITIAL)
    && exists ph :: InPhase(cm, cs, gm, gs, w, ph)
  }

  /** The number of steps that can still follow. */
  ghost function Rank(cm: Config, cs: Config, w: World, ph: Phase): int {
    var m, s, n := 2 * (|cm.addrs| - w.master.pos), 2 * (|cs.addrs| - w.slave.pos), 2 * |cs.addrs|;
    match ph
    case Waiting => m + n + 3
    case MasterOffers => m + n + 4
    case SlaveRefused => m + n + 3
    case MasterPassed => n + 2
    case SlaveOffers => s + 3
    case MasterRefused => s + 2
    case SlavePassed => 1
    case _ => 0
  }

  ghost predicate EventLeaves(cm: Config, cs: Config, gm: set<nat>, gs: set<nat>, ev: Event) {
    if ev.AtSlave? then Leaves(cs, gs, ev.taken) else Leaves(cm, gm, ev.taken)
  }

  ghost predicate StepTo(cm: Config, cs: Config, gm: set<nat>, gs: set<nat>, w: World, ph: Phase, n: World, to: Phase) {
    && InPhase(cm, cs, gm, gs, n, to) && Rank(cm, cs, n, to) < Rank(cm, cs, w, ph)
    && OffersBounded(cm, cs, n) && n.started
  }

  /** The master tries its next addresses. */
  lemma MasterBinds(cm: Config, cs: Config, gm: set<nat>, gs: set<nat>, w: World, v: World, ph: Phase, s: Side,
                    taken: Taken)
    returns (to: Phase)
    requires OffersBounded(cm, cs, w) && w.master.master && !w.slave.master && Untouched(w.slave) && v.started
    requires v == World(true, v.master, w.slave, [], [], w.sentByMaster, w.sentBySlave)
    requires s.master && s.binding && w.master.pos <= s.pos <= |cm.addrs| && NoneMissed(cm, cs, gm, s.pos)
    requires Leaves(cm, gm, taken)
    requires Rank(cm, cs, w, ph) >= 2 * (|cm.addrs| - s.pos) + 2 * |cs.addrs| + 3
    ensures StepTo(cm, cs, gm, gs, w, ph, MasterDid(v, Bind(cm, s, taken)), to)
  {
    hide Bind, Offers, NoneMissed, Leaves, IsOffer;
    BindOutcome(cm, cs, gm, s, taken);
    var e := Bind(cm, s, taken);
    OffersConcat(w.sentByMaster, e.out);
    assert [] + e.out == e.out;
    to := if e.out[0].YouConnect? then MasterOffers else MasterPassed;
  }

  lemma SlaveBinds(cm: Config, cs: Config, gm: set<nat>, gs: set<nat>, w: World, v: World, ph: Phase, s: Side,
                   taken: Taken)
    returns (to: Phase)
    requires OffersBounded(cm, cs, w) && w.master.master && !w.slave.master
    requires Exhausted(cm, w.master) && NoneMissed(cm, cs, gm, w.master.pos)
    requires v == World(true, w.master, v.slave, [], [], w.sentByMaster, w.sentBySlave)
    requires !s.master && s.binding && w.slave.pos <= s.pos <= |cs.addrs| && NoneMissed(cs, cm, gs, s.pos)
    requires Leaves(cs, gs, taken)
    requires Rank(cm, cs, w, ph) >= 2 * (|cs.addrs| - s.pos) + 2
    ensures StepTo(cm, cs, gm, gs, w, ph, SlaveDid(v, Bind(cs, s, taken)), to)
  {
    hide Bind, Offers, NoneMissed, Leaves, IsOffer;
    BindOutcome(cs, cm, gs, s, taken);
    var e := Bind(cs, s, taken);
    OffersConcat(w.sentBySlave, e.out);
    assert [] + e.out == e.out;
    to := if e.out[0].YouConnect? then SlaveOffers else SlavePassed;
  }

  lemma OneStep(cm: Config, cs: Config, gm: set<nat>, gs: set<nat>, w: World, ph: Phase, ev: Event) returns (to: Phase)
    requires Inv(cm, cs, gm, gs, w) && InPhase(cm, cs, gm, gs, w, ph) && Enabled(w, ev)
    requires EventLeaves(cm, cs, gm, gs, ev)
    ensures StepTo(cm, cs, gm, gs, w, ph, Step(cm, cs, w, ev), to)
  {
    hide Bind, Offers, NoneMissed, Leaves;
    match ph
    case Waiting => to := AtWaiting(cm, cs, gm, gs, w, ev);
    case MasterOffers => to := AtMasterOffers(cm, cs, gm, gs, w, ev);
    case SlaveRefused => to := MasterBinds(cm, cs, gm, gs, w, w.(toMaster := w.toMaster[1..]), ph, w.master, ev.taken);
    case MasterPassed => to := AtMasterPassed(cm, cs, gm, gs, w, ev);
    case SlaveOffers => to := AtSlaveOffers(cm, cs, gm, gs, w, ev);
    case MasterRefused => to := SlaveBinds(cm, cs, gm, gs, w, w.(toSlave := w.toSlave[1..]), ph, w.slave, ev.taken);
    case SlavePassed =>
      to := BothRelayed;
      OffersConcat(w.sentByMaster, []);
    case _ =>
  }

  lemma AtWaiting(cm: Config, cs: Config, gm: set<nat>, gs: set<nat>, w: World, ev: Event) returns (to: Phase)
    requires Inv(cm, cs, gm, gs, w) && InPhase(cm, cs, gm, gs, w, Waiting) && Enabled(w, ev)
    requires EventLeaves(cm, cs, gm, gs, ev)
    ensures StepTo(cm, cs, gm, gs, w, Waiting, Step(cm, cs, w, ev), to)
  {
    hide Bind, Offers, Leaves;
    to := MasterBinds(cm, cs, gm, gs, w, w.(started := true), Waiting, w.master.(binding := true, pos := 0), ev.taken);
  }

  lemma AtMasterPassed(cm: Config, cs: Config, gm: set<nat>, gs: set<nat>, w: World, ev: Event) returns (to: Phase)
    requires OffersBounded(cm, cs, w) && InPhase(cm, cs, gm, gs, w, MasterPassed)
    requires Enabled(w, ev) && EventLeaves(cm, cs, gm, gs, ev)
    ensures StepTo(cm, cs, gm, gs, w, MasterPassed, Step(cm, cs, w, ev), to)
  {
    hide Bind, Offers, Leaves;
    var v, s := w.(toSlave := w.toSlave[1..]), w.slave.(binding := true, pos := 0);
    to := SlaveBinds(cm, cs, gm, gs, w, v, MasterPassed, s, ev.taken);
  }

  lemma AtMasterOffers(cm: Config, cs: Config, gm: set<nat>, gs: set<nat>, w: World, ev: Event) returns (to: Phase)
    requires OffersBounded(cm, cs, w) && InPhase(cm, cs, gm, gs, w, MasterOffers) && Enabled(w, ev)
    ensures StepTo(cm, cs, gm, gs, w, MasterOffers, Step(cm, cs, w, ev), to)
  {
    hide Bind, Offers, Leaves;
    if Usable(cs, cm.addrs[w.master.pos - 1].scopes) {
      to := SlaveTook;
      OffersConcat(w.sentBySlave, []);
    } else {
      to := SlaveRefused;
      OffersConcat(w.sentBySlave, [CannotConnect]);
    }
  }

  lemma AtSlaveOffers(cm: Config, cs: Config, gm: set<nat>, gs: set<nat>, w: World, ev: Event) returns (to: Phase)
    requires OffersBounded(cm, cs, w) && InPhase(cm, cs, gm, gs, w, SlaveOffers) && Enabled(w, ev)
    ensures StepTo(cm, cs, gm, gs, w, SlaveOffers, Step(cm, cs, w, ev), to)
  {
    hide Bind, Offers, Leaves;
    if Usable(cm, cs.addrs[w.slave.pos - 1].scopes) {
      to := MasterTook;
      OffersConcat(w.sentByMaster, []);
    } else {
      to := MasterRefused;
      OffersConcat(w.sentByMaster, [CannotConnect]);
    }
  }

  ghost predicate AllLeave(cm: Config, cs: Config, gm: set<nat>, gs: set<nat>, evs: seq<Event>) {
    forall i :: 0 <= i < |evs| ==> EventLeaves(cm, cs, gm, gs, evs[i])
  }

  lemma {:induction false} RunInv(cm: Config, cs: Config, gm: set<nat>, gs: set<nat>, w: World, ph: Phase,
                                  evs: seq<Event>)
    returns (to: Phase)
    requires Inv(cm, cs, gm, gs, w) && InPhase(cm, cs, gm, gs, w, ph)
    requires IsRun(cm, cs, w, evs) && AllLeave(cm, cs, gm, gs, evs)
    ensures var n := Run(cm, cs, w, evs);
            && Inv(cm, cs, gm, gs, n) && InPhase(cm, cs, gm, gs, n, to)
            && Rank(cm, cs, n, to) <= Rank(cm, cs, w, ph) - |evs|
    decreases |evs|
  {
    hide Step, InPhase, Rank, EventLeaves, OffersBounded, Enabled;
    to := ph;
    if evs != [] {
      assert EventLeaves(cm, cs, gm, gs, evs[0]);
      var next := OneStep(cm, cs, gm, gs, w, ph, evs[0]);
      to := RunInv(cm, cs, gm, gs, Step(cm, cs, w, evs[0]), next, evs[1..]);
    }
  }

  /** Nothing is left to happen. */
  predicate Quiescent(w: World) {
    w.started && w.toMaster == [] && w.toSlave == []
  }

  /** One party is bound, and the other is connected to exactly that offer. */
  ghost predicate Linked(cm: Config, cs: Config, w: World) {
    Agreed(cm, cs, w.master, w.slave) || Agreed(cs, cm, w.slave, w.master)
  }

  /** Both parties need a relay, and no address in `gm` or `gs` could have been agreed on. */
  ghost predicate Relayed(cm: Config, cs: Config, gm: set<nat>, gs: set<nat>, w: World) {
    && w.master.conn.NeedsRelay? && w.slave.conn.NeedsRelay?
    && (forall k :: k in gm ==> !Shared(cm, cs, k)) && (forall k :: k in gs ==> !Shared(cs, cm, k))
  }

  lemma AtTheEnd(cm: Config, cs: Config, gm: set<nat>, gs: set<nat>, w: World, ph: Phase)
    requires InPhase(cm, cs, gm, gs, w, ph) && Quiescent(w)
    ensures Linked(cm, cs, w) || Relayed(cm, cs, gm, gs, w)
  {
    hide Usable, Offering, IsOffer;
  }

  /**
   * Every negotiation ends, with at most one offer per address of either party. At the end the parties are connected
   * through one offer, or both need a relay; they need one only if no address that could have been bound to at any
   * time has an external address in a scope the other party knows.
   */
  lemma NegotiationOutcome(cm: Config, cs: Config, gm: set<nat>, gs: set<nat>, evs: seq<Event>)
    requires IsRun(cm, cs, INITIAL, evs) && AllLeave(cm, cs, gm, gs, evs)
    ensures |evs| <= 2 * (|cm.addrs| + |cs.addrs|) + 3
    ensures var w := Run(cm, cs, INITIAL, evs);
            && Offers(w.sentByMaster) <= |cm.addrs| && Offers(w.sentBySlave) <= |cs.addrs|
            && (Quiescent(w) ==> Linked(cm, cs, w) || Relayed(cm, cs, gm, gs, w))
  {
    hide Run, IsRun, AllLeave, Linked, Relayed;
    assert InPhase(cm, cs, gm, gs, INITIAL, Waiting);
    assert Inv(cm, cs, gm, gs, INITIAL);
    var to := RunInv(cm, cs, gm, gs, INITIAL, Waiting, evs);
    var w := Run(cm, cs, INITIAL, evs);
    RankIsNat(cm, cs, w, to);
    if Quiescent(w) { AtTheEnd(cm, cs, gm, gs, w, to); }
  }

  lemma RankIsNat(cm: Config, cs: Config, w: World, ph: Phase)
    requires OffersBounded(cm, cs, w)
    ensures Rank(cm, cs, w, ph) >= 0
  {
  }
}
