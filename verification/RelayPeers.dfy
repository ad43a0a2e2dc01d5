/** The peers of a client: which have a link, which relay for others, and which use or wait for a relay. */
module RelayPeers {
  import opened Lists

  type Peer = nat

  datatype PeerState = PeerState(canRelay: bool, haveLink: bool, isRelay: bool, relaying: Option<Peer>, waiting: bool,
                                 users: seq<Peer>)

  /** `relays` and `waiting` are the global lists, in order. */
  datatype State = State(peers: map<Peer, PeerState>, relays: seq<Peer>, waiting: seq<Peer>)

  // ------------------------------------------------------------------ invariant

  /** At most one of linked, relaying and waiting; flags, lists and links agree with each other. */
  ghost predicate PeerOk(r: State, p: Peer)
    requires p in r.peers
  {
    var s := r.peers[p];
    && !(s.haveLink && s.relaying.Some?) && !(s.haveLink && s.waiting) && !(s.relaying.Some? && s.waiting)
    && (s.isRelay ==> s.haveLink)
    && (s.isRelay <==> p in r.relays)
    && (s.waiting <==> p in r.waiting)
    && (s.relaying.Some? ==> s.relaying.value in r.peers && r.peers[s.relaying.value].isRelay
                             && p in r.peers[s.relaying.value].users)
    && Distinct(s.users) && (!s.isRelay ==> s.users == [])
    && (forall u :: u in s.users ==> u in r.peers && r.peers[u].relaying == Some(p))
  }

  ghost predicate Inv(r: State) {
    && (forall p :: p in r.peers ==> PeerOk(r, p))
    && Distinct(r.relays) && Distinct(r.waiting)
    && (forall p :: p in r.relays || p in r.waiting ==> p in r.peers)
  }

  /** Nobody waits while a relay is there. */
  predicate Settled(r: State) {
    r.waiting == [] || r.relays == []
  }

  /** Neither linked nor relaying nor waiting. */
  predicate Unattached(r: State, p: Peer) {
    p in r.peers && !r.peers[p].haveLink && r.peers[p].relaying.None? && !r.peers[p].waiting
  }

  // ------------------------------------------------------------------ single steps

  function Update(r: State, p: Peer, s: PeerState): State {
    r.(peers := r.peers[p := s])
  }

  /** peer_register_need_relay */
  function Register(r: State, p: Peer): State
    requires p in r.peers
  {
    Update(r, p, r.peers[p].(waiting := true)).(waiting := r.waiting + [p])
  }

  /** peer_unregister_need_relay */
  function Unregister(r: State, p: Peer): State
    requires p in r.peers
  {
    Update(r, p, r.peers[p].(waiting := false)).(waiting := Without(r.waiting, p))
  }

  /** peer_install_relaying */
  function Install(r: State, p: Peer, relay: Peer): State
    requires p in r.peers && relay in r.peers && p != relay
  {
    Update(Update(r, relay, r.peers[relay].(users := r.peers[relay].users + [p])), p,
           r.peers[p].(relaying := Some(relay)))
  }

  /** peer_free_relaying */
  function FreeRelaying(r: State, p: Peer): State
    requires p in r.peers && r.peers[p].relaying.Some? && r.peers[p].relaying.value in r.peers
  {
    var relay := r.peers[p].relaying.value;
    Update(Update(r, relay, r.peers[relay].(users := Without(r.peers[relay].users, p))), p,
           r.peers[p].(relaying := None))
  }

  /** peer_init_link and peer_free_link, as far as the peer's state goes */
  function SetLink(r: State, p: Peer, link: bool): State
    requires p in r.peers
  {
    Update(r, p, r.peers[p].(haveLink := link))
  }

  /** The body of peer_enable_relay_provider before it assigns relays */
  function AddRelay(r: State, p: Peer): State
    requires p in r.peers
  {
    Update(r, p, r.peers[p].(isRelay := true, users := [])).(relays := r.relays + [p])
  }

  /** The end of peer_disable_relay_provider before it assigns relays */
  function DropRelay(r: State, p: Peer): State
    requires p in r.peers
  {
    Update(r, p, r.peers[p].(isRelay := false)).(relays := Without(r.relays, p))
  }

  lemma RegisterInv(r: State, p: Peer)
    requires Inv(r) && Unattached(r, p) && !r.peers[p].isRelay
    ensures Inv(Register(r, p))
  {
    var n := Register(r, p);
    assert PeerOk(r, p);
    forall q | q in n.peers ensures PeerOk(n, q) { assert PeerOk(r, q); }
  }

  lemma UnregisterInv(r: State, p: Peer)
    requires Inv(r) && p in r.peers && r.peers[p].waiting
    ensures Inv(Unregister(r, p)) && Unattached(Unregister(r, p), p) && !r.peers[p].isRelay
  {
    var n := Unregister(r, p);
    assert PeerOk(r, p);
    forall q | q in n.peers ensures PeerOk(n, q) { assert PeerOk(r, q); }
  }

  lemma InstallInv(r: State, p: Peer, relay: Peer)
    requires Inv(r) && Unattached(r, p) && relay in r.relays
    ensures relay in r.peers && p != relay && r.peers[relay].haveLink && Inv(Install(r, p, relay))
  {
    assert PeerOk(r, p) && PeerOk(r, relay);
    var n := Install(r, p, relay);
    assert p !in r.peers[relay].users;
    forall q | q in n.peers ensures PeerOk(n, q) { assert PeerOk(r, q); }
  }

  lemma FreeRelayingInv(r: State, p: Peer)
    requires Inv(r) && p in r.peers && r.peers[p].relaying.Some?
    ensures r.peers[p].relaying.value in r.peers && Inv(FreeRelaying(r, p)) && Unattached(FreeRelaying(r, p), p)
    ensures !r.peers[p].isRelay && !r.peers[p].haveLink && r.peers[p].relaying.value != p
  {
    assert PeerOk(r, p);
    var relay := r.peers[p].relaying.value;
    assert PeerOk(r, relay);
    var n := FreeRelaying(r, p);
    forall q | q in n.peers ensures PeerOk(n, q) { assert PeerOk(r, q); }
  }

  lemma SetLinkInv(r: State, p: Peer, link: bool)
    requires Inv(r) && p in r.peers && !r.peers[p].isRelay && (link ==> Unattached(r, p))
    ensures Inv(SetLink(r, p, link))
  {
    var n := SetLink(r, p, link);
    forall q | q in n.peers ensures PeerOk(n, q) { assert PeerOk(r, q); }
  }

  lemma AddRelayInv(r: State, p: Peer)
    requires Inv(r) && p in r.peers && r.peers[p].haveLink && !r.peers[p].isRelay
    ensures Inv(AddRelay(r, p))
  {
    var n := AddRelay(r, p);
    assert PeerOk(r, p);
    forall q | q in n.peers ensures PeerOk(n, q) { assert PeerOk(r, q); }
  }

  lemma DropRelayInv(r: State, p: Peer)
    requires Inv(r) && p in r.peers && r.peers[p].isRelay && r.peers[p].users == []
    ensures Inv(DropRelay(r, p))
  {
    var n := DropRelay(r, p);
    assert PeerOk(r, p);
    forall q | q in n.peers ensures PeerOk(n, q) { assert PeerOk(r, q); }
  }

  // ------------------------------------------------------------------ handlers

  /** assign_relays: every waiting peer goes to the first relay. */
  function AssignRelays(r: State): (n: State)
    requires Inv(r)
    ensures Inv(n) && Settled(n) && n.relays == r.relays && n.peers.Keys == r.peers.Keys
    ensures forall p :: p in r.peers ==>
              n.peers[p].haveLink == r.peers[p].haveLink && n.peers[p].isRelay == r.peers[p].isRelay
    decreases |r.waiting|
  {
    if r.waiting == [] || r.relays == [] then r
    else
      AssignOneInv(r);
      AssignRelays(AssignOne(r))
  }

  function AssignOne(r: State): State
    requires Inv(r) && r.waiting != [] && r.relays != []
  {
    AssignFacts(r);
    Install(Unregister(r, r.waiting[0]), r.waiting[0], r.relays[0])
  }

  lemma AssignFacts(r: State)
    requires Inv(r) && r.waiting != [] && r.relays != []
    ensures r.waiting[0] in r.peers && r.relays[0] in r.peers && r.waiting[0] != r.relays[0]
    ensures r.peers[r.waiting[0]].waiting && r.peers[r.relays[0]].isRelay
  {
    assert r.waiting[0] in r.waiting && r.relays[0] in r.relays;
    assert PeerOk(r, r.waiting[0]) && PeerOk(r, r.relays[0]);
  }

  lemma AssignOneInv(r: State)
    requires Inv(r) && r.waiting != [] && r.relays != []
    ensures var n := AssignOne(r);
            && Inv(n) && n.relays == r.relays && n.waiting == r.waiting[1..] && n.peers.Keys == r.peers.Keys
            && (forall p :: p in r.peers ==>
                  n.peers[p].haveLink == r.peers[p].haveLink && n.peers[p].isRelay == r.peers[p].isRelay)
  {
    AssignFacts(r);
    var p, relay := r.waiting[0], r.relays[0];
    UnregisterInv(r, p);
    assert relay in r.relays;
    InstallInv(Unregister(r, p), p, relay);
    WithoutSplice(r.waiting, 0);
  }

  /** The loop of peer_disable_relay_provider: its users go back to waiting. */
  function EvictUsers(r: State, p: Peer): (n: State)
    requires Inv(r) && p in r.peers
    ensures Inv(n) && n.relays == r.relays && n.peers.Keys == r.peers.Keys && n.peers[p].users == []
    ensures forall q :: q in r.peers ==>
              n.peers[q].haveLink == r.peers[q].haveLink && n.peers[q].isRelay == r.peers[q].isRelay
    decreases |r.peers[p].users|
  {
    if r.peers[p].users == [] then r
    else
      EvictOneInv(r, p);
      EvictUsers(EvictOne(r, p), p)
  }

  function EvictOne(r: State, p: Peer): State
    requires Inv(r) && p in r.peers && r.peers[p].users != []
  {
    EvictFacts(r, p);
    Register(FreeRelaying(r, r.peers[p].users[0]), r.peers[p].users[0])
  }

  lemma EvictFacts(r: State, p: Peer)
    requires Inv(r) && p in r.peers && r.peers[p].users != []
    ensures var u := r.peers[p].users[0]; u in r.peers && r.peers[u].relaying == Some(p)
  {
    assert PeerOk(r, p);
    assert r.peers[p].users[0] in r.peers[p].users;
  }

  lemma EvictOneInv(r: State, p: Peer)
    requires Inv(r) && p in r.peers && r.peers[p].users != []
    ensures var n := EvictOne(r, p);
            && Inv(n) && n.relays == r.relays && n.peers.Keys == r.peers.Keys
            && n.peers[p].users == r.peers[p].users[1..]
            && (forall q :: q in r.peers ==>
                  n.peers[q].haveLink == r.peers[q].haveLink && n.peers[q].isRelay == r.peers[q].isRelay)
  {
    EvictFacts(r, p);
    var u := r.peers[p].users[0];
    FreeRelayingInv(r, u);
    RegisterInv(FreeRelaying(r, u), u);
    assert PeerOk(r, p);
    WithoutSplice(r.peers[p].users, 0);
  }

  /** peer_enable_relay_provider */
  function EnableRelay(r: State, p: Peer): State
    requires Inv(r) && p in r.peers && r.peers[p].haveLink && !r.peers[p].isRelay
  {
    AddRelayInv(r, p);
    AssignRelays(AddRelay(r, p))
  }

  /** peer_disable_relay_provider */
  function DisableRelay(r: State, p: Peer): (n: State)
    requires Inv(r) && p in r.peers && r.peers[p].isRelay
    ensures Inv(n) && Settled(n) && n.peers.Keys == r.peers.Keys && !n.peers[p].isRelay
    ensures forall q :: q in r.peers ==> n.peers[q].haveLink == r.peers[q].haveLink
  {
    hide Inv;
    var e := EvictUsers(r, p);
    DropRelayInv(e, p);
    AssignRelays(DropRelay(e, p))
  }

  /** peer_free_link */
  function DropLink(r: State, p: Peer): (n: State)
    requires Inv(r) && p in r.peers && r.peers[p].haveLink && !r.peers[p].isRelay
    ensures Inv(n) && n.peers.Keys == r.peers.Keys && Unattached(n, p) && !n.peers[p].isRelay
    ensures n.waiting == r.waiting && n.relays == r.relays
  {
    assert PeerOk(r, p);
    SetLinkInv(r, p, false);
    SetLink(r, p, false)
  }

  /** peer_cleanup_connections */
  function Cleanup(r: State, p: Peer): (n: State)
    requires Inv(r) && p in r.peers
    ensures Inv(n) && n.peers.Keys == r.peers.Keys && Unattached(n, p) && !n.peers[p].isRelay
    ensures Settled(r) ==> Settled(n)
  {
    assert PeerOk(r, p);
    if r.peers[p].haveLink then DropLink(if r.peers[p].isRelay then DisableRelay(r, p) else r, p)
    else if r.peers[p].relaying.Some? then
      FreeRelayingInv(r, p);
      FreeRelaying(r, p)
    else if r.peers[p].waiting then
      UnregisterInv(r, p);
      Unregister(r, p)
    else r
  }

  /** peer_need_relay */
  function NeedRelay(r: State, p: Peer): (n: State)
    requires Inv(r) && p in r.peers && !r.peers[p].isRelay
    ensures Inv(n) && n.peers.Keys == r.peers.Keys
    ensures Settled(r) ==> Settled(n)
  {
    if r.peers[p].waiting then r
    else
      var c := Cleanup(r, p);
      RegisterInv(c, p);
      AssignRelays(Register(c, p))
  }

  // ------------------------------------------------------------------ every run

  /** FreshLink is what peer_bind_one_address and peer_connect begin with; Up and Down are reports of the link. */
  datatype Event = AddPeer(peer: Peer, canRelay: bool) | RemovePeer(peer: Peer) | FreshLink(peer: Peer)
                 | Reset(peer: Peer) | Need(peer: Peer) | Up(peer: Peer) | Down(peer: Peer)

  predicate Enabled(r: State, e: Event) {
    match e
    case AddPeer(p, _) => p !in r.peers
    case RemovePeer(p) => p in r.peers
    case FreshLink(p) => p in r.peers
    case Reset(p) => p in r.peers
    case Need(p) => p in r.peers && !r.peers[p].isRelay
    case Up(p) => p in r.peers && r.peers[p].haveLink
    case Down(p) => p in r.peers && r.peers[p].haveLink
  }

  function Handle(r: State, e: Event): State
    requires Inv(r) && Enabled(r, e)
  {
    match e
    case AddPeer(p, canRelay) => Update(r, p, PeerState(canRelay, false, false, None, false, []))
    case RemovePeer(p) =>
      var c := Cleanup(r, p);
      c.(peers := c.peers - {p})
    case FreshLink(p) => SetLink(Cleanup(r, p), p, true)
    case Reset(p) => Cleanup(r, p)
    case Need(p) => NeedRelay(r, p)
    case Up(p) => if r.peers[p].canRelay && !r.peers[p].isRelay then EnableRelay(r, p) else r
    case Down(p) => if r.peers[p].isRelay then DisableRelay(r, p) else r
  }

  lemma AddPeerInv(r: State, p: Peer, canRelay: bool)
    requires Inv(r) && p !in r.peers
    ensures Inv(Handle(r, AddPeer(p, canRelay)))
  {
    var n := Handle(r, AddPeer(p, canRelay));
    forall q | q in n.peers ensures PeerOk(n, q) { if q != p { assert PeerOk(r, q); } }
  }

  lemma DropPeerInv(r: State, p: Peer)
    requires Inv(r) && Unattached(r, p) && !r.peers[p].isRelay
    ensures Inv(r.(peers := r.peers - {p}))
  {
    var n := r.(peers := r.peers - {p});
    assert PeerOk(r, p);
    forall q | q in n.peers ensures PeerOk(n, q) { assert PeerOk(r, q); }
  }

  lemma HandleInv(r: State, e: Event)
    requires Inv(r) && Settled(r) && Enabled(r, e)
    ensures Inv(Handle(r, e)) && Settled(Handle(r, e))
  {
    match e
    case AddPeer(p, canRelay) => AddPeerInv(r, p, canRelay);
    case RemovePeer(p) => DropPeerInv(Cleanup(r, p), p);
    case FreshLink(p) => SetLinkInv(Cleanup(r, p), p, true);
    case Reset(p) =>
    case Need(p) =>
    case Up(p) =>
    case Down(p) =>
  }

  const EMPTY := State(map[], [], [])

  ghost function Run(es: seq<Event>): (r: State)
    ensures Inv(r) && Settled(r)
  {
    if es == [] then EMPTY
    else
      var r, e := Run(es[..|es| - 1]), es[|es| - 1];
      if Enabled(r, e) then
        HandleInv(r, e);
        Handle(r, e)
      else r
  }

  /**
   * Relay assignment, after every handler of every run: a peer is at most one of linked, relaying and waiting; a
   * relay is linked; a relay's users are exactly the peers relaying through it; nobody waits while there is a relay.
   */
  lemma RelayAssignment(es: seq<Event>)
    ensures var r := Run(es);
            && (r.waiting == [] || r.relays == [])
            && (forall p :: p in r.relays ==> p in r.peers && r.peers[p].isRelay && r.peers[p].haveLink)
            && (forall p :: p in r.peers ==>
                  var s := r.peers[p];
                  && !(s.haveLink && s.relaying.Some?) && !(s.haveLink && s.waiting) && !(s.relaying.Some? && s.waiting)
                  && (s.waiting <==> p in r.waiting))
            && (forall p, q :: p in r.peers && q in r.peers ==>
                  (r.peers[p].relaying == Some(q) <==> p in r.peers[q].users))
  {
    var r := Run(es);
    forall p | p in r.peers ensures PeerOk(r, p) { }
    forall p, q | p in r.peers && q in r.peers
      ensures r.peers[p].relaying == Some(q) <==> p in r.peers[q].users
    {
      assert PeerOk(r, p) && PeerOk(r, q);
    }
  }
}
