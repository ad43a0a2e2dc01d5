/**
 * The client's peers together with the data flows they own: links are torn down and relays reassigned without any
 * flow ever wanting a sink that is gone.
 */
module ClientObject {
  import opened Lists
  import R = RelayPeers
  import D = DataProto
  import opened DataProtoObject

  type Peer = R.Peer

  /** For each peer, the peers that have a relay flow to it (or from it), in list order. */
  type RelayLists = map<Peer, seq<Peer>>

  // ------------------------------------------------------------------ which flow wants which sink

  /**
   * The sink a flow must want: the link of its peer, or of the peer's relay; a relayed flow wants its destination's.
   */
  function Wish(r: R.State, f: D.Flow): Option<D.Sink> {
    match f
    case Local(p) =>
      if p !in r.peers then None
      else if r.peers[p].haveLink then Some(p) else r.peers[p].relaying
    case Relayed(_, d) => if d in r.peers && r.peers[d].haveLink then Some(d) else None
  }

  predicate Exists(r: R.State, into: RelayLists, f: D.Flow) {
    match f
    case Local(p) => p in r.peers
    case Relayed(s, d) => d in into && s in into[d]
  }

  /** Sinks are the links that are up; flows are those of the peers; each wants what it must. */
  ghost predicate Linked(r: R.State, into: RelayLists, w: D.World) {
    && (forall s :: s in w.sinks <==> s in r.peers && r.peers[s].haveLink)
    && (forall f :: FlowLinked(r, into, w, f))
  }

  ghost predicate FlowLinked(r: R.State, into: RelayLists, w: D.World, f: D.Flow) {
    && (f in w.flows <==> Exists(r, into, f))
    && (f in w.flows ==> w.flows[f].desired == Wish(r, f))
  }

  /** A relay flow is on the list of its source and of its destination. */
  ghost predicate ListsOk(peers: set<Peer>, into: RelayLists, from: RelayLists) {
    Among(peers, into) && Among(peers, from) && Mirrored(into, from)
  }

  /** Each peer has a list, of peers, without repetition. */
  ghost predicate Among(peers: set<Peer>, lists: RelayLists) {
    && lists.Keys == peers
    && (forall p :: p in lists ==> Distinct(lists[p]))
    && (forall p, q :: p in lists && q in lists[p] ==> q in peers)
  }

  ghost predicate Mirrored(into: RelayLists, from: RelayLists) {
    forall s, d :: s in from && d in into ==> (s in into[d] <==> d in from[s])
  }

  /** Every sink a flow wants is live. */
  lemma WishIsLive(r: R.State, f: D.Flow)
    requires R.Inv(r)
    ensures Wish(r, f).Some? ==> Wish(r, f).value in r.peers && r.peers[Wish(r, f).value].haveLink
  {
    if f.Local? && f.peer in r.peers {
      assert R.PeerOk(r, f.peer);
      if r.peers[f.peer].relaying.Some? {
        assert R.PeerOk(r, r.peers[f.peer].relaying.value);
      }
    }
  }

  /** No local flow of another peer, relay user or not, wants the link of a peer that is no relay. */
  lemma OnlyOwnFlows(r: R.State, p: Peer, f: D.Flow)
    requires R.Inv(r) && p in r.peers && !r.peers[p].isRelay && Wish(r, f) == Some(p)
    ensures f == D.Local(p) || (f.Relayed? && f.dst == p)
  {
    if f.Local? && f.peer in r.peers {
      assert R.PeerOk(r, f.peer) && R.PeerOk(r, p);
    }
  }

  /** States that differ in nothing a flow's wish depends on. */
  ghost predicate SameWishes(r: R.State, n: R.State) {
    && n.peers.Keys == r.peers.Keys
    && forall p :: p in r.peers ==>
         n.peers[p].haveLink == r.peers[p].haveLink && n.peers[p].relaying == r.peers[p].relaying
  }

  /** Only the link `p` uses changes, to `relaying`. */
  ghost predicate Reassigned(r: R.State, n: R.State, p: Peer, relaying: Option<Peer>) {
    && n.peers.Keys == r.peers.Keys && p in r.peers && n.peers[p].relaying == relaying
    && (forall q :: q in r.peers ==> n.peers[q].haveLink == r.peers[q].haveLink)
    && (forall q :: q in r.peers && q != p ==> n.peers[q].relaying == r.peers[q].relaying)
  }

  lemma InstallReassigns(r: R.State, p: Peer, relay: Peer)
    requires p in r.peers && relay in r.peers && p != relay
    ensures Reassigned(r, R.Install(r, p, relay), p, Some(relay))
  {
  }

  lemma FreeReassigns(r: R.State, p: Peer)
    requires p in r.peers && r.peers[p].relaying.Some? && r.peers[p].relaying.value in r.peers
    requires r.peers[p].relaying.value != p
    ensures Reassigned(r, R.FreeRelaying(r, p), p, None)
  {
  }

  /** The flow `f` is there and wants `wish`; nothing else visible changes. */
  ghost predicate NowWants(w: D.World, v: D.World, f: D.Flow, wish: Option<D.Sink>) {
    && (forall s :: s in v.sinks <==> s in w.sinks)
    && (forall g :: g in v.flows <==> g in w.flows || g == f)
    && (forall g :: g in v.flows ==> v.flows[g].desired == if g == f then wish else w.flows[g].desired)
  }

  /** The flow `f` is gone; nothing else visible changes. */
  ghost predicate FlowGone(w: D.World, v: D.World, f: D.Flow) {
    && (forall s :: s in v.sinks <==> s in w.sinks)
    && (forall g :: g in v.flows <==> g in w.flows && g != f)
    && (forall g :: g in v.flows ==> v.flows[g].desired == w.flows[g].desired)
  }

  lemma AttachEffect(w: D.World, f: D.Flow, s: D.Sink)
    requires D.Inv(w) && D.Enabled(w, D.Attach(f, s))
    ensures NowWants(w, D.Handle(w, D.Attach(f, s)), f, Some(s))
  {
    hide D.Inv, D.Handle;
    D.VisibleEffect(w, D.Attach(f, s));
  }

  lemma DetachEffect(w: D.World, f: D.Flow)
    requires D.Inv(w) && D.Enabled(w, D.Detach(f))
    ensures NowWants(w, D.Handle(w, D.Detach(f)), f, None)
  {
    hide D.Inv, D.Handle;
    D.VisibleEffect(w, D.Detach(f));
  }

  /** A flow created and, if its destination has a link, attached to it. */
  lemma CreatedEffect(w: D.World, f: D.Flow, d: D.Sink, link: bool)
    requires D.Inv(w) && f !in w.flows && (link ==> d in w.sinks)
    ensures var m := D.Handle(w, D.FlowInit(f));
            && D.Inv(m) && (link ==> D.Enabled(m, D.Attach(f, d)))
            && NowWants(w, if link then D.Handle(m, D.Attach(f, d)) else m, f, if link then Some(d) else None)
  {
    hide D.Inv, D.Handle;
    D.HandleInv(w, D.FlowInit(f));
    D.VisibleEffect(w, D.FlowInit(f));
    var m := D.Handle(w, D.FlowInit(f));
    assert NowWants(w, m, f, None);
    if link { AttachEffect(m, f, d); }
  }

  /** A flow detached, if it wants a sink, and freed. */
  lemma FreedEffect(w: D.World, f: D.Flow)
    requires D.Inv(w) && f in w.flows
    ensures w.flows[f].desired.Some? ==> D.Inv(D.Handle(w, D.Detach(f)))
    ensures var m := if w.flows[f].desired.Some? then D.Handle(w, D.Detach(f)) else w;
            D.Enabled(m, D.FlowFree(f)) && FlowGone(w, D.Handle(m, D.FlowFree(f)), f)
  {
    hide D.Inv, D.Handle;
    if w.flows[f].desired.Some? {
      D.HandleInv(w, D.Detach(f));
      DetachEffect(w, f);
    }
    var m := if w.flows[f].desired.Some? then D.Handle(w, D.Detach(f)) else w;
    D.VisibleEffect(m, D.FlowFree(f));
  }

  /** The flow of a peer without a link wants what the peer is assigned to. */
  lemma ReassignedLinked(r: R.State, n: R.State, p: Peer, relaying: Option<Peer>, into: RelayLists, w: D.World,
                         v: D.World)
    requires Reassigned(r, n, p, relaying) && Linked(r, into, w) && !r.peers[p].haveLink
    requires D.Local(p) in w.flows && NowWants(w, v, D.Local(p), relaying)
    ensures Linked(n, into, v)
  {
    forall f ensures FlowLinked(n, into, v, f) { assert FlowLinked(r, into, w, f); }
  }

  lemma SameWishesLinked(r: R.State, n: R.State, into: RelayLists, w: D.World)
    requires SameWishes(r, n) && Linked(r, into, w)
    ensures Linked(n, into, w)
  {
    forall f ensures FlowLinked(n, into, w, f) { assert FlowLinked(r, into, w, f); }
  }

  /** The flow of `p` changes its wish from none to the relay's link. */
  lemma InstallLinked(r: R.State, p: Peer, relay: Peer, into: RelayLists, w: D.World)
    requires Linked(r, into, w) && D.Inv(w)
    requires R.Unattached(r, p) && relay in r.peers && relay != p && r.peers[relay].haveLink
    ensures D.Enabled(w, D.Attach(D.Local(p), relay))
    ensures Linked(R.Install(r, p, relay), into, D.Handle(w, D.Attach(D.Local(p), relay)))
  {
    assert FlowLinked(r, into, w, D.Local(p));
    hide D.Inv, D.Handle, Linked, R.Install, NowWants, FlowLinked, Reassigned;
    AttachEffect(w, D.Local(p), relay);
    InstallReassigns(r, p, relay);
    ReassignedLinked(r, R.Install(r, p, relay), p, Some(relay), into, w, D.Handle(w, D.Attach(D.Local(p), relay)));
  }

  /** ... and back to none. */
  lemma FreeRelayingLinked(r: R.State, p: Peer, into: RelayLists, w: D.World)
    requires Linked(r, into, w) && D.Inv(w)
    requires p in r.peers && !r.peers[p].haveLink && r.peers[p].relaying.Some?
    requires r.peers[p].relaying.value in r.peers && r.peers[p].relaying.value != p
    ensures D.Enabled(w, D.Detach(D.Local(p)))
    ensures Linked(R.FreeRelaying(r, p), into, D.Handle(w, D.Detach(D.Local(p))))
  {
    assert FlowLinked(r, into, w, D.Local(p));
    hide D.Inv, D.Handle, Linked, R.FreeRelaying, NowWants, FlowLinked, Reassigned;
    DetachEffect(w, D.Local(p));
    FreeReassigns(r, p);
    ReassignedLinked(r, R.FreeRelaying(r, p), p, None, into, w, D.Handle(w, D.Detach(D.Local(p))));
  }

  /** What a sink's queue does changes no wish and no link. */
  lemma QueueLinked(r: R.State, into: RelayLists, w: D.World, e: D.Event)
    requires Linked(r, into, w) && D.Inv(w) && D.Enabled(w, e) && (e.QueueSends? || e.QueueDone?)
    ensures Linked(r, into, D.Handle(w, e))
  {
    hide D.Inv, D.Handle, Wish, Exists;
    D.VisibleEffect(w, e);
    var v := D.Handle(w, e);
    forall f ensures FlowLinked(r, into, v, f) { assert FlowLinked(r, into, w, f); }
  }

  /** The flows whose wish follows the link of `p`. */
  predicate Follows(f: D.Flow, p: Peer) {
    f == D.Local(p) || (f.Relayed? && f.dst == p)
  }

  lemma LinkChanges(r: R.State, p: Peer, link: bool, into: RelayLists, w: D.World, v: D.World)
    requires Linked(r, into, w) && p in r.peers && r.peers[p].relaying.None?
    requires forall s :: s in v.sinks <==> (s in w.sinks && s != p) || (s == p && link)
    requires v.flows.Keys == w.flows.Keys
    requires forall f :: f in v.flows ==>
               v.flows[f].desired == if Follows(f, p) then (if link then Some(p) else None) else w.flows[f].desired
    ensures Linked(R.SetLink(r, p, link), into, v)
  {
    var n := R.SetLink(r, p, link);
    forall f ensures FlowLinked(n, into, v, f) {
      assert FlowLinked(r, into, w, f);
      assert f in v.flows.Keys <==> f in w.flows.Keys;
      WishFollows(r, p, link, f);
      hide Linked, R.SetLink, Wish, Follows;
    }
  }

  /** A flow's wish follows the link of `p`, or has nothing to do with it. */
  lemma WishFollows(r: R.State, p: Peer, link: bool, f: D.Flow)
    requires p in r.peers && r.peers[p].relaying.None?
    ensures Wish(R.SetLink(r, p, link), f) == if Follows(f, p) then (if link then Some(p) else None) else Wish(r, f)
    ensures forall into :: Exists(R.SetLink(r, p, link), into, f) <==> Exists(r, into, f)
  {
  }

  /** The relay flows to `p` exist and want its link exactly if it is up. */
  lemma RelayFlowsOf(r: R.State, p: Peer, into: RelayLists, from: RelayLists, w: D.World)
    requires Linked(r, into, w) && ListsOk(r.peers.Keys, into, from) && p in r.peers
    ensures p in into && Distinct(into[p])
    ensures forall f :: f in w.flows && Follows(f, p) && f.Relayed? ==> f.src in into[p]
    ensures forall s :: s in into[p] ==>
              && D.Relayed(s, p) in w.flows
              && w.flows[D.Relayed(s, p)].desired == if r.peers[p].haveLink then Some(p) else None
    ensures D.Local(p) in w.flows && (r.peers[p].haveLink ==> w.flows[D.Local(p)].desired == Some(p))
    ensures R.Unattached(r, p) ==> w.flows[D.Local(p)].desired == None
    ensures p in w.sinks <==> r.peers[p].haveLink
  {
    forall f | f in w.flows && Follows(f, p) && f.Relayed?
      ensures f.src in into[p]
    {
      assert FlowLinked(r, into, w, f);
    }
    forall s | s in into[p]
      ensures D.Relayed(s, p) in w.flows
      ensures w.flows[D.Relayed(s, p)].desired == if r.peers[p].haveLink then Some(p) else None
    {
      assert FlowLinked(r, into, w, D.Relayed(s, p));
    }
    assert FlowLinked(r, into, w, D.Local(p));
  }

  lemma LinkedFacts(r: R.State, p: Peer)
    requires R.Inv(r) && p in r.peers && r.peers[p].haveLink
    ensures r.peers[p].relaying.None?
  {
    assert R.PeerOk(r, p);
  }

  /** In every state of the client, whatever a flow wants is a live sink. */
  lemma DesiredSinksAreLive(r: R.State, into: RelayLists, w: D.World)
    requires R.Inv(r) && Linked(r, into, w)
    ensures forall f :: f in w.flows && w.flows[f].desired.Some? ==> w.flows[f].desired.value in w.sinks
  {
    forall f | f in w.flows && w.flows[f].desired.Some? ensures w.flows[f].desired.value in w.sinks {
      assert FlowLinked(r, into, w, f);
      WishIsLive(r, f);
    }
  }

  /** Only its own flow and the relay flows to it want the link of a peer that is no relay. */
  lemma WishesOf(r: R.State, p: Peer, into: RelayLists, w: D.World)
    requires Linked(r, into, w) && R.Inv(r) && p in r.peers && !r.peers[p].isRelay
    ensures forall f :: f in w.flows && w.flows[f].desired == Some(p) ==> Follows(f, p)
  {
    forall f | f in w.flows && w.flows[f].desired == Some(p) ensures Follows(f, p) {
      assert FlowLinked(r, into, w, f);
      OnlyOwnFlows(r, p, f);
    }
  }

  class Client {
    const dp: DataProtoSystem
    var peers: map<Peer, R.PeerState>
    var relays: seq<Peer>
    var waiting: seq<Peer>
    var into: RelayLists
    var from: RelayLists
    var currentFlow: Option<(Peer, Peer)>

    ghost function Peers(): R.State
      reads this
    {
      R.State(peers, relays, waiting)
    }

    ghost predicate Valid()
      reads this, dp
    {
      && dp.Valid() && R.Inv(Peers()) && ListsOk(peers.Keys, into, from) && Linked(Peers(), into, dp.Model())
      && (currentFlow.Some? ==> currentFlow.value.1 in into && currentFlow.value.0 in into[currentFlow.value.1])
    }

    constructor ()
      ensures Valid() && fresh(dp) && Peers() == R.EMPTY
    {
      dp := new DataProtoSystem();
      peers, relays, waiting := map[], [], [];
      into, from, currentFlow := map[], map[], None;
    }

    // ---------------------------------------------------------------- relays

    /** peer_register_need_relay */
    method RegisterNeedRelay(p: Peer)
      requires Valid() && R.Unattached(Peers(), p) && !peers[p].isRelay
      modifies `peers, `waiting
      ensures Valid() && Peers() == R.Register(old(Peers()), p)
    {
      hide R.Inv, D.Inv, Linked, ListsOk;
      R.RegisterInv(Peers(), p);
      SameWishesLinked(Peers(), R.Register(Peers(), p), into, dp.Model());
      waiting := waiting + [p];
      peers := peers[p := peers[p].(waiting := true)];
    }

    /** peer_unregister_need_relay */
    method UnregisterNeedRelay(p: Peer)
      requires Valid() && p in peers && peers[p].waiting
      modifies `peers, `waiting
      ensures Valid() && Peers() == R.Unregister(old(Peers()), p)
    {
      hide R.Inv, D.Inv, Linked, ListsOk, Without;
      R.UnregisterInv(Peers(), p);
      SameWishesLinked(Peers(), R.Unregister(Peers(), p), into, dp.Model());
      waiting := Without(waiting, p);
      peers := peers[p := peers[p].(waiting := false)];
    }

    /** peer_install_relaying */
    method InstallRelaying(p: Peer, relay: Peer)
      requires Valid() && R.Unattached(Peers(), p) && relay in relays
      modifies `peers, dp
      ensures Valid() && relay in old(peers) && p != relay && Peers() == R.Install(old(Peers()), p, relay)
    {
      hide R.Inv, D.Inv, D.Handle, Linked, ListsOk;
      R.InstallInv(Peers(), p, relay);
      InstallLinked(Peers(), p, relay, into, dp.Model());
      InstallReassigns(Peers(), p, relay);
      peers := peers[relay := peers[relay].(users := peers[relay].users + [p])];
      dp.FlowAttach(D.Local(p), relay);
      peers := peers[p := peers[p].(relaying := Some(relay))];
    }

    /** peer_free_relaying */
    method FreeRelaying(p: Peer)
      requires Valid() && p in peers && peers[p].relaying.Some?
      modifies `peers, dp
      ensures Valid() && old(peers)[p].relaying.value in old(peers) && Peers() == R.FreeRelaying(old(Peers()), p)
    {
      hide R.Inv, D.Inv, D.Handle, Linked, ListsOk, Without;
      R.FreeRelayingInv(Peers(), p);
      FreeRelayingLinked(Peers(), p, into, dp.Model());
      FreeReassigns(Peers(), p);
      var relay := peers[p].relaying.value;
      dp.FlowDetach(D.Local(p));
      peers := peers[relay := peers[relay].(users := Without(peers[relay].users, p))];
      peers := peers[p := peers[p].(relaying := None)];
    }

    /** assign_relays */
    method AssignRelays()
      requires Valid()
      modifies `peers, `waiting, dp
      ensures Valid() && Peers() == R.AssignRelays(old(Peers()))
    {
      hide R.Inv, D.Inv, Linked, ListsOk;
      while waiting != []
        invariant Valid() && R.AssignRelays(Peers()) == R.AssignRelays(old(Peers()))
        decreases |waiting|
      {
        if relays == [] {
          return;
        }
        R.AssignFacts(Peers());
        R.AssignOneInv(Peers());
        var p, relay := waiting[0], relays[0];
        assert relay in relays;
        R.UnregisterInv(Peers(), p);
        UnregisterNeedRelay(p);
        InstallRelaying(p, relay);
      }
    }

    /** peer_enable_relay_provider */
    method EnableRelayProvider(p: Peer)
      requires Valid() && p in peers && peers[p].haveLink && !peers[p].isRelay
      modifies `peers, `relays, `waiting, dp
      ensures Valid() && Peers() == R.EnableRelay(old(Peers()), p)
    {
      hide R.Inv, D.Inv, Linked, ListsOk, R.AssignRelays;
      R.AddRelayInv(Peers(), p);
      SameWishesLinked(Peers(), R.AddRelay(Peers(), p), into, dp.Model());
      relays := relays + [p];
      peers := peers[p := peers[p].(users := [], isRelay := true)];
      AssignRelays();
    }

    /** The loop of peer_disable_relay_provider */
    method EvictUsers(p: Peer)
      requires Valid() && p in peers
      modifies `peers, `waiting, dp
      ensures Valid() && Peers() == R.EvictUsers(old(Peers()), p)
    {
      hide R.Inv, D.Inv, Linked, ListsOk;
      while peers[p].users != []
        invariant Valid() && p in peers
        invariant R.EvictUsers(Peers(), p) == R.EvictUsers(old(Peers()), p)
        decreases |peers[p].users|
      {
        R.EvictFacts(Peers(), p);
        R.EvictOneInv(Peers(), p);
        var user := peers[p].users[0];
        R.FreeRelayingInv(Peers(), user);
        FreeRelaying(user);
        RegisterNeedRelay(user);
      }
    }

    /** peer_disable_relay_provider */
    method DisableRelayProvider(p: Peer)
      requires Valid() && p in peers && peers[p].isRelay
      modifies `peers, `relays, `waiting, dp
      ensures Valid() && Peers() == R.DisableRelay(old(Peers()), p)
    {
      hide R.Inv, D.Inv, R.AssignRelays, R.EvictUsers, Linked, ListsOk, Without;
      EvictUsers(p);
      R.DropRelayInv(Peers(), p);
      SameWishesLinked(Peers(), R.DropRelay(Peers(), p), into, dp.Model());
      relays := Without(relays, p);
      peers := peers[p := peers[p].(isRelay := false)];
      AssignRelays();
    }

    // ---------------------------------------------------------------- links

    /** DPRelaySink_Attach: every relay flow to `p` gets its link */
    method RelaySinkAttach(p: Peer)
      requires dp.Valid() && p in into && Distinct(into[p]) && p in dp.sinks
      requires forall s :: s in into[p] ==> D.Relayed(s, p) in dp.flows && dp.flows[D.Relayed(s, p)].desired.None?
      modifies dp
      ensures dp.Valid() && dp.sinks.Keys == old(dp.sinks.Keys) && dp.flows.Keys == old(dp.flows.Keys)
      ensures forall f :: f in dp.flows ==>
                dp.flows[f].desired ==
                if f.Relayed? && f.dst == p && f.src in into[p] then Some(p) else old(dp.flows)[f].desired
    {
      hide D.Inv, D.Handle;
      var k := 0;
      while k < |into[p]|
        invariant 0 <= k <= |into[p]| && dp.Valid()
        invariant dp.sinks.Keys == old(dp.sinks.Keys) && dp.flows.Keys == old(dp.flows.Keys)
        invariant forall f :: f in dp.flows ==>
                    dp.flows[f].desired == if f.Relayed? && f.dst == p && f.src in into[p][..k] then Some(p)
                                           else old(dp.flows)[f].desired
      {
        var s := into[p][k];
        assert s in into[p] && s !in into[p][..k];
        assert into[p][..k + 1] == into[p][..k] + [s];
        AttachEffect(dp.Model(), D.Relayed(s, p), p);
        dp.FlowAttach(D.Relayed(s, p), p);
        k := k + 1;
      }
      assert into[p][..k] == into[p];
    }

    /** DPRelaySink_Detach: no relay flow to `p` keeps its link */
    method RelaySinkDetach(p: Peer)
      requires dp.Valid() && p in into && Distinct(into[p])
      requires forall s :: s in into[p] ==> D.Relayed(s, p) in dp.flows && dp.flows[D.Relayed(s, p)].desired.Some?
      modifies dp
      ensures dp.Valid() && dp.sinks.Keys == old(dp.sinks.Keys) && dp.flows.Keys == old(dp.flows.Keys)
      ensures forall f :: f in dp.flows ==>
                dp.flows[f].desired ==
                if f.Relayed? && f.dst == p && f.src in into[p] then None else old(dp.flows)[f].desired
    {
      hide D.Inv, D.Handle;
      var k := 0;
      while k < |into[p]|
        invariant 0 <= k <= |into[p]| && dp.Valid()
        invariant dp.sinks.Keys == old(dp.sinks.Keys) && dp.flows.Keys == old(dp.flows.Keys)
        invariant forall f :: f in dp.flows ==>
                    dp.flows[f].desired == if f.Relayed? && f.dst == p && f.src in into[p][..k] then None
                                           else old(dp.flows)[f].desired
      {
        var s := into[p][k];
        assert s in into[p] && s !in into[p][..k];
        assert into[p][..k + 1] == into[p][..k] + [s];
        D.VisibleEffect(dp.Model(), D.Detach(D.Relayed(s, p)));
        dp.FlowDetach(D.Relayed(s, p));
        k := k + 1;
      }
      assert into[p][..k] == into[p];
    }

    /** The data side of peer_init_link: a new sink, wanted by the flows that follow the link of `p` */
    method OpenSink(p: Peer)
      requires dp.Valid() && p in into && Distinct(into[p]) && p !in dp.sinks
      requires D.Local(p) in dp.flows && dp.flows[D.Local(p)].desired.None?
      requires forall s :: s in into[p] ==> D.Relayed(s, p) in dp.flows && dp.flows[D.Relayed(s, p)].desired.None?
      requires forall f :: f in dp.flows && Follows(f, p) && f.Relayed? ==> f.src in into[p]
      modifies dp
      ensures dp.Valid() && dp.flows.Keys == old(dp.flows.Keys)
      ensures forall s :: s in dp.sinks <==> s in old(dp.sinks) || s == p
      ensures forall f :: f in dp.flows ==>
                dp.flows[f].desired == if Follows(f, p) then Some(p) else old(dp.flows)[f].desired
    {
      hide D.Inv;
      OpenOwnSink(p);
      RelaySinkAttach(p);
    }

    method OpenOwnSink(p: Peer)
      requires dp.Valid() && p !in dp.sinks && D.Local(p) in dp.flows && dp.flows[D.Local(p)].desired.None?
      modifies dp
      ensures dp.Valid() && dp.flows.Keys == old(dp.flows.Keys)
      ensures forall s :: s in dp.sinks <==> s in old(dp.sinks) || s == p
      ensures forall f :: f in dp.flows ==>
                dp.flows[f].desired == if f == D.Local(p) then Some(p) else old(dp.flows)[f].desired
    {
      hide D.Inv, D.Handle;
      D.VisibleEffect(dp.Model(), D.SinkInit(p));
      dp.SinkInit(p);
      D.VisibleEffect(dp.Model(), D.Attach(D.Local(p), p));
      dp.FlowAttach(D.Local(p), p);
    }

    /** Every flow that follows `p` lets go of its sink. */
    method DetachFlows(p: Peer)
      requires dp.Valid() && p in into && Distinct(into[p]) && p in dp.sinks
      requires D.Local(p) in dp.flows && dp.flows[D.Local(p)].desired.Some?
      requires forall s :: s in into[p] ==> D.Relayed(s, p) in dp.flows && dp.flows[D.Relayed(s, p)].desired.Some?
      requires forall f :: f in dp.flows && Follows(f, p) && f.Relayed? ==> f.src in into[p]
      modifies dp
      ensures dp.Valid() && dp.flows.Keys == old(dp.flows.Keys)
      ensures forall s :: s in dp.sinks <==> s in old(dp.sinks)
      ensures forall f :: f in dp.flows ==>
                dp.flows[f].desired == if Follows(f, p) then None else old(dp.flows)[f].desired
    {
      hide D.Inv, D.Handle;
      RelaySinkDetach(p);
      D.VisibleEffect(dp.Model(), D.Detach(D.Local(p)));
      dp.FlowDetach(D.Local(p));
    }

    /** The data side of peer_free_link: the flows let go of the sink, then it is freed */
    method CloseSink(p: Peer)
      requires dp.Valid() && p in into && Distinct(into[p]) && p in dp.sinks
      requires D.Local(p) in dp.flows && dp.flows[D.Local(p)].desired.Some?
      requires forall s :: s in into[p] ==> D.Relayed(s, p) in dp.flows && dp.flows[D.Relayed(s, p)].desired.Some?
      requires forall f :: f in dp.flows && Follows(f, p) && f.Relayed? ==> f.src in into[p]
      requires forall f :: f in dp.flows && dp.flows[f].desired == Some(p) ==> Follows(f, p)
      modifies dp
      ensures dp.Valid() && dp.flows.Keys == old(dp.flows.Keys)
      ensures forall s :: s in dp.sinks <==> s in old(dp.sinks) && s != p
      ensures forall f :: f in dp.flows ==>
                dp.flows[f].desired == if Follows(f, p) then None else old(dp.flows)[f].desired
      ensures forall b :: b in dp.buffers ==> dp.buffers[b].sink != Some(p)
    {
      hide D.Inv, D.Handle;
      DetachFlows(p);
      D.VisibleEffect(dp.Model(), D.SinkFree(p));
      dp.SinkFree(p);
    }

    /** peer_init_link, when it succeeds */
    method InitLink(p: Peer)
      requires Valid() && R.Unattached(Peers(), p) && !peers[p].isRelay
      modifies `peers, dp
      ensures Valid() && Peers() == R.SetLink(old(Peers()), p, true)
    {
      hide R.Inv, D.Inv, Linked, ListsOk;
      R.SetLinkInv(Peers(), p, true);
      RelayFlowsOf(Peers(), p, into, from, dp.Model());
      ghost var before := dp.Model();
      OpenSink(p);
      LinkChanges(Peers(), p, true, into, before, dp.Model());
      peers := peers[p := peers[p].(haveLink := true)];
      assert peers.Keys == old(peers).Keys;
    }

    /** peer_free_link; nothing wants the sink any more when it is freed */
    method FreeLink(p: Peer)
      requires Valid() && p in peers && peers[p].haveLink && !peers[p].isRelay
      modifies `peers, dp
      ensures Valid() && Peers() == R.SetLink(old(Peers()), p, false)
      ensures forall b :: b in dp.buffers ==> dp.buffers[b].sink != Some(p)
    {
      hide R.Inv, D.Inv, Linked, ListsOk;
      R.SetLinkInv(Peers(), p, false);
      LinkedFacts(Peers(), p);
      RelayFlowsOf(Peers(), p, into, from, dp.Model());
      ghost var before := dp.Model();
      WishesOf(Peers(), p, into, before);
      CloseSink(p);
      LinkChanges(Peers(), p, false, into, before, dp.Model());
      peers := peers[p := peers[p].(haveLink := false)];
      assert peers.Keys == old(peers).Keys;
    }

    /** peer_cleanup_connections */
    method CleanupConnections(p: Peer)
      requires Valid() && p in peers
      modifies `peers, `relays, `waiting, dp
      ensures Valid() && Peers() == R.Cleanup(old(Peers()), p)
    {
      hide R.Inv, D.Inv, R.DisableRelay, Linked, ListsOk;
      if peers[p].haveLink {
        if peers[p].isRelay {
          DisableRelayProvider(p);
        }
        FreeLink(p);
      } else if peers[p].relaying.Some? {
        FreeRelaying(p);
      } else if peers[p].waiting {
        UnregisterNeedRelay(p);
      }
    }

    /** peer_need_relay */
    method NeedRelay(p: Peer)
      requires Valid() && p in peers && !peers[p].isRelay
      modifies `peers, `relays, `waiting, dp
      ensures Valid() && Peers() == R.NeedRelay(old(Peers()), p)
    {
      hide R.Inv, D.Inv, R.AssignRelays, Linked, ListsOk;
      if peers[p].waiting {
        return;
      }
      if peers[p].haveLink {
        FreeLink(p);
      } else if peers[p].relaying.Some? {
        FreeRelaying(p);
      }
      assert Peers() == R.Cleanup(old(Peers()), p);
      RegisterNeedRelay(p);
      AssignRelays();
    }

    // ---------------------------------------------------------------- relay flows

    /** DPRelayRouter_SubmitFrame: finds or creates the flow from `s` to `d` and makes it current */
    method SubmitFrame(s: Peer, d: Peer)
      requires Valid() && s in peers && d in peers && currentFlow.None?
      modifies `into, `from, `currentFlow, dp
      ensures Valid() && currentFlow == Some((s, d)) && s in into[d]
      ensures d in old(into) && s in old(from)
      ensures into == if s in old(into)[d] then old(into) else old(into)[d := old(into)[d] + [s]]
      ensures from == if s in old(into)[d] then old(from) else old(from)[s := old(from)[s] + [d]]
    {
      hide R.Inv, D.Inv, Linked, ListsOk;
      ListFacts(peers.Keys, into, from, s, d);
      if s !in into[d] {
        CreateRelayFlow(s, d);
      }
      currentFlow := Some((s, d));
    }

    /** create_flow */
    method CreateRelayFlow(s: Peer, d: Peer)
      requires Valid() && s in peers && d in peers && d in into && s in from && s !in into[d]
      modifies `into, `from, dp
      ensures Valid() && into == old(into)[d := old(into)[d] + [s]] && from == old(from)[s := old(from)[s] + [d]]
    {
      hide R.Inv, D.Inv, D.Handle, Linked, ListsOk, NowWants;
      var f := D.Relayed(s, d);
      ghost var before := dp.Model();
      AddToLists(peers.Keys, into, from, s, d);
      NoFlowYet(Peers(), into, before, s, d);
      CreatedEffect(before, f, d, peers[d].haveLink);
      dp.FlowInit(f);
      from := from[s := from[s] + [d]];
      into := into[d := into[d] + [s]];
      if peers[d].haveLink {
        dp.FlowAttach(f, d);
      }
      FlowAdded(Peers(), old(into), into, before, dp.Model(), s, d);
    }

    /** free_flow of DPRelay, by inactivity or because an end goes away */
    method FreeRelayFlow(s: Peer, d: Peer)
      requires Valid() && d in into && s in into[d]
      modifies `into, `from, `currentFlow, dp
      ensures Valid() && s in old(from) && into == old(into)[d := Without(old(into)[d], s)]
      ensures from == old(from)[s := Without(old(from)[s], d)]
      ensures currentFlow == if old(currentFlow) == Some((s, d)) then None else old(currentFlow)
    {
      hide R.Inv, D.Inv, D.Handle, Linked, ListsOk, Without, FlowGone;
      var f := D.Relayed(s, d);
      ghost var before := dp.Model();
      ListFacts(peers.Keys, into, from, s, d);
      RemoveFromLists(peers.Keys, into, from, s, d);
      FlowThere(Peers(), into, before, s, d);
      FreedEffect(before, f);
      if peers[d].haveLink {
        dp.FlowDetach(f);
      }
      if currentFlow == Some((s, d)) {
        currentFlow := None;
      }
      into := into[d := Without(into[d], s)];
      from := from[s := Without(from[s], d)];
      dp.FlowFree(f);
      FlowRemoved(Peers(), old(into), into, before, dp.Model(), s, d);
    }

    // ---------------------------------------------------------------- the queues of the sinks, between two handlers

    /** The queue of the sink begins to send a packet of the buffer */
    method QueueSends(p: Peer, b: D.Buffer)
      requires Valid() && D.Enabled(dp.Model(), D.QueueSends(p, b))
      modifies dp
      ensures Valid() && dp.Model() == D.Handle(old(dp.Model()), D.QueueSends(p, b))
    {
      hide R.Inv, D.Inv, D.Handle, Linked, ListsOk;
      QueueLinked(Peers(), into, dp.Model(), D.QueueSends(p, b));
      dp.QueueSends(p, b);
    }

    /** The queue of the sink is done with its packet: a buffer that is to be let go moves on or is freed */
    method QueueDone(p: Peer)
      requires Valid() && D.Enabled(dp.Model(), D.QueueDone(p))
      modifies dp
      ensures Valid() && dp.Model() == D.Handle(old(dp.Model()), D.QueueDone(p))
    {
      hide R.Inv, D.Inv, D.Handle, Linked, ListsOk;
      QueueLinked(Peers(), into, dp.Model(), D.QueueDone(p));
      dp.QueueDone(p);
    }

    // ---------------------------------------------------------------- handlers

    /** new_peer_data, as far as links and flows go */
    method AddPeer(p: Peer, canRelay: bool)
      requires Valid() && R.Settled(Peers()) && p !in peers
      modifies `peers, `into, `from, dp
      ensures Valid() && R.Settled(Peers()) && Peers() == R.Handle(old(Peers()), R.AddPeer(p, canRelay))
    {
      hide R.Inv, D.Inv, D.Handle, Linked, ListsOk;
      R.HandleInv(Peers(), R.AddPeer(p, canRelay));
      ghost var before := dp.Model();
      ListFacts(peers.Keys, into, from, p, p);
      NewPeerLists(peers.Keys, into, from, p);
      NewPeerFlow(Peers(), into, before, p);
      D.VisibleEffect(dp.Model(), D.FlowInit(D.Local(p)));
      dp.FlowInit(D.Local(p));
      PeerAdded(Peers(), into, before, dp.Model(), p, canRelay);
      peers := peers[p := R.PeerState(canRelay, false, false, None, false, [])];
      into, from := into[p := []], from[p := []];
      assert peers.Keys == old(peers).Keys + {p};
    }

    /** peer_remove: connections first, then the relay flows to and from the peer, then its own flow */
    method RemovePeer(p: Peer)
      requires Valid() && R.Settled(Peers()) && p in peers
      modifies this, dp
      ensures Valid() && R.Settled(Peers()) && Peers() == R.Handle(old(Peers()), R.RemovePeer(p))
    {
      hide R.Inv, D.Inv, Linked, ListsOk, R.Cleanup;
      R.HandleInv(Peers(), R.RemovePeer(p));
      CleanupConnections(p);
      FreeRelayFlowsOf(p);
      R.DropPeerInv(Peers(), p);
      DropPeer(p);
    }

    /** The end of peer_remove */
    method DropPeer(p: Peer)
      requires Valid() && R.Unattached(Peers(), p) && R.Inv(Peers().(peers := peers - {p}))
      requires p in into && into[p] == [] && p in from && from[p] == []
      modifies `peers, `into, `from, dp
      ensures Valid() && Peers() == old(Peers()).(peers := old(peers) - {p})
    {
      hide R.Inv, D.Inv, D.Handle, Linked, ListsOk;
      ghost var before := dp.Model();
      LastPeerFlow(Peers(), into, from, before, p);
      D.VisibleEffect(dp.Model(), D.FlowFree(D.Local(p)));
      dp.FlowFree(D.Local(p));
      PeerRemoved(Peers(), into, from, before, dp.Model(), p);
      CurrentStays(peers.Keys, into, from, p, currentFlow);
      peers, into, from := peers - {p}, into - {p}, from - {p};
      assert peers.Keys == old(peers).Keys - {p};
    }

    /** DPRelaySink_Free and DPRelaySource_Free of a peer */
    method FreeRelayFlowsOf(p: Peer)
      requires Valid() && p in peers
      modifies `into, `from, `currentFlow, dp
      ensures Valid() && p in into && into[p] == [] && p in from && from[p] == []
    {
      hide R.Inv, D.Inv, Linked, ListsOk, Without;
      ListFacts(peers.Keys, into, from, p, p);
      while into[p] != []
        invariant Valid() && p in into && p in from
        decreases |into[p]|
      {
        var s := into[p][0];
        assert s in into[p];
        FreeRelayFlow(s, p);
        ListFacts(peers.Keys, into, from, p, p);
      }
      while from[p] != []
        invariant Valid() && p in into && p in from && into[p] == []
        decreases |from[p]|
      {
        var d := from[p][0];
        assert d in from[p];
        ListFacts(peers.Keys, into, from, p, d);
        FreeRelayFlow(p, d);
        ListFacts(peers.Keys, into, from, p, p);
      }
    }

    /** What peer_bind_one_address and peer_connect begin with */
    method FreshLink(p: Peer)
      requires Valid() && R.Settled(Peers()) && p in peers
      modifies `peers, `relays, `waiting, dp
      ensures Valid() && R.Settled(Peers()) && Peers() == R.Handle(old(Peers()), R.FreshLink(p))
    {
      hide R.Inv, D.Inv, Linked, ListsOk, R.Cleanup;
      R.HandleInv(Peers(), R.FreshLink(p));
      CleanupConnections(p);
      InitLink(p);
    }

    /** peer_dataproto_handler, when the link went up: a peer that can be a relay becomes one */
    method LinkUp(p: Peer)
      requires Valid() && R.Settled(Peers()) && p in peers && peers[p].haveLink
      modifies `peers, `relays, `waiting, dp
      ensures Valid() && R.Settled(Peers())
      ensures Peers() == R.Handle(old(Peers()), R.Up(p))
    {
      hide R.Inv, D.Inv, Linked, ListsOk;
      R.HandleInv(Peers(), R.Up(p));
      if peers[p].canRelay && !peers[p].isRelay {
        EnableRelayProvider(p);
      }
    }

    /** peer_dataproto_handler, when the link went down: a relay stops being one */
    method LinkDown(p: Peer)
      requires Valid() && R.Settled(Peers()) && p in peers && peers[p].haveLink
      modifies `peers, `relays, `waiting, dp
      ensures Valid() && R.Settled(Peers())
      ensures Peers() == R.Handle(old(Peers()), R.Down(p))
    {
      hide R.Inv, D.Inv, Linked, ListsOk;
      R.HandleInv(Peers(), R.Down(p));
      if peers[p].isRelay {
        DisableRelayProvider(p);
      }
    }
  }

  // ------------------------------------------------------------------ how the lists and flows change

  lemma ListFacts(peers: set<Peer>, into: RelayLists, from: RelayLists, s: Peer, d: Peer)
    requires ListsOk(peers, into, from)
    ensures (s in peers <==> s in into) && (d in peers <==> d in into)
    ensures d in into ==> Distinct(into[d])
    ensures s in peers <==> s in from
    ensures s in from && d in from[s] ==> d in into && s in into[d]
    ensures d in into && s in into[d] ==> s in from && d in from[s] && s in peers
  {
    assert s in into.Keys <==> s in peers;
    assert s in from.Keys <==> s in peers;
    assert d in into.Keys <==> d in peers;
  }

  lemma AddToLists(peers: set<Peer>, into: RelayLists, from: RelayLists, s: Peer, d: Peer)
    requires ListsOk(peers, into, from) && s in peers && d in peers && s !in into[d]
    ensures ListsOk(peers, into[d := into[d] + [s]], from[s := from[s] + [d]])
  {
  }

  lemma RemoveFromLists(peers: set<Peer>, into: RelayLists, from: RelayLists, s: Peer, d: Peer)
    requires ListsOk(peers, into, from) && d in into && s in into[d]
    ensures s in from && ListsOk(peers, into[d := Without(into[d], s)], from[s := Without(from[s], d)])
  {
    assert s in from.Keys;
    hide Without, Distinct, Among, Mirrored;
    FewerAmong(peers, into, d, s);
    FewerAmong(peers, from, s, d);
    FewerMirrored(peers, into, from, s, d);
  }

  lemma FewerAmong(peers: set<Peer>, lists: RelayLists, p: Peer, q: Peer)
    requires Among(peers, lists) && p in lists
    ensures Among(peers, lists[p := Without(lists[p], q)])
  {
    hide Without, Distinct;
    assert p in lists.Keys;
  }

  lemma FewerMirrored(peers: set<Peer>, into: RelayLists, from: RelayLists, s: Peer, d: Peer)
    requires Among(peers, into) && Among(peers, from) && Mirrored(into, from) && d in into && s in from
    ensures Mirrored(into[d := Without(into[d], s)], from[s := Without(from[s], d)])
  {
    assert Distinct(into[d]) && Distinct(from[s]);
    hide Without, Distinct, Among;
  }

  lemma NewPeerLists(peers: set<Peer>, into: RelayLists, from: RelayLists, p: Peer)
    requires ListsOk(peers, into, from) && p !in peers
    ensures ListsOk(peers + {p}, into[p := []], from[p := []])
  {
    assert p !in into.Keys && p !in from.Keys;
  }

  lemma FlowThere(r: R.State, into: RelayLists, w: D.World, s: Peer, d: Peer)
    requires Linked(r, into, w) && d in into && s in into[d]
    ensures D.Relayed(s, d) in w.flows && w.flows[D.Relayed(s, d)].desired == Wish(r, D.Relayed(s, d))
    ensures d in r.peers ==> (d in w.sinks <==> r.peers[d].haveLink)
  {
    assert FlowLinked(r, into, w, D.Relayed(s, d));
  }

  lemma NoFlowYet(r: R.State, into: RelayLists, w: D.World, s: Peer, d: Peer)
    requires Linked(r, into, w) && d in into && s !in into[d]
    ensures D.Relayed(s, d) !in w.flows && (d in r.peers && r.peers[d].haveLink ==> d in w.sinks)
  {
    assert FlowLinked(r, into, w, D.Relayed(s, d));
  }

  lemma FlowAdded(r: R.State, into: RelayLists, into1: RelayLists, w: D.World, v: D.World, s: Peer, d: Peer)
    requires Linked(r, into, w) && d in into && s !in into[d] && into1 == into[d := into[d] + [s]]
    requires NowWants(w, v, D.Relayed(s, d), Wish(r, D.Relayed(s, d)))
    ensures Linked(r, into1, v)
  {
    forall f ensures FlowLinked(r, into1, v, f) { assert FlowLinked(r, into, w, f); }
  }

  lemma FlowRemoved(r: R.State, into: RelayLists, into1: RelayLists, w: D.World, v: D.World, s: Peer, d: Peer)
    requires Linked(r, into, w) && d in into && Distinct(into[d]) && into1 == into[d := Without(into[d], s)]
    requires FlowGone(w, v, D.Relayed(s, d))
    ensures Linked(r, into1, v)
  {
    hide Without;
    forall f ensures FlowLinked(r, into1, v, f) { assert FlowLinked(r, into, w, f); }
  }

  lemma NewPeerFlow(r: R.State, into: RelayLists, w: D.World, p: Peer)
    requires Linked(r, into, w) && p !in r.peers
    ensures D.Local(p) !in w.flows
  {
    assert FlowLinked(r, into, w, D.Local(p));
  }

  lemma PeerAdded(r: R.State, into: RelayLists, w: D.World, v: D.World, p: Peer, canRelay: bool)
    requires Linked(r, into, w) && p !in r.peers && p !in into
    requires forall k :: k in v.sinks <==> k in w.sinks
    requires forall f :: f in v.flows <==> f in w.flows || f == D.Local(p)
    requires forall f :: f in v.flows ==> v.flows[f].desired == if f == D.Local(p) then None else w.flows[f].desired
    ensures Linked(R.Update(r, p, R.PeerState(canRelay, false, false, None, false, [])), into[p := []], v)
  {
    var n := R.Update(r, p, R.PeerState(canRelay, false, false, None, false, []));
    var into1 := into[p := []];
    forall f ensures FlowLinked(n, into1, v, f) { assert FlowLinked(r, into, w, f); }
  }

  lemma LastPeerFlow(r: R.State, into: RelayLists, from: RelayLists, w: D.World, p: Peer)
    requires Linked(r, into, w) && R.Unattached(r, p)
    ensures D.Local(p) in w.flows && w.flows[D.Local(p)].desired.None?
  {
    assert FlowLinked(r, into, w, D.Local(p));
  }

  lemma CurrentStays(peers: set<Peer>, into: RelayLists, from: RelayLists, p: Peer, current: Option<(Peer, Peer)>)
    requires p in into && into[p] == []
    requires current.Some? ==> current.value.1 in into && current.value.0 in into[current.value.1]
    ensures current.Some? ==> current.value.1 in into - {p}
  {
  }

  lemma PeerRemoved(r: R.State, into: RelayLists, from: RelayLists, w: D.World, v: D.World, p: Peer)
    requires Linked(r, into, w) && ListsOk(r.peers.Keys, into, from) && R.Unattached(r, p)
    requires p in into && into[p] == [] && p in from && from[p] == []
    requires forall k :: k in v.sinks <==> k in w.sinks
    requires forall f :: f in v.flows <==> f in w.flows && f != D.Local(p)
    requires forall f :: f in v.flows ==> v.flows[f].desired == w.flows[f].desired
    ensures Linked(r.(peers := r.peers - {p}), into - {p}, v)
    ensures ListsOk(r.peers.Keys - {p}, into - {p}, from - {p})
  {
    hide ListsOk;
    var n := r.(peers := r.peers - {p});
    forall f ensures FlowLinked(n, into - {p}, v, f) { assert FlowLinked(r, into, w, f); }
    ListsWithout(r.peers.Keys, into, from, p);
  }

  /** A peer without relay flows leaves no trace in the lists. */
  lemma ListsWithout(peers: set<Peer>, into: RelayLists, from: RelayLists, p: Peer)
    requires ListsOk(peers, into, from) && p in into && into[p] == [] && p in from && from[p] == []
    ensures ListsOk(peers - {p}, into - {p}, from - {p})
  {
    forall s, d | d in into - {p} && s in (into - {p})[d] ensures s in peers - {p} {
      assert s in into[d] && d in peers && s in peers;
      assert d in from[s];
    }
    forall s, d | s in from - {p} && d in (from - {p})[s] ensures d in peers - {p} {
      assert d in from[s] && s in peers && d in peers;
      assert s in into[d];
    }
  }
}
