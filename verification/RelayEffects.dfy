/**
 * What the handlers of the client do to each peer, seen from outside: its standing, and that no other peer's changes.
 */
module RelayEffects {
  import opened Lists
  import opened RelayPeers

  /** NeedsRelay is a peer that waits for a relay or relays through one. */
  datatype Standing = Linked(relay: bool) | NeedsRelay | Detached

  function StandingOf(s: PeerState): Standing {
    if s.haveLink then Linked(s.isRelay) else if s.waiting || s.relaying.Some? then NeedsRelay else Detached
  }

  /** What the event makes of the peer it is about. */
  function Becomes(s: PeerState, e: Event): Standing {
    match e
    case FreshLink(_) => Linked(false)
    case Need(_) => NeedsRelay
    case Up(_) => Linked(s.isRelay || s.canRelay)
    case Down(_) => Linked(false)
    case _ => Detached
  }

  ghost predicate SameStanding(r: State, n: State, q: Peer)
    requires q in r.peers && q in n.peers
  {
    StandingOf(n.peers[q]) == StandingOf(r.peers[q]) && n.peers[q].canRelay == r.peers[q].canRelay
  }

  /** Every peer but `p` is there as before. */
  ghost predicate OthersKeep(r: State, n: State, p: Peer) {
    forall q :: q in r.peers && q != p ==> q in n.peers && SameStanding(r, n, q)
  }

  ghost predicate AllKeep(r: State, n: State) {
    forall q :: q in r.peers ==> q in n.peers && SameStanding(r, n, q)
  }

  lemma AssignOneKeeps(r: State)
    requires Inv(r) && r.waiting != [] && r.relays != []
    ensures AllKeep(r, AssignOne(r))
  {
    AssignFacts(r);
    assert PeerOk(r, r.waiting[0]) && PeerOk(r, r.relays[0]);
  }

  lemma {:induction false} AssignKeeps(r: State)
    requires Inv(r)
    ensures AllKeep(r, AssignRelays(r))
    decreases |r.waiting|
  {
    hide Inv, PeerOk, StandingOf, AssignOne;
    if r.waiting != [] && r.relays != [] {
      AssignOneInv(r);
      AssignOneKeeps(r);
      AssignKeeps(AssignOne(r));
      Keeping(r, AssignOne(r), AssignRelays(AssignOne(r)));
    }
  }

  lemma Keeping(r: State, m: State, n: State)
    requires AllKeep(r, m) && AllKeep(m, n)
    ensures AllKeep(r, n)
  {
    forall q | q in r.peers ensures q in n.peers && SameStanding(r, n, q) {
      assert q in m.peers && SameStanding(r, m, q) && SameStanding(m, n, q);
    }
  }

  lemma EvictOneKeeps(r: State, p: Peer)
    requires Inv(r) && p in r.peers && r.peers[p].users != []
    ensures AllKeep(r, EvictOne(r, p))
  {
    EvictFacts(r, p);
    assert PeerOk(r, p) && PeerOk(r, r.peers[p].users[0]);
  }

  lemma {:induction false} EvictKeeps(r: State, p: Peer)
    requires Inv(r) && p in r.peers
    ensures AllKeep(r, EvictUsers(r, p))
    decreases |r.peers[p].users|
  {
    hide Inv, PeerOk, StandingOf, EvictOne;
    if r.peers[p].users != [] {
      EvictOneInv(r, p);
      EvictOneKeeps(r, p);
      EvictKeeps(EvictOne(r, p), p);
      Keeping(r, EvictOne(r, p), EvictUsers(EvictOne(r, p), p));
    }
  }

  lemma DisableEffect(r: State, p: Peer)
    requires Inv(r) && p in r.peers && r.peers[p].isRelay
    ensures var n := DisableRelay(r, p);
            && OthersKeep(r, n, p) && p in n.peers && StandingOf(n.peers[p]) == Linked(false)
            && n.peers[p].canRelay == r.peers[p].canRelay
  {
    hide Inv;
    assert r.peers[p].haveLink by { LinkFacts(r, p); }
    EvictKeeps(r, p);
    var e := EvictUsers(r, p);
    DropRelayInv(e, p);
    var d, n := DropRelay(e, p), DisableRelay(r, p);
    AssignKeeps(d);
    assert SameStanding(r, e, p) && SameStanding(d, n, p);
    hide AssignRelays, EvictUsers, StandingOf;
    KeepingOthers(r, e, d, n, p);
  }

  lemma KeepingOthers(r: State, e: State, d: State, n: State, p: Peer)
    requires AllKeep(r, e) && OthersKeep(e, d, p) && AllKeep(d, n)
    ensures OthersKeep(r, n, p)
  {
    hide StandingOf;
    forall q | q in r.peers && q != p ensures q in n.peers && SameStanding(r, n, q) {
      assert SameStanding(r, e, q) && SameStanding(e, d, q) && SameStanding(d, n, q);
    }
  }

  lemma LinkFacts(r: State, p: Peer)
    requires Inv(r) && p in r.peers
    ensures r.peers[p].isRelay ==> r.peers[p].haveLink
    ensures !(r.peers[p].haveLink && r.peers[p].relaying.Some?) && !(r.peers[p].haveLink && r.peers[p].waiting)
    ensures !(r.peers[p].relaying.Some? && r.peers[p].waiting)
  {
    assert PeerOk(r, p);
  }

  lemma EnableEffect(r: State, p: Peer)
    requires Inv(r) && p in r.peers && r.peers[p].haveLink && !r.peers[p].isRelay
    ensures var n := EnableRelay(r, p);
            && OthersKeep(r, n, p) && p in n.peers && StandingOf(n.peers[p]) == Linked(true)
            && n.peers[p].canRelay == r.peers[p].canRelay
  {
    hide Inv;
    AddRelayInv(r, p);
    var a, n := AddRelay(r, p), EnableRelay(r, p);
    AssignKeeps(a);
    assert SameStanding(a, n, p);
    forall q | q in r.peers && q != p ensures q in n.peers && SameStanding(r, n, q) { assert SameStanding(a, n, q); }
  }

  lemma CleanupEffect(r: State, p: Peer)
    requires Inv(r) && p in r.peers
    ensures var n := Cleanup(r, p);
            && OthersKeep(r, n, p) && p in n.peers && StandingOf(n.peers[p]) == Detached
            && n.peers[p].canRelay == r.peers[p].canRelay
  {
    hide Inv, DisableRelay;
    LinkFacts(r, p);
    if r.peers[p].haveLink {
      if r.peers[p].isRelay { DisableEffect(r, p); }
      var d := if r.peers[p].isRelay then DisableRelay(r, p) else r;
      assert OthersKeep(r, d, p);
      forall q | q in r.peers && q != p ensures SameStanding(r, Cleanup(r, p), q) { assert SameStanding(r, d, q); }
    } else if r.peers[p].relaying.Some? {
      FreeRelayingInv(r, p);
    }
  }

  lemma NeedEffect(r: State, p: Peer)
    requires Inv(r) && p in r.peers && !r.peers[p].isRelay
    ensures var n := NeedRelay(r, p);
            && OthersKeep(r, n, p) && p in n.peers && StandingOf(n.peers[p]) == NeedsRelay
            && n.peers[p].canRelay == r.peers[p].canRelay
  {
    hide Inv, Cleanup;
    LinkFacts(r, p);
    if !r.peers[p].waiting {
      CleanupEffect(r, p);
      var c := Cleanup(r, p);
      RegisterInv(c, p);
      var g, n := Register(c, p), NeedRelay(r, p);
      AssignKeeps(g);
      assert SameStanding(g, n, p);
      hide AssignRelays;
      forall q | q in r.peers && q != p ensures q in n.peers && SameStanding(r, n, q) {
        assert SameStanding(r, c, q) && SameStanding(g, n, q);
      }
    }
  }

  /** Each event gives its own peer the standing it should have, and leaves the standing of every other peer alone. */
  lemma HandleEffect(r: State, e: Event)
    requires Inv(r) && Enabled(r, e)
    ensures var n := Handle(r, e);
            && OthersKeep(r, n, e.peer)
            && (forall q :: q in n.peers ==> q in r.peers || q == e.peer)
            && (e.peer in n.peers <==> !e.RemovePeer?)
            && (e.peer in n.peers ==>
                  StandingOf(n.peers[e.peer]) == if e.AddPeer? then Detached else Becomes(r.peers[e.peer], e))
  {
    hide Inv, Cleanup, NeedRelay, EnableRelay, DisableRelay;
    match e
    case AddPeer(p, canRelay) =>
    case RemovePeer(p) => CleanupEffect(r, p);
    case FreshLink(p) => CleanupEffect(r, p);
    case Reset(p) => CleanupEffect(r, p);
    case Need(p) => NeedEffect(r, p);
    case Up(p) => UpEffect(r, p);
    case Down(p) => DownEffect(r, p);
  }

  lemma UpEffect(r: State, p: Peer)
    requires Inv(r) && Enabled(r, Up(p))
    ensures var n := Handle(r, Up(p));
            && OthersKeep(r, n, p) && n.peers.Keys == r.peers.Keys
            && StandingOf(n.peers[p]) == Linked(r.peers[p].isRelay || r.peers[p].canRelay)
  {
    hide Inv;
    if r.peers[p].canRelay && !r.peers[p].isRelay {
      AddRelayInv(r, p);
      EnableEffect(r, p);
    }
  }

  lemma DownEffect(r: State, p: Peer)
    requires Inv(r) && Enabled(r, Down(p))
    ensures var n := Handle(r, Down(p));
            && OthersKeep(r, n, p) && n.peers.Keys == r.peers.Keys && StandingOf(n.peers[p]) == Linked(false)
  {
    hide Inv;
    if r.peers[p].isRelay { DisableEffect(r, p); }
  }

  /** In every run a peer that needs a relay has one as soon as there is any. */
  lemma NeedyAreServed(es: seq<Event>, p: Peer)
    ensures var r := Run(es);
            p in r.peers && StandingOf(r.peers[p]) == NeedsRelay && r.relays != [] ==>
              r.peers[p].relaying.Some? && r.peers[p].relaying.value in r.relays
  {
    var r := Run(es);
    if p in r.peers {
      assert PeerOk(r, p);
      if r.peers[p].relaying.Some? { assert PeerOk(r, r.peers[p].relaying.value); }
    }
  }

  // ------------------------------------------------------------------ who goes where, in which order

  /** Everyone who waits goes to the first relay, in the order of waiting. */
  ghost predicate Assigned(r: State, n: State) {
    && r.relays != [] && r.relays[0] in r.peers && r.relays[0] in n.peers
    && n.waiting == [] && n.relays == r.relays
    && n.peers[r.relays[0]].users == r.peers[r.relays[0]].users + r.waiting
    && (forall p :: p in r.waiting ==> p in n.peers && n.peers[p].relaying == Some(r.relays[0]))
    && (forall p :: p in r.peers && p !in r.waiting && p != r.relays[0] ==> p in n.peers && n.peers[p] == r.peers[p])
  }

  /** The first who waits goes to the first relay. */
  ghost predicate OneAssigned(r: State, n: State) {
    && r.waiting != [] && r.relays != []
    && var p, relay := r.waiting[0], r.relays[0];
       && p in r.peers && relay in r.peers && p in n.peers && relay in n.peers && p != relay
       && n.peers[p].relaying == Some(relay) && n.peers[relay].users == r.peers[relay].users + [p]
       && n.waiting == r.waiting[1..] && n.relays == r.relays
       && (forall q :: q in r.peers && q != p && q != relay ==> q in n.peers && n.peers[q] == r.peers[q])
  }

  lemma AssignOneEffect(r: State)
    requires Inv(r) && r.waiting != [] && r.relays != []
    ensures OneAssigned(r, AssignOne(r))
  {
    AssignFacts(r);
    AssignOneInv(r);
    hide Inv;
  }

  lemma AssignedStep(r: State, m: State, n: State)
    requires OneAssigned(r, m) && Assigned(m, n) && r.waiting[0] !in r.waiting[1..]
    requires forall q :: q in r.relays ==> q !in r.waiting
    ensures Assigned(r, n)
  {
    var p, relay := r.waiting[0], r.relays[0];
    assert r.waiting == [p] + r.waiting[1..];
    assert r.peers[relay].users + r.waiting == r.peers[relay].users + [p] + r.waiting[1..];
    assert relay in r.relays;
  }

  lemma NobodyWaits(r: State)
    requires Inv(r) && r.relays != [] && r.waiting == []
    ensures Assigned(r, r)
  {
    assert r.relays[0] in r.relays;
    assert r.peers[r.relays[0]].users + [] == r.peers[r.relays[0]].users;
  }

  lemma {:induction false} AssignEffect(r: State)
    requires Inv(r) && r.relays != []
    ensures Assigned(r, AssignRelays(r))
    decreases |r.waiting|
  {
    hide Inv, AssignOne, Assigned, OneAssigned;
    if r.waiting == [] {
      NobodyWaits(r);
    } else {
      AssignOneInv(r);
      AssignOneEffect(r);
      WaitersDistinct(r);
      AssignEffect(AssignOne(r));
      AssignedStep(r, AssignOne(r), AssignRelays(AssignOne(r)));
    }
  }

  lemma WaitersDistinct(r: State)
    requires Inv(r) && r.waiting != []
    ensures r.waiting[0] !in r.waiting[1..]
    ensures forall q :: q in r.relays ==> q !in r.waiting
  {
    assert r.waiting == [r.waiting[0]] + r.waiting[1..];
    forall q | q in r.relays ensures q !in r.waiting { assert PeerOk(r, q); }
  }

  /** A peer that comes to need a relay is the last to get one, or to wait for one. */
  lemma NeedIsLast(r: State, p: Peer)
    requires Inv(r) && Settled(r) && p in r.peers && !r.peers[p].isRelay && Unattached(r, p)
    ensures var n := NeedRelay(r, p);
            if r.relays == [] then n.waiting == r.waiting + [p]
            else
              && r.relays[0] in r.peers && r.relays[0] in n.peers
              && n.peers[r.relays[0]].users == r.peers[r.relays[0]].users + [p]
              && p in n.peers && n.peers[p].relaying == Some(r.relays[0])
  {
    hide Inv;
    assert Cleanup(r, p) == r;
    RegisterInv(r, p);
    var g := Register(r, p);
    if r.relays != [] {
      FirstRelay(r, p);
      AssignEffect(g);
      assert p in g.waiting && g.waiting == [p];
    }
  }

  lemma FirstRelay(r: State, p: Peer)
    requires Inv(r) && r.relays != [] && p in r.peers && !r.peers[p].isRelay
    ensures r.relays[0] in r.peers && r.relays[0] != p
  {
    assert r.relays[0] in r.relays && PeerOk(r, p);
  }

  lemma EvictOneOrder(r: State, p: Peer)
    requires Inv(r) && p in r.peers && r.peers[p].users != []
    ensures var m := EvictOne(r, p);
            p in m.peers && m.waiting + m.peers[p].users == r.waiting + r.peers[p].users
  {
    EvictFacts(r, p);
    EvictOneInv(r, p);
    hide Inv;
    var u := r.peers[p].users[0];
    assert r.waiting + r.peers[p].users == r.waiting + [u] + r.peers[p].users[1..];
  }

  /** The users of a relay go back to waiting in the order they joined. */
  lemma {:induction false} EvictOrder(r: State, p: Peer)
    requires Inv(r) && p in r.peers
    ensures EvictUsers(r, p).waiting == r.waiting + r.peers[p].users
    decreases |r.peers[p].users|
  {
    hide Inv, EvictOne;
    if r.peers[p].users == [] {
      assert r.waiting + [] == r.waiting;
    } else {
      EvictOneInv(r, p);
      EvictOneOrder(r, p);
      EvictOrder(EvictOne(r, p), p);
    }
  }

  /** When a relay stops, those who relayed through it queue up behind those waiting, for the first relay left. */
  lemma DisableMoves(r: State, p: Peer)
    requires Inv(r) && p in r.peers && r.peers[p].isRelay
    ensures var n, left, moved := DisableRelay(r, p), Without(r.relays, p), r.waiting + r.peers[p].users;
            && n.relays == left
            && (left == [] ==> n.waiting == moved)
            && (left != [] ==>
                  n.waiting == [] && forall u :: u in moved ==> u in n.peers && n.peers[u].relaying == Some(left[0]))
  {
    EvictOrder(r, p);
    var e := EvictUsers(r, p);
    DropRelayInv(e, p);
    hide Inv, EvictUsers, Without;
    var d := DropRelay(e, p);
    if d.relays != [] { AssignEffect(d); }
  }

  lemma NoRelayYet(r: State, p: Peer)
    requires Inv(r) && (p in r.peers ==> !r.peers[p].isRelay)
    ensures p !in r.relays
  {
    if p in r.peers { assert PeerOk(r, p); }
  }

  lemma CleanupRelays(r: State, p: Peer)
    requires Inv(r) && p in r.peers
    ensures Cleanup(r, p).relays == Without(r.relays, p)
  {
    LinkFacts(r, p);
    if r.peers[p].isRelay { DisableMoves(r, p); } else { NoRelayYet(r, p); }
    hide Inv, Without, DisableRelay;
  }

  /** The relays are listed in the order they became relays: a new one comes last, and one that stops leaves a gap. */
  lemma RelaysInOrder(r: State, e: Event)
    requires Inv(r) && Enabled(r, e)
    ensures Handle(r, e).relays ==
            if e.Up? then if r.peers[e.peer].canRelay && e.peer !in r.relays then r.relays + [e.peer] else r.relays
            else Without(r.relays, e.peer)
  {
    if e.peer in r.peers { assert PeerOk(r, e.peer); }
    if e.peer !in r.peers || !r.peers[e.peer].isRelay { NoRelayYet(r, e.peer); }
    hide Inv, Without, Cleanup, EnableRelay, DisableRelay;
    match e
    case AddPeer(p, _) =>
    case RemovePeer(p) => CleanupRelays(r, p);
    case FreshLink(p) => CleanupRelays(r, p);
    case Reset(p) => CleanupRelays(r, p);
    case Need(p) => NeedRelays(r, p);
    case Up(p) => if r.peers[p].canRelay && !r.peers[p].isRelay { EnableRelays(r, p); }
    case Down(p) => if r.peers[p].isRelay { DisableMoves(r, p); }
  }

  lemma NeedRelays(r: State, p: Peer)
    requires Inv(r) && p in r.peers && !r.peers[p].isRelay
    ensures NeedRelay(r, p).relays == r.relays
  {
    NoRelayYet(r, p);
    CleanupRelays(r, p);
    hide Inv, Without, Cleanup;
    if !r.peers[p].waiting { RegisterInv(Cleanup(r, p), p); }
  }

  lemma EnableRelays(r: State, p: Peer)
    requires Inv(r) && p in r.peers && r.peers[p].haveLink && !r.peers[p].isRelay
    ensures EnableRelay(r, p).relays == r.relays + [p]
  {
    hide Inv;
    AddRelayInv(r, p);
  }
}
