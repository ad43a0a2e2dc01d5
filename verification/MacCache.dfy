/** The MAC-learning cache of the frame decider, and the recency lists it refines. */
module MacCache {
  import opened Lists
  import opened RecentSlots

  type Mac = seq<nat>

  /** `mac` is what the entries hold; `tree` is the shared tree of used entries. */
  datatype Table = Table(tree: map<Mac, Entry>, used: map<Peer, seq<Entry>>, free: map<Peer, seq<Entry>>,
                         mac: map<Entry, Mac>)

  const EMPTY := Table(map[], map[], map[], map[])

  ghost predicate PeerOk(t: Table, p: Peer, max: nat)
    requires p in t.used && p in t.free
  {
    && PoolOk(t.used[p], t.free[p], p, max)
    && (forall e :: e in t.used[p] ==> e in t.mac && t.mac[e] in t.tree && t.tree[t.mac[e]] == e)
  }

  ghost predicate NodeOk(t: Table, m: Mac)
    requires m in t.tree
  {
    var e := t.tree[m];
    e.peer in t.used && e in t.used[e.peer] && e in t.mac && t.mac[e] == m
  }

  ghost predicate Inv(t: Table, max: nat) {
    && t.used.Keys == t.free.Keys
    && (forall p :: p in t.used && p in t.free ==> PeerOk(t, p, max))
    && (forall m :: m in t.tree ==> NodeOk(t, m))
  }

  lemma PeerFacts(t: Table, p: Peer, max: nat)
    requires Inv(t, max) && p in t.used
    ensures p in t.free && PoolOk(t.used[p], t.free[p], p, max) && Keyed(t.used[p], t.mac)
    ensures forall e :: e in t.used[p] ==> e in t.mac && t.mac[e] in t.tree && t.tree[t.mac[e]] == e
  {
    hide PoolOk;
    assert PeerOk(t, p, max);
  }

  lemma NodeFacts(t: Table, m: Mac, max: nat)
    requires Inv(t, max) && m in t.tree
    ensures NodeOk(t, m)
  {
  }

  // ------------------------------------------------------------------ the simple model

  /** The MACs of each peer, oldest first. */
  ghost function Recency(t: Table, max: nat): map<Peer, seq<Mac>>
    requires Inv(t, max)
  {
    map p | p in t.used :: PeerMacs(t, p, max)
  }

  ghost function PeerMacs(t: Table, p: Peer, max: nat): seq<Mac>
    requires Inv(t, max) && p in t.used
  {
    PeerFacts(t, p, max);
    Keys(t.used[p], t.mac)
  }

  /** `m` was last seen from `p`: every other peer loses it, and `p` loses its oldest MAC only if it has no room. */
  ghost function Learn(rec: map<Peer, seq<Mac>>, p: Peer, m: Mac, max: nat): map<Peer, seq<Mac>>
    requires max > 0
  {
    map q | q in rec :: if q == p then Touch(rec[q], m, max) else Without(rec[q], m)
  }

  /** The tree finds a MAC exactly if some peer has it, and finds that peer. */
  lemma LookupIsOwner(t: Table, p: Peer, m: Mac, max: nat)
    requires Inv(t, max) && p in t.used
    ensures m in Recency(t, max)[p] <==> m in t.tree && t.tree[m].peer == p
  {
    PeerFacts(t, p, max);
    KeysHas(t.used[p], t.mac, m);
    if m in t.tree { NodeFacts(t, m, max); }
  }

  // ------------------------------------------------------------------ add_mac_to_peer

  /** The peer's own entry moves to the end of its used list. */
  function Refresh(t: Table, e: Entry): Table
    requires e.peer in t.used
  {
    t.(used := t.used[e.peer := Without(t.used[e.peer], e) + [e]])
  }

  /** An entry of a peer that no longer has the MAC becomes free. */
  function Release(t: Table, e: Entry): Table
    requires e.peer in t.used && e.peer in t.free && e in t.mac
  {
    t.(tree := t.tree - {t.mac[e]}, used := t.used[e.peer := Without(t.used[e.peer], e)],
       free := t.free[e.peer := t.free[e.peer] + [e]])
  }

  /** The first free entry, or else the oldest used one, is given the MAC. */
  function Claim(t: Table, p: Peer, m: Mac): Table
    requires p in t.used && p in t.free && (t.free[p] == [] ==> t.used[p] != [] && t.used[p][0] in t.mac)
  {
    if t.free[p] != [] then
      var e := t.free[p][0];
      t.(tree := t.tree[m := e], used := t.used[p := t.used[p] + [e]], free := t.free[p := t.free[p][1..]],
         mac := t.mac[e := m])
    else
      var e := t.used[p][0];
      t.(tree := (t.tree - {t.mac[e]})[m := e], used := t.used[p := t.used[p][1..] + [e]], mac := t.mac[e := m])
  }

  ghost predicate RefinesLearn(t: Table, t': Table, p: Peer, m: Mac, max: nat)
    requires max > 0 && Inv(t, max)
  {
    Inv(t', max) && Recency(t', max) == Learn(Recency(t, max), p, m, max)
  }

  // refreshing

  lemma RefreshInv(t: Table, m: Mac, max: nat)
    requires Inv(t, max) && m in t.tree
    ensures NodeOk(t, m) && Inv(Refresh(t, t.tree[m]), max)
  {
    hide PoolOk, Without;
    var e := t.tree[m];
    NodeFacts(t, m, max);
    PeerFacts(t, e.peer, max);
    PoolRefresh(t.used[e.peer], t.free[e.peer], e.peer, max, e);
    var r := Refresh(t, e);
    forall p | p in r.used && p in r.free ensures PeerOk(r, p, max) { assert PeerOk(t, p, max); }
    forall k | k in r.tree ensures NodeOk(r, k) { assert NodeOk(t, k); }
  }

  lemma OnlyOwnerHas(t: Table, m: Mac, q: Peer, max: nat)
    requires Inv(t, max) && q in t.used && !(m in t.tree && t.tree[m].peer == q)
    ensures m !in PeerMacs(t, q, max) && Without(PeerMacs(t, q, max), m) == PeerMacs(t, q, max)
  {
    hide Inv, PeerMacs;
    LookupIsOwner(t, q, m, max);
  }

  lemma RefreshMine(t: Table, m: Mac, max: nat)
    requires Inv(t, max) && max > 0 && m in t.tree && NodeOk(t, m) && Inv(Refresh(t, t.tree[m]), max)
    ensures var p := t.tree[m].peer; PeerMacs(Refresh(t, t.tree[m]), p, max) == Touch(PeerMacs(t, p, max), m, max)
  {
    hide Inv, Without, Touch, Keys, Keyed;
    PeerFacts(t, t.tree[m].peer, max);
    RefreshTouches(t.used[t.tree[m].peer], t.mac, t.tree[m], max);
  }

  lemma RefreshOther(t: Table, m: Mac, q: Peer, max: nat)
    requires Inv(t, max) && m in t.tree && NodeOk(t, m) && Inv(Refresh(t, t.tree[m]), max)
    requires q in t.used && q != t.tree[m].peer
    ensures PeerMacs(Refresh(t, t.tree[m]), q, max) == PeerMacs(t, q, max)
  {
  }

  lemma RefreshOk(t: Table, m: Mac, max: nat)
    requires Inv(t, max) && max > 0 && m in t.tree
    ensures NodeOk(t, m) && RefinesLearn(t, Refresh(t, t.tree[m]), t.tree[m].peer, m, max)
  {
    hide Inv, Without, Touch, PeerMacs;
    RefreshInv(t, m, max);
    var p := t.tree[m].peer;
    forall q | q in t.used
      ensures PeerMacs(Refresh(t, t.tree[m]), q, max)
           == if q == p then Touch(PeerMacs(t, q, max), m, max) else Without(PeerMacs(t, q, max), m)
    {
      if q == p { RefreshMine(t, m, max); } else { RefreshOther(t, m, q, max); OnlyOwnerHas(t, m, q, max); }
    }
  }

  // releasing

  lemma ReleaseInv(t: Table, m: Mac, max: nat)
    requires Inv(t, max) && m in t.tree
    ensures NodeOk(t, m) && t.tree[m].peer in t.free && Inv(Release(t, t.tree[m]), max)
  {
    hide PoolOk, Without;
    var e := t.tree[m];
    NodeFacts(t, m, max);
    PeerFacts(t, e.peer, max);
    PoolRelease(t.used[e.peer], t.free[e.peer], e.peer, max, e);
    var r := Release(t, e);
    forall p | p in r.used && p in r.free ensures PeerOk(r, p, max) {
      assert PeerOk(t, p, max);
      if p != e.peer { PoolPeers(t.used[p], t.free[p], p, max, e); }
    }
    forall k | k in r.tree ensures NodeOk(r, k) { assert NodeOk(t, k); }
  }

  lemma ReleaseOk(t: Table, m: Mac, max: nat)
    requires Inv(t, max) && m in t.tree
    ensures NodeOk(t, m) && t.tree[m].peer in t.free
    ensures var t' := Release(t, t.tree[m]);
            && Inv(t', max) && t'.tree == t.tree - {m} && t'.used.Keys == t.used.Keys
            && (forall q :: q in t.used ==> Recency(t', max)[q] == Without(Recency(t, max)[q], m))
  {
    hide Inv, Without, Keys;
    ReleaseInv(t, m, max);
    var e := t.tree[m];
    var r := Release(t, e);
    forall q | q in t.used ensures PeerMacs(r, q, max) == Without(PeerMacs(t, q, max), m) {
      PeerFacts(t, q, max);
      if q == e.peer { KeysWithout(t.used[q], t.mac, e); } else { OnlyOwnerHas(t, m, q, max); }
    }
  }

  // claiming

  lemma ClaimInv(t: Table, p: Peer, m: Mac, max: nat)
    requires Inv(t, max) && max > 0 && m !in t.tree && p in t.used
    ensures p in t.free && (t.free[p] == [] ==> t.used[p] != [] && t.used[p][0] in t.mac)
    ensures Inv(Claim(t, p, m), max)
  {
    PeerFacts(t, p, max);
    if t.free[p] != [] { TakeFreeInv(t, p, m, max); } else { RecycleInv(t, p, m, max); }
  }

  lemma TakeFreeInv(t: Table, p: Peer, m: Mac, max: nat)
    requires Inv(t, max) && m !in t.tree && p in t.used && p in t.free && t.free[p] != []
    ensures Inv(Claim(t, p, m), max)
  {
    hide PoolOk, Without;
    PeerFacts(t, p, max);
    PoolTakeFree(t.used[p], t.free[p], p, max);
    var r, e := Claim(t, p, m), t.free[p][0];
    forall q | q in r.used && q in r.free
      ensures PeerOk(r, q, max)
    {
      assert PeerOk(t, q, max);
      assert e !in t.used[q];
    }
    forall k | k in r.tree ensures NodeOk(r, k) { if k != m { assert NodeOk(t, k); } }
  }

  lemma RecycleInv(t: Table, p: Peer, m: Mac, max: nat)
    requires Inv(t, max) && max > 0 && m !in t.tree && p in t.used && p in t.free && t.free[p] == []
    ensures t.used[p] != [] && t.used[p][0] in t.mac && Inv(Claim(t, p, m), max)
  {
    hide PoolOk, Without;
    PeerFacts(t, p, max);
    PoolRecycle(t.used[p], t.free[p], p, max);
    var r, e := Claim(t, p, m), t.used[p][0];
    forall q | q in r.used && q in r.free ensures PeerOk(r, q, max) { assert PeerOk(t, q, max); }
    forall k | k in r.tree ensures NodeOk(r, k) { if k != m { assert NodeOk(t, k); } }
  }

  lemma ClaimOther(t: Table, p: Peer, m: Mac, q: Peer, max: nat)
    requires Inv(t, max) && max > 0 && m !in t.tree && p in t.used && q in t.used && q != p
    requires p in t.free && (t.free[p] == [] ==> t.used[p] != [] && t.used[p][0] in t.mac) && Inv(Claim(t, p, m), max)
    ensures PeerMacs(Claim(t, p, m), q, max) == PeerMacs(t, q, max)
  {
    hide Inv, Without, Keys, Keyed;
    PeerFacts(t, p, max);
    PeerFacts(t, q, max);
    KeysSame(t.used[q], t.mac, Claim(t, p, m).mac);
  }

  lemma ClaimMine(t: Table, p: Peer, m: Mac, max: nat)
    requires Inv(t, max) && max > 0 && m !in t.tree && p in t.used
    requires p in t.free && (t.free[p] == [] ==> t.used[p] != [] && t.used[p][0] in t.mac) && Inv(Claim(t, p, m), max)
    ensures PeerMacs(Claim(t, p, m), p, max) == Touch(PeerMacs(t, p, max), m, max)
  {
    hide Inv, Without, Keys, Keyed, Touch, PoolOk;
    PeerFacts(t, p, max);
    OnlyOwnerHas(t, m, p, max);
    if t.free[p] != [] {
      PoolTakeFree(t.used[p], t.free[p], p, max);
      ClaimTouches(t.used[p], t.mac, t.free[p][0], m, max);
    } else {
      PoolRecycle(t.used[p], t.free[p], p, max);
      ClaimTouches(t.used[p], t.mac, t.used[p][0], m, max);
    }
  }

  lemma ClaimOk(t: Table, p: Peer, m: Mac, max: nat)
    requires Inv(t, max) && max > 0 && m !in t.tree && p in t.used
    ensures p in t.free && (t.free[p] == [] ==> t.used[p] != [] && t.used[p][0] in t.mac)
    ensures RefinesLearn(t, Claim(t, p, m), p, m, max)
  {
    hide Inv, Without, Touch, PeerMacs;
    ClaimInv(t, p, m, max);
    var r := Claim(t, p, m);
    forall q | q in t.used
      ensures PeerMacs(r, q, max) ==
              if q == p then Touch(PeerMacs(t, q, max), m, max) else Without(PeerMacs(t, q, max), m)
    {
      OnlyOwnerHas(t, m, q, max);
      if q == p { ClaimMine(t, p, m, max); } else { ClaimOther(t, p, m, q, max); }
    }
  }

  // ------------------------------------------------------------------ whole runs

  /** add_mac_to_peer */
  ghost function AddMac(t: Table, p: Peer, m: Mac, max: nat): (r: Table)
    requires Inv(t, max) && max > 0 && p in t.used
    ensures RefinesLearn(t, r, p, m, max)
  {
    AddMacOk(t, p, m, max);
    if m !in t.tree then Claim(t, p, m)
    else if t.tree[m].peer == p then Refresh(t, t.tree[m])
    else Claim(Release(t, t.tree[m]), p, m)
  }

  lemma AddMacOk(t: Table, p: Peer, m: Mac, max: nat)
    requires Inv(t, max) && max > 0 && p in t.used
    ensures m !in t.tree ==> p in t.free && (t.free[p] == [] ==> t.used[p] != [] && t.used[p][0] in t.mac)
    ensures m !in t.tree ==> RefinesLearn(t, Claim(t, p, m), p, m, max)
    ensures m in t.tree ==> NodeOk(t, m) && t.tree[m].peer in t.free
    ensures m in t.tree && t.tree[m].peer == p ==> RefinesLearn(t, Refresh(t, t.tree[m]), p, m, max)
    ensures m in t.tree && t.tree[m].peer != p ==>
              var t1 := Release(t, t.tree[m]);
              && p in t1.used && p in t1.free && (t1.free[p] == [] ==> t1.used[p] != [] && t1.used[p][0] in t1.mac)
              && RefinesLearn(t, Claim(t1, p, m), p, m, max)
  {
    hide Inv, Without, Touch, PeerMacs, Recency, Claim, Refresh, Release, NodeOk;
    if m !in t.tree {
      ClaimOk(t, p, m, max);
    } else {
      ReleaseOk(t, m, max);
      if t.tree[m].peer == p { RefreshOk(t, m, max); } else { StealOk(t, p, m, max); }
    }
  }

  /** Taking the MAC from its owner and giving it to `p` is one step of the simple model. */
  lemma StealOk(t: Table, p: Peer, m: Mac, max: nat)
    requires Inv(t, max) && max > 0 && p in t.used && m in t.tree && NodeOk(t, m) && t.tree[m].peer != p
    requires t.tree[m].peer in t.free
    ensures var t1 := Release(t, t.tree[m]);
            && p in t1.used && p in t1.free && (t1.free[p] == [] ==> t1.used[p] != [] && t1.used[p][0] in t1.mac)
            && RefinesLearn(t, Claim(t1, p, m), p, m, max)
  {
    hide Inv, Without, Touch, PeerMacs, Claim, Release;
    ReleaseOk(t, m, max);
    var t1 := Release(t, t.tree[m]);
    ClaimOk(t1, p, m, max);
    RecencyKeys(t, max);
    RecencyKeys(t1, max);
    forall q | q in t.used
      ensures Learn(Recency(t1, max), p, m, max)[q] == Learn(Recency(t, max), p, m, max)[q]
    {
      TouchTwice(Recency(t, max)[q], m, max);
    }
  }

  lemma RecencyKeys(t: Table, max: nat)
    requires Inv(t, max)
    ensures Recency(t, max).Keys == t.used.Keys
    ensures forall q :: q in t.used ==> Distinct(Recency(t, max)[q]) && |Recency(t, max)[q]| <= max
  {
    hide Without;
    forall q | q in t.used ensures Distinct(PeerMacs(t, q, max)) && |PeerMacs(t, q, max)| <= max {
      PeerFacts(t, q, max);
    }
  }

  lemma TouchTwice(s: seq<Mac>, m: Mac, max: nat)
    requires max > 0 && Distinct(s)
    ensures Touch(Without(s, m), m, max) == Touch(s, m, max) && Without(Without(s, m), m) == Without(s, m)
  {
    hide Without;
  }

  /** FrameDeciderPeer_Init and FrameDeciderPeer_Free */
  function AddPeer(t: Table, p: Peer, max: nat): Table {
    t.(used := t.used[p := []], free := t.free[p := FreshEntries(p, max)])
  }

  function DropPeer(t: Table, p: Peer): Table {
    t.(tree := map m | m in t.tree && t.tree[m].peer != p :: t.tree[m], used := t.used - {p}, free := t.free - {p})
  }

  lemma AddPeerOk(t: Table, p: Peer, max: nat)
    requires Inv(t, max) && p !in t.used
    ensures Inv(AddPeer(t, p, max), max)
    ensures Recency(AddPeer(t, p, max), max) == Recency(t, max)[p := []]
  {
    hide PoolOk, FreshEntries;
    FreshPool(p, max);
    var r := AddPeer(t, p, max);
    forall q | q in r.used && q in r.free ensures PeerOk(r, q, max) { if q != p { assert PeerOk(t, q, max); } }
    forall k | k in r.tree ensures NodeOk(r, k) { assert NodeOk(t, k); }
  }

  lemma DropPeerOk(t: Table, p: Peer, max: nat)
    requires Inv(t, max)
    ensures Inv(DropPeer(t, p), max)
    ensures Recency(DropPeer(t, p), max) == Recency(t, max) - {p}
  {
    hide PoolOk;
    var r := DropPeer(t, p);
    forall q | q in r.used && q in r.free ensures PeerOk(r, q, max) {
      assert PeerOk(t, q, max);
      forall e | e in r.used[q] ensures e.peer == q { PoolMember(t.used[q], t.free[q], q, max, e); }
    }
    forall k | k in r.tree ensures NodeOk(r, k) { assert NodeOk(t, k); }
  }

  datatype Event = Joined(peer: Peer) | Left(peer: Peer) | Seen(peer: Peer, mac: Mac)

  /** What the callers of the source keep to: a peer that joins is new, and only present peers are heard from. */
  predicate Allowed(t: Table, ev: Event) {
    ev.Joined? <==> ev.peer !in t.used
  }

  ghost function Handle(t: Table, ev: Event, max: nat): (r: Table)
    requires max > 0 && Inv(t, max) && Allowed(t, ev)
    ensures Inv(r, max)
  {
    match ev
    case Joined(p) => AddPeerOk(t, p, max); AddPeer(t, p, max)
    case Left(p) => DropPeerOk(t, p, max); DropPeer(t, p)
    case Seen(p, m) => AddMac(t, p, m, max)
  }

  /** A run from the empty cache; events that may not happen in the state they meet are skipped. */
  ghost function Run(events: seq<Event>, max: nat): (r: Table)
    requires max > 0
    ensures Inv(r, max)
  {
    if events == [] then EMPTY else
      var t := Run(events[..|events| - 1], max);
      var ev := events[|events| - 1];
      if Allowed(t, ev) then Handle(t, ev, max) else t
  }

  ghost predicate IsRun(events: seq<Event>, max: nat)
    requires max > 0
  {
    events != [] ==>
      var init := events[..|events| - 1];
      IsRun(init, max) && Allowed(Run(init, max), events[|events| - 1])
  }

  /** The peer `m` was last seen from, if it is still there. */
  function LastSeen(events: seq<Event>, m: Mac): Option<Peer> {
    if events == [] then None else
      var before := LastSeen(events[..|events| - 1], m);
      match events[|events| - 1]
      case Joined(_) => before
      case Left(p) => if before == Some(p) then None else before
      case Seen(p, m') => if m' == m then Some(p) else before
  }

  /** The other MACs `p` was seen with since `m` was last seen. */
  function SeenSince(events: seq<Event>, p: Peer, m: Mac): set<Mac> {
    if events == [] then {} else
      var before := SeenSince(events[..|events| - 1], p, m);
      match events[|events| - 1]
      case Seen(q, m') => if m' == m then {} else if q == p then before + {m'} else before
      case _ => before
  }

  /** If `p` lists `m`, it was the last to be seen with it, and what it lists as newer it was seen with since. */
  ghost predicate Listed(rec: map<Peer, seq<Mac>>, p: Peer, m: Mac, last: Option<Peer>, since: set<Mac>) {
    p in rec && m in rec[p] ==> last == Some(p) && forall x :: x in Newer(rec[p], m) ==> x in since
  }

  /** If `p` was the last to be seen with `m`, it lists `m` unless it was seen with `max` others since. */
  ghost predicate Kept(rec: map<Peer, seq<Mac>>, p: Peer, m: Mac, last: Option<Peer>, since: set<Mac>, max: nat) {
    last == Some(p) ==> p in rec && (m in rec[p] || |since| >= max)
  }

  /** One more frame seen by the cache. */
  lemma SeenStep(rec: map<Peer, seq<Mac>>, q: Peer, k: Mac, p: Peer, m: Mac, last: Option<Peer>, since: set<Mac>,
                 max: nat)
    requires max > 0 && q in rec && Listed(rec, p, m, last, since) && Kept(rec, p, m, last, since, max)
    requires p in rec ==> Distinct(rec[p]) && |rec[p]| <= max
    ensures var rec', last' := Learn(rec, q, k, max), if k == m then Some(q) else last;
            var since' := if k == m then {} else if q == p then since + {k} else since;
            Listed(rec', p, m, last', since') && Kept(rec', p, m, last', since', max)
  {
    hide Without, Newer, Touch;
    if p in rec {
      if k == m {
        TouchNewest(rec[p], m, max);
      } else if q == p {
        if m in rec[p] { TouchListed(rec[p], k, m, since, max); } else { TouchMembers(rec[p], k, m, max); }
        SinceGrows(since, k);
      } else if m in rec[p] {
        forall x | x in Newer(Without(rec[p], k), m) ensures x in since { NewerWithout(rec[p], k, m, x); }
      }
    }
  }

  /**
   * Over every run, the cache maps a MAC only to the peer it was last seen from, and does map it there unless that
   * peer was since seen with as many other MACs as it has entries.
   */
  lemma {:induction false} LeastRecentlySeen(events: seq<Event>, p: Peer, m: Mac, max: nat)
    requires max > 0 && IsRun(events, max)
    ensures Listed(Recency(Run(events, max), max), p, m, LastSeen(events, m), SeenSince(events, p, m))
    ensures Kept(Recency(Run(events, max), max), p, m, LastSeen(events, m), SeenSince(events, p, m), max)
  {
    hide Inv, Newer, PeerMacs, Learn;
    if events != [] {
      var init, ev := events[..|events| - 1], events[|events| - 1];
      LeastRecentlySeen(init, p, m, max);
      var t := Run(init, max);
      RecencyKeys(t, max);
      match ev
      case Joined(q) => AddPeerOk(t, q, max);
      case Left(q) => DropPeerOk(t, q, max);
      case Seen(q, k) => SeenStep(Recency(t, max), q, k, p, m, LastSeen(init, m), SeenSince(init, p, m), max);
    }
  }

  /** The same, said of the lookup in the tree. */
  lemma LookupIsLastSeen(events: seq<Event>, p: Peer, m: Mac, max: nat)
    requires max > 0 && IsRun(events, max)
    ensures var t := Run(events, max);
            && (m in t.tree ==> LastSeen(events, m) == Some(t.tree[m].peer))
            && (LastSeen(events, m) == Some(p) && |SeenSince(events, p, m)| < max ==>
                  m in t.tree && t.tree[m].peer == p)
  {
    hide Run, Inv, PeerMacs;
    var t := Run(events, max);
    LeastRecentlySeen(events, p, m, max);
    if p in t.used { LookupIsOwner(t, p, m, max); }
    RecencyKeys(t, max);
    if m in t.tree {
      NodeFacts(t, m, max);
      LookupIsOwner(t, t.tree[m].peer, m, max);
      LeastRecentlySeen(events, t.tree[m].peer, m, max);
    }
  }
}
