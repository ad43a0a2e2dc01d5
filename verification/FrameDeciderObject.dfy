/** The frame decider: what it learns from frames of peers, and where it sends frames of the device. */
module FrameDeciderObject {
  import opened Lists
  import opened RecentSlots
  import MC = MacCache
  import GI = GroupIndex
  import GT = GroupTable
  import GD = GroupDelivery

  type Mac = MC.Mac

  /** What the headers of a frame say. `Report` lists the groups its records join, in order. */
  datatype Body = Plain | IgmpOther | GroupQuery(group: nat) | Report(groups: seq<nat>)
  datatype Frame = Runt | Frame(dest: Mac, source: Mac, body: Body)

  /** The groups a frame reports its sender to be a member of. */
  function Reported(frame: Frame): seq<nat> {
    if frame.Frame? && frame.body.Report? then frame.body.groups else []
  }

  predicate IsFrame(frame: Frame) {
    frame.Frame? ==> |frame.dest| == 6 && |frame.source| == 6
  }

  /** decide_state with the position of its iterator */
  datatype Decision = NoDecision | Unicast(peer: Peer) | Flood(next: Option<Peer>) | Multicast(it: Option<Entry>)

  const BROADCAST: Mac := [0xff, 0xff, 0xff, 0xff, 0xff, 0xff]
  const MULTICAST_HEADER: seq<nat> := [0x01, 0x00, 0x5e]

  // ------------------------------------------------------------------ iterators

  /** The node after `x`. */
  function NextIn<T(==)>(s: seq<T>, x: T): (r: Option<T>)
    ensures r.Some? ==> r.value in s
    ensures r.Some? && Distinct(s) ==> r.value != x
  {
    if s == [] then None
    else if s[0] == x then (if |s| > 1 then Some(s[1]) else None)
    else
      assert s == [s[0]] + s[1..];
      NextIn(s[1..], x)
  }

  function First<T>(s: seq<T>): Option<T> {
    if s == [] then None else Some(s[0])
  }

  /** What is left of a list for an iterator that stands at `at`. */
  function From<T(==)>(s: seq<T>, at: Option<T>): seq<T> {
    if at.None? || s == [] then [] else if s[0] == at.value then s else From(s[1..], at)
  }

  lemma {:induction false} Advance<T(!new)>(s: seq<T>, x: T)
    requires Distinct(s) && x in s
    ensures From(s, Some(x)) != [] && From(s, Some(x))[0] == x
    ensures From(s, NextIn(s, x)) == From(s, Some(x))[1..]
  {
    assert s == [s[0]] + s[1..];
    if s[0] == x {
      if |s| > 1 { assert s[1..][0] == s[1]; assert s[0] != s[1]; }
    } else {
      Advance(s[1..], x);
      var n := NextIn(s, x);
      assert n.Some? ==> n.value != s[0];
    }
  }

  lemma FromFirst<T>(s: seq<T>)
    ensures From(s, First(s)) == s
  {
  }

  /** Unlinking a node, with the iterator that stands at it moving on, takes just that node out of what is left. */
  lemma {:induction false} FromWithout<T(!new)>(s: seq<T>, x: T, e: T)
    requires Distinct(s) && x in s
    ensures From(Without(s, e), if x == e then NextIn(s, e) else Some(x)) == Without(From(s, Some(x)), e)
  {
    assert s == [s[0]] + s[1..] && s[0] !in s[1..];
    if s[0] == x {
      FromFirst(s[1..]);
    } else if s[0] == e {
      FromMembers(s[1..], Some(x));
      assert e !in From(s[1..], Some(x));
    } else {
      FromWithout(s[1..], x, e);
      assert Without(s, e)[1..] == Without(s[1..], e);
    }
  }

  predicate IteratorOk(ix: GI.Index, decide: Decision) {
    decide.Multicast? && decide.it.Some? ==> decide.it.value in ix.entries
  }

  /** The entries a multicast decision has still to visit. */
  ghost function LeftEntries(ix: GI.Index, decide: Decision): seq<Entry>
    requires GI.Inv(ix) && IteratorOk(ix, decide)
  {
    if !decide.Multicast? || decide.it.None? then [] else
      GI.EntryFacts(ix, decide.it.value);
      From(ix.lists[ix.entries[decide.it.value].list], decide.it)
  }

  /** What the calls of NextDestination to come will return. */
  ghost function Upcoming(ix: GI.Index, peers: seq<Peer>, decide: Decision): seq<Peer>
    requires GI.Inv(ix) && IteratorOk(ix, decide)
  {
    match decide
    case NoDecision => []
    case Unicast(p) => [p]
    case Flood(next) => From(peers, next)
    case Multicast(_) => GD.PeersOf(LeftEntries(ix, decide))
  }

  /** What becomes of a decision when `e` is unlinked. */
  function MovedOn(decide: Decision, e: Entry, list: seq<Entry>): Decision {
    if decide == Multicast(Some(e)) then Multicast(NextIn(list, e)) else decide
  }

  lemma RemovedLeft(ix: GI.Index, decide: Decision, e: Entry)
    requires GI.Inv(ix) && IteratorOk(ix, decide) && e in ix.entries && ix.entries[e].list in ix.lists
    requires GI.Inv(GI.RemoveEntry(ix, e))
    ensures var moved := MovedOn(decide, e, ix.lists[ix.entries[e].list]);
            && IteratorOk(GI.RemoveEntry(ix, e), moved)
            && LeftEntries(GI.RemoveEntry(ix, e), moved) == Without(LeftEntries(ix, decide), e)
  {
    hide GI.Inv, GI.RemoveEntry, From, NextIn, Without;
    GI.RemoveEntryLists(ix, e);
    GI.EntryFacts(ix, e);
    NextStays(ix, e);
    NothingWithout(e);
    if decide.Multicast? && decide.it.Some? {
      var x := decide.it.value;
      GI.EntryFacts(ix, x);
      var l := ix.entries[x].list;
      if l == ix.entries[e].list {
        FromWithout(ix.lists[l], x, e);
        var moved := MovedOn(decide, e, ix.lists[l]);
        if moved.it.None? { FromNothing(Without(ix.lists[l], e)); }
      } else {
        FromMembers(ix.lists[l], decide.it);
        assert e !in ix.lists[l] by { if e in ix.lists[l] { GI.ListFacts(ix, l, e); } }
      }
    }
  }

  lemma NothingWithout(e: Entry)
    ensures Without([], e) == []
  {
  }

  /** What is left to visit once `e` was linked in after the master of its group's signature. */
  ghost function LeftAfterAdd(ix: GI.Index, left: seq<Entry>, e: Entry, group: nat): seq<Entry> {
    var sig := GI.SigForGroup(group);
    if sig in ix.tree && ix.tree[sig] in left then GI.InsertAfter(left, ix.tree[sig], e) else left
  }

  /**
   * What is left to visit after a group is reported: nothing moves if it is known; else a free entry is linked in, or
   * the oldest one, which is unlinked first.
   */
  ghost function LeftAfterReport(ix: GI.Index, tree: map<nat, Entry>, free: seq<Entry>, used: seq<Entry>, group: nat,
                                 left: seq<Entry>): seq<Entry>
    requires GI.Inv(ix)
  {
    if group in tree then left
    else if free != [] then LeftAfterAdd(ix, left, free[0], group)
    else if used != [] && used[0] in ix.entries then
      LeftAfterAdd(GI.RemoveEntry(ix, used[0]), Without(left, used[0]), used[0], group)
    else left
  }

  lemma {:induction false} FromInserted(s: seq<Entry>, at: Entry, e: Entry, x: Entry)
    requires Distinct(s) && at in s && x in s && e !in s
    ensures var left := From(s, Some(x));
            From(GI.InsertAfter(s, at, e), Some(x)) == if at in left then GI.InsertAfter(left, at, e) else left
  {
    assert s == [s[0]] + s[1..] && s[0] !in s[1..];
    if s[0] != x {
      FromMembers(s[1..], Some(x));
      if s[0] == at {
        assert ([s[0], e] + s[1..])[1..] == [e] + s[1..] && ([e] + s[1..])[1..] == s[1..];
      } else {
        FromInserted(s[1..], at, e, x);
        assert ([s[0]] + GI.InsertAfter(s[1..], at, e))[1..] == GI.InsertAfter(s[1..], at, e);
      }
    }
  }

  /** Linking in an entry adds it to what is left to visit, if the master it follows is still to be visited. */
  lemma AddedLeft(ix: GI.Index, decide: Decision, e: Entry, group: nat, endTime: int)
    requires GI.Inv(ix) && IteratorOk(ix, decide) && e !in ix.entries
    requires GI.Inv(GI.AddEntry(ix, e, group, endTime))
    ensures var r := GI.AddEntry(ix, e, group, endTime);
            IteratorOk(r, decide) && LeftEntries(r, decide) == LeftAfterAdd(ix, LeftEntries(ix, decide), e, group)
  {
    hide GI.Inv, GI.AddEntry, GI.SigForGroup, GI.InsertAfter, From;
    GI.AddEntryLists(ix, e, group, endTime);
    var sig := GI.SigForGroup(group);
    if sig in ix.tree { GI.MasterFacts(ix, sig); }
    if decide.Multicast? && decide.it.Some? {
      var x := decide.it.value;
      GI.EntryFacts(ix, x);
      var l := ix.entries[x].list;
      FromMembers(ix.lists[l], decide.it);
      if sig in ix.tree && l == sig {
        assert e !in ix.lists[l] by { if e in ix.lists[l] { GI.ListFacts(ix, l, e); } }
        FromInserted(ix.lists[l], ix.tree[sig], e, x);
      } else if sig in ix.tree && ix.tree[sig] in ix.lists[l] {
        GI.ListFacts(ix, l, ix.tree[sig]);
      }
    }
  }

  lemma RenewedLeft(ix: GI.Index, decide: Decision, e: Entry, endTime: int)
    requires GI.Inv(ix) && IteratorOk(ix, decide) && e in ix.entries && GI.Inv(GI.SetEndTime(ix, e, endTime))
    ensures var r := GI.SetEndTime(ix, e, endTime);
            IteratorOk(r, decide) && LeftEntries(r, decide) == LeftEntries(ix, decide)
  {
    hide GI.Inv, From;
  }

  /** Destinations other than the peer whose entry comes or goes stay as they are. */
  lemma {:induction false} OthersInserted(left: seq<Entry>, at: Entry, e: Entry)
    ensures Excluding(GD.PeersOf(GI.InsertAfter(left, at, e)), {e.peer}) == Excluding(GD.PeersOf(left), {e.peer})
  {
    hide GD.PeersOf;
    if left != [] {
      var r := GI.InsertAfter(left, at, e);
      PeersTail(left);
      PeersTail(r);
      if left[0] == at {
        PeersTail(r[1..]);
        assert r[1..][1..] == left[1..];
      } else {
        OthersInserted(left[1..], at, e);
      }
    }
  }

  lemma {:induction false} OthersWithout(left: seq<Entry>, e: Entry)
    ensures Excluding(GD.PeersOf(Without(left, e)), {e.peer}) == Excluding(GD.PeersOf(left), {e.peer})
  {
    hide GD.PeersOf;
    if left != [] {
      PeersTail(left);
      if left[0] != e {
        PeersTail(Without(left, e));
        OthersWithout(left[1..], e);
      }
    }
  }

  lemma OthersAfterAdd(ix: GI.Index, left: seq<Entry>, e: Entry, group: nat)
    ensures Excluding(GD.PeersOf(LeftAfterAdd(ix, left, e, group)), {e.peer}) == Excluding(GD.PeersOf(left), {e.peer})
  {
    hide GI.InsertAfter, GD.PeersOf, Excluding, GI.SigForGroup;
    var sig := GI.SigForGroup(group);
    if sig in ix.tree && ix.tree[sig] in left { OthersInserted(left, ix.tree[sig], e); }
  }

  /** A report changes nothing about the destinations to come but, at most, how often its sender is among them. */
  lemma OthersAfterReport(ix: GI.Index, tree: map<nat, Entry>, free: seq<Entry>, used: seq<Entry>, group: nat,
                          left: seq<Entry>, p: Peer)
    requires GI.Inv(ix) && (free != [] ==> free[0].peer == p) && (used != [] ==> used[0].peer == p)
    ensures Excluding(GD.PeersOf(LeftAfterReport(ix, tree, free, used, group, left)), {p}) ==
            Excluding(GD.PeersOf(left), {p})
  {
    hide GI.Inv, GI.RemoveEntry, GD.PeersOf, Excluding, Without, LeftAfterAdd;
    if free != [] {
      OthersAfterAdd(ix, left, free[0], group);
    } else if used != [] && used[0] in ix.entries {
      OthersWithout(left, used[0]);
      OthersAfterAdd(GI.RemoveEntry(ix, used[0]), Without(left, used[0]), used[0], group);
    }
  }

  /** Where a frame of the device goes. */
  ghost function Destinations(ix: GI.Index, macs: MC.Table, peers: seq<Peer>, frame: Frame): seq<Peer>
    requires GI.Inv(ix) && IsFrame(frame)
  {
    if frame.Runt? then []
    else if !frame.body.Plain? || frame.dest == BROADCAST then peers
    else if frame.dest[..3] == MULTICAST_HEADER then GD.PeersOf(GI.Followers(ix, GI.SigForMac(frame.dest)))
    else if frame.dest in macs.tree then [macs.tree[frame.dest].peer]
    else peers
  }

  /**
   * A frame that is not IGMP, sent to the MAC of a group, goes to each peer once per group it has with that signature.
   */
  lemma GroupFrameDestinations(ix: GI.Index, macs: MC.Table, peers: seq<Peer>, t: GT.Table, max: nat, frame: Frame,
                               g: nat, p: Peer)
    requires GI.Inv(ix) && GT.Inv(t, max) && t.mem == GI.Members(ix) && IsFrame(frame)
    requires frame.Frame? && frame.body.Plain? && frame.dest == GI.MacOfGroup(g)
    ensures GD.Occurrences(Destinations(ix, macs, peers, frame), p)
         == if p in t.used then GD.Matching(GT.PeerGroups(t, p, max), GI.SigForGroup(g)) else 0
  {
    hide GI.Inv, GT.Inv, GI.Followers, GI.SigForGroup, GI.SigForMac, GT.PeerGroups, GD.PeersOf;
    assert frame.dest[0] == 0x01 && frame.dest[1] == 0x00 && frame.dest[2] == 0x5e;
    assert frame.dest[..3] == MULTICAST_HEADER;
    assert frame.dest != BROADCAST by { assert BROADCAST[0] == 0xff; }
    GD.DeliveredPerMembership(ix, t, max, g, p);
  }

  class FrameDecider {
    const maxMacs: nat
    const maxGroups: nat
    const membershipInterval: int
    const lastMemberQueryTime: int
    var peers: seq<Peer>
    var macs: MC.Table
    var ix: GI.Index
    var used: map<Peer, seq<Entry>>
    var free: map<Peer, seq<Entry>>
    var trees: map<Peer, map<nat, Entry>>
    var decide: Decision

    ghost function Groups(): GT.Table
      reads this`ix, this`used, this`free, this`trees
    {
      GT.Table(GI.Members(ix), used, free, trees)
    }

    ghost predicate DecisionOk()
      reads this`decide, this`peers, this`ix
    {
      match decide
      case NoDecision => true
      case Unicast(p) => p in peers
      case Flood(next) => next.Some? ==> next.value in peers
      case Multicast(it) => it.Some? ==> it.value in ix.entries
    }

    ghost predicate PeersOk()
      reads this`peers, this`macs, this`used
    {
      && Distinct(peers) && macs.used.Keys == used.Keys
      && (forall p :: p in peers <==> p in used)
    }

    ghost predicate Valid()
      reads this
    {
      && maxMacs > 0 && maxGroups > 0
      && MC.Inv(macs, maxMacs) && GI.Inv(ix) && GT.Inv(Groups(), maxGroups)
      && PeersOk() && DecisionOk()
    }

    /** What the calls of NextDestination to come will return. */
    ghost function Remaining(): seq<Peer>
      requires Valid()
      reads this
    {
      Upcoming(ix, peers, decide)
    }

    constructor (maxMacs: nat, maxGroups: nat, membershipInterval: int, lastMemberQueryTime: int)
      requires maxMacs > 0 && maxGroups > 0
      ensures Valid() && this.maxMacs == maxMacs && this.maxGroups == maxGroups
      ensures this.membershipInterval == membershipInterval && this.lastMemberQueryTime == lastMemberQueryTime
      ensures peers == [] && macs == MC.EMPTY && ix == GI.EMPTY && decide == NoDecision
    {
      this.maxMacs := maxMacs;
      this.maxGroups := maxGroups;
      this.membershipInterval := membershipInterval;
      this.lastMemberQueryTime := lastMemberQueryTime;
      peers := [];
      macs := MC.EMPTY;
      ix := GI.EMPTY;
      used := map[];
      free := map[];
      trees := map[];
      decide := NoDecision;
    }

    // ---------------------------------------------------------------- MAC addresses

    /** An entry is acquired for a MAC no peer has: a free one, or else the oldest used one. */
    method AcquireMacEntry(p: Peer, m: Mac)
      requires p in macs.used && p in macs.free
      requires macs.free[p] == [] ==> macs.used[p] != [] && macs.used[p][0] in macs.mac
      modifies this`macs
      ensures macs == MC.Claim(old(macs), p, m)
    {
      var entry: Entry;
      if macs.free[p] != [] {
        entry := macs.free[p][0];
        macs := macs.(free := macs.free[p := macs.free[p][1..]]);
      } else {
        entry := macs.used[p][0];
        macs := macs.(tree := macs.tree - {macs.mac[entry]});
        macs := macs.(used := macs.used[p := macs.used[p][1..]]);
      }
      macs := macs.(mac := macs.mac[entry := m]);
      macs := macs.(used := macs.used[p := macs.used[p] + [entry]]);
      macs := macs.(tree := macs.tree[m := entry]);
    }

    /** A MAC is taken from the peer that has it. */
    method DisassociateMac(e: Entry)
      requires e.peer in macs.used && e.peer in macs.free && e in macs.mac
      modifies this`macs
      ensures macs == MC.Release(old(macs), e)
    {
      macs := macs.(tree := macs.tree - {macs.mac[e]});
      macs := macs.(used := macs.used[e.peer := Without(macs.used[e.peer], e)]);
      macs := macs.(free := macs.free[e.peer := macs.free[e.peer] + [e]]);
    }

    /** add_mac_to_peer */
    method AddMacToPeer(p: Peer, m: Mac)
      requires Valid() && p in peers
      modifies this`macs
      ensures Valid() && MC.RefinesLearn(old(macs), macs, p, m, maxMacs)
    {
      hide MC.Inv, GI.Inv, GT.Inv, MC.Recency, MC.Learn, Without, MC.Release, MC.Claim, DecisionOk, Groups;
      MC.AddMacOk(macs, p, m, maxMacs);
      if m in macs.tree {
        var e := macs.tree[m];
        if e.peer == p {
          macs := macs.(used := macs.used[p := Without(macs.used[p], e)]);
          macs := macs.(used := macs.used[p := macs.used[p] + [e]]);
          assert macs == MC.Refresh(old(macs), e);
          RecencyPeers(old(macs), macs, p, m, maxMacs);
          return;
        }
        DisassociateMac(e);
      }
      AcquireMacEntry(p, m);
      RecencyPeers(old(macs), macs, p, m, maxMacs);
    }

    // ---------------------------------------------------------------- groups

    /** add_to_multicast */
    method AddToMulticast(e: Entry, group: nat, endTime: int)
      requires GI.Inv(ix) && e !in ix.entries && DecisionOk()
      modifies this`ix
      ensures GI.Inv(ix) && ix == GI.AddEntry(old(ix), e, group, endTime) && DecisionOk()
      ensures GI.Members(ix) == GI.Members(old(ix))[e := GI.Member(group, endTime)]
      ensures IteratorOk(old(ix), decide) && IteratorOk(ix, decide)
      ensures LeftEntries(ix, decide) == LeftAfterAdd(old(ix), LeftEntries(old(ix), decide), e, group)
    {
      hide GI.Inv, GI.SigForGroup, GI.Members, GI.InsertAfter, LeftEntries, LeftAfterAdd;
      GI.AddEntryInv(ix, e, group, endTime);
      AddedLeft(ix, decide, e, group, endTime);
      GI.AddEntryMembers(ix, e, group, endTime);
      var sig := GI.SigForGroup(group);
      if sig in ix.tree {
        var master := ix.tree[sig];
        GI.MasterFacts(ix, sig);
        assert ix.entries[master].isMaster;
        var l := ix.entries[master].list;
        ix := ix.(entries := ix.entries[e := GI.EntryState(group, false, l, endTime)]);
        ix := ix.(lists := ix.lists[l := GI.InsertAfter(ix.lists[l], master, e)]);
      } else {
        ix := ix.(entries := ix.entries[e := GI.EntryState(group, true, sig, endTime)]);
        ix := ix.(tree := ix.tree[sig := e]);
        ix := ix.(lists := ix.lists[sig := [e]]);
      }
    }

    /** Freeing a list node first moves the iterators that stand at it. */
    method FreeListNode(e: Entry)
      requires e in ix.entries && ix.entries[e].list in ix.lists
      modifies this`ix, this`decide
      ensures ix == GI.Unlink(old(ix), e)
      ensures decide == MovedOn(old(decide), e, old(ix.lists[ix.entries[e].list]))
    {
      var l := ix.entries[e].list;
      if decide == Multicast(Some(e)) {
        decide := Multicast(NextIn(ix.lists[l], e));
      }
      var rest := Without(ix.lists[l], e);
      ix := ix.(entries := ix.entries - {e}, lists := if rest == [] then ix.lists - {l} else ix.lists[l := rest]);
    }

    /** remove_from_multicast */
    method RemoveFromMulticast(e: Entry)
      requires GI.Inv(ix) && e in ix.entries && DecisionOk()
      modifies this`ix, this`decide
      ensures GI.Inv(ix) && ix == GI.RemoveEntry(old(ix), e) && e !in ix.entries
      ensures GI.Members(ix) == GI.Members(old(ix)) - {e}
      ensures DecisionOk() && (decide.Multicast? <==> old(decide.Multicast?))
      ensures !decide.Multicast? ==> decide == old(decide)
      ensures IteratorOk(old(ix), old(decide)) && IteratorOk(ix, decide)
      ensures LeftEntries(ix, decide) == Without(LeftEntries(old(ix), old(decide)), e)
    {
      hide GI.Inv, GI.SigForGroup, GI.Members, GI.Heir, Without, NextIn, LeftEntries;
      GI.RemoveEntryInv(ix, e);
      GI.RemoveEntryMembers(ix, e);
      GI.EntryFacts(ix, e);
      NextStays(ix, e);
      RemoveKeys(ix, e);
      RemovedLeft(ix, decide, e);
      ghost var ix0 := ix;
      if ix.entries[e].isMaster {
        var sig := GI.SigForGroup(ix.entries[e].group);
        ix := ix.(tree := ix.tree - {sig});
        if |ix.lists[ix.entries[e].list]| > 1 {
          HeirFacts(ix0, e);
          var heir := GI.NextOrPrev(ix.lists[ix.entries[e].list], e);
          assert !ix.entries[heir].isMaster;
          ix := ix.(entries := ix.entries[e := ix.entries[e].(isMaster := false)]);
          ix := ix.(entries := ix.entries[heir := ix.entries[heir].(isMaster := true)]);
          ix := ix.(tree := ix.tree[sig := heir]);
          assert (ix0.tree - {sig})[sig := heir] == ix0.tree[sig := heir];
        }
      }
      FreeListNode(e);
    }

    /** The entry of a group reported again becomes the newest of its peer. */
    method RenewEntry(e: Entry, endTime: int)
      requires e.peer in used && GI.Inv(ix) && e in ix.entries && DecisionOk()
      modifies this`ix, this`used
      ensures GI.Inv(ix) && DecisionOk() && Groups() == GT.Renew(old(Groups()), e, endTime)
      ensures IteratorOk(old(ix), decide) && IteratorOk(ix, decide)
      ensures LeftEntries(ix, decide) == LeftEntries(old(ix), decide)
    {
      hide GI.Inv, Without, LeftEntries;
      GI.SetEndTimeInv(ix, e, endTime);
      RenewedLeft(ix, decide, e, endTime);
      GI.SetEndTimeMembers(ix, e, endTime);
      used := used[e.peer := Without(used[e.peer], e)];
      used := used[e.peer := used[e.peer] + [e]];
      ix := GI.SetEndTime(ix, e, endTime);
    }

    /** A free entry is given the group. */
    method ClaimFreeEntry(p: Peer, group: nat, endTime: int)
      requires p in used && p in free && p in trees && free[p] != [] && free[p][0] !in ix.entries
      requires GI.Inv(ix) && DecisionOk()
      modifies this`ix, this`used, this`free, this`trees
      ensures GI.Inv(ix) && DecisionOk() && Groups() == GT.TakeFree(old(Groups()), p, group, endTime)
      ensures IteratorOk(old(ix), decide) && IteratorOk(ix, decide)
      ensures LeftEntries(ix, decide) == LeftAfterAdd(old(ix), LeftEntries(old(ix), decide), old(free[p][0]), group)
    {
      hide GI.Inv, GI.AddEntry, Without, DecisionOk, GI.Members, LeftEntries, LeftAfterAdd;
      var e := free[p][0];
      free := free[p := free[p][1..]];
      used := used[p := used[p] + [e]];
      var tree: map<nat, Entry> := trees[p][group := e];
      trees := trees[p := tree];
      AddToMulticast(e, group, endTime);
    }

    /** The entry of the group reported longest ago is taken out of the multicast index, the tree and the used list. */
    method VacateOldestEntry(p: Peer) returns (e: Entry)
      requires p in used && p in trees && used[p] != [] && used[p][0] in ix.entries
      requires GI.Inv(ix) && DecisionOk()
      modifies this`ix, this`used, this`trees, this`decide
      ensures GI.Inv(ix) && DecisionOk() && e == old(used[p][0]) && e !in ix.entries
      ensures GI.Members(ix) == GI.Members(old(ix)) - {e} && used == old(used)[p := old(used[p][1..])]
      ensures p in trees && trees == old(trees)[p := trees[p]]
      ensures trees[p] == old(trees[p]) - {old(ix.entries[used[p][0]].group)}
      ensures ix == GI.RemoveEntry(old(ix), e) && IteratorOk(old(ix), old(decide)) && IteratorOk(ix, decide)
      ensures LeftEntries(ix, decide) == Without(LeftEntries(old(ix), old(decide)), e)
      ensures (decide.Multicast? <==> old(decide.Multicast?)) && (!decide.Multicast? ==> decide == old(decide))
    {
      hide GI.Inv, GI.RemoveEntry, DecisionOk, GI.Members, LeftEntries, Without;
      e := used[p][0];
      var oldGroup := ix.entries[e].group;
      RemoveFromMulticast(e);
      var tree: map<nat, Entry> := trees[p] - {oldGroup};
      trees := trees[p := tree];
      used := used[p := used[p][1..]];
    }

    /** The entry of the group reported longest ago is given the group. */
    method ReuseOldestEntry(p: Peer, group: nat, endTime: int)
      requires p in used && p in free && p in trees && used[p] != [] && used[p][0] in ix.entries
      requires GI.Inv(ix) && DecisionOk()
      modifies this`ix, this`used, this`trees, this`decide
      ensures GI.Inv(ix) && DecisionOk() && Groups() == GT.Recycle(old(Groups()), p, group, endTime)
      ensures IteratorOk(old(ix), old(decide)) && IteratorOk(ix, decide)
      ensures var e := old(used[p][0]);
              LeftEntries(ix, decide) == LeftAfterAdd(GI.RemoveEntry(old(ix), e),
                                                      Without(LeftEntries(old(ix), old(decide)), e), e, group)
      ensures (decide.Multicast? <==> old(decide.Multicast?)) && (!decide.Multicast? ==> decide == old(decide))
    {
      hide GI.Inv, GI.AddEntry, GI.RemoveEntry, Without, DecisionOk, GI.Members, LeftEntries, LeftAfterAdd;
      hide GT.Recycle;
      assert used[p][0] in Groups().mem && Groups().mem[used[p][0]].group == ix.entries[used[p][0]].group by {
        MembersKeys(ix);
      }
      RecycleSteps(Groups(), p, group, endTime);
      var e := VacateOldestEntry(p);
      used := used[p := used[p] + [e]];
      var tree: map<nat, Entry> := trees[p][group := e];
      trees := trees[p := tree];
      AddToMulticast(e, group, endTime);
    }

    /** add_group_to_peer */
    method AddGroupToPeer(p: Peer, group: nat, now: int)
      requires Valid() && p in peers
      modifies this`ix, this`used, this`free, this`trees, this`decide
      ensures Valid() && GT.RefinesReport(old(Groups()), Groups(), p, group, now + membershipInterval, maxGroups)
      ensures old(p in trees && p in free && p in used)
      ensures IteratorOk(old(ix), old(decide)) && IteratorOk(ix, decide)
      ensures LeftEntries(ix, decide) == LeftAfterReport(old(ix), old(trees[p]), old(free[p]), old(used[p]), group,
                                                         LeftEntries(old(ix), old(decide)))
      ensures Excluding(Remaining(), {p}) == Excluding(old(Remaining()), {p})
      ensures (decide.Multicast? <==> old(decide.Multicast?)) && (!decide.Multicast? ==> decide == old(decide))
    {
      hide GI.Inv, GT.Inv, MC.Inv, Without, DecisionOk, GT.RefinesReport, Distinct;
      hide LeftEntries, LeftAfterAdd, Excluding, GD.PeersOf, GI.RemoveEntry;
      ghost var t := Groups();
      var endTime := now + membershipInterval;
      GT.InvKeys(t, maxGroups);
      MembersKeys(ix);
      HeadsAreOwn(t, p, maxGroups);
      DecisionFacts();
      OthersAfterReport(ix, trees[p], free[p], used[p], group, LeftEntries(ix, decide), p);
      if group in trees[p] {
        var e := trees[p][group];
        TreeEntry(t, p, group, maxGroups);
        GT.RenewOk(t, e, endTime, maxGroups);
        RenewEntry(e, endTime);
      } else if free[p] != [] {
        GT.FreeIsFree(t, p, free[p][0], maxGroups);
        GT.TakeFreeOk(t, p, group, endTime, maxGroups);
        ClaimFreeEntry(p, group, endTime);
      } else {
        GT.RecycleOk(t, p, group, endTime, maxGroups);
        ReuseOldestEntry(p, group, endTime);
      }
      ReportInv(t, Groups(), p, group, endTime, maxGroups);
    }

    /** remove_group_entry */
    method RemoveGroupEntry(e: Entry)
      requires Valid() && e in ix.entries
      modifies this`ix, this`used, this`free, this`trees, this`decide
      ensures old(e.peer in used) && Valid()
      ensures GT.RefinesLeave(old(Groups()), Groups(), e.peer, old(ix.entries[e].group), maxGroups)
      ensures IteratorOk(old(ix), old(decide)) && IteratorOk(ix, decide)
      ensures LeftEntries(ix, decide) == Without(LeftEntries(old(ix), old(decide)), e)
      ensures (decide.Multicast? <==> old(decide.Multicast?)) && (!decide.Multicast? ==> decide == old(decide))
    {
      hide GI.Inv, GT.Inv, MC.Inv, Without, DecisionOk, GT.RefinesLeave, GI.RemoveEntry, LeftEntries;
      ghost var t := Groups();
      var p, group := e.peer, ix.entries[e].group;
      GT.DropOk(t, e, maxGroups);
      RemoveFromMulticast(e);
      var tree: map<nat, Entry> := trees[p] - {group};
      trees := trees[p := tree];
      used := used[p := Without(used[p], e)];
      free := free[p := free[p] + [e]];
      assert Groups() == GT.Drop(t, e);
      LeaveInv(t, Groups(), p, group, maxGroups);
    }

    /** lower_group_timers_to_lmqt */
    method LowerGroupTimers(group: nat, now: int)
      requires Valid()
      modifies this`ix
      ensures Valid()
      ensures Groups() == old(Groups()).(mem := GD.Lowered(old(Groups()).mem,
                                                          GI.Followers(old(ix), GI.SigForGroup(group)), group,
                                                          now + lastMemberQueryTime))
      ensures forall p, h ::
                GT.EndOf(Groups(), p, h) ==
                if h == group then GT.AtMost(GT.EndOf(old(Groups()), p, h), now + lastMemberQueryTime)
                else GT.EndOf(old(Groups()), p, h)
      ensures ix.tree == old(ix.tree) && ix.lists == old(ix.lists)
    {
      hide GI.Inv, GT.Inv, MC.Inv, Without, GI.SigForGroup, GI.Members, GD.Lowered, GI.Followers, GI.SetEndTime;
      var sig, limit := GI.SigForGroup(group), now + lastMemberQueryTime;
      ghost var ix0, mem := ix, GI.Members(ix);
      FollowersList(ix, sig);
      GD.QueryLowersGroup(ix, Groups(), maxGroups, group, limit);
      NothingLowered(mem, group, limit);
      if sig !in ix.tree {
        return;
      }
      var master := ix.tree[sig];
      GI.MasterFacts(ix, sig);
      assert ix.entries[master].isMaster;
      var list, i := ix.lists[ix.entries[master].list], 0;
      while i < |list|
        invariant 0 <= i <= |list|
        invariant GI.Inv(ix) && ix.tree == ix0.tree && ix.lists == ix0.lists && DecisionOk()
        invariant GI.Members(ix) == GD.Lowered(mem, list[..i], group, limit)
      {
        var e := list[i];
        GI.ListFacts(ix, ix0.entries[master].list, e);
        LowerStep(ix, mem, list, i, group, limit);
        if ix.entries[e].group == group && ix.entries[e].endTime > limit {
          SetEndTimeFrame(ix, e, limit);
          ix := GI.SetEndTime(ix, e, limit);
        }
        i := i + 1;
      }
      assert list[..i] == list;
    }

    // ---------------------------------------------------------------- decisions

    /** FrameDecider_AnalyzeAndDecide: no decision is made while an earlier multicast decision is not drained. */
    method AnalyzeAndDecide(frame: Frame, now: int)
      requires Valid() && IsFrame(frame)
      modifies this`ix, this`decide
      ensures Valid()
      ensures old(decide).Multicast? ==> ix == old(ix) && decide == old(decide)
      ensures !old(decide).Multicast? ==> Remaining() == Destinations(old(ix), macs, peers, frame)
      ensures !old(decide).Multicast? && frame.Frame? && frame.body.GroupQuery? ==>
                Groups() == old(Groups()).(mem := GD.Lowered(old(Groups()).mem,
                                                            GI.Followers(old(ix), GI.SigForGroup(frame.body.group)),
                                                            frame.body.group, now + lastMemberQueryTime))
      ensures !(frame.Frame? && frame.body.GroupQuery?) ==> ix == old(ix)
    {
      hide GI.Inv, GT.Inv, MC.Inv, GI.SigForGroup, GI.SigForMac, GI.Members, GD.Lowered, GI.Followers, From, GD.PeersOf;
      if decide.Multicast? {
        return;
      }
      decide := NoDecision;
      if frame.Runt? {
        return;
      }
      if frame.body.GroupQuery? {
        LowerGroupTimers(frame.body.group, now);
      }
      FromFirst(peers);
      if !frame.body.Plain? || frame.dest == BROADCAST {
        decide := Flood(First(peers));
        return;
      }
      if frame.dest[..3] == MULTICAST_HEADER {
        var sig := GI.SigForMac(frame.dest);
        FollowersList(ix, sig);
        if sig in ix.tree {
          var master := ix.tree[sig];
          GI.MasterFacts(ix, sig);
          assert ix.entries[master].isMaster;
          var list := ix.lists[ix.entries[master].list];
          FromFirst(list);
          GI.ListFacts(ix, ix.entries[master].list, list[0]);
          decide := Multicast(First(list));
        } else {
          NoPeers();
        }
        return;
      }
      if frame.dest in macs.tree {
        OwnerIsPeer(macs, frame.dest, maxMacs);
        decide := Unicast(macs.tree[frame.dest].peer);
        return;
      }
      decide := Flood(First(peers));
    }

    /** FrameDecider_NextDestination */
    method NextDestination() returns (r: Option<Peer>)
      requires Valid()
      modifies this`decide
      ensures Valid() && r == First(old(Remaining()))
      ensures r.Some? ==> Remaining() == old(Remaining())[1..]
      ensures r.None? ==> decide == NoDecision
    {
      hide GI.Inv, GT.Inv, MC.Inv, From, NextIn, GD.PeersOf;
      NoPeers();
      match decide
      case NoDecision =>
        r := None;
      case Unicast(p) =>
        decide := NoDecision;
        r := Some(p);
      case Flood(next) =>
        if next.None? {
          FromNothing(peers);
          decide := NoDecision;
          r := None;
        } else {
          Advance(peers, next.value);
          decide := Flood(NextIn(peers, next.value));
          r := next;
        }
      case Multicast(it) =>
        if it.None? {
          decide := NoDecision;
          r := None;
        } else {
          GI.EntryFacts(ix, it.value);
          var list := ix.lists[ix.entries[it.value].list];
          NextStays(ix, it.value);
          Advance(list, it.value);
          FromNothing(list);
          PeersTail(From(list, it));
          decide := Multicast(NextIn(list, it.value));
          r := Some(it.value.peer);
        }
    }

    /** device_dpsource_handler: the frame is routed to every destination; the flag tells whether more follow. */
    method RouteDeviceFrame(frame: Frame, now: int) returns (routed: seq<(Peer, bool)>)
      requires Valid() && IsFrame(frame)
      modifies this`ix, this`decide
      ensures Valid() && decide == NoDecision
      ensures var dests :=
                if old(decide).Multicast? then old(Remaining()) else Destinations(old(ix), macs, peers, frame);
              && |routed| == |dests|
              && (forall i :: 0 <= i < |routed| ==> routed[i] == (dests[i], i + 1 < |dests|))
    {
      hide GI.Inv, GT.Inv, MC.Inv, Destinations, Remaining, DecisionOk, PeersOk, IsFrame;
      AnalyzeAndDecide(frame, now);
      ghost var dests := Remaining();
      routed := [];
      var peer := NextDestination();
      while peer.Some?
        invariant Valid() && |routed| <= |dests|
        invariant peer == First(dests[|routed|..])
        invariant peer.Some? ==> Remaining() == dests[|routed| + 1..]
        invariant peer.None? ==> decide == NoDecision
        invariant forall i :: 0 <= i < |routed| ==> routed[i] == (dests[i], i + 1 < |dests|)
        decreases |dests| - |routed|
      {
        var next := NextDestination();
        routed := routed + [(peer.value, next.Some?)];
        peer := next;
      }
    }

    // ---------------------------------------------------------------- peers

    /** FrameDeciderPeer_Init */
    method PeerInit(p: Peer)
      requires Valid() && p !in peers
      modifies this`peers, this`macs, this`used, this`free, this`trees
      ensures Valid() && peers == old(peers) + [p]
      ensures macs == MC.AddPeer(old(macs), p, maxMacs) && Groups() == GT.AddPeer(old(Groups()), p, maxGroups)
    {
      hide GI.Inv, GT.Inv, MC.Inv, FreshEntries, GI.Members, MC.Recency, GT.SamePeer;
      MC.AddPeerOk(macs, p, maxMacs);
      GT.AddPeerOk(Groups(), p, maxGroups);
      peers := peers + [p];
      var macEntries := InitEntries(p, maxMacs);
      var groupEntries := InitEntries(p, maxGroups);
      macs := macs.(used := macs.used[p := []], free := macs.free[p := macEntries]);
      used := used[p := []];
      free := free[p := groupEntries];
      trees := trees[p := map[]];
    }

    /** The entries of an array are put on the free list one by one. */
    static method InitEntries(p: Peer, max: nat) returns (list: seq<Entry>)
      ensures list == FreshEntries(p, max)
    {
      list := [];
      for i := 0 to max
        invariant list == FreshEntries(p, i)
      {
        list := list + [Entry(p, i)];
      }
    }

    /** All group entries of a peer leave the multicast index. */
    method LeaveAllGroups(p: Peer)
      requires Valid() && p in used
      modifies this`ix, this`decide
      ensures GI.Inv(ix) && DecisionOk()
      ensures GI.Members(ix) == GT.DropPeer(old(Groups()), p).mem
      ensures IteratorOk(old(ix), old(decide)) && IteratorOk(ix, decide)
      ensures LeftEntries(ix, decide) == Excluding(LeftEntries(old(ix), old(decide)), EntrySet(old(used[p])))
      ensures (decide.Multicast? <==> old(decide.Multicast?)) && (!decide.Multicast? ==> decide == old(decide))
    {
      assert IteratorOk(ix, decide);
      hide GI.Inv, GT.Inv, MC.Inv, GI.Members, GI.RemoveEntry, DecisionOk, Minus, GT.DropPeer, PeersOk;
      hide LeftEntries, EntrySet, Excluding, Without;
      ghost var left := LeftEntries(ix, decide);
      LeftDistinct(ix, decide);
      NoneExcluded(left);
      ghost var t := Groups();
      GT.PeerFacts(t, p, maxGroups);
      var list, i := used[p], 0;
      MinusNothing(t.mem);
      while i < |list|
        invariant 0 <= i <= |list| && GI.Inv(ix) && DecisionOk()
        invariant GI.Members(ix) == Minus(t.mem, list[..i])
        invariant IteratorOk(ix, decide) && LeftEntries(ix, decide) == Excluding(left, EntrySet(list[..i]))
        invariant (decide.Multicast? <==> old(decide.Multicast?)) && (!decide.Multicast? ==> decide == old(decide))
      {
        MinusNext(t.mem, list, i);
        GT.UsedInMem(list, t.trees[p], t.mem, list[i]);
        MembersKeys(ix);
        OneMoreExcluded(left, list, i);
        RemoveFromMulticast(list[i]);
        i := i + 1;
      }
      assert list[..i] == list;
      MinusIsDrop(t, p, maxGroups);
    }

    /** All MAC entries of a peer leave the tree. */
    method ForgetMacs(p: Peer)
      requires MC.Inv(macs, maxMacs) && p in macs.used
      modifies this`macs
      ensures macs == old(macs).(tree := MC.DropPeer(old(macs), p).tree)
    {
      hide MC.Inv, MC.DropPeer, Untied;
      ghost var t := macs;
      MC.PeerFacts(macs, p, maxMacs);
      var list, i := macs.used[p], 0;
      UntiedNothing(t.tree);
      while i < |list|
        invariant 0 <= i <= |list| && macs == t.(tree := macs.tree) && macs.tree == Untied(t.tree, list[..i])
      {
        assert list[i] in list;
        UntiedNext(t, list, i, maxMacs);
        macs := macs.(tree := macs.tree - {macs.mac[list[i]]});
        i := i + 1;
      }
      assert list[..i] == list;
      UntiedIsDrop(t, p, maxMacs);
    }

    method RemoveUnicastReference(p: Peer)
      requires DecisionOk()
      modifies this`decide
      ensures DecisionOk() && decide == if old(decide) == Unicast(p) then NoDecision else old(decide)
    {
      if decide == Unicast(p) {
        decide := NoDecision;
      }
    }

    /** The peer leaves the list of peers; a flood that stands at it moves on. */
    method RemoveFromPeers(p: Peer)
      requires DecisionOk() && Distinct(peers) && decide != Unicast(p)
      modifies this`decide, this`peers
      ensures DecisionOk() && peers == Without(old(peers), p) && Distinct(peers) && p !in peers
      ensures forall q :: q != p ==> (q in peers <==> q in old(peers))
      ensures decide.Flood? <==> old(decide).Flood?
      ensures decide.Flood? ==> From(peers, decide.next) == Without(From(old(peers), old(decide).next), p)
      ensures !decide.Flood? ==> decide == old(decide)
    {
      hide Without, NextIn, From;
      if decide.Flood? {
        if decide.next.Some? { FromWithout(peers, decide.next.value, p); }
        NothingLeft(peers, p);
        NothingLeft(Without(peers, p), p);
      }
      if decide == Flood(Some(p)) {
        decide := Flood(NextIn(peers, p));
      }
      peers := Without(peers, p);
    }

    /** The entries of the peer are freed. */
    method FreeEntries(p: Peer, ghost m: MC.Table, ghost t: GT.Table)
      requires macs == m.(tree := MC.DropPeer(m, p).tree)
      requires Groups() == t.(mem := GT.DropPeer(t, p).mem)
      modifies this`macs, this`used, this`free, this`trees
      ensures macs == MC.DropPeer(m, p) && Groups() == GT.DropPeer(t, p)
    {
      used := used - {p};
      free := free - {p};
      trees := trees - {p};
      macs := macs.(used := macs.used - {p}, free := macs.free - {p});
    }

    /** FrameDeciderPeer_Free */
    method PeerFree(p: Peer)
      requires Valid() && p in peers
      modifies this
      ensures Valid() && peers == Without(old(peers), p) && p !in peers
      ensures macs == MC.DropPeer(old(macs), p) && Groups() == GT.DropPeer(old(Groups()), p)
      ensures Remaining() == Excluding(old(Remaining()), {p})
    {
      hide GI.Inv, GT.Inv, MC.Inv, GI.Members, Without, DecisionOk, Distinct, MC.Recency, GT.SamePeer;
      hide LeftEntries, From, Upcoming, EntrySet, Excluding;
      ghost var m, t := macs, Groups();
      MC.DropPeerOk(m, p, maxMacs);
      GT.DropPeerOk(t, p, maxGroups);
      assert IteratorOk(ix, decide) by { DecisionFacts(); }
      LeftOwned(ix, decide, t, p, maxGroups);
      RemoveUnicastReference(p);
      LeaveAllGroups(p);
      ForgetMacs(p);
      RemoveFromPeers(p);
      FreeEntries(p, m, t);
      PeerLeft(p, old(peers), old(ix), old(decide), peers, ix, decide, EntrySet(t.used[p]));
    }

    lemma DecisionFacts()
      requires DecisionOk()
      ensures IteratorOk(ix, decide)
    {
    }

    /** The groups of a report are joined in order. */
    method JoinReported(p: Peer, groups: seq<nat>, now: int)
      requires Valid() && p in peers && p in used
      modifies this`ix, this`used, this`free, this`trees, this`decide
      ensures Valid() && p in used
      ensures GT.PeerGroups(Groups(), p, maxGroups) ==
              TouchAll(old(GT.PeerGroups(Groups(), p, maxGroups)), groups, maxGroups)
      ensures forall q :: q != p ==> GT.SamePeer(old(Groups()), Groups(), q, maxGroups)
      ensures Excluding(Remaining(), {p}) == Excluding(old(Remaining()), {p})
      ensures (decide.Multicast? <==> old(decide.Multicast?)) && (!decide.Multicast? ==> decide == old(decide))
    {
      hide GI.Inv, GT.Inv, MC.Inv, GI.Members, DecisionOk, PeersOk, GT.PeerGroups, TouchAll, Touch, GT.SamePeer;
      hide Excluding, Remaining;
      ghost var t := Groups();
      EveryPeerSame(t, maxGroups);
      TouchNothing(GT.PeerGroups(t, p, maxGroups), maxGroups);
      var i := 0;
      while i < |groups|
        invariant 0 <= i <= |groups| && Valid() && p in used
        invariant GT.PeerGroups(Groups(), p, maxGroups) ==
                  TouchAll(GT.PeerGroups(t, p, maxGroups), groups[..i], maxGroups)
        invariant forall q :: q != p ==> GT.SamePeer(t, Groups(), q, maxGroups)
        invariant Excluding(Remaining(), {p}) == Excluding(old(Remaining()), {p})
        invariant (decide.Multicast? <==> old(decide.Multicast?)) && (!decide.Multicast? ==> decide == old(decide))
      {
        ghost var before := Groups();
        AddGroupToPeer(p, groups[i], now);
        SameTwice(t, before, Groups(), p, maxGroups);
        TouchNext(GT.PeerGroups(t, p, maxGroups), groups, i, maxGroups);
        i := i + 1;
      }
      assert groups[..i] == groups;
    }

    /** FrameDeciderPeer_Analyze: the source MAC is learned, and the reported groups are joined. */
    method Analyze(p: Peer, frame: Frame, now: int)
      requires Valid() && p in peers && p in used && IsFrame(frame)
      modifies this`macs, this`ix, this`used, this`free, this`trees, this`decide
      ensures Valid() && p in used
      ensures if frame.Runt? then macs == old(macs) else MC.RefinesLearn(old(macs), macs, p, frame.source, maxMacs)
      ensures GT.PeerGroups(Groups(), p, maxGroups) ==
              TouchAll(old(GT.PeerGroups(Groups(), p, maxGroups)), Reported(frame), maxGroups)
      ensures forall q :: q != p ==> GT.SamePeer(old(Groups()), Groups(), q, maxGroups)
      ensures Excluding(Remaining(), {p}) == Excluding(old(Remaining()), {p})
      ensures (decide.Multicast? <==> old(decide.Multicast?)) && (!decide.Multicast? ==> decide == old(decide))
    {
      hide GI.Inv, GT.Inv, MC.Inv, GI.Members, DecisionOk, PeersOk, MC.RefinesLearn, GT.PeerGroups, TouchAll;
      hide GT.SamePeer, Excluding, Upcoming;
      if frame.Frame? {
        AddMacToPeer(p, frame.source);
      }
      JoinReported(p, Reported(frame), now);
    }

    /** Every destination to come is a peer that is there. */
    lemma RemainingArePeers()
      requires Valid()
      ensures forall p :: p in Remaining() ==> p in peers
    {
      hide GI.Inv, GT.Inv, MC.Inv, From, GI.Members;
      match decide
      case NoDecision =>
      case Unicast(p) =>
      case Flood(next) => FromMembers(peers, next);
      case Multicast(it) =>
        if it.Some? {
          GI.EntryFacts(ix, it.value);
          var l := ix.entries[it.value].list;
          FromMembers(ix.lists[l], it);
          MembersKeys(ix);
          forall e | e in From(ix.lists[l], it) ensures e.peer in peers {
            GI.ListFacts(ix, l, e);
            GT.InvOwned(Groups(), e, maxGroups);
          }
        }
    }
  }

  lemma RecencyPeers(t: MC.Table, t': MC.Table, p: Peer, m: Mac, max: nat)
    requires max > 0 && MC.Inv(t, max) && MC.RefinesLearn(t, t', p, m, max)
    ensures t'.used.Keys == t.used.Keys
  {
    hide MC.Inv;
    MC.RecencyKeys(t, max);
    MC.RecencyKeys(t', max);
    assert MC.Learn(MC.Recency(t, max), p, m, max).Keys == MC.Recency(t, max).Keys;
  }

  /** A neighbour of an entry is another entry in use. */
  lemma NextStays(ix: GI.Index, e: Entry)
    requires GI.Inv(ix) && e in ix.entries
    ensures ix.entries[e].list in ix.lists
    ensures var n := NextIn(ix.lists[ix.entries[e].list], e);
            n.Some? ==> n.value in ix.entries && n.value != e && ix.entries[n.value].list == ix.entries[e].list
  {
    hide GI.Inv, NextIn;
    GI.EntryFacts(ix, e);
    var n := NextIn(ix.lists[ix.entries[e].list], e);
    if n.Some? { GI.ListFacts(ix, ix.entries[e].list, n.value); }
  }

  lemma RemoveKeys(ix: GI.Index, e: Entry)
    requires GI.Inv(ix) && e in ix.entries
    ensures forall x :: x in GI.RemoveEntry(ix, e).entries <==> x in ix.entries && x != e
  {
    hide GI.Inv, GI.RemoveEntry;
    GI.RemoveEntryMembers(ix, e);
    forall x ensures x in GI.RemoveEntry(ix, e).entries <==> x in ix.entries && x != e {
      assert x in GI.Members(GI.RemoveEntry(ix, e)) <==> x in GI.Members(ix) - {e};
    }
  }

  /** The neighbour of a master is not a master. */
  lemma HeirFacts(ix: GI.Index, e: Entry)
    requires GI.Inv(ix) && e in ix.entries && ix.entries[e].isMaster
    requires ix.entries[e].list in ix.lists && |ix.lists[ix.entries[e].list]| > 1
    ensures e in ix.lists[ix.entries[e].list] && Distinct(ix.lists[ix.entries[e].list])
    ensures GI.NextOrPrev(ix.lists[ix.entries[e].list], e) == GI.Heir(ix, e)
    ensures !ix.entries[GI.Heir(ix, e)].isMaster
  {
    hide GI.Inv, GI.SigForGroup, GI.NextOrPrev;
    GI.EntryFacts(ix, e);
    GI.EntryFacts(ix, GI.Heir(ix, e));
  }

  lemma MembersKeys(ix: GI.Index)
    ensures forall x :: x in GI.Members(ix) <==> x in ix.entries
    ensures forall x :: x in GI.Members(ix) ==> GI.Members(ix)[x].group == ix.entries[x].group
  {
  }

  lemma TreeEntry(t: GT.Table, p: Peer, group: nat, max: nat)
    requires GT.Inv(t, max) && p in t.used && p in t.trees && group in t.trees[p]
    ensures var e := t.trees[p][group]; e in t.mem && e.peer == p && t.mem[e].group == group
  {
    GT.PeerFacts(t, p, max);
    GT.TreeInUsed(t.used[p], t.trees[p], t.mem, group);
  }

  /** Recycling, table by table: the entry leaves everything before it comes back. */
  lemma RecycleSteps(t: GT.Table, p: Peer, group: nat, endTime: int)
    requires p in t.used && p in t.trees && t.used[p] != [] && t.used[p][0] in t.mem
    ensures var e := t.used[p][0];
            var used := t.used[p := t.used[p][1..]];
            var vacated: map<nat, Entry> := t.trees[p] - {t.mem[e].group};
            var renamed: map<nat, Entry> := vacated[group := e];
            GT.Recycle(t, p, group, endTime) ==
            GT.Table((t.mem - {e})[e := GI.Member(group, endTime)], used[p := used[p] + [e]], t.free,
                     t.trees[p := vacated][p := renamed])
  {
    var e := t.used[p][0];
    assert (t.mem - {e})[e := GI.Member(group, endTime)] == t.mem[e := GI.Member(group, endTime)];
  }

  lemma HeadsAreOwn(t: GT.Table, p: Peer, max: nat)
    requires GT.Inv(t, max) && p in t.used && p in t.free
    ensures t.free[p] != [] ==> t.free[p][0].peer == p
    ensures t.used[p] != [] ==> t.used[p][0].peer == p
  {
    if t.free[p] != [] { GT.FreeIsFree(t, p, t.free[p][0], max); }
    if t.used[p] != [] {
      GT.PeerFacts(t, p, max);
      PoolMember(t.used[p], t.free[p], p, max, t.used[p][0]);
    }
  }

  lemma ReportInv(t: GT.Table, t': GT.Table, p: Peer, group: nat, endTime: int, max: nat)
    requires max > 0 && GT.Inv(t, max) && p in t.used && GT.RefinesReport(t, t', p, group, endTime, max)
    ensures GT.Inv(t', max) && t'.used.Keys == t.used.Keys
  {
    hide GT.Inv;
    forall q ensures q in t'.used <==> q in t.used { if q != p { assert GT.SamePeer(t, t', q, max); } }
  }

  lemma LeaveInv(t: GT.Table, t': GT.Table, p: Peer, group: nat, max: nat)
    requires GT.Inv(t, max) && p in t.used && GT.RefinesLeave(t, t', p, group, max)
    ensures GT.Inv(t', max) && t'.used.Keys == t.used.Keys
  {
    hide GT.Inv;
    forall q ensures q in t'.used <==> q in t.used { if q != p { assert GT.SamePeer(t, t', q, max); } }
  }

  lemma FollowersList(ix: GI.Index, sig: nat)
    requires GI.Inv(ix)
    ensures sig !in ix.tree ==> GI.Followers(ix, sig) == []
    ensures sig in ix.tree ==> ix.tree[sig] in ix.entries && ix.entries[ix.tree[sig]].list in ix.lists
    ensures sig in ix.tree ==> GI.Followers(ix, sig) == ix.lists[ix.entries[ix.tree[sig]].list]
    ensures Distinct(GI.Followers(ix, sig))
  {
    hide GI.Inv;
    GI.IndexIsMembership(ix, sig);
    if sig in ix.tree { GI.MasterFacts(ix, sig); }
  }

  lemma NothingLowered(mem: map<Entry, GI.Member>, group: nat, limit: int)
    ensures GD.Lowered(mem, [], group, limit) == mem
  {
  }

  lemma SetEndTimeFrame(ix: GI.Index, e: Entry, limit: int)
    requires GI.Inv(ix) && e in ix.entries
    ensures var r := GI.SetEndTime(ix, e, limit);
            GI.Inv(r) && r.tree == ix.tree && r.lists == ix.lists && r.entries.Keys == ix.entries.Keys
  {
    hide GI.Inv;
    GI.SetEndTimeInv(ix, e, limit);
  }

  /** One more entry of the list is lowered, if it is of the group and lasts too long. */
  lemma LowerStep(ix: GI.Index, mem: map<Entry, GI.Member>, list: seq<Entry>, i: nat, group: nat, limit: int)
    requires Distinct(list) && i < |list| && list[i] in ix.entries
    requires GI.Members(ix) == GD.Lowered(mem, list[..i], group, limit)
    ensures ix.entries[list[i]].group == group && ix.entries[list[i]].endTime > limit ==>
              GI.Members(GI.SetEndTime(ix, list[i], limit)) == GD.Lowered(mem, list[..i + 1], group, limit)
    ensures !(ix.entries[list[i]].group == group && ix.entries[list[i]].endTime > limit) ==>
              GI.Members(ix) == GD.Lowered(mem, list[..i + 1], group, limit)
  {
    hide GD.Lowered;
    var e := list[i];
    assert e in GI.Members(ix);
    assert e !in list[..i] && list[..i + 1] == list[..i] + [e];
    LoweredKeys(mem, list[..i], group, limit);
    GD.LoweredNext(mem, list[..i], e, group, limit);
    GI.SetEndTimeMembers(ix, e, limit);
  }

  lemma LoweredKeys(mem: map<Entry, GI.Member>, done: seq<Entry>, group: nat, limit: int)
    ensures GD.Lowered(mem, done, group, limit).Keys == mem.Keys
  {
  }

  lemma {:induction false} FromMembers<T(!new)>(s: seq<T>, at: Option<T>)
    ensures forall x :: x in From(s, at) ==> x in s
  {
    if at.Some? && s != [] && s[0] != at.value {
      FromMembers(s[1..], at);
      assert s == [s[0]] + s[1..];
    }
  }

  lemma FromNothing<T>(s: seq<T>)
    ensures From(s, None) == []
  {
  }

  lemma PeersTail(s: seq<Entry>)
    requires s != []
    ensures GD.PeersOf(s) != [] && GD.PeersOf(s)[0] == s[0].peer && GD.PeersOf(s)[1..] == GD.PeersOf(s[1..])
  {
  }

  lemma PeersCons(e: Entry, s: seq<Entry>)
    ensures GD.PeersOf([e] + s) == [e.peer] + GD.PeersOf(s)
  {
  }

  lemma NoPeers()
    ensures GD.PeersOf([]) == []
  {
  }

  lemma OwnerIsPeer(macs: MC.Table, m: Mac, max: nat)
    requires MC.Inv(macs, max) && m in macs.tree
    ensures macs.tree[m].peer in macs.used
  {
    MC.NodeFacts(macs, m, max);
  }

  /** A table without the entries in `done`. */
  function Minus(mem: map<Entry, GI.Member>, done: seq<Entry>): map<Entry, GI.Member> {
    map e | e in mem && e !in done :: mem[e]
  }

  lemma MinusNothing(mem: map<Entry, GI.Member>)
    ensures Minus(mem, []) == mem
  {
  }

  lemma MinusNext(mem: map<Entry, GI.Member>, list: seq<Entry>, i: nat)
    requires Distinct(list) && i < |list| && list[i] in mem
    ensures list[i] in Minus(mem, list[..i]) && Minus(mem, list[..i + 1]) == Minus(mem, list[..i]) - {list[i]}
  {
    assert list[..i + 1] == list[..i] + [list[i]];
  }

  lemma MinusIsDrop(t: GT.Table, p: Peer, max: nat)
    requires GT.Inv(t, max) && p in t.used
    ensures Minus(t.mem, t.used[p]) == GT.DropPeer(t, p).mem
  {
    hide GT.Inv, GT.Indexed, Distinct;
    GT.PeerFacts(t, p, max);
    forall e | e in t.mem ensures e in t.used[p] <==> e.peer == p { GT.InvOwned(t, e, max); }
  }

  function Untied(tree: map<Mac, Entry>, done: seq<Entry>): map<Mac, Entry> {
    map m | m in tree && tree[m] !in done :: tree[m]
  }

  lemma UntiedNothing(tree: map<Mac, Entry>)
    ensures Untied(tree, []) == tree
  {
  }

  lemma UntiedNext(t: MC.Table, list: seq<Entry>, i: nat, max: nat)
    requires MC.Inv(t, max) && i < |list| && list[i] in t.mac && t.mac[list[i]] in t.tree
    requires t.tree[t.mac[list[i]]] == list[i]
    ensures Untied(t.tree, list[..i + 1]) == Untied(t.tree, list[..i]) - {t.mac[list[i]]}
  {
    hide MC.Inv;
    forall m | m in t.tree && t.tree[m] == list[i] ensures m == t.mac[list[i]] { MC.NodeFacts(t, m, max); }
    assert list[..i + 1] == list[..i] + [list[i]];
  }

  lemma UntiedIsDrop(t: MC.Table, p: Peer, max: nat)
    requires MC.Inv(t, max) && p in t.used
    ensures Untied(t.tree, t.used[p]) == MC.DropPeer(t, p).tree
  {
    MC.PeerFacts(t, p, max);
    forall m | m in t.tree ensures t.tree[m] in t.used[p] <==> t.tree[m].peer == p { MC.NodeFacts(t, m, max); }
  }

  /** Touching keys one after the other. */
  function TouchAll(s: seq<nat>, keys: seq<nat>, max: nat): seq<nat>
    requires max > 0
  {
    if keys == [] then s else Touch(TouchAll(s, keys[..|keys| - 1], max), keys[|keys| - 1], max)
  }

  lemma TouchNothing(s: seq<nat>, max: nat)
    requires max > 0
    ensures TouchAll(s, [], max) == s
  {
  }

  lemma TouchNext(s: seq<nat>, keys: seq<nat>, i: nat, max: nat)
    requires max > 0 && i < |keys|
    ensures TouchAll(s, keys[..i + 1], max) == Touch(TouchAll(s, keys[..i], max), keys[i], max)
  {
    assert keys[..i + 1][..i] == keys[..i];
  }

  lemma EveryPeerSame(t: GT.Table, max: nat)
    requires GT.Inv(t, max)
    ensures forall q :: GT.SamePeer(t, t, q, max)
  {
  }

  lemma SameTwice(t: GT.Table, t1: GT.Table, t2: GT.Table, p: Peer, max: nat)
    requires GT.Inv(t, max) && GT.Inv(t1, max) && GT.Inv(t2, max)
    requires forall q :: q != p ==> GT.SamePeer(t, t1, q, max)
    requires forall q :: q != p ==> GT.SamePeer(t1, t2, q, max)
    ensures forall q :: q != p ==> GT.SamePeer(t, t2, q, max)
  {
    hide GT.Inv, GT.PeerGroups;
    forall q | q != p ensures GT.SamePeer(t, t2, q, max) {
      assert GT.SamePeer(t, t1, q, max) && GT.SamePeer(t1, t2, q, max);
    }
  }

  ghost function EntrySet(s: seq<Entry>): set<Entry> {
    set e | e in s
  }

  lemma {:induction false} FromDistinct<T(!new)>(s: seq<T>, at: Option<T>)
    requires Distinct(s)
    ensures Distinct(From(s, at))
  {
    if at.Some? && s != [] && s[0] != at.value { FromDistinct(s[1..], at); }
  }

  lemma LeftDistinct(ix: GI.Index, decide: Decision)
    requires GI.Inv(ix) && IteratorOk(ix, decide)
    ensures Distinct(LeftEntries(ix, decide))
  {
    hide GI.Inv, From;
    if decide.Multicast? && decide.it.Some? {
      GI.EntryFacts(ix, decide.it.value);
      FromDistinct(ix.lists[ix.entries[decide.it.value].list], decide.it);
    }
  }

  /** Of the entries to be visited, those of `p` are the ones it lists as used. */
  lemma LeftOwned(ix: GI.Index, decide: Decision, t: GT.Table, p: Peer, max: nat)
    requires GI.Inv(ix) && IteratorOk(ix, decide) && GT.Inv(t, max) && t.mem == GI.Members(ix) && p in t.used
    ensures forall e :: e in LeftEntries(ix, decide) ==> (e in EntrySet(t.used[p]) <==> e.peer == p)
  {
    hide GI.Inv, From, GT.Inv;
    GT.PeerFacts(t, p, max);
    if decide.Multicast? && decide.it.Some? {
      GI.EntryFacts(ix, decide.it.value);
      var l := ix.entries[decide.it.value].list;
      FromMembers(ix.lists[l], decide.it);
      forall e | e in LeftEntries(ix, decide) ensures e in EntrySet(t.used[p]) <==> e.peer == p {
        GI.ListFacts(ix, l, e);
        GT.InvOwned(t, e, max);
      }
    }
  }

  lemma NoneExcluded(left: seq<Entry>)
    ensures Excluding(left, EntrySet([])) == left
  {
    ExcludingNone(left, EntrySet([]));
  }

  lemma OneMoreExcluded(left: seq<Entry>, list: seq<Entry>, i: nat)
    requires Distinct(left) && i < |list|
    ensures Without(Excluding(left, EntrySet(list[..i])), list[i]) == Excluding(left, EntrySet(list[..i + 1]))
  {
    hide Excluding, Without, Distinct;
    ExcludingDistinct(left, EntrySet(list[..i]));
    WithoutIsExcluding(Excluding(left, EntrySet(list[..i])), list[i]);
    ExcludingTwice(left, EntrySet(list[..i]), {list[i]});
    assert list[..i + 1] == list[..i] + [list[i]];
    assert EntrySet(list[..i + 1]) == EntrySet(list[..i]) + {list[i]};
  }

  lemma NothingLeft(peers: seq<Peer>, p: Peer)
    ensures From(peers, None) == [] && Without([], p) == []
  {
  }

  lemma {:induction false} PeersExcluding(left: seq<Entry>, gone: set<Entry>, p: Peer)
    requires forall e :: e in left ==> (e in gone <==> e.peer == p)
    ensures GD.PeersOf(Excluding(left, gone)) == Excluding(GD.PeersOf(left), {p})
  {
    hide GD.PeersOf, Excluding;
    NoPeers();
    if left == [] {
      NothingExcluded<Entry>(gone);
      NothingExcluded<Peer>({p});
    } else {
      PeersExcluding(left[1..], gone, p);
      PeersCons(left[0], left[1..]);
      PeersCons(left[0], Excluding(left[1..], gone));
      ExcludingCons(left[0], left[1..], gone);
      ExcludingCons(left[0].peer, GD.PeersOf(left[1..]), {p});
      assert left == [left[0]] + left[1..];
    }
  }

  /** The freed peer, and no other, is gone from the destinations to come. */
  lemma PeerLeft(p: Peer, peers0: seq<Peer>, ix0: GI.Index, d0: Decision, peers: seq<Peer>, ix: GI.Index, d: Decision,
                 gone: set<Entry>)
    requires GI.Inv(ix0) && IteratorOk(ix0, d0) && GI.Inv(ix) && IteratorOk(ix, d) && Distinct(peers0)
    requires forall e :: e in LeftEntries(ix0, d0) ==> (e in gone <==> e.peer == p)
    requires d0.Multicast? ==> d.Multicast? && LeftEntries(ix, d) == Excluding(LeftEntries(ix0, d0), gone)
    requires d0.Flood? ==> d.Flood? && From(peers, d.next) == Without(From(peers0, d0.next), p)
    requires !d0.Multicast? && !d0.Flood? ==> d == if d0 == Unicast(p) then NoDecision else d0
    ensures Upcoming(ix, peers, d) == Excluding(Upcoming(ix0, peers0, d0), {p})
  {
    hide GI.Inv, LeftEntries, From;
    match d0
    case NoDecision =>
    case Unicast(q) => assert [q][1..] == [];
    case Flood(next) =>
      FromDistinct(peers0, next);
      WithoutIsExcluding(From(peers0, next), p);
    case Multicast(_) => PeersExcluding(LeftEntries(ix0, d0), gone, p);
  }
}
