/**
 * The group memberships of the peers: the entries of each peer, its tree of groups, and the simple model they refine.
 */
module GroupTable {
  import opened Lists
  import opened RecentSlots
  import opened GI = GroupIndex

  /** `mem` is what the multicast index stands for; `trees` are the per-peer trees of used entries, by group. */
  datatype Table = Table(mem: map<Entry, Member>, used: map<Peer, seq<Entry>>, free: map<Peer, seq<Entry>>,
                         trees: map<Peer, map<nat, Entry>>)

  /** The tree of a peer holds exactly its used entries, each under its group. */
  ghost predicate Indexed(used: seq<Entry>, tree: map<nat, Entry>, mem: map<Entry, Member>) {
    && (forall e :: e in used ==> e in mem && mem[e].group in tree && tree[mem[e].group] == e)
    && (forall g :: g in tree ==> tree[g] in used && tree[g] in mem && mem[tree[g]].group == g)
  }

  ghost predicate PeerOk(t: Table, p: Peer, max: nat) {
    && p in t.used && p in t.free && p in t.trees
    && PoolOk(t.used[p], t.free[p], p, max) && Indexed(t.used[p], t.trees[p], t.mem)
  }

  /** An entry is in the index only while its peer lists it as used. */
  ghost predicate Owned(t: Table, e: Entry) {
    e.peer in t.used && e in t.used[e.peer]
  }

  ghost predicate Inv(t: Table, max: nat) {
    && t.used.Keys == t.free.Keys == t.trees.Keys
    && (forall p :: p in t.used ==> PeerOk(t, p, max))
    && (forall e :: e in t.mem ==> Owned(t, e))
  }

  lemma PeerFacts(t: Table, p: Peer, max: nat)
    requires Inv(t, max) && p in t.used
    ensures PeerOk(t, p, max) && Keyed(t.used[p], GroupOf(t))
    ensures Distinct(t.used[p]) && |t.used[p]| <= max
  {
    assert PeerOk(t, p, max);
  }

  // ------------------------------------------------------------------ the simple model

  function GroupOf(t: Table): map<Entry, nat> {
    map e | e in t.mem :: t.mem[e].group
  }

  /** The groups of a peer, the one reported longest ago first. */
  ghost function PeerGroups(t: Table, p: Peer, max: nat): seq<nat>
    requires Inv(t, max) && p in t.used
  {
    PeerFacts(t, p, max);
    Keys(t.used[p], GroupOf(t))
  }

  /** When the membership of `p` in `g` runs out, if there is one. */
  function EndOf(t: Table, p: Peer, g: nat): Option<int> {
    if p in t.trees && g in t.trees[p] && t.trees[p][g] in t.mem then Some(t.mem[t.trees[p][g]].endTime) else None
  }

  /** A group has an end time exactly while the peer lists it. */
  lemma ListedHasEnd(t: Table, p: Peer, g: nat, max: nat)
    requires Inv(t, max) && p in t.used
    ensures g in PeerGroups(t, p, max) <==> g in t.trees[p]
    ensures g in PeerGroups(t, p, max) <==> EndOf(t, p, g).Some?
  {
    PeerFacts(t, p, max);
    KeysHas(t.used[p], GroupOf(t), g);
  }

  /** Nothing about `q` changed. */
  ghost predicate SamePeer(t: Table, t': Table, q: Peer, max: nat)
    requires Inv(t, max) && Inv(t', max)
  {
    && (q in t.used <==> q in t'.used)
    && (q in t.used && q in t'.used ==> PeerGroups(t', q, max) == PeerGroups(t, q, max))
    && (forall h :: EndOf(t', q, h) == EndOf(t, q, h))
  }

  /** `p` reported `g`: the group becomes its newest, its oldest group goes only if there is no room. */
  ghost predicate RefinesReport(t: Table, t': Table, p: Peer, g: nat, endTime: int, max: nat)
    requires max > 0 && Inv(t, max) && p in t.used
  {
    && Inv(t', max) && p in t'.used
    && PeerGroups(t', p, max) == Touch(PeerGroups(t, p, max), g, max)
    && EndOf(t', p, g) == Some(endTime)
    && (forall h :: h != g && EndOf(t', p, h).Some? ==> EndOf(t', p, h) == EndOf(t, p, h))
    && (forall q :: q != p ==> SamePeer(t, t', q, max))
  }

  /** The membership of `p` in `g` ended. */
  ghost predicate RefinesLeave(t: Table, t': Table, p: Peer, g: nat, max: nat)
    requires Inv(t, max) && p in t.used
  {
    && Inv(t', max) && p in t'.used
    && PeerGroups(t', p, max) == Without(PeerGroups(t, p, max), g)
    && EndOf(t', p, g) == None
    && (forall h :: h != g ==> EndOf(t', p, h) == EndOf(t, p, h))
    && (forall q :: q != p ==> SamePeer(t, t', q, max))
  }

  // ------------------------------------------------------------------ operations

  /** The entry of a group that is reported again moves to the end of the used list. */
  function Renew(t: Table, e: Entry, endTime: int): Table
    requires e.peer in t.used && e in t.mem
  {
    t.(used := t.used[e.peer := Without(t.used[e.peer], e) + [e]], mem := t.mem[e := t.mem[e].(endTime := endTime)])
  }

  /** The first free entry is given the group. */
  function TakeFree(t: Table, p: Peer, g: nat, endTime: int): Table
    requires p in t.used && p in t.free && p in t.trees && t.free[p] != []
  {
    var e := t.free[p][0];
    var tree: map<nat, Entry> := t.trees[p][g := e];
    t.(used := t.used[p := t.used[p] + [e]], free := t.free[p := t.free[p][1..]],
       trees := t.trees[p := tree], mem := t.mem[e := Member(g, endTime)])
  }

  /** The entry of the group reported longest ago is given the new group. */
  function Recycle(t: Table, p: Peer, g: nat, endTime: int): Table
    requires p in t.used && p in t.trees && t.used[p] != [] && t.used[p][0] in t.mem
  {
    var e := t.used[p][0];
    var tree: map<nat, Entry> := (t.trees[p] - {t.mem[e].group})[g := e];
    t.(used := t.used[p := t.used[p][1..] + [e]], trees := t.trees[p := tree], mem := t.mem[e := Member(g, endTime)])
  }

  /** remove_group_entry */
  function Drop(t: Table, e: Entry): Table
    requires e.peer in t.used && e.peer in t.free && e.peer in t.trees && e in t.mem
  {
    t.(used := t.used[e.peer := Without(t.used[e.peer], e)], free := t.free[e.peer := t.free[e.peer] + [e]],
       trees := t.trees[e.peer := t.trees[e.peer] - {t.mem[e].group}], mem := t.mem - {e})
  }

  /** A query for the group brings its memberships down to `limit`. */
  function Lower(t: Table, g: nat, limit: int): Table {
    t.(mem := map e | e in t.mem ::
                if t.mem[e].group == g && t.mem[e].endTime > limit then t.mem[e].(endTime := limit) else t.mem[e])
  }

  function AtMost(end: Option<int>, limit: int): Option<int> {
    if end.Some? && end.value > limit then Some(limit) else end
  }

  function AddPeer(t: Table, p: Peer, max: nat): Table {
    t.(used := t.used[p := []], free := t.free[p := FreshEntries(p, max)], trees := t.trees[p := map[]])
  }

  function DropPeer(t: Table, p: Peer): Table {
    t.(mem := map e | e in t.mem && e.peer != p :: t.mem[e], used := t.used - {p}, free := t.free - {p},
       trees := t.trees - {p})
  }

  // ------------------------------------------------------------------ they keep the invariant

  /** Only the groups of the used entries matter. */
  lemma IndexedSame(used: seq<Entry>, used': seq<Entry>, tree: map<nat, Entry>, mem: map<Entry, Member>,
                    mem': map<Entry, Member>)
    requires Indexed(used, tree, mem) && forall x :: x in used' <==> x in used
    requires forall x :: x in used ==> x in mem' && (x in mem ==> mem'[x].group == mem[x].group)
    ensures Indexed(used', tree, mem')
  {
  }

  lemma IndexedAdd(used: seq<Entry>, tree: map<nat, Entry>, mem: map<Entry, Member>, e: Entry, g: nat, endTime: int)
    requires Indexed(used, tree, mem) && e !in used && g !in tree
    ensures Indexed(used + [e], tree[g := e], mem[e := Member(g, endTime)])
  {
  }

  lemma IndexedRemove(used: seq<Entry>, rest: seq<Entry>, tree: map<nat, Entry>, mem: map<Entry, Member>, e: Entry)
    requires Indexed(used, tree, mem) && e in used && e !in rest && forall x :: x != e ==> (x in rest <==> x in used)
    ensures e in mem && Indexed(rest, tree - {mem[e].group}, mem - {e})
  {
    assert e in mem && mem[e].group in tree && tree[mem[e].group] == e;
  }

  lemma OtherPeerOk(t: Table, r: Table, p: Peer, q: Peer, max: nat)
    requires PeerOk(t, q, max) && q != p && q in r.used && q in r.free && q in r.trees
    requires r.used[q] == t.used[q] && r.free[q] == t.free[q] && r.trees[q] == t.trees[q]
    requires forall x: Entry :: x.peer != p && x in t.mem ==> x in r.mem && r.mem[x] == t.mem[x]
    ensures PeerOk(r, q, max)
  {
    hide Indexed;
    forall x | x in t.used[q] ensures x in r.mem && x in t.mem && r.mem[x] == t.mem[x] {
      assert x.peer == q;
      UsedInMem(t.used[q], t.trees[q], t.mem, x);
    }
    IndexedSame(t.used[q], r.used[q], t.trees[q], t.mem, r.mem);
  }

  lemma UsedInMem(used: seq<Entry>, tree: map<nat, Entry>, mem: map<Entry, Member>, e: Entry)
    requires Indexed(used, tree, mem) && e in used
    ensures e in mem && mem[e].group in tree && tree[mem[e].group] == e
  {
  }

  lemma RenewInv(t: Table, e: Entry, endTime: int, max: nat)
    requires Inv(t, max) && e in t.mem
    ensures Owned(t, e) && Inv(Renew(t, e, endTime), max)
  {
    hide PoolOk, Without, Indexed;
    assert Owned(t, e);
    var r, p := Renew(t, e, endTime), e.peer;
    assert PeerOk(t, p, max);
    PoolRefresh(t.used[p], t.free[p], p, max, e);
    forall x | x in t.used[p] ensures x in t.mem { UsedInMem(t.used[p], t.trees[p], t.mem, x); }
    IndexedSame(t.used[p], r.used[p], t.trees[p], t.mem, r.mem);
    forall q | q in r.used
      ensures PeerOk(r, q, max)
    {
      if q != p { assert PeerOk(t, q, max); OtherPeerOk(t, r, p, q, max); }
    }
    forall x | x in r.mem ensures Owned(r, x) { assert Owned(t, x); }
  }

  lemma TakeFreeInv(t: Table, p: Peer, g: nat, endTime: int, max: nat)
    requires Inv(t, max) && p in t.used && p in t.free && p in t.trees && g !in t.trees[p] && t.free[p] != []
    ensures Inv(TakeFree(t, p, g, endTime), max)
  {
    hide PoolOk, Without, Indexed;
    var r, e := TakeFree(t, p, g, endTime), t.free[p][0];
    assert PeerOk(t, p, max);
    PoolTakeFree(t.used[p], t.free[p], p, max);
    FreeIsFree(t, p, e, max);
    IndexedAdd(t.used[p], t.trees[p], t.mem, e, g, endTime);
    forall q | q in r.used
      ensures PeerOk(r, q, max)
    {
      if q != p { assert PeerOk(t, q, max); OtherPeerOk(t, r, p, q, max); }
    }
    forall x | x in r.mem ensures Owned(r, x) { if x != e { assert Owned(t, x); } }
  }

  lemma FreeIsFree(t: Table, p: Peer, e: Entry, max: nat)
    requires Inv(t, max) && p in t.used && p in t.free && e in t.free[p]
    ensures e.peer == p && e !in t.mem
  {
    assert PeerOk(t, p, max);
    assert e in t.mem ==> Owned(t, e);
  }

  lemma RecycleInv(t: Table, p: Peer, g: nat, endTime: int, max: nat)
    requires Inv(t, max) && max > 0 && p in t.used && p in t.free && p in t.trees && g !in t.trees[p] && t.free[p] == []
    ensures t.used[p] != [] && t.used[p][0] in t.mem && Inv(Recycle(t, p, g, endTime), max)
  {
    hide PoolOk, Without, Indexed;
    assert PeerOk(t, p, max);
    PoolRecycle(t.used[p], t.free[p], p, max);
    var e := t.used[p][0];
    PoolMember(t.used[p], t.free[p], p, max, e);
    RecycleIndexed(t.used[p], t.trees[p], t.mem, g, endTime);
    var r := Recycle(t, p, g, endTime);
    forall q | q in r.used
      ensures PeerOk(r, q, max)
    {
      if q != p { assert PeerOk(t, q, max); OtherPeerOk(t, r, p, q, max); }
    }
    forall x | x in r.mem ensures Owned(r, x) { assert Owned(t, x); }
  }

  lemma RecycleIndexed(used: seq<Entry>, tree: map<nat, Entry>, mem: map<Entry, Member>, g: nat, endTime: int)
    requires Indexed(used, tree, mem) && used != [] && used[0] !in used[1..] && g !in tree
    ensures used[0] in mem
    ensures Indexed(used[1..] + [used[0]], (tree - {mem[used[0]].group})[g := used[0]],
                    mem[used[0] := Member(g, endTime)])
  {
    hide Indexed;
    var e := used[0];
    assert used == [e] + used[1..];
    IndexedRemove(used, used[1..], tree, mem, e);
    IndexedAdd(used[1..], tree - {mem[e].group}, mem - {e}, e, g, endTime);
    assert (mem - {e})[e := Member(g, endTime)] == mem[e := Member(g, endTime)];
  }

  lemma DropInv(t: Table, e: Entry, max: nat)
    requires Inv(t, max) && e in t.mem
    ensures PeerOk(t, e.peer, max) && Inv(Drop(t, e), max)
  {
    hide PoolOk, Without, Indexed;
    var p := e.peer;
    assert Owned(t, e) && PeerOk(t, p, max);
    PoolRelease(t.used[p], t.free[p], p, max, e);
    IndexedRemove(t.used[p], Without(t.used[p], e), t.trees[p], t.mem, e);
    var r := Drop(t, e);
    forall q | q in r.used
      ensures PeerOk(r, q, max)
    {
      if q != p { assert PeerOk(t, q, max); OtherPeerOk(t, r, p, q, max); }
    }
    forall x | x in r.mem ensures Owned(r, x) { assert Owned(t, x); }
  }

  lemma AddPeerInv(t: Table, p: Peer, max: nat)
    requires Inv(t, max) && p !in t.used
    ensures Inv(AddPeer(t, p, max), max)
  {
    hide PoolOk, FreshEntries, Indexed;
    var r := AddPeer(t, p, max);
    FreshPool(p, max);
    NothingIndexed(t.mem);
    assert forall q | q in r.used :: PeerOk(r, q, max) by {
      hide Owned;
      forall q | q in r.used ensures PeerOk(r, q, max) { if q != p { assert PeerOk(t, q, max); } }
    }
    hide PeerOk;
    forall x | x in r.mem ensures Owned(r, x) { assert Owned(t, x); }
  }

  lemma NothingIndexed(mem: map<Entry, Member>)
    ensures Indexed([], map[], mem)
  {
  }

  lemma DropPeerInv(t: Table, p: Peer, max: nat)
    requires Inv(t, max)
    ensures Inv(DropPeer(t, p), max)
  {
    hide PoolOk, Indexed;
    var r := DropPeer(t, p);
    forall q | q in r.used ensures PeerOk(r, q, max) { assert PeerOk(t, q, max); OtherPeerOk(t, r, p, q, max); }
    forall x | x in r.mem ensures Owned(r, x) { assert Owned(t, x); }
  }

  // ------------------------------------------------------------------ they refine the simple model

  lemma OtherPeerSame(t: Table, r: Table, p: Peer, q: Peer, max: nat)
    requires Inv(t, max) && Inv(r, max) && q != p
    requires (q in t.used <==> q in r.used) && (q in t.used && q in r.used ==> r.used[q] == t.used[q])
    requires (q in t.trees <==> q in r.trees) && (q in t.trees && q in r.trees ==> r.trees[q] == t.trees[q])
    requires forall x: Entry :: x.peer != p && x in t.mem ==> x in r.mem && r.mem[x] == t.mem[x]
    ensures SamePeer(t, r, q, max)
  {
    hide Indexed, Without;
    if q in t.used {
      PeerFacts(t, q, max);
      forall x | x in t.used[q] ensures x in t.mem && x in r.mem && r.mem[x] == t.mem[x] {
        UsedInMem(t.used[q], t.trees[q], t.mem, x);
        PoolMember(t.used[q], t.free[q], q, max, x);
      }
      PeerFacts(r, q, max);
      KeysSame(t.used[q], GroupOf(t), GroupOf(r));
      forall h | h in t.trees[q] ensures t.trees[q][h] in t.used[q] { TreeInUsed(t.used[q], t.trees[q], t.mem, h); }
    }
  }

  lemma TreeInUsed(used: seq<Entry>, tree: map<nat, Entry>, mem: map<Entry, Member>, g: nat)
    requires Indexed(used, tree, mem) && g in tree
    ensures tree[g] in used && tree[g] in mem && mem[tree[g]].group == g
  {
  }

  lemma RenewOk(t: Table, e: Entry, endTime: int, max: nat)
    requires max > 0 && Inv(t, max) && e in t.mem
    ensures Owned(t, e) && RefinesReport(t, Renew(t, e, endTime), e.peer, t.mem[e].group, endTime, max)
  {
    hide Indexed, Without, Inv, SamePeer, PoolOk, Keys, Touch, Keyed;
    RenewInv(t, e, endTime, max);
    var r, p := Renew(t, e, endTime), e.peer;
    InvKeys(t, max);
    InvKeys(r, max);
    forall q | q != p ensures SamePeer(t, r, q, max) { OtherPeerSame(t, r, p, q, max); }
    PeerFacts(t, p, max);
    PeerFacts(r, p, max);
    UsedInMem(t.used[p], t.trees[p], t.mem, e);
    RefreshTouches(t.used[p], GroupOf(t), e, max);
    assert GroupOf(r) == GroupOf(t);
    forall h | h != t.mem[e].group ensures EndOf(r, p, h) == EndOf(t, p, h) {
      if h in t.trees[p] { TreeInUsed(t.used[p], t.trees[p], t.mem, h); }
    }
  }

  lemma InvKeys(t: Table, max: nat)
    requires Inv(t, max)
    ensures t.used.Keys == t.free.Keys == t.trees.Keys
  {
  }

  lemma TakeFreeOk(t: Table, p: Peer, g: nat, endTime: int, max: nat)
    requires max > 0 && Inv(t, max) && p in t.used && p in t.free && p in t.trees && g !in t.trees[p] && t.free[p] != []
    ensures RefinesReport(t, TakeFree(t, p, g, endTime), p, g, endTime, max)
  {
    hide Indexed, Without, Inv, SamePeer, PoolOk, Keys, Touch, Keyed;
    TakeFreeInv(t, p, g, endTime, max);
    var r, e := TakeFree(t, p, g, endTime), t.free[p][0];
    InvKeys(t, max);
    InvKeys(r, max);
    FreeIsFree(t, p, e, max);
    forall q | q != p ensures SamePeer(t, r, q, max) { OtherPeerSame(t, r, p, q, max); }
    PeerFacts(t, p, max);
    PeerFacts(r, p, max);
    ListedHasEnd(t, p, g, max);
    PoolTakeFree(t.used[p], t.free[p], p, max);
    ClaimTouches(t.used[p], GroupOf(t), e, g, max);
    assert GroupOf(r) == GroupOf(t)[e := g];
    forall h | h != g ensures EndOf(r, p, h) == EndOf(t, p, h) {
      if h in t.trees[p] { TreeInUsed(t.used[p], t.trees[p], t.mem, h); }
    }
  }

  lemma RecycleOk(t: Table, p: Peer, g: nat, endTime: int, max: nat)
    requires max > 0 && Inv(t, max) && p in t.used && p in t.free && p in t.trees && g !in t.trees[p] && t.free[p] == []
    ensures t.used[p] != [] && t.used[p][0] in t.mem
    ensures RefinesReport(t, Recycle(t, p, g, endTime), p, g, endTime, max)
  {
    hide Indexed, Without, Inv, SamePeer, PoolOk, Keys, Touch, Keyed;
    RecycleInv(t, p, g, endTime, max);
    var r, e := Recycle(t, p, g, endTime), t.used[p][0];
    InvKeys(t, max);
    InvKeys(r, max);
    PeerFacts(t, p, max);
    PeerFacts(r, p, max);
    PoolMember(t.used[p], t.free[p], p, max, e);
    forall q | q != p ensures SamePeer(t, r, q, max) { OtherPeerSame(t, r, p, q, max); }
    ListedHasEnd(t, p, g, max);
    PoolRecycle(t.used[p], t.free[p], p, max);
    ClaimTouches(t.used[p], GroupOf(t), e, g, max);
    assert GroupOf(r) == GroupOf(t)[e := g];
    forall h | h != g && EndOf(r, p, h).Some? ensures EndOf(r, p, h) == EndOf(t, p, h) {
      TreeInUsed(t.used[p], t.trees[p], t.mem, h);
    }
  }

  lemma DropOk(t: Table, e: Entry, max: nat)
    requires Inv(t, max) && e in t.mem
    ensures PeerOk(t, e.peer, max) && RefinesLeave(t, Drop(t, e), e.peer, t.mem[e].group, max)
  {
    hide Indexed, Without, Inv, SamePeer, PoolOk, Keys, Keyed;
    DropInv(t, e, max);
    var r, p := Drop(t, e), e.peer;
    InvKeys(t, max);
    InvKeys(r, max);
    InvOwned(t, e, max);
    forall q | q != p ensures SamePeer(t, r, q, max) { OtherPeerSame(t, r, p, q, max); }
    PeerFacts(t, p, max);
    PeerFacts(r, p, max);
    PoolRelease(t.used[p], t.free[p], p, max, e);
    KeysWithout(t.used[p], GroupOf(t), e);
    KeysSame(r.used[p], GroupOf(t), GroupOf(r));
    forall h | h != t.mem[e].group ensures EndOf(r, p, h) == EndOf(t, p, h) {
      if h in t.trees[p] { TreeInUsed(t.used[p], t.trees[p], t.mem, h); }
    }
  }

  lemma InvOwned(t: Table, e: Entry, max: nat)
    requires Inv(t, max) && e in t.mem
    ensures Owned(t, e)
  {
  }

  lemma DropPeerOk(t: Table, p: Peer, max: nat)
    requires Inv(t, max)
    ensures Inv(DropPeer(t, p), max) && p !in DropPeer(t, p).used
    ensures forall q :: q != p ==> SamePeer(t, DropPeer(t, p), q, max)
  {
    hide Inv, SamePeer;
    DropPeerInv(t, p, max);
    InvKeys(t, max);
    forall q | q != p ensures SamePeer(t, DropPeer(t, p), q, max) { OtherPeerSame(t, DropPeer(t, p), p, q, max); }
  }

  lemma AddPeerOk(t: Table, p: Peer, max: nat)
    requires Inv(t, max) && p !in t.used
    ensures var r := AddPeer(t, p, max);
            && Inv(r, max) && p in r.used && PeerGroups(r, p, max) == []
            && (forall q :: q != p ==> SamePeer(t, r, q, max))
  {
    hide Inv, SamePeer;
    AddPeerInv(t, p, max);
    var r := AddPeer(t, p, max);
    InvKeys(t, max);
    forall q | q != p ensures SamePeer(t, r, q, max) { OtherPeerSame(t, r, p, q, max); }
  }

  /** A query lowers every membership in the group and no other, and changes nobody's list. */
  lemma LowerOk(t: Table, g: nat, limit: int, max: nat)
    requires Inv(t, max)
    ensures var t' := Lower(t, g, limit);
            && Inv(t', max)
            && (forall p :: p in t.used ==> PeerGroups(t', p, max) == PeerGroups(t, p, max))
            && (forall p, h :: EndOf(t', p, h) == if h == g then AtMost(EndOf(t, p, h), limit) else EndOf(t, p, h))
  {
    hide Indexed, Keys, PoolOk, Without;
    var t' := Lower(t, g, limit);
    assert GroupOf(t') == GroupOf(t);
    forall p | p in t.used ensures PeerOk(t', p, max) {
      assert PeerOk(t, p, max);
      forall x | x in t.used[p] ensures x in t.mem { UsedInMem(t.used[p], t.trees[p], t.mem, x); }
      IndexedSame(t.used[p], t.used[p], t.trees[p], t.mem, t'.mem);
    }
    forall e | e in t'.mem ensures Owned(t', e) { assert Owned(t, e); }
    forall p, h ensures EndOf(t', p, h) == if h == g then AtMost(EndOf(t, p, h), limit) else EndOf(t, p, h) {
      if p in t.trees && h in t.trees[p] {
        assert PeerOk(t, p, max);
        TreeInUsed(t.used[p], t.trees[p], t.mem, h);
      }
    }
  }

  /** add_group_to_peer, whichever entry it takes */
  ghost function Report(t: Table, p: Peer, g: nat, endTime: int, max: nat): (r: Table)
    requires max > 0 && Inv(t, max) && p in t.used
    ensures RefinesReport(t, r, p, g, endTime, max)
  {
    ReportOk(t, p, g, endTime, max);
    if g in t.trees[p] then Renew(t, t.trees[p][g], endTime)
    else if t.free[p] != [] then TakeFree(t, p, g, endTime)
    else Recycle(t, p, g, endTime)
  }

  lemma ReportOk(t: Table, p: Peer, g: nat, endTime: int, max: nat)
    requires max > 0 && Inv(t, max) && p in t.used
    ensures p in t.free && p in t.trees
    ensures g in t.trees[p] ==>
              var e := t.trees[p][g];
              e.peer == p && e in t.mem && RefinesReport(t, Renew(t, e, endTime), p, g, endTime, max)
    ensures g !in t.trees[p] && t.free[p] != [] ==> RefinesReport(t, TakeFree(t, p, g, endTime), p, g, endTime, max)
    ensures g !in t.trees[p] && t.free[p] == [] ==>
              && t.used[p] != [] && t.used[p][0] in t.mem
              && RefinesReport(t, Recycle(t, p, g, endTime), p, g, endTime, max)
  {
    hide RefinesReport, Inv, Indexed, PoolOk;
    InvKeys(t, max);
    PeerFacts(t, p, max);
    if g in t.trees[p] {
      TreeInUsed(t.used[p], t.trees[p], t.mem, g);
      PoolMember(t.used[p], t.free[p], p, max, t.trees[p][g]);
      RenewOk(t, t.trees[p][g], endTime, max);
    } else if t.free[p] != [] {
      TakeFreeOk(t, p, g, endTime, max);
    } else {
      RecycleOk(t, p, g, endTime, max);
    }
  }
}
