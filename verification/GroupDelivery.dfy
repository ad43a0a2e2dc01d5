/** Where multicast frames go, and what a group query does: the index and the tables of the peers together. */
module GroupDelivery {
  import opened Lists
  import opened RecentSlots
  import opened GI = GroupIndex
  import GT = GroupTable

  function PeersOf(s: seq<Entry>): seq<Peer> {
    seq(|s|, i requires 0 <= i < |s| => s[i].peer)
  }

  /** How often a peer occurs in a list of destinations. */
  function Occurrences(s: seq<Peer>, p: Peer): nat {
    if s == [] then 0 else (if s[0] == p then 1 else 0) + Occurrences(s[1..], p)
  }

  /** How many of the groups have the signature. */
  function Matching(groups: seq<nat>, sig: nat): nat {
    if groups == [] then 0 else (if SigForGroup(groups[0]) == sig then 1 else 0) + Matching(groups[1..], sig)
  }

  /** How many entries of the list are chosen. */
  function Chosen(s: seq<Entry>, pick: set<Entry>): nat {
    if s == [] then 0 else (if s[0] in pick then 1 else 0) + Chosen(s[1..], pick)
  }

  lemma {:induction false} ChosenSkips(s: seq<Entry>, pick: set<Entry>, e: Entry)
    requires e !in s
    ensures Chosen(s, pick - {e}) == Chosen(s, pick)
  {
    if s != [] {
      assert s == [s[0]] + s[1..];
      ChosenSkips(s[1..], pick, e);
    }
  }

  lemma {:induction false} ChosenCount(s: seq<Entry>, pick: set<Entry>)
    requires Distinct(s) && forall e :: e in pick ==> e in s
    ensures Chosen(s, pick) == |pick|
  {
    if s == [] {
      assert pick == {};
    } else {
      assert s == [s[0]] + s[1..];
      assert s[0] !in s[1..];
      ChosenSkips(s[1..], pick, s[0]);
      ChosenCount(s[1..], pick - {s[0]});
    }
  }

  lemma {:induction false} OccurrencesChosen(s: seq<Entry>, p: Peer, pick: set<Entry>)
    requires forall e :: e in s ==> (e in pick <==> e.peer == p)
    ensures Occurrences(PeersOf(s), p) == Chosen(s, pick)
  {
    if s != [] {
      assert PeersOf(s)[1..] == PeersOf(s[1..]);
      OccurrencesChosen(s[1..], p, pick);
    }
  }

  lemma {:induction false} MatchingChosen(used: seq<Entry>, group: map<Entry, nat>, sig: nat, pick: set<Entry>)
    requires forall e :: e in used ==> e in group && (e in pick <==> SigForGroup(group[e]) == sig)
    ensures Matching(Keys(used, group), sig) == Chosen(used, pick)
  {
    hide SigForGroup, Keys;
    if used != [] {
      KeysTail(used, group);
      MatchingChosen(used[1..], group, sig, pick);
    } else {
      NoKeys(group);
    }
  }

  lemma NoKeys(group: map<Entry, nat>)
    ensures Keys([], group) == []
  {
  }

  /**
   * A frame to the multicast MAC of group `g` goes to a peer once for every group of that peer that shares the
   * signature of `g`; in particular to every member of `g`, and to no peer without such a group.
   */
  lemma DeliveredPerMembership(ix: Index, t: GT.Table, max: nat, g: nat, p: Peer)
    requires Inv(ix) && GT.Inv(t, max) && t.mem == Members(ix)
    ensures Occurrences(PeersOf(Followers(ix, SigForMac(MacOfGroup(g)))), p)
         == if p in t.used then Matching(GT.PeerGroups(t, p, max), SigForGroup(g)) else 0
  {
    hide Inv, SigForGroup, SigForMac, MacOfGroup, GT.Indexed, Keys;
    GroupMacSig(g);
    var sig := SigForGroup(g);
    var found := Followers(ix, sig);
    IndexIsMembership(ix, sig);
    var pick := set e | e in found && e.peer == p;
    OccurrencesChosen(found, p, pick);
    ChosenCount(found, pick);
    if p in t.used {
      GT.PeerFacts(t, p, max);
      PickIsUsed(ix, t, max, sig, p, pick);
      MatchingChosen(t.used[p], GT.GroupOf(t), sig, pick);
      ChosenCount(t.used[p], pick);
    } else {
      forall e | e in found ensures e.peer != p { assert GT.Owned(t, e); }
      assert pick == {};
    }
  }

  /** The entries of `p` found under a signature are its used entries with that signature. */
  lemma PickIsUsed(ix: Index, t: GT.Table, max: nat, sig: nat, p: Peer, pick: set<Entry>)
    requires Inv(ix) && GT.Inv(t, max) && t.mem == Members(ix) && p in t.used
    requires forall e :: e in pick <==> e in Followers(ix, sig) && e.peer == p
    ensures forall e :: e in pick ==> e in t.used[p]
    ensures forall e :: e in t.used[p] ==> e in GT.GroupOf(t) && (e in pick <==> SigForGroup(GT.GroupOf(t)[e]) == sig)
  {
    hide Inv, SigForGroup, GT.Indexed, Keys, Followers, Members;
    IndexIsMembership(ix, sig);
    GT.PeerFacts(t, p, max);
    forall e | e in pick ensures e in t.used[p] { assert GT.Owned(t, e); }
    forall e | e in t.used[p] ensures e in t.mem && e.peer == p { GT.UsedInMem(t.used[p], t.trees[p], t.mem, e); }
  }

  lemma {:induction false} MatchingSome(groups: seq<nat>, g: nat)
    requires g in groups
    ensures Matching(groups, SigForGroup(g)) > 0
  {
    hide SigForGroup;
    if groups[0] != g { MatchingSome(groups[1..], g); }
  }

  /** Every member of the group gets the frame. */
  lemma MembersAreReached(ix: Index, t: GT.Table, max: nat, g: nat, p: Peer)
    requires Inv(ix) && GT.Inv(t, max) && t.mem == Members(ix) && p in t.used && g in GT.PeerGroups(t, p, max)
    ensures Occurrences(PeersOf(Followers(ix, SigForMac(MacOfGroup(g)))), p) > 0
  {
    DeliveredPerMembership(ix, t, max, g, p);
    MatchingSome(GT.PeerGroups(t, p, max), g);
  }

  // ------------------------------------------------------------------ group-specific queries

  /** The end times of the entries in `done` that are of group `g` are brought down to `limit`. */
  function Lowered(mem: map<Entry, Member>, done: seq<Entry>, g: nat, limit: int): map<Entry, Member> {
    map e | e in mem ::
      if e in done && mem[e].group == g && mem[e].endTime > limit then mem[e].(endTime := limit) else mem[e]
  }

  lemma LoweredNext(mem: map<Entry, Member>, done: seq<Entry>, e: Entry, g: nat, limit: int)
    requires e !in done && e in mem
    ensures var m, next := Lowered(mem, done, g, limit), Lowered(mem, done + [e], g, limit);
            && m[e] == mem[e]
            && next == if mem[e].group == g && mem[e].endTime > limit then m[e := Member(g, limit)] else m
  {
  }

  /** The entries found under the signature of `g` are enough: every membership in `g`, and no other, is lowered. */
  lemma QueryLowersGroup(ix: Index, t: GT.Table, max: nat, g: nat, limit: int)
    requires Inv(ix) && GT.Inv(t, max) && t.mem == Members(ix)
    ensures var t' := t.(mem := Lowered(t.mem, Followers(ix, SigForGroup(g)), g, limit));
            && t' == GT.Lower(t, g, limit) && GT.Inv(t', max)
            && (forall p :: p in t.used ==> GT.PeerGroups(t', p, max) == GT.PeerGroups(t, p, max))
            && (forall p, h ::
                  GT.EndOf(t', p, h) == if h == g then GT.AtMost(GT.EndOf(t, p, h), limit) else GT.EndOf(t, p, h))
  {
    hide Inv, SigForGroup, GT.Inv, GT.PeerGroups;
    var found := Followers(ix, SigForGroup(g));
    IndexIsMembership(ix, SigForGroup(g));
    assert Lowered(t.mem, found, g, limit) == GT.Lower(t, g, limit).mem;
    GT.LowerOk(t, g, limit, max);
  }
}
