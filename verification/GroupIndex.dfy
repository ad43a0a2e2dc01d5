/**
 * The multicast index of the frame decider: group entries with the same 23-bit signature form a list, found through
 * one elected master entry in a tree.
 */
module GroupIndex {
  import opened Lists
  import opened RecentSlots

  /** A used entry. `list` names the intrusive list it is linked into. */
  datatype EntryState = EntryState(group: nat, isMaster: bool, list: nat, endTime: int)

  /**
   * The used entries, the multicast tree, and the intrusive lists; a list is named by the signature it started with.
   */
  datatype Index = Index(entries: map<Entry, EntryState>, tree: map<nat, Entry>, lists: map<nat, seq<Entry>>)

  const EMPTY := Index(map[], map[], map[])

  // ------------------------------------------------------------------ signatures

  /** compute_sig_for_group: the low 23 bits of the address */
  function SigForGroup(group: nat): nat {
    group % 0x80_0000
  }

  /** compute_sig_for_mac: the low 23 bits of the last four bytes */
  function SigForMac(mac: seq<nat>): nat
    requires |mac| == 6
  {
    (((mac[2] * 256 + mac[3]) * 256 + mac[4]) * 256 + mac[5]) % 0x80_0000
  }

  /** The MAC address IPv4 multicast to `group` uses (section 6.4 of RFC 1112). */
  function MacOfGroup(group: nat): (mac: seq<nat>)
    ensures |mac| == 6
  {
    [0x01, 0x00, 0x5e, (group / 65536) % 128, (group / 256) % 256, group % 256]
  }

  lemma GroupMacSig(group: nat)
    ensures SigForMac(MacOfGroup(group)) == SigForGroup(group)
  {
    var b, c, d := (group / 65536) % 128, (group / 256) % 256, group % 256;
    var low := b * 65536 + c * 256 + d;
    assert group % 0x80_0000 == low by {
      assert group == 65536 * (group / 65536) + group % 65536;
      assert group / 65536 == 128 * (group / 65536 / 128) + b;
      assert group % 65536 == c * 256 + d;
    }
    assert ((0x5e * 256 + b) * 256 + c) * 256 + d == 188 * 0x80_0000 + low;
  }

  // ------------------------------------------------------------------ operations

  function InsertAfter(s: seq<Entry>, at: Entry, e: Entry): (r: seq<Entry>)
    ensures at in s ==> forall x :: x in r <==> x == e || x in s
    ensures at in s && e !in s && Distinct(s) ==> Distinct(r)
  {
    if s == [] then []
    else if s[0] == at then
      assert s == [s[0]] + s[1..];
      [s[0], e] + s[1..]
    else
      assert s == [s[0]] + s[1..];
      var rest := InsertAfter(s[1..], at, e);
      assert at in s && e !in s && Distinct(s) ==> s[0] !in rest;
      [s[0]] + rest
  }

  /** LinkedList3Node_NextOrPrev */
  function NextOrPrev(s: seq<Entry>, e: Entry): (r: Entry)
    requires e in s && |s| > 1 && Distinct(s)
    ensures r in s && r != e
  {
    if s[0] == e then s[1]
    else if |s| == 2 then s[0]
    else if s[1] == e then s[2]
    else
      assert s == [s[0]] + s[1..];
      NextOrPrev(s[1..], e)
  }

  /** The new node stands right behind the old one. */
  lemma {:induction false} InsertAfterAt(s: seq<Entry>, k: nat, e: Entry)
    requires k < |s| && Distinct(s)
    ensures InsertAfter(s, s[k], e) == s[..k + 1] + [e] + s[k + 1..]
  {
    if k > 0 {
      InsertAfterAt(s[1..], k - 1, e);
      assert [s[0]] + (s[1..][..k] + [e] + s[1..][k..]) == s[..k + 1] + [e] + s[k + 1..];
    }
  }

  /** The next node, or the one before if there is none. */
  lemma {:induction false} NextOrPrevAt(s: seq<Entry>, k: nat)
    requires k < |s| && |s| > 1 && Distinct(s)
    ensures NextOrPrev(s, s[k]) == if k + 1 < |s| then s[k + 1] else s[k - 1]
  {
    if k > 0 && |s| > 2 && k != 1 { NextOrPrevAt(s[1..], k - 1); }
  }

  /** The entry joins the list of the master of its signature. */
  function JoinList(ix: Index, e: Entry, group: nat, endTime: int): Index
    requires Inv(ix) && SigForGroup(group) in ix.tree
  {
    var master := ix.tree[SigForGroup(group)];
    MasterFacts(ix, SigForGroup(group));
    var l := ix.entries[master].list;
    ix.(entries := ix.entries[e := EntryState(group, false, l, endTime)],
        lists := ix.lists[l := InsertAfter(ix.lists[l], master, e)])
  }

  /** The entry starts a list and becomes its master. */
  function StartList(ix: Index, e: Entry, group: nat, endTime: int): Index {
    var sig := SigForGroup(group);
    ix.(entries := ix.entries[e := EntryState(group, true, sig, endTime)],
        tree := ix.tree[sig := e],
        lists := ix.lists[sig := [e]])
  }

  /** add_to_multicast for an entry that was just given its group */
  function AddEntry(ix: Index, e: Entry, group: nat, endTime: int): Index
    requires Inv(ix)
  {
    if SigForGroup(group) in ix.tree then JoinList(ix, e, group, endTime) else StartList(ix, e, group, endTime)
  }

  /** Taking an entry off its list; a list nothing is linked into is gone. */
  function Unlink(ix: Index, e: Entry): Index
    requires e in ix.entries && ix.entries[e].list in ix.lists
  {
    var l := ix.entries[e].list;
    var rest := Without(ix.lists[l], e);
    ix.(entries := ix.entries - {e}, lists := if rest == [] then ix.lists - {l} else ix.lists[l := rest])
  }

  /** The neighbour that is to inherit the mastership of `e`. */
  function Heir(ix: Index, e: Entry): (heir: Entry)
    requires Inv(ix) && e in ix.entries && ix.entries[e].list in ix.lists && |ix.lists[ix.entries[e].list]| > 1
    ensures heir != e && heir in ix.entries && ix.entries[heir].list == ix.entries[e].list
  {
    EntryFacts(ix, e);
    var heir := NextOrPrev(ix.lists[ix.entries[e].list], e);
    ListFacts(ix, ix.entries[e].list, heir);
    heir
  }

  /** Handing the mastership of a signature from `e` to its neighbour. */
  function PassOn(ix: Index, e: Entry): Index
    requires Inv(ix) && e in ix.entries && ix.entries[e].list in ix.lists && |ix.lists[ix.entries[e].list]| > 1
  {
    var heir := Heir(ix, e);
    ix.(tree := ix.tree[SigForGroup(ix.entries[e].group) := heir],
        entries := ix.entries[e := ix.entries[e].(isMaster := false)][heir := ix.entries[heir].(isMaster := true)])
  }

  /** remove_from_multicast, after which the entry is no longer in use */
  function RemoveEntry(ix: Index, e: Entry): Index
    requires Inv(ix) && e in ix.entries
  {
    EntryFacts(ix, e);
    if !ix.entries[e].isMaster then Unlink(ix, e)
    else if |ix.lists[ix.entries[e].list]| == 1 then
      Unlink(ix.(tree := ix.tree - {SigForGroup(ix.entries[e].group)}), e)
    else
      PassOnInv(ix, e);
      EntryFacts(PassOn(ix, e), e);
      Unlink(PassOn(ix, e), e)
  }

  /** The timer of an entry that stays in use is set. */
  function SetEndTime(ix: Index, e: Entry, endTime: int): Index
    requires e in ix.entries
  {
    ix.(entries := ix.entries[e := ix.entries[e].(endTime := endTime)])
  }

  // ------------------------------------------------------------------ invariant

  /** A used entry is linked into the list of its signature, and is the master exactly if the tree says so. */
  ghost predicate EntryOk(ix: Index, e: Entry)
    requires e in ix.entries
  {
    var sig := SigForGroup(ix.entries[e].group);
    && ix.entries[e].list == sig && sig in ix.lists && e in ix.lists[sig]
    && sig in ix.tree && (ix.entries[e].isMaster <==> ix.tree[sig] == e)
  }

  ghost predicate ListOk(ix: Index, l: nat)
    requires l in ix.lists
  {
    && ix.lists[l] != [] && Distinct(ix.lists[l])
    && (forall x :: x in ix.lists[l] ==> x in ix.entries && ix.entries[x].list == l)
  }

  ghost predicate MasterOk(ix: Index, sig: nat)
    requires sig in ix.tree
  {
    ix.tree[sig] in ix.entries && ix.entries[ix.tree[sig]].list == sig
  }

  ghost predicate EntriesOk(ix: Index) {
    forall e :: e in ix.entries ==> EntryOk(ix, e)
  }

  ghost predicate ListsOk(ix: Index) {
    forall l :: l in ix.lists ==> ListOk(ix, l)
  }

  ghost predicate TreeOk(ix: Index) {
    forall sig :: sig in ix.tree ==> MasterOk(ix, sig)
  }

  ghost predicate Inv(ix: Index) {
    EntriesOk(ix) && ListsOk(ix) && TreeOk(ix)
  }

  lemma EntryFacts(ix: Index, e: Entry)
    requires Inv(ix) && e in ix.entries
    ensures var l := ix.entries[e].list;
            && l == SigForGroup(ix.entries[e].group) && l in ix.lists && e in ix.lists[l] && Distinct(ix.lists[l])
            && l in ix.tree && (ix.entries[e].isMaster <==> ix.tree[l] == e)
            && ix.tree[l] in ix.entries && ix.entries[ix.tree[l]].list == l && ix.tree[l] in ix.lists[l]
  {
    hide SigForGroup;
    assert EntryOk(ix, e);
    assert ListOk(ix, ix.entries[e].list);
    assert MasterOk(ix, ix.entries[e].list);
    assert EntryOk(ix, ix.tree[ix.entries[e].list]);
  }

  lemma MasterFacts(ix: Index, sig: nat)
    requires Inv(ix) && sig in ix.tree
    ensures var m := ix.tree[sig];
            && m in ix.entries && ix.entries[m].list == sig && sig in ix.lists && m in ix.lists[sig]
            && ix.entries[m].isMaster && SigForGroup(ix.entries[m].group) == sig && Distinct(ix.lists[sig])
  {
    hide SigForGroup;
    assert MasterOk(ix, sig);
    assert EntryOk(ix, ix.tree[sig]);
    assert ListOk(ix, sig);
  }

  lemma ListFacts(ix: Index, l: nat, x: Entry)
    requires Inv(ix) && l in ix.lists && x in ix.lists[l]
    ensures x in ix.entries && ix.entries[x].list == l && l in ix.tree
  {
    hide SigForGroup;
    assert ListOk(ix, l);
    assert EntryOk(ix, x);
  }

  lemma JoinListInv(ix: Index, e: Entry, group: nat, endTime: int)
    requires Inv(ix) && e !in ix.entries && SigForGroup(group) in ix.tree
    ensures Inv(JoinList(ix, e, group, endTime))
  {
    hide SigForGroup, InsertAfter, Distinct;
    var r, sig := JoinList(ix, e, group, endTime), SigForGroup(group);
    MasterFacts(ix, sig);
    assert ListOk(ix, sig);
    assert e !in ix.lists[sig];
    forall x | x in r.entries ensures EntryOk(r, x) {
      if x != e { assert EntryOk(ix, x); } else { assert ix.tree[sig] in ix.entries; }
    }
    forall l | l in r.lists ensures ListOk(r, l) { assert ListOk(ix, l); }
    forall s | s in r.tree ensures MasterOk(r, s) { assert MasterOk(ix, s); }
  }

  lemma NoStaleList(ix: Index, sig: nat)
    requires Inv(ix) && sig !in ix.tree
    ensures sig !in ix.lists
  {
    hide SigForGroup, Distinct;
    if sig in ix.lists {
      assert ListOk(ix, sig);
      ListFacts(ix, sig, ix.lists[sig][0]);
    }
  }

  lemma StartListInv(ix: Index, e: Entry, group: nat, endTime: int)
    requires Inv(ix) && e !in ix.entries && SigForGroup(group) !in ix.tree
    ensures Inv(StartList(ix, e, group, endTime))
  {
    hide SigForGroup, Distinct;
    var r, sig := StartList(ix, e, group, endTime), SigForGroup(group);
    NoStaleList(ix, sig);
    OneDistinct(e);
    assert EntriesOk(r) by {
      hide ListsOk, TreeOk;
      forall x | x in r.entries ensures EntryOk(r, x) { if x != e { assert EntryOk(ix, x); } }
    }
    assert ListsOk(r) by {
      hide EntriesOk, TreeOk;
      forall l | l in r.lists ensures ListOk(r, l) { if l != sig { assert ListOk(ix, l); } }
    }
    assert TreeOk(r) by {
      hide EntriesOk, ListsOk;
      forall s | s in r.tree ensures MasterOk(r, s) { if s != sig { assert MasterOk(ix, s); } }
    }
    hide EntriesOk, ListsOk, TreeOk;
  }

  lemma OneDistinct(e: Entry)
    ensures Distinct([e])
  {
  }

  lemma AddEntryInv(ix: Index, e: Entry, group: nat, endTime: int)
    requires Inv(ix) && e !in ix.entries
    ensures Inv(AddEntry(ix, e, group, endTime))
  {
    hide Inv;
    if SigForGroup(group) in ix.tree {
      JoinListInv(ix, e, group, endTime);
    } else {
      StartListInv(ix, e, group, endTime);
    }
  }

  /** The entry is linked in after the master of its signature, or starts a list of its own. */
  lemma AddEntryLists(ix: Index, e: Entry, group: nat, endTime: int)
    requires Inv(ix) && e !in ix.entries
    ensures var r, sig := AddEntry(ix, e, group, endTime), SigForGroup(group);
            && (forall x :: x in ix.entries ==> x in r.entries && r.entries[x].list == ix.entries[x].list)
            && (forall l :: l in ix.lists && l != sig ==> l in r.lists && r.lists[l] == ix.lists[l])
            && (if sig in ix.tree then
                  sig in ix.lists && sig in r.lists && r.lists[sig] == InsertAfter(ix.lists[sig], ix.tree[sig], e)
                else sig !in ix.lists)
  {
    hide Inv, SigForGroup, InsertAfter;
    var sig := SigForGroup(group);
    if sig in ix.tree { MasterFacts(ix, sig); } else { NoStaleList(ix, sig); }
  }

  lemma UnlinkInv(ix: Index, e: Entry)
    requires Inv(ix) && e in ix.entries && !ix.entries[e].isMaster
    ensures ix.entries[e].list in ix.lists && Inv(Unlink(ix, e))
  {
    hide SigForGroup, Without, Distinct;
    EntryFacts(ix, e);
    var r, l := Unlink(ix, e), ix.entries[e].list;
    assert ListOk(ix, l);
    assert ix.tree[l] in Without(ix.lists[l], e);
    forall x | x in r.entries ensures EntryOk(r, x) { assert EntryOk(ix, x); }
    forall m | m in r.lists ensures ListOk(r, m) { assert ListOk(ix, m); }
    forall s | s in r.tree ensures MasterOk(r, s) { assert MasterOk(ix, s); }
  }

  lemma PassOnInv(ix: Index, e: Entry)
    requires Inv(ix) && e in ix.entries && ix.entries[e].isMaster
    requires ix.entries[e].list in ix.lists && |ix.lists[ix.entries[e].list]| > 1
    ensures Inv(PassOn(ix, e)) && e in PassOn(ix, e).entries && !PassOn(ix, e).entries[e].isMaster
  {
    hide SigForGroup, Heir, Distinct;
    EntryFacts(ix, e);
    var r, l, heir := PassOn(ix, e), ix.entries[e].list, Heir(ix, e);
    EntryFacts(ix, heir);
    forall x | x in r.entries ensures EntryOk(r, x) { assert EntryOk(ix, x); }
    forall m | m in r.lists ensures ListOk(r, m) { assert ListOk(ix, m); }
    forall s | s in r.tree ensures MasterOk(r, s) { assert MasterOk(ix, s); }
  }

  lemma OnlyMember(s: seq<Entry>, e: Entry, x: Entry)
    requires |s| == 1 && e in s && x in s
    ensures x == e && Without(s, e) == []
  {
    assert s == [e];
  }

  lemma RemoveLastInv(ix: Index, e: Entry)
    requires Inv(ix) && e in ix.entries && ix.entries[e].list in ix.lists && |ix.lists[ix.entries[e].list]| == 1
    ensures Inv(Unlink(ix.(tree := ix.tree - {SigForGroup(ix.entries[e].group)}), e))
  {
    hide SigForGroup, Without, Distinct;
    EntryFacts(ix, e);
    var l := ix.entries[e].list;
    var r := Unlink(ix.(tree := ix.tree - {SigForGroup(ix.entries[e].group)}), e);
    OnlyMember(ix.lists[l], e, e);
    forall x | x in r.entries ensures EntryOk(r, x) {
      assert EntryOk(ix, x);
      if ix.entries[x].list == l { OnlyMember(ix.lists[l], e, x); }
    }
    forall m | m in r.lists ensures ListOk(r, m) { assert ListOk(ix, m); }
    forall s | s in r.tree ensures MasterOk(r, s) { assert MasterOk(ix, s); assert s != l; }
  }

  lemma RemoveEntryInv(ix: Index, e: Entry)
    requires Inv(ix) && e in ix.entries
    ensures Inv(RemoveEntry(ix, e))
  {
    hide Inv, SigForGroup, Unlink;
    EntryFacts(ix, e);
    if !ix.entries[e].isMaster {
      UnlinkInv(ix, e);
    } else if |ix.lists[ix.entries[e].list]| == 1 {
      RemoveLastInv(ix, e);
    } else {
      PassOnInv(ix, e);
      UnlinkInv(PassOn(ix, e), e);
    }
  }

  /** Removing an entry takes it off its list; every other entry stays on the list it was on, in its place. */
  lemma RemoveEntryLists(ix: Index, e: Entry)
    requires Inv(ix) && e in ix.entries
    ensures var r, l := RemoveEntry(ix, e), ix.entries[e].list;
            && l in ix.lists
            && (forall k :: k in ix.lists && k != l ==> k in r.lists && r.lists[k] == ix.lists[k])
            && (Without(ix.lists[l], e) != [] ==> l in r.lists && r.lists[l] == Without(ix.lists[l], e))
            && (forall x :: x in ix.entries && x != e ==> x in r.entries && r.entries[x].list == ix.entries[x].list)
  {
    hide Inv, SigForGroup, Heir, Without;
    EntryFacts(ix, e);
  }

  lemma SetEndTimeInv(ix: Index, e: Entry, endTime: int)
    requires Inv(ix) && e in ix.entries
    ensures Inv(SetEndTime(ix, e, endTime))
  {
    hide SigForGroup, Distinct;
    var r := SetEndTime(ix, e, endTime);
    forall x | x in r.entries ensures EntryOk(r, x) { assert EntryOk(ix, x); }
    forall l | l in r.lists ensures ListOk(r, l) { assert ListOk(ix, l); }
    forall s | s in r.tree ensures MasterOk(r, s) { assert MasterOk(ix, s); }
  }

  // ------------------------------------------------------------------ the simple membership relation

  datatype Member = Member(group: nat, endTime: int)

  /** What the index stands for: who is a member of what, and until when. */
  function Members(ix: Index): map<Entry, Member> {
    map e | e in ix.entries :: Member(ix.entries[e].group, ix.entries[e].endTime)
  }

  lemma AddEntryMembers(ix: Index, e: Entry, group: nat, endTime: int)
    requires Inv(ix)
    ensures Members(AddEntry(ix, e, group, endTime)) == Members(ix)[e := Member(group, endTime)]
  {
    hide Inv, SigForGroup, InsertAfter;
  }

  lemma RemoveEntryMembers(ix: Index, e: Entry)
    requires Inv(ix) && e in ix.entries
    ensures Members(RemoveEntry(ix, e)) == Members(ix) - {e}
  {
    hide Inv, SigForGroup, Heir, Without;
  }

  lemma SetEndTimeMembers(ix: Index, e: Entry, endTime: int)
    requires e in ix.entries
    ensures Members(SetEndTime(ix, e, endTime)) == Members(ix)[e := Member(ix.entries[e].group, endTime)]
  {
  }

  /** The entries a lookup of `sig` in the multicast tree leads to. */
  function Followers(ix: Index, sig: nat): seq<Entry>
    requires Inv(ix)
  {
    if sig !in ix.tree then [] else
      MasterFacts(ix, sig);
      ix.lists[ix.entries[ix.tree[sig]].list]
  }

  /** The elected master of a signature. */
  predicate IsMasterOf(ix: Index, e: Entry, sig: nat) {
    e in ix.entries && ix.entries[e].isMaster && SigForGroup(ix.entries[e].group) == sig
  }

  /**
   * The index agrees with membership: looking up a signature finds every member of a group with that signature, each
   * once, and nothing else.
   */
  lemma IndexIsMembership(ix: Index, sig: nat)
    requires Inv(ix)
    ensures Distinct(Followers(ix, sig))
    ensures forall e :: e in Followers(ix, sig) <==> e in Members(ix) && SigForGroup(Members(ix)[e].group) == sig
  {
    hide Inv, SigForGroup, Distinct;
    if sig in ix.tree { MasterFacts(ix, sig); } else { EmptyDistinct(); }
    forall e ensures e in Followers(ix, sig) <==> e in Members(ix) && SigForGroup(Members(ix)[e].group) == sig {
      if e in Followers(ix, sig) { ListFacts(ix, sig, e); EntryFacts(ix, e); }
      if e in ix.entries && SigForGroup(ix.entries[e].group) == sig { EntryFacts(ix, e); }
    }
  }

  lemma EmptyDistinct()
    ensures Distinct<Entry>([])
  {
  }

  /** A signature in use has exactly one master, the one in the tree; a signature not in use has none. */
  lemma OneMaster(ix: Index, sig: nat)
    requires Inv(ix)
    ensures sig in ix.tree <==> exists e :: e in ix.entries && SigForGroup(ix.entries[e].group) == sig
    ensures forall e :: IsMasterOf(ix, e, sig) <==> sig in ix.tree && ix.tree[sig] == e
  {
    hide Inv, SigForGroup, Distinct;
    if sig in ix.tree { MasterFacts(ix, sig); }
    forall e | e in ix.entries && SigForGroup(ix.entries[e].group) == sig
      ensures sig in ix.tree && (ix.entries[e].isMaster <==> ix.tree[sig] == e)
    {
      EntryFacts(ix, e);
    }
  }
}
