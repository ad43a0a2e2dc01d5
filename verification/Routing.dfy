/** Where frames of the device go, said of the peers, their groups and the MACs they were last seen with. */
module Routing {
  import opened Lists
  import opened RecentSlots
  import MC = MacCache
  import GI = GroupIndex
  import GT = GroupTable
  import GD = GroupDelivery
  import opened FrameDeciderObject

  predicate OctetsOnly(mac: Mac) {
    |mac| == 6 && forall i :: 0 <= i < 6 ==> mac[i] < 256
  }

  /** Each of the peers once, and nobody else. */
  ghost predicate ToEveryone(dests: seq<Peer>, peers: seq<Peer>) {
    forall p :: GD.Occurrences(dests, p) == if p in peers then 1 else 0
  }

  /** One peer once, and nobody else. */
  ghost predicate ToOne(dests: seq<Peer>, q: Peer) {
    forall p :: GD.Occurrences(dests, p) == if p == q then 1 else 0
  }

  lemma {:induction false} EachOnce(peers: seq<Peer>, p: Peer)
    requires Distinct(peers)
    ensures GD.Occurrences(peers, p) == if p in peers then 1 else 0
  {
    if peers != [] {
      assert peers == [peers[0]] + peers[1..] && peers[0] !in peers[1..];
      EachOnce(peers[1..], p);
    }
  }

  lemma FloodReaches(peers: seq<Peer>)
    requires Distinct(peers)
    ensures ToEveryone(peers, peers)
  {
    forall p ensures GD.Occurrences(peers, p) == if p in peers then 1 else 0 { EachOnce(peers, p); }
  }

  lemma OnlyOne(q: Peer)
    ensures ToOne([q], q)
  {
    forall p ensures GD.Occurrences([q], p) == if p == q then 1 else 0 { assert [q][1..] == []; }
  }

  // ------------------------------------------------------------------ frames that go to everyone or to nobody

  /** Broadcasts and IGMP messages reach every peer exactly once. */
  lemma BroadcastReachesAll(ix: GI.Index, macs: MC.Table, peers: seq<Peer>, frame: Frame)
    requires GI.Inv(ix) && IsFrame(frame) && Distinct(peers) && frame.Frame?
    requires frame.dest == [255, 255, 255, 255, 255, 255] || !frame.body.Plain?
    ensures ToEveryone(Destinations(ix, macs, peers, frame), peers)
  {
    FloodReaches(peers);
  }

  lemma RuntReachesNone(ix: GI.Index, macs: MC.Table, peers: seq<Peer>, p: Peer)
    requires GI.Inv(ix)
    ensures GD.Occurrences(Destinations(ix, macs, peers, Runt), p) == 0
  {
  }

  // ------------------------------------------------------------------ frames to one host

  predicate ToHost(frame: Frame) {
    && frame.Frame? && |frame.dest| == 6 && frame.body.Plain?
    && frame.dest != [255, 255, 255, 255, 255, 255] && frame.dest[..3] != [0x01, 0x00, 0x5e]
  }

  /** A frame to a host goes to the peer that lists its MAC, and if there is none to every peer once. */
  lemma HostFrames(ix: GI.Index, macs: MC.Table, peers: seq<Peer>, max: nat, frame: Frame)
    requires GI.Inv(ix) && IsFrame(frame) && ToHost(frame) && MC.Inv(macs, max)
    requires Distinct(peers)
    ensures var dests, rec := Destinations(ix, macs, peers, frame), MC.Recency(macs, max);
            && (forall q :: q in rec && frame.dest in rec[q] ==> ToOne(dests, q))
            && ((forall q :: q in rec ==> frame.dest !in rec[q]) ==> ToEveryone(dests, peers))
  {
    hide MC.Inv, GI.Inv, MC.PeerMacs;
    var rec := MC.Recency(macs, max);
    FloodReaches(peers);
    MC.RecencyKeys(macs, max);
    forall q | q in rec ensures frame.dest in rec[q] <==> frame.dest in macs.tree && macs.tree[frame.dest].peer == q {
      MC.LookupIsOwner(macs, q, frame.dest, max);
    }
    if frame.dest in macs.tree {
      MC.NodeFacts(macs, frame.dest, max);
      OnlyOne(macs.tree[frame.dest].peer);
    }
  }

  /**
   * In every run of the MAC cache, a frame to a host goes to the peer it was last seen from, and to nobody else, unless
   * that peer was since seen with as many other hosts as it has entries; a host not seen from a peer that is there is
   * looked for at every peer; and there is no third case.
   */
  lemma HostIsReached(events: seq<MC.Event>, max: nat, ix: GI.Index, peers: seq<Peer>, frame: Frame)
    requires max > 0 && MC.IsRun(events, max) && GI.Inv(ix) && IsFrame(frame) && ToHost(frame) && Distinct(peers)
    ensures var dests, last := Destinations(ix, MC.Run(events, max), peers, frame), MC.LastSeen(events, frame.dest);
            && (last.None? ==> ToEveryone(dests, peers))
            && (last.Some? && |MC.SeenSince(events, last.value, frame.dest)| < max ==> ToOne(dests, last.value))
            && (last.Some? ==> ToOne(dests, last.value) || ToEveryone(dests, peers))
  {
    hide MC.Run, MC.Inv, GI.Inv, MC.PeerMacs, ToOne, ToEveryone, Destinations, MC.IsRun;
    var macs, m := MC.Run(events, max), frame.dest;
    var last := MC.LastSeen(events, m);
    HostFrames(ix, macs, peers, max, frame);
    MC.RecencyKeys(macs, max);
    var rec := MC.Recency(macs, max);
    forall q | q in rec ensures m in rec[q] ==> last == Some(q) { MC.LeastRecentlySeen(events, q, m, max); }
    if last.Some? { MC.LeastRecentlySeen(events, last.value, m, max); }
  }

  // ------------------------------------------------------------------ frames to a group

  /** How many of the groups have these low 23 bits. */
  function WithLowBits(groups: seq<nat>, low: nat): nat {
    if groups == [] then 0 else (if groups[0] % 0x80_0000 == low then 1 else 0) + WithLowBits(groups[1..], low)
  }

  lemma {:induction false} MatchingLowBits(groups: seq<nat>, low: nat)
    requires low < 0x80_0000
    ensures GD.Matching(groups, GI.SigForGroup(low)) == WithLowBits(groups, low)
  {
    if groups != [] { MatchingLowBits(groups[1..], low); }
  }

  lemma SigOfOctets(mac: Mac)
    requires OctetsOnly(mac) && mac[2] == 0x5e
    ensures var low := (mac[3] % 128) * 0x1_0000 + mac[4] * 0x100 + mac[5];
            low < 0x80_0000 && GI.SigForMac(mac) == GI.SigForGroup(low)
  {
    var b, c, d := mac[3], mac[4], mac[5];
    var low, k := (b % 128) * 65536 + c * 256 + d, 188 + b / 128;
    assert b == 128 * (b / 128) + b % 128;
    assert ((0x5e * 256 + b) * 256 + c) * 256 + d == k * 0x80_0000 + low;
    LowBits(k, low);
  }

  lemma LowBits(k: nat, low: nat)
    requires low < 0x80_0000
    ensures (k * 0x80_0000 + low) % 0x80_0000 == low
  {
  }

  /** A frame to a multicast MAC goes to each peer once per group whose low 23 bits are those of the MAC. */
  lemma GroupFrames(ix: GI.Index, macs: MC.Table, peers: seq<Peer>, t: GT.Table, max: nat, frame: Frame, p: Peer)
    requires GI.Inv(ix) && GT.Inv(t, max) && t.mem == GI.Members(ix) && IsFrame(frame)
    requires frame.Frame? && frame.body.Plain? && OctetsOnly(frame.dest) && frame.dest[..3] == [0x01, 0x00, 0x5e]
    ensures var low := (frame.dest[3] % 128) * 0x1_0000 + frame.dest[4] * 0x100 + frame.dest[5];
            GD.Occurrences(Destinations(ix, macs, peers, frame), p) ==
            if p in t.used then WithLowBits(GT.PeerGroups(t, p, max), low) else 0
  {
    hide GI.Inv, GT.Inv, GI.Followers, GI.SigForGroup, GI.SigForMac, GT.PeerGroups, GD.PeersOf;
    var mac := frame.dest;
    assert mac[..3][0] == mac[0] && mac[..3][2] == mac[2];
    assert mac != BROADCAST;
    var low := (mac[3] % 128) * 0x1_0000 + mac[4] * 0x100 + mac[5];
    SigOfOctets(mac);
    GI.GroupMacSig(low);
    GD.DeliveredPerMembership(ix, t, max, low, p);
    if p in t.used { MatchingLowBits(GT.PeerGroups(t, p, max), low); }
  }
}
