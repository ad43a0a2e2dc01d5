/** Group memberships over whole runs: how long a peer stays a member of a group it reported. */
module GroupRuns {
  import opened Lists
  import opened RecentSlots
  import opened GroupTable

  /** The entries per peer, the membership interval and the last member query time. */
  datatype Settings = Settings(max: nat, interval: int, queryTime: int)

  datatype World = World(t: Table, now: int)

  const EMPTY := Table(map[], map[], map[], map[])

  datatype Event = Joined(peer: Peer) | Left(peer: Peer) | Reported(peer: Peer, group: nat) | Queried(group: nat)
                 | Expired(entry: Entry) | Pass(until: int)

  /** Peers that join are new, only present peers report, and timers fire when they are due. */
  predicate Allowed(w: World, ev: Event) {
    match ev
    case Joined(p) => p !in w.t.used
    case Left(p) => p in w.t.used
    case Reported(p, _) => p in w.t.used
    case Queried(_) => true
    case Expired(e) => e in w.t.mem && w.t.mem[e].endTime <= w.now
    case Pass(until) => w.now <= until && forall e :: e in w.t.mem ==> until <= w.t.mem[e].endTime
  }

  ghost function Handle(w: World, ev: Event, s: Settings): (r: World)
    requires s.max > 0 && Inv(w.t, s.max) && Allowed(w, ev)
    ensures Inv(r.t, s.max)
  {
    HandleInv(w, ev, s);
    match ev
    case Joined(p) => w.(t := AddPeer(w.t, p, s.max))
    case Left(p) => w.(t := DropPeer(w.t, p))
    case Reported(p, g) => w.(t := Report(w.t, p, g, w.now + s.interval, s.max))
    case Queried(g) => w.(t := Lower(w.t, g, w.now + s.queryTime))
    case Expired(e) => w.(t := Drop(w.t, e))
    case Pass(until) => w.(now := until)
  }

  lemma HandleInv(w: World, ev: Event, s: Settings)
    requires s.max > 0 && Inv(w.t, s.max) && Allowed(w, ev)
    ensures ev.Joined? ==> Inv(AddPeer(w.t, ev.peer, s.max), s.max)
    ensures ev.Left? ==> Inv(DropPeer(w.t, ev.peer), s.max)
    ensures ev.Queried? ==> Inv(Lower(w.t, ev.group, w.now + s.queryTime), s.max)
    ensures ev.Expired? ==>
              var p := ev.entry.peer;
              p in w.t.used && p in w.t.free && p in w.t.trees && Inv(Drop(w.t, ev.entry), s.max)
  {
    hide Inv, SamePeer, PeerGroups, EndOf;
    match ev
    case Joined(p) => AddPeerOk(w.t, p, s.max);
    case Left(p) => DropPeerOk(w.t, p, s.max);
    case Queried(g) => LowerOk(w.t, g, w.now + s.queryTime, s.max);
    case Expired(e) => DropOk(w.t, e, s.max);
    case _ =>
  }

  /** A run from the empty table at time 0; events that may not happen in the state they meet are skipped. */
  ghost function Run(evs: seq<Event>, s: Settings): (r: World)
    requires s.max > 0
    ensures Inv(r.t, s.max)
  {
    if evs == [] then World(EMPTY, 0) else
      var w := Run(evs[..|evs| - 1], s);
      if Allowed(w, evs[|evs| - 1]) then Handle(w, evs[|evs| - 1], s) else w
  }

  ghost predicate IsRun(evs: seq<Event>, s: Settings)
    requires s.max > 0
  {
    evs != [] ==>
      var before := evs[..|evs| - 1];
      IsRun(before, s) && Allowed(Run(before, s), evs[|evs| - 1])
  }

  // ------------------------------------------------------------------ what the history promises

  /**
   * Until when `p` should count as a member of `g`: an interval from its last report, less if there was a query since.
   */
  ghost function Promised(evs: seq<Event>, s: Settings, p: Peer, g: nat): Option<int>
    requires s.max > 0
  {
    if evs == [] then None else
      var before := evs[..|evs| - 1];
      Next(Promised(before, s, p, g), evs[|evs| - 1], s, Run(before, s).now, p, g)
  }

  function Next(end: Option<int>, ev: Event, s: Settings, now: int, p: Peer, g: nat): Option<int> {
    match ev
    case Left(q) => if q == p then None else end
    case Reported(q, h) => if q == p && h == g then Some(now + s.interval) else end
    case Queried(h) => if h == g then AtMost(end, now + s.queryTime) else end
    case _ => end
  }

  /** The other groups `p` reported since it last reported `g`. */
  function ReportedSince(evs: seq<Event>, p: Peer, g: nat): set<nat> {
    if evs == [] then {} else NextSince(ReportedSince(evs[..|evs| - 1], p, g), evs[|evs| - 1], p, g)
  }

  function NextSince(since: set<nat>, ev: Event, p: Peer, g: nat): set<nat> {
    if ev.Reported? && ev.peer == p then (if ev.group == g then {} else since + {ev.group}) else since
  }

  // ------------------------------------------------------------------ what the table keeps

  /** A listed group ends when promised, has not run out, and what is listed as newer was reported since. */
  ghost predicate Listed(w: World, s: Settings, p: Peer, g: nat, end: Option<int>, since: set<nat>)
    requires Inv(w.t, s.max)
  {
    EndOf(w.t, p, g).Some? ==>
      && EndOf(w.t, p, g) == end && w.now <= end.value
      && (p in w.t.used ==> forall x :: x in Newer(PeerGroups(w.t, p, s.max), g) ==> x in since)
  }

  /** A promised membership is there unless it has run out or was displaced. */
  ghost predicate Kept(w: World, s: Settings, p: Peer, g: nat, end: Option<int>, since: set<nat>) {
    end.Some? ==> p in w.t.used && (EndOf(w.t, p, g).Some? || end.value <= w.now || |since| >= s.max)
  }

  ghost predicate Tracks(w: World, s: Settings, p: Peer, g: nat, end: Option<int>, since: set<nat>)
    requires Inv(w.t, s.max)
  {
    Listed(w, s, p, g, end, since) && Kept(w, s, p, g, end, since)
  }

  lemma GroupsFacts(t: Table, p: Peer, g: nat, max: nat)
    requires Inv(t, max)
    ensures p !in t.used ==> EndOf(t, p, g).None?
    ensures p in t.used ==> Distinct(PeerGroups(t, p, max)) && |PeerGroups(t, p, max)| <= max
    ensures p in t.used ==> (g in PeerGroups(t, p, max) <==> EndOf(t, p, g).Some?)
  {
    hide Indexed, Keyed;
    InvKeys(t, max);
    if p in t.used {
      ListedHasEnd(t, p, g, max);
      PeerFacts(t, p, max);
      DistinctGroups(t, p, max);
    }
  }

  lemma DistinctGroups(t: Table, p: Peer, max: nat)
    requires Inv(t, max) && p in t.used
    ensures Distinct(PeerGroups(t, p, max))
  {
    PeerFacts(t, p, max);
  }

  /** Nothing about `p` changed, and no time passed. */
  lemma SameTracks(w: World, n: World, s: Settings, p: Peer, g: nat, end: Option<int>, since: set<nat>)
    requires Inv(w.t, s.max) && Inv(n.t, s.max) && SamePeer(w.t, n.t, p, s.max) && n.now == w.now
    requires Tracks(w, s, p, g, end, since)
    ensures Tracks(n, s, p, g, end, since)
  {
    hide Inv, PeerGroups, Newer;
  }

  lemma ReportTracks(w: World, n: World, s: Settings, p: Peer, h: nat, g: nat, end: Option<int>, since: set<nat>)
    requires s.max > 0 && s.interval >= 0 && Inv(w.t, s.max) && p in w.t.used && n.now == w.now
    requires RefinesReport(w.t, n.t, p, h, w.now + s.interval, s.max) && Tracks(w, s, p, g, end, since)
    ensures var end', since' := if h == g then Some(w.now + s.interval) else end, if h == g then {} else since + {h};
            Tracks(n, s, p, g, end', since')
  {
    hide Inv, PeerGroups, Newer, Touch, SamePeer, Without;
    var before := PeerGroups(w.t, p, s.max);
    GroupsFacts(w.t, p, g, s.max);
    GroupsFacts(n.t, p, g, s.max);
    if h == g {
      TouchNewest(before, g, s.max);
    } else {
      SinceGrows(since, h);
      if g in before { TouchListed(before, h, g, since, s.max); } else { TouchMembers(before, h, g, s.max); }
    }
  }

  lemma LeaveTracks(w: World, n: World, s: Settings, p: Peer, h: nat, g: nat, end: Option<int>, since: set<nat>)
    requires Inv(w.t, s.max) && p in w.t.used && n.now == w.now && RefinesLeave(w.t, n.t, p, h, s.max)
    requires EndOf(w.t, p, h).Some? && EndOf(w.t, p, h).value <= w.now && Tracks(w, s, p, g, end, since)
    ensures Tracks(n, s, p, g, end, since)
  {
    hide Inv, PeerGroups, Newer, SamePeer, Without;
    if h != g && EndOf(n.t, p, g).Some? {
      forall x | x in Newer(PeerGroups(n.t, p, s.max), g) ensures x in since {
        NewerWithout(PeerGroups(w.t, p, s.max), h, g, x);
      }
    }
  }

  lemma LowerTracks(w: World, n: World, s: Settings, h: nat, p: Peer, g: nat, end: Option<int>, since: set<nat>)
    requires s.queryTime >= 0 && Inv(w.t, s.max) && Tracks(w, s, p, g, end, since)
    requires n == w.(t := Lower(w.t, h, w.now + s.queryTime)) && Inv(n.t, s.max)
    ensures Tracks(n, s, p, g, if h == g then AtMost(end, w.now + s.queryTime) else end, since)
  {
    hide Inv, PeerGroups, Newer;
    LowerOk(w.t, h, w.now + s.queryTime, s.max);
  }

  lemma PassTracks(w: World, s: Settings, until: int, p: Peer, g: nat, end: Option<int>, since: set<nat>)
    requires Inv(w.t, s.max) && Allowed(w, Pass(until)) && Tracks(w, s, p, g, end, since)
    ensures Tracks(w.(now := until), s, p, g, end, since)
  {
    hide Inv, PeerGroups, Newer;
  }

  /** The entry that expires is that of a listed group. */
  lemma EntryOfGroup(t: Table, e: Entry, max: nat)
    requires Inv(t, max) && e in t.mem
    ensures e.peer in t.used && EndOf(t, e.peer, t.mem[e].group) == Some(t.mem[e].endTime)
  {
    hide Indexed, PoolOk;
    InvOwned(t, e, max);
    InvKeys(t, max);
    PeerFacts(t, e.peer, max);
    UsedInMem(t.used[e.peer], t.trees[e.peer], t.mem, e);
  }

  lemma StepTracks(w: World, ev: Event, s: Settings, p: Peer, g: nat, end: Option<int>, since: set<nat>)
    requires s.max > 0 && s.interval >= 0 && s.queryTime >= 0 && Inv(w.t, s.max) && Allowed(w, ev)
    requires Tracks(w, s, p, g, end, since)
    ensures Tracks(Handle(w, ev, s), s, p, g, Next(end, ev, s, w.now, p, g), NextSince(since, ev, p, g))
  {
    hide Inv, PeerGroups, Tracks, SamePeer, RefinesReport, RefinesLeave, EndOf;
    var n := Handle(w, ev, s);
    match ev
    case Joined(q) =>
      AddPeerOk(w.t, q, s.max);
      if q == p { NewcomerTracks(w, n, s, p, g, end, since); } else { SameTracks(w, n, s, p, g, end, since); }
    case Left(q) =>
      DropPeerOk(w.t, q, s.max);
      if q == p { GoneTracks(n, s, p, g, since); } else { SameTracks(w, n, s, p, g, end, since); }
    case Reported(q, h) =>
      if q == p { ReportTracks(w, n, s, p, h, g, end, since); }
      else { ReportOthers(w.t, n.t, q, h, w.now + s.interval, p, s.max); SameTracks(w, n, s, p, g, end, since); }
    case Queried(h) => LowerTracks(w, n, s, h, p, g, end, since);
    case Expired(e) =>
      DropOk(w.t, e, s.max);
      EntryOfGroup(w.t, e, s.max);
      if e.peer == p { LeaveTracks(w, n, s, p, w.t.mem[e].group, g, end, since); }
      else { LeaveOthers(w.t, n.t, e.peer, w.t.mem[e].group, p, s.max); SameTracks(w, n, s, p, g, end, since); }
    case Pass(until) => PassTracks(w, s, until, p, g, end, since);
  }

  lemma ReportOthers(t: Table, t': Table, q: Peer, h: nat, endTime: int, p: Peer, max: nat)
    requires max > 0 && Inv(t, max) && q in t.used && RefinesReport(t, t', q, h, endTime, max) && p != q
    ensures Inv(t', max) && SamePeer(t, t', p, max)
  {
  }

  lemma LeaveOthers(t: Table, t': Table, q: Peer, h: nat, p: Peer, max: nat)
    requires Inv(t, max) && q in t.used && RefinesLeave(t, t', q, h, max) && p != q
    ensures Inv(t', max) && SamePeer(t, t', p, max)
  {
  }

  /** A peer that was not there had no membership. */
  lemma NewcomerTracks(w: World, n: World, s: Settings, p: Peer, g: nat, end: Option<int>, since: set<nat>)
    requires Inv(w.t, s.max) && Inv(n.t, s.max) && p !in w.t.used && p in n.t.used
    requires PeerGroups(n.t, p, s.max) == [] && Tracks(w, s, p, g, end, since)
    ensures Tracks(n, s, p, g, end, since)
  {
    hide Inv, PeerGroups;
    GroupsFacts(n.t, p, g, s.max);
  }

  lemma GoneTracks(n: World, s: Settings, p: Peer, g: nat, since: set<nat>)
    requires Inv(n.t, s.max) && p !in n.t.used
    ensures Tracks(n, s, p, g, None, since)
  {
    hide Inv;
    GroupsFacts(n.t, p, g, s.max);
  }

  /**
   * Over every run with timers that fire when due: a peer is listed with a group only until the promised time, and it
   * is listed up to that time unless it has since reported as many other groups as it has entries.
   */
  lemma {:induction false} MembershipLasts(evs: seq<Event>, s: Settings, p: Peer, g: nat)
    requires s.max > 0 && s.interval >= 0 && s.queryTime >= 0 && IsRun(evs, s)
    ensures Tracks(Run(evs, s), s, p, g, Promised(evs, s, p, g), ReportedSince(evs, p, g))
  {
    hide Tracks, Next, NextSince, Allowed, Handle;
    if evs == [] {
      NobodyThere(s, p, g);
    } else {
      var before := evs[..|evs| - 1];
      MembershipLasts(before, s, p, g);
      StepTracks(Run(before, s), evs[|evs| - 1], s, p, g, Promised(before, s, p, g), ReportedSince(before, p, g));
    }
  }

  lemma NobodyThere(s: Settings, p: Peer, g: nat)
    requires s.max > 0
    ensures Inv(EMPTY, s.max) && Tracks(World(EMPTY, 0), s, p, g, None, {})
  {
  }

  /** Said of the list itself. */
  lemma ListedWhilePromised(evs: seq<Event>, s: Settings, p: Peer, g: nat)
    requires s.max > 0 && s.interval >= 0 && s.queryTime >= 0 && IsRun(evs, s)
    ensures var w, end := Run(evs, s), Promised(evs, s, p, g);
            && (p in w.t.used && g in PeerGroups(w.t, p, s.max) ==> end.Some? && w.now <= end.value)
            && (end.Some? && w.now < end.value && |ReportedSince(evs, p, g)| < s.max ==>
                  p in w.t.used && g in PeerGroups(w.t, p, s.max))
  {
    hide Inv, PeerGroups, Run, Promised, ReportedSince, IsRun;
    MembershipLasts(evs, s, p, g);
    GroupsFacts(Run(evs, s).t, p, g, s.max);
  }
}
