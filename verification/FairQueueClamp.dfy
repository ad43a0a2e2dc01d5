/**
 * What clamping idle flows at 0 does to the order of service: after an idle moment, exactly when does the 64-bit queue
 * go on to send the same flows as the one with unbounded time?
 */
module FairQueueClamp {
  import opened Lists
  import opened FairQueue
  import opened FairQueueRuns

  // ------------------------------------------------------------------ runs in parts

  lemma FirstStep(q: Queue, e: Event, rest: seq<Event>)
    requires Inv(q)
    ensures Run(q, [e] + rest) == Run(Step(q, e), rest)
    ensures StaysBusy(q, [e] + rest) <==>
            (e.Send? && Enabled(q, e) ==> Busy(q)) && StaysBusy(Step(q, e), rest)
  {
    hide Step, Inv;
    assert ([e] + rest)[1..] == rest;
  }

  lemma ThreeSteps(q: Queue, a: Event, b: Event, c: Event, rest: seq<Event>)
    requires Inv(q)
    ensures Run(q, [a, b, c] + rest) == Run(Step(Step(Step(q, a), b), c), rest)
    ensures StaysBusy(q, [a, b, c] + rest) <==>
            && (a.Send? && Enabled(q, a) ==> Busy(q))
            && (b.Send? && Enabled(Step(q, a), b) ==> Busy(Step(q, a)))
            && (c.Send? && Enabled(Step(Step(q, a), b), c) ==> Busy(Step(Step(q, a), b)))
            && StaysBusy(Step(Step(Step(q, a), b), c), rest)
  {
    hide Step, Inv, Run, StaysBusy;
    var q1 := Step(q, a);
    var q2 := Step(q1, b);
    assert [a, b, c] + rest == [a] + ([b] + ([c] + rest));
    FirstStep(q, a, [b] + ([c] + rest));
    FirstStep(q1, b, [c] + rest);
    FirstStep(q2, c, rest);
  }

  lemma JustJob(q: Queue)
    requires Inv(q)
    ensures Run(q, [Job]) == Step(q, Job) && StaysBusy(q, [Job])
  {
    hide Step, Inv;
    assert [Job][1..] == [];
  }

  // ------------------------------------------------------------------ two flows that compete

  /** Both flows, and no other, wait for the schedule job. */
  ghost predicate Duel(q: Queue, f: Flow, g: Flow) {
    && Inv(q) && f != g && q.sending.None? && q.previous.None? && q.jobSet
    && (q.queued == [f, g] || q.queued == [g, f]) && f in q.time && g in q.time
  }

  /** `g` goes first exactly up to this lead over `f`. */
  function LastLead(f: Flow, g: Flow): int {
    if g < f then 0 else -1
  }

  lemma LeadDecides(q: Queue, f: Flow, g: Flow)
    requires Duel(q, f, g)
    ensures q.queued[0] == if Lead(q, g, f) <= LastLead(f, g) then g else f
  {
    assert Before(q.time, q.queued[0], q.queued[1]);
  }

  /** How one of the two is scheduled. */
  lemma JobRound(q: Queue, f: Flow, g: Flow)
    requires Duel(q, f, g)
    ensures var p, o, r := q.queued[0], q.queued[1], Step(q, Job);
            && q.weight > 0 && p in q.len
            && r == q.(jobSet := false, queued := [o], sending := Some(p), sendingLen := q.len[p])
  {
    assert q.queued[0] in q.queued;
    assert q.queued[1..] == [q.queued[1]];
  }

  /** How it is charged while the other waits. */
  lemma DoneRound(q: Queue, p: Flow, o: Flow)
    requires Inv(q) && q.sending == Some(p) && q.queued == [o]
    ensures var r := Step(q, Done);
            && r == q.(sending := None, previous := Some(p), jobSet := true, time := r.time)
            && p in q.time && o in q.time && p in r.time && o in r.time && p != o
            && Lead(r, o, p) == Lead(q, o, p) - (q.weight + q.sendingLen)
  {
    hide OutputDone, Tables, DoneSubtrahend;
    assert o in q.queued;
    DoneEffect(q);
  }

  /** How it comes back at once. */
  lemma SendRound(q: Queue, p: Flow, o: Flow, n: nat)
    requires Inv(q) && q.previous == Some(p) && q.queued == [o] && n <= q.mtu
    ensures var r := Step(q, Send(p, n));
            && Duel(r, p, o) && r == q.(previous := None, len := q.len[p := n], queued := r.queued)
    ensures Enabled(q, Send(p, n)) && Busy(q)
  {
    assert o in q.queued && q.sending.None? && q.jobSet;
    assert [o][1..] == [] && Insert([], q.time, p) == [p];
    assert Insert([o], q.time, p) == if Before(q.time, p, o) then [p] + [o] else [o] + [p];
    assert [p] + [o] == [p, o] && [o] + [p] == [o, p];
  }

  /** One round: the flow in front is served and queued again with a packet of `n` bytes. */
  lemma Round(q: Queue, f: Flow, g: Flow, n: nat)
    requires Duel(q, f, g) && n <= q.mtu
    ensures var p := q.queued[0];
            var r := Step(Step(Step(q, Job), Done), Send(p, n));
            && Step(q, Job).sending == Some(p) && p in q.len && q.weight > 0
            && Duel(r, f, g) && r.weight == q.weight && r.mtu == q.mtu && r.len == q.len[p := n]
            && Lead(r, g, f) == Lead(q, g, f) + (if p == g then q.weight + q.len[p] else -(q.weight + q.len[p]))
            && Busy(Step(Step(q, Job), Done))
  {
    hide Step, Inv;
    var p, o := q.queued[0], q.queued[1];
    JobRound(q, f, g);
    DoneRound(Step(q, Job), p, o);
    SendRound(Step(Step(q, Job), Done), p, o, n);
  }

  /** How two flows come to compete: `g` joins while `f`, alone so far, is sending. */
  lemma Open(q: Queue, f: Flow, g: Flow, m: nat, n: nat)
    requires Inv(q) && q.sending == Some(f) && q.queued == [] && g in q.flows && g != f && f in q.time && g in q.time
    requires q.time[f] <= q.time[g] && m <= q.mtu && n <= q.mtu
    ensures var r := Step(Step(Step(q, Send(g, m)), Done), Send(f, n));
            && Duel(r, f, g) && r.weight == q.weight && r.mtu == q.mtu
            && f in r.len && g in r.len && r.len[f] == n && r.len[g] == m
            && Lead(r, g, f) == Lead(q, g, f) - (q.weight + q.sendingLen)
    ensures Busy(q) && Busy(Step(Step(q, Send(g, m)), Done))
  {
    Joins(q, f, g, m);
    hide Step, Inv;
    DoneRound(Step(q, Send(g, m)), f, g);
    SendRound(Step(Step(q, Send(g, m)), Done), f, g, n);
  }

  lemma Joins(q: Queue, f: Flow, g: Flow, m: nat)
    requires Inv(q) && q.sending == Some(f) && q.queued == [] && g in q.flows && g != f && f in q.time && g in q.time
    requires q.time[f] <= q.time[g] && m <= q.mtu
    ensures Step(q, Send(g, m)) == q.(len := q.len[g := m], queued := [g])
  {
    assert q.time[g := q.time[g]] == q.time;
    assert Insert([], q.time, g) == [g];
  }

  // ------------------------------------------------------------------ leads that differ are found out

  /** How far the two flows are from the point where one takes over from the other. */
  function Distance(e: int, w: nat): nat {
    if e >= 0 then 2 * e else if e + w >= 0 then 2 * (e + w) + 1 else 2 * w - e
  }

  /** `f` is always given packets of `extra` bytes and `g` empty ones. */
  ghost predicate Steered(q: Queue, f: Flow, g: Flow, extra: nat) {
    Duel(q, f, g) && f in q.len && g in q.len && q.len[f] == extra && q.len[g] == 0
  }

  /** From different leads, serving both flows leads to a moment where the two queues choose differently. */
  lemma {:induction false} Diverge(c: Queue, u: Queue, f: Flow, g: Flow, extra: nat) returns (es: seq<Event>)
    requires Steered(c, f, g, extra) && Steered(u, f, g, extra) && c.weight == u.weight && c.mtu == u.mtu
    requires extra <= c.mtu && (extra == 1 || (extra == 0 && c.weight == 1))
    requires Lead(c, g, f) < Lead(u, g, f)
    ensures StaysBusy(c, es) && Run(c, es).sending != Run(u, es).sending
    decreases Distance(Lead(c, g, f) - LastLead(f, g), c.weight)
  {
    hide Step, Run, StaysBusy, Inv;
    LeadDecides(c, f, g);
    LeadDecides(u, f, g);
    var p := c.queued[0];
    if u.queued[0] != p {
      es := [Job];
      JustJob(c);
      JustJob(u);
      Round(c, f, g, 0);
      Round(u, f, g, 0);
    } else {
      var n := if p == f then extra else 0;
      Round(c, f, g, n);
      Round(u, f, g, n);
      Closer(c.weight, extra, Lead(c, g, f) - LastLead(f, g), Lead(u, g, f) - LastLead(f, g));
      var c1, u1 := Step(Step(Step(c, Job), Done), Send(p, n)), Step(Step(Step(u, Job), Done), Send(p, n));
      var rest := Diverge(c1, u1, f, g, extra);
      es := [Job, Done, Send(p, n)] + rest;
      ThreeSteps(c, Job, Done, Send(p, n), rest);
      ThreeSteps(u, Job, Done, Send(p, n), rest);
    }
  }

  /** A round both queues agree on brings them closer to one they do not. */
  lemma Closer(w: nat, extra: nat, e: int, d: int)
    requires e < d && w > 0 && (extra == 1 || (extra == 0 && w == 1)) && (e <= 0 <==> d <= 0)
    ensures Distance(if e <= 0 then e + w else e - (w + extra), w) < Distance(e, w)
  {
  }

  // ------------------------------------------------------------------ the exact condition

  /** To the end of the busy period, whatever happens, both queues send the same flows. */
  ghost predicate SameService(c: Queue, u: Queue)
    requires Inv(c) && Inv(u)
  {
    forall es :: StaysBusy(c, es) ==> Run(c, es).sending == Run(u, es).sending
  }

  /** `f` was not clamped, or there is no flow it could be clamped against. */
  ghost predicate Unharmed(u: Queue, k: nat, f: Flow)
    requires f in u.time
  {
    u.time[f] >= k || forall g :: g in u.time ==> u.time[g] <= u.time[f]
  }

  lemma TwinsServeAlike(c: Queue, u: Queue, k: nat)
    requires Inv(c) && Inv(u) && Twin(c, u, k)
    ensures SameService(c, u)
  {
    hide Inv, Twin, Run, StaysBusy;
    forall es | StaysBusy(c, es) ensures Run(c, es).sending == Run(u, es).sending {
      var k1 := BoundedAgrees(c, u, k, es);
      TwinSending(Run(c, es), Run(u, es), k1);
    }
  }

  lemma TwinSending(c: Queue, u: Queue, k: nat)
    requires Twin(c, u, k)
    ensures c.sending == u.sending
  {
  }

  /** The flow that ends the idle moment is alone in the queue, and no time changes. */
  lemma IdleSend(q: Queue, f: Flow, n: nat)
    requires Inv(q) && !Busy(q) && Enabled(q, Send(f, n))
    ensures f in q.time
    ensures Step(q, Send(f, n)) == if q.jobSet then q.(len := q.len[f := n], queued := [f])
                                   else q.(len := q.len[f := n], sending := Some(f), sendingLen := n)
  {
    assert q.time[f := q.time[f]] == q.time;
    assert Insert([], q.time, f) == [f] && [f][1..] == [];
  }

  /** It is sent at once, or when a schedule job that is still set has run. */
  lemma IdleSent(q: Queue, f: Flow, n: nat)
    requires Inv(q) && !Busy(q) && Enabled(q, Send(f, n))
    ensures var s := Step(q, Send(f, n));
            (if q.jobSet then Step(s, Job) else s) ==
            q.(len := q.len[f := n], sending := Some(f), sendingLen := n, jobSet := false)
  {
    IdleSend(q, f, n);
    assert [f][1..] == [];
  }

  /** If the condition holds, the queues stay together, possibly at another offset. */
  lemma UnharmedAgrees(c: Queue, u: Queue, k: nat, f: Flow, n: nat) returns (k1: nat)
    requires Inv(c) && Inv(u) && Twin(c, u, k) && !Busy(c) && Enabled(c, Send(f, n))
    requires f in u.time && Unharmed(u, k, f)
    ensures Twin(Step(c, Send(f, n)), Step(u, Send(f, n)), k1)
  {
    hide Step;
    IdleSend(c, f, n);
    IdleSend(u, f, n);
    k1 := if u.time[f] >= k then k else u.time[f];
    var c1, u1 := Step(c, Send(f, n)), Step(u, Send(f, n));
    forall g | g in c1.time && g in u1.time ensures Shifted(c1, u1, k1, g) {
      assert Shifted(c, u, k, g) && Shifted(c, u, k, f);
    }
  }

  /** Queues in which `f` alone is being sent, and `g` has a smaller lead in one than in the other. */
  lemma LeadsTell(c: Queue, u: Queue, f: Flow, g: Flow) returns (es: seq<Event>)
    requires Inv(c) && Inv(u) && c.sending == u.sending == Some(f) && c.queued == u.queued == [] && f != g
    requires g in c.flows && g in u.flows && f in c.time && g in c.time && f in u.time && g in u.time
    requires c.weight == u.weight && c.mtu == u.mtu && c.sendingLen == u.sendingLen && (c.weight == 1 || c.mtu >= 1)
    requires 0 <= Lead(c, g, f) < Lead(u, g, f)
    ensures StaysBusy(c, es) && Run(c, es).sending != Run(u, es).sending
  {
    hide Step, Run, StaysBusy, Inv, Duel;
    var extra := if c.mtu >= 1 then 1 else 0;
    Open(c, f, g, 0, extra);
    Open(u, f, g, 0, extra);
    var c1 := Step(Step(Step(c, Send(g, 0)), Done), Send(f, extra));
    var u1 := Step(Step(Step(u, Send(g, 0)), Done), Send(f, extra));
    var rest := Diverge(c1, u1, f, g, extra);
    es := [Send(g, 0), Done, Send(f, extra)] + rest;
    ThreeSteps(c, Send(g, 0), Done, Send(f, extra), rest);
    ThreeSteps(u, Send(g, 0), Done, Send(f, extra), rest);
  }

  lemma ClampedLead(c: Queue, u: Queue, k: nat, f: Flow) returns (g: Flow)
    requires Inv(c) && Inv(u) && Twin(c, u, k) && !Busy(c) && f in u.time && !Unharmed(u, k, f)
    ensures g != f && g in u.flows && g in u.time && f in c.time && g in c.time
    ensures 0 <= Lead(c, g, f) < Lead(u, g, f)
  {
    g :| g in u.time && u.time[g] > u.time[f];
    assert Shifted(c, u, k, f) && Shifted(c, u, k, g);
  }

  /** If it does not, some continuation of the busy period tells the queues apart. */
  lemma ClampedDisagrees(c: Queue, u: Queue, k: nat, f: Flow, n: nat) returns (es: seq<Event>)
    requires Inv(c) && Inv(u) && Twin(c, u, k) && !Busy(c) && Enabled(c, Send(f, n))
    requires f in u.time && !Unharmed(u, k, f) && (c.weight == 1 || c.mtu >= 1)
    ensures var c1, u1 := Step(c, Send(f, n)), Step(u, Send(f, n));
            StaysBusy(c1, es) && Run(c1, es).sending != Run(u1, es).sending
  {
    var g := ClampedLead(c, u, k, f);
    assert Enabled(u, Send(f, n)) && u == c.(unbounded := true, time := u.time);
    hide Step, Run, StaysBusy, Inv, Twin, Unharmed;
    IdleSent(c, f, n);
    IdleSent(u, f, n);
    var c1, u1 := Step(c, Send(f, n)), Step(u, Send(f, n));
    if c.jobSet {
      var rest := LeadsTell(Step(c1, Job), Step(u1, Job), f, g);
      es := [Job] + rest;
      FirstStep(c1, Job, rest);
      FirstStep(u1, Job, rest);
    } else {
      es := LeadsTell(c1, u1, f, g);
    }
  }

  /**
   * After an idle moment, the 64-bit queue goes on to send the same flows as the unbounded one, whatever arrives,
   * exactly if the flow that ends the idle moment was not clamped or no other flow has more unbounded time than it.
   */
  lemma IdleSendAgreesIff(c: Queue, u: Queue, k: nat, f: Flow, n: nat)
    requires Inv(c) && Inv(u) && Twin(c, u, k) && !Busy(c) && Enabled(c, Send(f, n))
    requires c.weight == 1 || c.mtu >= 1
    ensures f in u.time && (SameService(Step(c, Send(f, n)), Step(u, Send(f, n))) <==> Unharmed(u, k, f))
  {
    assert f in u.time;
    hide Inv, Twin, Step, Run, StaysBusy, Unharmed;
    if Unharmed(u, k, f) {
      var k1 := UnharmedAgrees(c, u, k, f, n);
      TwinsServeAlike(Step(c, Send(f, n)), Step(u, Send(f, n)), k1);
    } else {
      var es := ClampedDisagrees(c, u, k, f, n);
    }
  }

  // ------------------------------------------------------------------ an example

  /** Three flows; flow 1 is sending and about to overflow, the others are idle. */
  const NEAR_OVERFLOW := Queue(false, 1, 10, [1, 2, 3], map[1 := MAX_TIME, 2 := 5, 3 := MAX_TIME - 2], map[],
                               [], Some(1), 0, None, false)

  /** The flow being sent finishes, then `f` sends two packets, and `g` one while the first is on its way. */
  function LateSenders(f: Flow, g: Flow): seq<Event> {
    [Done, Job, Send(f, 0)] + Meeting(f, g)
  }

  function Meeting(f: Flow, g: Flow): seq<Event> {
    [Send(g, 0), Done, Send(f, 0)] + [Job]
  }

  lemma NearOverflowInv()
    ensures Inv(NEAR_OVERFLOW) && Inv(Unbound(NEAR_OVERFLOW))
  {
    UnboundTwin(NEAR_OVERFLOW);
  }

  /** After the overflow flows 2 and 3 stand at 0 in the 64-bit queue, and far apart in the other. */
  lemma AfterOverflow(q: Queue)
    requires q == NEAR_OVERFLOW || q == Unbound(NEAR_OVERFLOW)
    ensures Inv(q)
    ensures var r := Step(Step(q, Done), Job);
            && !Busy(r) && !r.jobSet && r.flows == [1, 2, 3] && r.weight == 1 && r.mtu == 10
            && 2 in r.time && 3 in r.time
            && (q.unbounded ==> r.time[2] == 5 && r.time[3] == MAX_TIME - 2)
            && (!q.unbounded ==> r.time[2] == 0 && r.time[3] == 0)
  {
    hide Tables, OutputDone;
    NearOverflowInv();
    DoneEffect(q);
  }

  lemma LateSendersMeet(q: Queue, r: Queue, f: Flow, g: Flow)
    requires Inv(q) && Inv(r) && f < g && Step(Step(q, Done), Job) == r
    requires !Busy(r) && !r.jobSet && f in r.flows && g in r.flows && r.weight == 1 && f in r.time && g in r.time
    requires r.time[f] <= r.time[g]
    ensures Run(q, LateSenders(f, g)).sending == if r.time[f] == r.time[g] then Some(g) else Some(f)
  {
    hide Step, Run, StaysBusy, Inv, Meeting, Enabled, LateSenders;
    LateStart(q, f, g);
    IdleFlowsMeet(r, f, g);
  }

  lemma LateStart(q: Queue, f: Flow, g: Flow)
    requires Inv(q)
    ensures Run(q, LateSenders(f, g)) == Run(Step(Step(Step(q, Done), Job), Send(f, 0)), Meeting(f, g))
  {
    hide Step, Run, StaysBusy, Inv, Meeting;
    ThreeSteps(q, Done, Job, Send(f, 0), Meeting(f, g));
  }

  lemma IdleFlowsMeet(r: Queue, f: Flow, g: Flow)
    requires Inv(r) && f < g
    requires !Busy(r) && !r.jobSet && f in r.flows && g in r.flows && r.weight == 1 && f in r.time && g in r.time
    requires r.time[f] <= r.time[g]
    ensures Run(Step(r, Send(f, 0)), Meeting(f, g)).sending == if r.time[f] == r.time[g] then Some(g) else Some(f)
  {
    hide Step, Run, StaysBusy, Inv, Meeting;
    IdleSend(r, f, 0);
    FlowsMeet(Step(r, Send(f, 0)), f, g);
  }

  lemma FlowsMeet(s: Queue, f: Flow, g: Flow)
    requires Inv(s) && s.sending == Some(f) && s.queued == [] && g in s.flows && f in s.time && g in s.time
    requires s.weight == 1 && s.sendingLen == 0 && f < g && s.time[f] <= s.time[g]
    ensures Run(s, Meeting(f, g)).sending == if s.time[f] == s.time[g] then Some(g) else Some(f)
  {
    hide Step, Run, StaysBusy, Inv, Duel;
    Open(s, f, g, 0, 0);
    var t := Step(Step(Step(s, Send(g, 0)), Done), Send(f, 0));
    LeadDecides(t, f, g);
    Round(t, f, g, 0);
    ThreeSteps(s, Send(g, 0), Done, Send(f, 0), [Job]);
    JustJob(t);
  }

  /** The clamp changes who is served: here the 64-bit queue sends flow 3 and the unbounded one flow 2. */
  lemma ClampBreaksAgreement()
    ensures Inv(NEAR_OVERFLOW) && Inv(Unbound(NEAR_OVERFLOW))
    ensures Run(NEAR_OVERFLOW, LateSenders(2, 3)).sending == Some(3)
    ensures Run(Unbound(NEAR_OVERFLOW), LateSenders(2, 3)).sending == Some(2)
  {
    hide Step, Run, Inv, LateSenders, Meeting;
    var c, u := NEAR_OVERFLOW, Unbound(NEAR_OVERFLOW);
    AfterOverflow(c);
    AfterOverflow(u);
    LateSendersMeet(c, Step(Step(c, Done), Job), 2, 3);
    LateSendersMeet(u, Step(Step(u, Done), Job), 2, 3);
  }
}
