/** Runs of the fair queue: agreement with unbounded time, fairness between backlogged flows, no starvation. */
module FairQueueRuns {
  import opened Lists
  import opened FairQueue

  function Run(q: Queue, es: seq<Event>): (r: Queue)
    requires Inv(q)
    ensures Inv(r)
    decreases |es|
  {
    if es == [] then q else Run(Step(q, es[0]), es[1..])
  }

  predicate Active(q: Queue, f: Flow) {
    f in q.queued || q.sending == Some(f) || q.previous == Some(f)
  }

  /** Some flow is queued, sending or about to get its chance to go on: time has a reference point. */
  predicate Busy(q: Queue) {
    q.queued != [] || q.sending.Some? || q.previous.Some?
  }

  // ------------------------------------------------------------------ the 64-bit queue and the unbounded one

  predicate Shifted(c: Queue, u: Queue, k: nat, f: Flow)
    requires f in c.time && f in u.time
  {
    if Active(c, f) then u.time[f] == c.time[f] + k
    else c.time[f] == if u.time[f] >= k then u.time[f] - k else 0
  }

  /** `u` is `c` on unbounded times: active flows are `k` ahead exactly, idle ones up to the clamp at 0. */
  ghost predicate Twin(c: Queue, u: Queue, k: nat) {
    && !c.unbounded && u.unbounded && u == c.(unbounded := true, time := u.time)
    && (forall f :: f in u.time <==> f in c.time)
    && (forall f :: f in c.time && f in u.time ==> Shifted(c, u, k, f))
  }

  /** The same queue with the overflow switched off. */
  function Unbound(q: Queue): Queue {
    q.(unbounded := true)
  }

  lemma UnboundTwin(q: Queue)
    requires Inv(q) && !q.unbounded
    ensures Inv(Unbound(q)) && Twin(q, Unbound(q), 0)
  {
    assert Sorted(Unbound(q).queued, Unbound(q).time);
  }

  lemma {:induction false} InsertShifted(s: seq<Flow>, tc: Times, tu: Times, k: int, f: Flow)
    requires Known(s, tc) && Known(s, tu) && f in tc && f in tu && tu[f] == tc[f] + k
    requires forall g :: g in s ==> tu[g] == tc[g] + k
    ensures Insert(s, tc, f) == Insert(s, tu, f)
  {
    if s != [] {
      assert s[0] in s;
      assert forall g :: g in s[1..] ==> g in s;
      InsertShifted(s[1..], tc, tu, k, f);
    }
  }

  lemma TwinCurrentTime(c: Queue, u: Queue, k: nat)
    requires Inv(c) && Inv(u) && Twin(c, u, k) && Busy(c)
    ensures CurrentTime(u) == CurrentTime(c) + k
  {
    if c.queued != [] {
      assert c.queued[0] in c.queued;
      assert Shifted(c, u, k, c.queued[0]);
    }
    assert c.sending.Some? ==> Shifted(c, u, k, c.sending.value);
    assert c.previous.Some? ==> Shifted(c, u, k, c.previous.value);
  }

  /** The least time of the flows that are queued, sending or were served last. */
  ghost predicate LeastActive(q: Queue, m: nat) {
    && (exists g :: g in q.time && Active(q, g) && q.time[g] == m)
    && (forall g :: g in q.time && Active(q, g) ==> m <= q.time[g])
  }

  lemma CurrentIsLeast(q: Queue)
    requires Inv(q) && Busy(q)
    ensures LeastActive(q, CurrentTime(q))
  {
    if q.queued != [] {
      HeadIsLeast(q.queued, q.time);
      assert q.queued[0] in q.queued;
      assert q.queued == [q.queued[0]] + q.queued[1..];
      assert Active(q, q.queued[0]);
    }
    assert q.sending.Some? ==> Active(q, q.sending.value);
    assert q.previous.Some? ==> Active(q, q.previous.value);
  }

  /**
   * A flow that joins is brought up to the least time of the active flows and no further, so it waits behind none it
   * was not behind already; the flow served last keeps its time, and so does one that finds the queue idle.
   */
  lemma JoinsAtLeast(q: Queue, f: Flow, n: nat, m: nat)
    requires Inv(q) && Enabled(q, Send(f, n)) && (Busy(q) ==> LeastActive(q, m))
    ensures f in q.time && f in InputSend(q, f, n).time
    ensures InputSend(q, f, n).time[f] ==
            if Busy(q) && q.previous != Some(f) && q.time[f] < m then m else q.time[f]
  {
    EnqueueEffect(q, f, n);
    SendTimes(q, f, n);
    if Busy(q) { CurrentIsLeast(q); } else { IdleTime(q); }
    hide Inv, CurrentTime, Enqueue, InputSend, Active;
  }

  /** A flow that joins stays `k` behind its twin. */
  lemma TwinJoins(c: Queue, u: Queue, k: nat, f: Flow, n: nat)
    requires Inv(c) && Inv(u) && Twin(c, u, k) && Enabled(c, Send(f, n))
    requires Busy(c) || u.time[f] >= k
    ensures var c1, u1 := Enqueue(c, f, n), Enqueue(u, f, n);
            f in c1.time && f in u1.time && u1.time[f] == c1.time[f] + k
  {
    EnqueueEffect(c, f, n);
    EnqueueEffect(u, f, n);
    assert Shifted(c, u, k, f);
    if Busy(c) { TwinCurrentTime(c, u, k); } else { IdleTime(c); IdleTime(u); }
    hide Inv, Twin, CurrentTime, Enqueue, Insert, Known;
  }

  /** So it takes the same place in the tree. */
  lemma TwinEnqueue(c: Queue, u: Queue, k: nat, f: Flow, n: nat)
    requires Inv(c) && Inv(u) && Twin(c, u, k) && Enabled(c, Send(f, n))
    requires Busy(c) || u.time[f] >= k
    ensures var c1, u1 := Enqueue(c, f, n), Enqueue(u, f, n);
            u1 == c1.(unbounded := true, time := u1.time)
  {
    EnqueueEffect(c, f, n);
    EnqueueEffect(u, f, n);
    TwinJoins(c, u, k, f, n);
    var tc, tu := Enqueue(c, f, n).time, Enqueue(u, f, n).time;
    hide Inv, CurrentTime, Enqueue, Insert;
    forall g | g in c.queued ensures g in tc && g in tu && tu[g] == tc[g] + k { assert Shifted(c, u, k, g); }
    InsertShifted(c.queued, tc, tu, k, f);
  }

  lemma IdleTime(q: Queue)
    requires Inv(q) && !Busy(q)
    ensures CurrentTime(q) == 0
  {
  }

  lemma TwinSend(c: Queue, u: Queue, k: nat, f: Flow, n: nat)
    requires Inv(c) && Inv(u) && Twin(c, u, k) && Enabled(c, Send(f, n))
    requires Busy(c) || u.time[f] >= k
    ensures Twin(InputSend(c, f, n), InputSend(u, f, n), k)
  {
    var c1, u1 := InputSend(c, f, n), InputSend(u, f, n);
    SendTimes(c, f, n);
    SendTimes(u, f, n);
    TwinJoins(c, u, k, f, n);
    assert u1 == c1.(unbounded := true, time := u1.time) by {
      TwinEnqueue(c, u, k, f, n);
      hide Inv, Enqueue, Shifted;
    }
    hide Inv, Enqueue, InputSend, Active;
    forall g | g in c1.time && g in u1.time ensures Shifted(c1, u1, k, g) {
      if g != f {
        assert Shifted(c, u, k, g);
        SameActivity(c, c1, f, n, g);
      }
    }
  }

  lemma SendTimes(q: Queue, f: Flow, n: nat)
    requires Inv(q) && Enabled(q, Send(f, n))
    ensures var r := InputSend(q, f, n);
            && f in q.time && f in r.time && r.time == q.time[f := r.time[f]] && r.time == Enqueue(q, f, n).time
            && r.unbounded == q.unbounded && Active(r, f)
  {
    EnqueueEffect(q, f, n);
    hide Enqueue, Inv;
    assert f in Enqueue(q, f, n).queued;
    var s := Enqueue(q, f, n).queued;
    assert s == [s[0]] + s[1..];
  }

  /** Sending makes no other flow active or idle. */
  lemma SameActivity(c: Queue, c1: Queue, f: Flow, n: nat, g: Flow)
    requires Inv(c) && Enabled(c, Send(f, n)) && c1 == InputSend(c, f, n) && g != f
    ensures Active(c1, g) <==> Active(c, g)
  {
    EnqueueEffect(c, f, n);
    hide CurrentTime, Enqueue, Tables, SenderIsLeast;
    var q := Enqueue(c, f, n);
    if c.sending.None? && !c.jobSet { assert q.queued == [q.queued[0]] + q.queued[1..]; }
  }

  lemma NoSubtrahend(u: Queue)
    requires u.unbounded && u.sending.Some? && u.sending.value in u.time && Known(u.queued, u.time)
    ensures DoneSubtrahend(u) == 0
  {
  }

  lemma TwinDone(c: Queue, u: Queue, k: nat)
    requires Inv(c) && Inv(u) && Twin(c, u, k) && c.sending.Some?
    ensures Twin(OutputDone(c), OutputDone(u), k + DoneSubtrahend(c))
  {
    hide OutputDone, Tables, DoneSubtrahend, Shifted;
    DoneEffect(c);
    DoneEffect(u);
    NoSubtrahend(u);
    var c1, u1 := OutputDone(c), OutputDone(u);
    forall g | g in c1.time && g in u1.time
      ensures Shifted(c1, u1, k + DoneSubtrahend(c), g)
    {
      DoneShifts(c, u, k, c1, u1, DoneSubtrahend(c), c.weight + c.sendingLen, g);
    }
  }

  lemma DoneShifts(c: Queue, u: Queue, k: nat, c1: Queue, u1: Queue, s: nat, amount: nat, g: Flow)
    requires c.sending.Some? && c.previous.None? && u1.queued == c1.queued == c.queued
    requires c1.sending.None? && c1.previous == c.sending
    requires g in c.time && g in u.time && g in c1.time && g in u1.time && Shifted(c, u, k, g)
    requires if c.sending == Some(g) then c1.time[g] == c.time[g] + amount - s && u1.time[g] == u.time[g] + amount
             else u1.time[g] == u.time[g] && c1.time[g] == if c.time[g] >= s then c.time[g] - s else 0
    requires g in c.queued ==> c1.time[g] == c.time[g] - s
    ensures Shifted(c1, u1, k + s, g)
  {
  }

  lemma TwinJob(c: Queue, u: Queue, k: nat)
    requires Inv(c) && Inv(u) && Twin(c, u, k) && c.jobSet
    ensures Twin(ScheduleJob(c), ScheduleJob(u), k)
  {
    var c1, u1 := ScheduleJob(c), ScheduleJob(u);
    forall g | g in c1.time && g in u1.time
      ensures Shifted(c1, u1, k, g)
    {
      assert Shifted(c, u, k, g);
      if c.queued != [] {
        assert c.queued == [c.queued[0]] + c.queued[1..];
      }
      assert Active(c1, g) ==> Active(c, g);
    }
  }

  lemma TwinInit(c: Queue, u: Queue, k: nat, f: Flow)
    requires Inv(c) && Twin(c, u, k) && f !in c.flows
    ensures Twin(Init(c, f), Init(u, f), k)
  {
    var c1, u1 := Init(c, f), Init(u, f);
    forall g | g in c1.time && g in u1.time
      ensures Shifted(c1, u1, k, g)
    {
      assert g != f ==> Shifted(c, u, k, g);
    }
  }

  lemma TwinFree(c: Queue, u: Queue, k: nat, f: Flow)
    requires Inv(c) && Twin(c, u, k) && f in c.flows
    ensures Twin(Free(c, f), Free(u, f), k)
  {
    var c1, u1 := Free(c, f), Free(u, f);
    forall g | g in c1.time && g in u1.time
      ensures Shifted(c1, u1, k, g)
    {
      assert Shifted(c, u, k, g);
    }
  }

  /** By how much the step renormalises the times. */
  function Renormalised(q: Queue, e: Event): nat
    requires Inv(q)
  {
    if e.Done? && q.sending.Some? then DoneSubtrahend(q) else 0
  }

  /** One step keeps the two queues together, and so picks the same flow, as long as time has a reference point. */
  lemma TwinStep(c: Queue, u: Queue, k: nat, e: Event) returns (k1: nat)
    requires Inv(c) && Inv(u) && Twin(c, u, k)
    requires e.Send? && Enabled(c, e) ==> Busy(c) || u.time[e.flow] >= k
    ensures Twin(Step(c, e), Step(u, e), k1) && k1 == k + Renormalised(c, e)
  {
    assert Known(c.queued, c.time);
    hide Tables, SenderIsLeast, OutputDone, InputSend, ScheduleJob, Init, Free, DoneSubtrahend, Shifted;
    k1 := k;
    if Enabled(c, e) {
      match e
      case FlowInit(f) => TwinInit(c, u, k, f);
      case FlowFree(f) => TwinFree(c, u, k, f);
      case Send(f, n) => TwinSend(c, u, k, f, n);
      case Done =>
        k1 := k + DoneSubtrahend(c);
        TwinDone(c, u, k);
      case Job => TwinJob(c, u, k);
    }
  }

  /** Packets arrive only while the queue is busy: one busy period. */
  ghost predicate StaysBusy(q: Queue, es: seq<Event>)
    requires Inv(q)
    decreases |es|
  {
    es == [] ||
    ((es[0].Send? && Enabled(q, es[0]) ==> Busy(q)) && StaysBusy(Step(q, es[0]), es[1..]))
  }

  /**
   * Within one busy period, through any number of overflows, the 64-bit queue makes every choice the unbounded queue
   * makes, and the times of all active flows differ from the unbounded ones by one common amount.
   */
  lemma {:induction false} BoundedAgrees(c: Queue, u: Queue, k: nat, es: seq<Event>) returns (k1: nat)
    requires Inv(c) && Inv(u) && Twin(c, u, k) && StaysBusy(c, es)
    ensures Twin(Run(c, es), Run(u, es), k1)
    decreases |es|
  {
    k1 := k;
    if es != [] {
      k1 := TwinStep(c, u, k, es[0]);
      k1 := BoundedAgrees(Step(c, es[0]), Step(u, es[0]), k1, es[1..]);
    }
  }

  /**
   * Packets may find the queue idle only as long as nothing was renormalised: any number of busy periods up to the
   * first overflow, and the one it falls into to its end.
   */
  ghost predicate Anchored(q: Queue, es: seq<Event>, exact: bool)
    requires Inv(q)
    decreases |es|
  {
    es == [] ||
    (&& (es[0].Send? && Enabled(q, es[0]) ==> exact || Busy(q))
     && Anchored(Step(q, es[0]), es[1..], exact && Renormalised(q, es[0]) == 0))
  }

  lemma {:induction false} AnchoredAgrees(c: Queue, u: Queue, k: nat, es: seq<Event>) returns (k1: nat)
    requires Inv(c) && Inv(u) && Twin(c, u, k) && Anchored(c, es, k == 0)
    ensures Twin(Run(c, es), Run(u, es), k1)
    decreases |es|
  {
    k1 := k;
    if es != [] {
      k1 := TwinStep(c, u, k, es[0]);
      k1 := AnchoredAgrees(Step(c, es[0]), Step(u, es[0]), k1, es[1..]);
    }
  }

  /** From any state, through any number of overflows in one busy period, both queues send the same flows. */
  lemma OneBusyPeriod(q: Queue, es: seq<Event>)
    requires Inv(q) && !q.unbounded && Anchored(q, es, true)
    ensures Inv(Unbound(q))
    ensures var c, u := Run(q, es), Run(Unbound(q), es);
            c.sending == u.sending && c.queued == u.queued && c.previous == u.previous && exists k :: Twin(c, u, k)
  {
    UnboundTwin(q);
    var k := AnchoredAgrees(q, Unbound(q), 0, es);
  }

  // ------------------------------------------------------------------ fairness

  /** The most one packet can cost. */
  function MaxCost(q: Queue): int {
    q.weight + q.mtu
  }

  function Cost(q: Queue, e: Event, f: Flow): nat {
    if e.Done? && q.sending == Some(f) then q.weight + q.sendingLen else 0
  }

  /** Total cost of the packets of `f` sent during the run. */
  function Served(q: Queue, es: seq<Event>, f: Flow): nat
    requires Inv(q)
    decreases |es|
  {
    if es == [] then 0 else Cost(q, es[0], f) + Served(Step(q, es[0]), es[1..], f)
  }

  /** The length of the packet `f` handed in last. */
  function Given(q: Queue, es: seq<Event>, f: Flow, before: nat): nat
    requires Inv(q)
    decreases |es|
  {
    if es == [] then before
    else Given(Step(q, es[0]), es[1..], f,
               if es[0].Send? && es[0].flow == f && Enabled(q, es[0]) then es[0].len else before)
  }

  /** Waiting and in service, the flow counts with that length. */
  ghost predicate CountsWith(q: Queue, f: Flow, n: nat) {
    && (f in q.queued ==> f in q.len && q.len[f] == n)
    && (q.sending == Some(f) ==> q.sendingLen == n)
  }

  lemma CountsStep(q: Queue, e: Event, f: Flow, before: nat)
    requires Inv(q) && CountsWith(q, f, before)
    ensures CountsWith(Step(q, e), f, if e.Send? && e.flow == f && Enabled(q, e) then e.len else before)
  {
    if Enabled(q, e) {
      match e
      case FlowInit(g) =>
      case FlowFree(g) => hide Inv, Without;
      case Send(g, n) =>
        EnqueueEffect(q, g, n);
        assert q.queued != [] ==> q.sending.Some? || q.jobSet;
        hide Inv, Enqueue, CurrentTime;
        var s := Enqueue(q, g, n).queued;
        if q.sending.None? && !q.jobSet { assert s[0] in s; }
      case Done =>
        DoneEffect(q);
        hide Inv, OutputDone;
      case Job =>
        if q.queued != [] { assert q.queued[0] in q.queued && q.queued == [q.queued[0]] + q.queued[1..]; }
        hide Inv;
    }
  }

  /** In every run a flow is charged for the packet it handed in last: that is what is being sent when it is served. */
  lemma {:induction false} ChargedForItsPacket(q: Queue, es: seq<Event>, f: Flow, before: nat)
    requires Inv(q) && CountsWith(q, f, before)
    ensures CountsWith(Run(q, es), f, Given(q, es, f, before))
    decreases |es|
  {
    hide Inv, CountsWith, Step;
    if es != [] {
      CountsStep(q, es[0], f, before);
      ChargedForItsPacket(Step(q, es[0]), es[1..], f,
                          if es[0].Send? && es[0].flow == f && Enabled(q, es[0]) then es[0].len else before);
    }
  }

  /** Both flows compete at every scheduling decision: they send again at once and are not freed. */
  predicate Backlogged(q: Queue, es: seq<Event>, a: Flow, b: Flow)
    requires Inv(q)
    decreases |es|
  {
    es == [] ||
    (&& es[0] != FlowFree(a) && es[0] != FlowFree(b)
     && (es[0].Job? && q.jobSet ==> a in q.queued && b in q.queued)
     && Backlogged(Step(q, es[0]), es[1..], a, b))
  }

  function Lead(q: Queue, a: Flow, b: Flow): int
    requires a in q.time && b in q.time
  {
    var x: int, y: int := q.time[a], q.time[b];
    x - y
  }

  ghost predicate Pair(q: Queue, a: Flow, b: Flow) {
    && a != b && Active(q, a) && Active(q, b) && a in q.time && b in q.time
    && -MaxCost(q) <= Lead(q, a, b) <= MaxCost(q)
  }

  /** One step charges each of the two exactly what it was served and keeps them within one packet of each other. */
  lemma PairStep(q: Queue, e: Event, a: Flow, b: Flow)
    requires Inv(q) && Pair(q, a, b) && e != FlowFree(a) && e != FlowFree(b)
    requires e.Job? && q.jobSet ==> a in q.queued && b in q.queued
    ensures var r := Step(q, e);
            && Pair(r, a, b) && MaxCost(r) == MaxCost(q)
            && Lead(r, a, b) - Lead(q, a, b) == Cost(q, e, a) - Cost(q, e, b)
  {
    hide Inv, Pair, Lead, InputSend, OutputDone, Init, Free, ScheduleJob;
    PairCounts(q, a, b);
    if Enabled(q, e) {
      match e
      case FlowInit(f) => PairInit(q, f, a, b);
      case FlowFree(f) => PairFree(q, f, a, b);
      case Send(f, n) => PairSend(q, f, n, a, b);
      case Done => PairDone(q, a, b);
      case Job => PairJob(q, a, b);
    }
  }

  lemma PairCounts(q: Queue, a: Flow, b: Flow)
    requires Pair(q, a, b)
    ensures a in q.time && b in q.time
  {
  }

  lemma PairInit(q: Queue, f: Flow, a: Flow, b: Flow)
    requires Inv(q) && Pair(q, a, b) && f !in q.flows
    ensures var r := Init(q, f); Pair(r, a, b) && MaxCost(r) == MaxCost(q) && Lead(r, a, b) == Lead(q, a, b)
  {
    assert a in q.flows && b in q.flows;
  }

  lemma PairFree(q: Queue, f: Flow, a: Flow, b: Flow)
    requires Inv(q) && Pair(q, a, b) && f != a && f != b
    ensures var r := Free(q, f); Pair(r, a, b) && MaxCost(r) == MaxCost(q) && Lead(r, a, b) == Lead(q, a, b)
  {
    hide Inv, Without;
  }

  lemma PairJob(q: Queue, a: Flow, b: Flow)
    requires Inv(q) && Pair(q, a, b) && a in q.queued && b in q.queued
    ensures var r := ScheduleJob(q); Pair(r, a, b) && MaxCost(r) == MaxCost(q) && Lead(r, a, b) == Lead(q, a, b)
  {
    hide Inv;
    assert q.queued == [q.queued[0]] + q.queued[1..];
  }

  lemma PairSend(q: Queue, f: Flow, n: nat, a: Flow, b: Flow)
    requires Inv(q) && Pair(q, a, b) && Enabled(q, Send(f, n))
    ensures var r := InputSend(q, f, n);
            Pair(r, a, b) && MaxCost(r) == MaxCost(q) && Lead(r, a, b) == Lead(q, a, b)
  {
    hide InputSend, Tables;
    SendKeepsOthers(q, f, n);
  }

  /** A packet handed in changes at most the time of its own flow, and not even that if it is the previous flow. */
  lemma SendKeepsOthers(q: Queue, f: Flow, n: nat)
    requires Inv(q) && Enabled(q, Send(f, n))
    ensures var r := InputSend(q, f, n);
            && (forall g :: g in r.time <==> g in q.time)
            && (forall g :: g in q.time && (g != f || q.previous == Some(f)) ==> r.time[g] == q.time[g])
            && (forall g :: g in q.time ==> q.time[g] <= r.time[g])
            && Active(r, f) && (forall g :: Active(q, g) ==> Active(r, g))
            && r.weight == q.weight && r.mtu == q.mtu && r.flows == q.flows
  {
  }

  lemma PairDone(q: Queue, a: Flow, b: Flow)
    requires Inv(q) && Pair(q, a, b) && q.sending.Some?
    ensures var r := OutputDone(q);
            && Pair(r, a, b) && MaxCost(r) == MaxCost(q)
            && Lead(r, a, b) - Lead(q, a, b) == Cost(q, Done, a) - Cost(q, Done, b)
  {
    hide OutputDone, Tables, DoneSubtrahend;
    DoneEffect(q);
  }

  lemma {:induction false} LeadIsService(q: Queue, es: seq<Event>, a: Flow, b: Flow)
    requires Inv(q) && Pair(q, a, b) && Backlogged(q, es, a, b)
    ensures Pair(Run(q, es), a, b) && MaxCost(Run(q, es)) == MaxCost(q)
    ensures Lead(Run(q, es), a, b) - Lead(q, a, b) == Served(q, es, a) - Served(q, es, b)
    decreases |es|
  {
    hide Step, Inv;
    if es != [] {
      PairStep(q, es[0], a, b);
      LeadIsService(Step(q, es[0]), es[1..], a, b);
    }
  }

  /**
   * Fairness. Two flows that stay backlogged and start within one packet of each other stay so, across overflows,
   * and what each has been served never differs by more than two packets.
   */
  lemma FairnessBound(q: Queue, es: seq<Event>, a: Flow, b: Flow)
    requires Inv(q) && Pair(q, a, b) && Backlogged(q, es, a, b)
    ensures Pair(Run(q, es), a, b)
    ensures -2 * MaxCost(q) <= Served(q, es, a) - Served(q, es, b) <= 2 * MaxCost(q)
  {
    LeadIsService(q, es, a, b);
  }

  // ------------------------------------------------------------------ no starvation

  function Debt(time: Times, f: Flow, g: Flow): nat {
    if g == f || f !in time || g !in time || time[g] > time[f] then 0 else time[f] - time[g] + 1
  }

  /** How far all other flows together may still run ahead of `f`. */
  function Potential(flows: seq<Flow>, time: Times, f: Flow): nat {
    if flows == [] then 0 else Debt(time, f, flows[0]) + Potential(flows[1..], time, f)
  }

  lemma {:induction false} PotentialMonotone(flows: seq<Flow>, t0: Times, t1: Times, f: Flow)
    requires forall g :: g in flows ==> Debt(t1, f, g) <= Debt(t0, f, g)
    ensures Potential(flows, t1, f) <= Potential(flows, t0, f)
  {
    if flows != [] {
      assert flows[0] in flows;
      assert forall g :: g in flows[1..] ==> g in flows;
      PotentialMonotone(flows[1..], t0, t1, f);
    }
  }

  lemma {:induction false} PotentialDrops(flows: seq<Flow>, t0: Times, t1: Times, f: Flow, h: Flow)
    requires forall g :: g in flows ==> Debt(t1, f, g) <= Debt(t0, f, g)
    requires h in flows && Debt(t1, f, h) < Debt(t0, f, h)
    ensures Potential(flows, t1, f) < Potential(flows, t0, f)
  {
    assert flows[0] in flows;
    assert forall g :: g in flows[1..] ==> g in flows;
    if flows[0] == h {
      PotentialMonotone(flows[1..], t0, t1, f);
    } else {
      PotentialDrops(flows[1..], t0, t1, f, h);
    }
  }

  lemma {:induction false} PotentialWithout(flows: seq<Flow>, time: Times, f: Flow, x: Flow)
    ensures Potential(Without(flows, x), time, f) <= Potential(flows, time, f)
  {
    if flows != [] && flows[0] != x {
      PotentialWithout(flows[1..], time, f, x);
    }
  }

  /** `f` stays queued, and no flow is added. */
  predicate Waits(q: Queue, es: seq<Event>, f: Flow)
    requires Inv(q)
    decreases |es|
  {
    && f in q.queued
    && (es == [] || (!es[0].FlowInit? && Waits(Step(q, es[0]), es[1..], f)))
  }

  /** Packets sent during the run. */
  function PacketsSent(q: Queue, es: seq<Event>): nat
    requires Inv(q)
    decreases |es|
  {
    if es == [] then 0
    else (if es[0].Done? && q.sending.Some? then 1 else 0) + PacketsSent(Step(q, es[0]), es[1..])
  }

  function OwnPotential(q: Queue, f: Flow): nat {
    Potential(q.flows, q.time, f)
  }

  lemma PotentialDone(q: Queue, f: Flow)
    requires Inv(q) && f in q.queued && q.sending.Some?
    ensures OwnPotential(OutputDone(q), f) < OwnPotential(q, f)
  {
    assert q.sending.value in q.flows;
    hide Tables, OutputDone, DoneSubtrahend, Potential;
    DoneEffect(q);
    PotentialDrops(q.flows, q.time, OutputDone(q).time, f, q.sending.value);
  }

  lemma PotentialSend(q: Queue, f: Flow, g: Flow, n: nat)
    requires Inv(q) && f in q.queued && Enabled(q, Send(g, n))
    ensures OwnPotential(InputSend(q, g, n), f) <= OwnPotential(q, f)
  {
    assert forall h :: h in q.flows ==> h in q.time;
    hide Tables, InputSend, Potential;
    SendKeepsOthers(q, g, n);
    PotentialMonotone(q.flows, q.time, InputSend(q, g, n).time, f);
  }

  lemma PotentialFree(q: Queue, f: Flow, g: Flow)
    requires f != g
    ensures OwnPotential(Free(q, g), f) <= OwnPotential(q, f)
  {
    hide Without, Potential;
    PotentialWithout(q.flows, q.time, f, g);
    PotentialMonotone(Without(q.flows, g), q.time, q.time - {g}, f);
  }

  /** Raising, renormalising and freeing never cost a waiting flow anything; each packet of another flow pays. */
  lemma PotentialStep(q: Queue, e: Event, f: Flow)
    requires Inv(q) && f in q.queued && !e.FlowInit? && f in Step(q, e).queued
    ensures OwnPotential(Step(q, e), f) + (if e.Done? && q.sending.Some? then 1 else 0) <= OwnPotential(q, f)
  {
    assert e == FlowFree(f) ==> f !in Without(q.queued, f);
    hide Tables, OutputDone, InputSend, Potential, Without;
    if Enabled(q, e) {
      match e
      case FlowInit(g) =>
      case FlowFree(g) => PotentialFree(q, f, g);
      case Send(g, n) => PotentialSend(q, f, g, n);
      case Done => PotentialDone(q, f);
      case Job =>
    }
  }

  /** No starvation: while `f` waits in the queue, at most `Potential` packets are sent, whatever arrives. */
  lemma {:induction false} NoStarvation(q: Queue, es: seq<Event>, f: Flow)
    requires Inv(q) && Waits(q, es, f)
    ensures PacketsSent(q, es) <= Potential(q.flows, q.time, f)
    decreases |es|
  {
    hide Step, Inv, Potential;
    if es != [] {
      PotentialStep(q, es[0], f);
      NoStarvation(Step(q, es[0]), es[1..], f);
    }
  }
}
