/** PacketPassFairQueue: virtual-time fair queuing on 64-bit times that are renormalised in place. */
module FairQueue {
  import opened Lists

  const UINT64_RANGE: nat := 0x1_0000_0000_0000_0000

  /** FAIRQUEUE_MAX_TIME */
  const MAX_TIME: nat := UINT64_RANGE - 1

  /** A flow, by its address: the tie-break of `compare_flows`. */
  type Flow = nat

  type Times = map<Flow, nat>

  /**
   * `queued` is the tree in its order, `flows` the list of all flows. With `unbounded` set, times never overflow:
   * the queue the 64-bit one is meant to behave like.
   */
  datatype Queue = Queue(unbounded: bool, weight: nat, mtu: nat, flows: seq<Flow>, time: Times, len: map<Flow, nat>,
                         queued: seq<Flow>, sending: Option<Flow>, sendingLen: nat, previous: Option<Flow>,
                         jobSet: bool)

  function AddWrap(a: nat, b: nat): nat {
    (a + b) % UINT64_RANGE
  }

  function SubWrap(a: nat, b: nat): nat
    requires b <= MAX_TIME
  {
    (a + UINT64_RANGE - b) % UINT64_RANGE
  }

  /** compare_flows */
  predicate Before(time: Times, f: Flow, g: Flow)
    requires f in time && g in time
  {
    time[f] < time[g] || (time[f] == time[g] && f < g)
  }

  predicate Known(s: seq<Flow>, time: Times) {
    forall i :: 0 <= i < |s| ==> s[i] in time
  }

  predicate Sorted(s: seq<Flow>, time: Times)
    requires Known(s, time)
  {
    forall i, j :: 0 <= i < j < |s| ==> Before(time, s[i], s[j])
  }

  function Insert(s: seq<Flow>, time: Times, f: Flow): (r: seq<Flow>)
    requires Known(s, time) && f in time
    ensures forall g :: g in r <==> g == f || g in s
  {
    if s == [] then [f]
    else if Before(time, f, s[0]) then [f] + s
    else
      var r := [s[0]] + Insert(s[1..], time, f);
      assert s == [s[0]] + s[1..];
      r
  }

  lemma {:induction false} InsertSorted(s: seq<Flow>, time: Times, f: Flow)
    requires Known(s, time) && f in time && f !in s && Sorted(s, time)
    ensures Known(Insert(s, time, f), time) && Sorted(Insert(s, time, f), time)
  {
    var r := Insert(s, time, f);
    if s != [] && !Before(time, f, s[0]) {
      var rest := Insert(s[1..], time, f);
      InsertSorted(s[1..], time, f);
      assert r == [s[0]] + rest;
      forall j | 0 < j < |r|
        ensures r[j] in time && Before(time, r[0], r[j])
      {
        assert r[j] == rest[j - 1] && rest[j - 1] in rest;
        if r[j] != f {
          var k :| 0 <= k < |s[1..]| && s[1..][k] == r[j];
          assert s[k + 1] == r[j];
        }
      }
    }
  }

  // ------------------------------------------------------------------ operations

  /** get_current_time */
  function CurrentTime(q: Queue): nat
    requires Inv(q)
  {
    if q.sending.Some? then q.time[q.sending.value]
    else if q.queued != [] then
      var t := q.time[q.queued[0]];
      if q.previous.Some? && q.time[q.previous.value] < t then q.time[q.previous.value] else t
    else if q.previous.Some? then q.time[q.previous.value]
    else 0
  }

  /** What `increment_sent_flow` subtracts from all times: nothing unless the addition would overflow. */
  function Subtrahend(q: Queue, f: Flow, amount: nat): nat
    requires f in q.time && Known(q.queued, q.time)
  {
    if q.unbounded || amount <= MAX_TIME - q.time[f] then 0
    else if q.queued == [] then q.time[f]
    else q.time[q.queued[0]]
  }

  /** increment_sent_flow, with the machine's wrap-around on the finished flow */
  function Increment(q: Queue, f: Flow, amount: nat): Queue
    requires f in q.time && Known(q.queued, q.time)
    requires !q.unbounded ==> forall g :: g in q.time ==> q.time[g] <= MAX_TIME
  {
    if q.unbounded then q.(time := q.time[f := q.time[f] + amount])
    else if amount <= MAX_TIME - q.time[f] then q.(time := q.time[f := AddWrap(q.time[f], amount)])
    else
      var s := Subtrahend(q, f, amount);
      var time := map g | g in q.time :: if s > q.time[g] && g != f then 0 else SubWrap(q.time[g], s);
      q.(time := time[f := AddWrap(time[f], amount)])
  }

  function Schedule(q: Queue): Queue
    requires q.queued != [] && q.queued[0] in q.len
  {
    var f := q.queued[0];
    q.(queued := q.queued[1..], sending := Some(f), sendingLen := q.len[f])
  }

  datatype Event = FlowInit(flow: Flow) | FlowFree(flow: Flow) | Send(flow: Flow, len: nat) | Done | Job

  predicate Enabled(q: Queue, e: Event) {
    match e
    case FlowInit(f) => f !in q.flows
    case FlowFree(f) => f in q.flows && q.sending != Some(f)
    case Send(f, n) => f in q.flows && f !in q.queued && q.sending != Some(f) && n <= q.mtu
    case Done => q.sending.Some?
    case Job => q.jobSet
  }

  /** The flow joins the tree, raised to the current time unless it was served last. */
  function Enqueue(q: Queue, f: Flow, n: nat): Queue
    requires Inv(q) && Enabled(q, Send(f, n))
  {
    var q1 := if q.previous == Some(f) then q.(previous := None)
              else
                var now := CurrentTime(q);
                q.(time := q.time[f := if q.time[f] < now then now else q.time[f]]);
    q1.(len := q.len[f := n], queued := Insert(q1.queued, q1.time, f))
  }

  /** input_handler_send */
  function InputSend(q: Queue, f: Flow, n: nat): Queue
    requires Inv(q) && Enabled(q, Send(f, n))
  {
    if q.sending.None? && !q.jobSet then Schedule(Enqueue(q, f, n)) else Enqueue(q, f, n)
  }

  /** output_handler_done */
  function OutputDone(q: Queue): Queue
    requires Inv(q) && Enabled(q, Done)
  {
    var f := q.sending.value;
    Increment(q.(sending := None, previous := Some(f)), f, q.weight + q.sendingLen).(jobSet := true)
  }

  /** schedule_job_handler */
  function ScheduleJob(q: Queue): Queue
    requires Inv(q)
  {
    var q1 := q.(previous := None, jobSet := false);
    if q1.queued != [] then Schedule(q1) else q1
  }

  function Init(q: Queue, f: Flow): Queue {
    q.(flows := q.flows + [f], time := q.time[f := 0])
  }

  function Free(q: Queue, f: Flow): Queue {
    q.(flows := Without(q.flows, f), time := q.time - {f}, queued := Without(q.queued, f),
       previous := if q.previous == Some(f) then None else q.previous)
  }

  function Step(q: Queue, e: Event): (r: Queue)
    requires Inv(q)
    ensures Inv(r)
  {
    if !Enabled(q, e) then q
    else
      match e
      case FlowInit(f) => InitInv(q, f); Init(q, f)
      case FlowFree(f) => FreeInv(q, f); Free(q, f)
      case Send(f, n) => SendInv(q, f, n); InputSend(q, f, n)
      case Done => DoneInv(q); OutputDone(q)
      case Job => JobInv(q); ScheduleJob(q)
  }

  // ------------------------------------------------------------------ invariant

  predicate InRange(q: Queue) {
    q.unbounded || (q.weight + q.mtu <= MAX_TIME && forall f :: f in q.time ==> q.time[f] <= MAX_TIME)
  }

  ghost predicate Tables(q: Queue) {
    && q.weight > 0
    && Distinct(q.flows) && (forall f :: f in q.time <==> f in q.flows)
    && InRange(q)
    && Distinct(q.queued) && Known(q.queued, q.time) && Sorted(q.queued, q.time)
    && (forall f :: f in q.queued ==> f in q.len && q.len[f] <= q.mtu)
  }

  ghost predicate Control(q: Queue) {
    && (q.sending.Some? ==> q.sending.value in q.time && q.sending.value !in q.queued && q.previous.None?)
    && (q.sending.Some? ==> !q.jobSet && q.sendingLen <= q.mtu)
    && (q.previous.Some? ==> q.previous.value in q.time && q.previous.value !in q.queued && q.jobSet)
    && (q.queued != [] ==> q.sending.Some? || q.jobSet)
  }

  /** No queued flow is behind the one being sent. */
  ghost predicate SenderIsLeast(q: Queue) {
    q.sending.Some? && q.sending.value in q.time ==>
      forall g :: g in q.queued && g in q.time ==> q.time[q.sending.value] <= q.time[g]
  }

  ghost predicate Inv(q: Queue) {
    Tables(q) && Control(q) && SenderIsLeast(q)
  }

  lemma InitInv(q: Queue, f: Flow)
    requires Inv(q) && f !in q.flows
    ensures Inv(Init(q, f))
  {
    var r := Init(q, f);
    assert forall g :: g in q.queued ==> g in q.time;
    assert Sorted(r.queued, r.time);
  }

  lemma FreeInv(q: Queue, f: Flow)
    requires Inv(q) && Enabled(q, FlowFree(f))
    ensures Inv(Free(q, f))
  {
    hide Sorted, Without;
    var r := Free(q, f);
    SortedWithout(q.queued, q.time, f);
  }

  /** The flow sent from may be freed too, if nothing is to be scheduled any more. */
  lemma FreeTables(q: Queue, f: Flow)
    requires Tables(q)
    ensures Tables(Free(q, f)) && Tables(Free(q, f).(sending := None))
  {
    hide Sorted, Without;
    SortedWithout(q.queued, q.time, f);
  }

  lemma FlowGone(q: Queue, f: Flow)
    requires Tables(q)
    ensures var r := Free(q, f);
            && f !in r.flows && f !in r.queued && r.sending == q.sending
            && r.previous == (if q.previous == Some(f) then None else q.previous)
            && forall g :: g in r.time <==> g in q.time && g != f
  {
    hide Sorted, Without, InRange;
  }

  lemma SortedWithout(s: seq<Flow>, time: Times, f: Flow)
    requires Distinct(s) && Known(s, time) && Sorted(s, time)
    ensures Known(Without(s, f), time - {f}) && Sorted(Without(s, f), time - {f})
  {
    hide Without;
    var r := Without(s, f);
    if f in s {
      var i :| 0 <= i < |s| && s[i] == f;
      WithoutSplice(s, i);
      assert forall k :: 0 <= k < |r| ==> r[k] == s[if k < i then k else k + 1];
      assert forall k :: 0 <= k < |r| ==> r[k] != f;
    }
  }

  /** The head of the tree comes before all others and is not among them. */
  lemma HeadIsLeast(s: seq<Flow>, time: Times)
    requires s != [] && Distinct(s) && Known(s, time) && Sorted(s, time)
    ensures s[0] !in s[1..] && Distinct(s[1..]) && Known(s[1..], time) && Sorted(s[1..], time)
    ensures forall g :: g in s[1..] ==> g in s && g in time && time[s[0]] <= time[g]
  {
    var rest := s[1..];
    assert s == [s[0]] + rest;
    forall g | g in rest
      ensures g in s && g in time && time[s[0]] <= time[g]
    {
      var k :| 0 <= k < |rest| && rest[k] == g;
      assert s[k + 1] == g && Before(time, s[0], s[k + 1]);
    }
  }

  /** The least queued flow leaves the tree to be sent. */
  lemma ScheduleInv(q: Queue)
    requires Tables(q) && q.sending.None? && q.previous.None? && !q.jobSet && q.queued != []
    ensures q.queued[0] in q.len && Inv(Schedule(q))
  {
    hide Sorted, Distinct, InRange;
    HeadIsLeast(q.queued, q.time);
    assert q.queued[0] in q.queued;
    var r := Schedule(q);
    assert InRange(r) by { SameRange(q, r); }
  }

  lemma SameRange(q: Queue, r: Queue)
    requires r.unbounded == q.unbounded && r.weight == q.weight && r.mtu == q.mtu && r.time == q.time
    ensures InRange(r) <==> InRange(q)
  {
  }

  /** What joining the tree changes: one time, one length and the tree. */
  lemma EnqueueEffect(q: Queue, f: Flow, n: nat)
    requires Inv(q) && Enabled(q, Send(f, n))
    ensures var r := Enqueue(q, f, n);
            && f in q.time && f in r.time
            && r.time == q.time[f := r.time[f]]
            && r.time[f] == (if q.previous == Some(f) || q.time[f] >= CurrentTime(q) then q.time[f] else CurrentTime(q))
            && Known(q.queued, r.time)
            && r == q.(previous := if q.previous == Some(f) then None else q.previous, time := r.time,
                       len := q.len[f := n], queued := Insert(q.queued, r.time, f))
  {
    hide CurrentTime, Insert, Sorted, Distinct, InRange, SenderIsLeast;
  }

  lemma EnqueueTables(q: Queue, f: Flow, n: nat)
    requires Inv(q) && Enabled(q, Send(f, n))
    ensures Tables(Enqueue(q, f, n)) && Enqueue(q, f, n).queued != []
  {
    EnqueueEffect(q, f, n);
    CurrentInRange(q);
    hide CurrentTime, Insert, Sorted, Enqueue, SenderIsLeast, Control, Distinct;
    var r := Enqueue(q, f, n);
    SortedShift(q.queued, q.time, r.time, 0);
    InsertSorted(q.queued, r.time, f);
    InsertDistinct(q.queued, r.time, f);
    assert f in r.queued;
  }

  lemma SendInv(q: Queue, f: Flow, n: nat)
    requires Inv(q) && Enabled(q, Send(f, n))
    ensures Inv(InputSend(q, f, n))
  {
    EnqueueTables(q, f, n);
    hide CurrentTime, Insert, Sorted, Schedule, Tables;
    if q.sending.None? && !q.jobSet {
      ScheduleInv(Enqueue(q, f, n));
    } else {
      CurrentInRange(q);
    }
  }

  lemma CurrentInRange(q: Queue)
    requires Inv(q)
    ensures q.unbounded || CurrentTime(q) <= MAX_TIME
    ensures q.sending.Some? ==> CurrentTime(q) == q.time[q.sending.value]
  {
    if q.queued != [] { assert q.queued[0] in q.queued; }
  }

  lemma {:induction false} InsertDistinct(s: seq<Flow>, time: Times, f: Flow)
    requires Known(s, time) && f in time && f !in s && Distinct(s)
    ensures Distinct(Insert(s, time, f))
  {
    if s != [] && !Before(time, f, s[0]) {
      InsertDistinct(s[1..], time, f);
      assert s[0] !in s[1..];
    }
  }

  lemma JobInv(q: Queue)
    requires Inv(q) && q.jobSet
    ensures Inv(ScheduleJob(q))
  {
    var q1 := q.(previous := None, jobSet := false);
    if q1.queued != [] {
      ScheduleInv(q1);
    }
  }

  lemma DoneInv(q: Queue)
    requires Inv(q) && q.sending.Some?
    ensures Inv(OutputDone(q))
  {
    hide OutputDone, Sorted;
    DoneEffect(q);
    var r := OutputDone(q);
    SortedShift(q.queued, q.time, r.time, DoneSubtrahend(q));
  }

  /** Subtracting the same amount from all keys leaves the tree in order. */
  lemma SortedShift(s: seq<Flow>, t0: Times, t1: Times, amount: nat)
    requires Known(s, t0) && Sorted(s, t0)
    requires forall f :: f in s ==> f in t0 && f in t1 && t1[f] == t0[f] - amount
    ensures Known(s, t1) && Sorted(s, t1)
  {
    assert forall i :: 0 <= i < |s| ==> s[i] in s;
  }

  function DoneSubtrahend(q: Queue): nat
    requires q.sending.Some? && q.sending.value in q.time && Known(q.queued, q.time)
  {
    Subtrahend(q, q.sending.value, q.weight + q.sendingLen)
  }

  /** What the end of a packet does to every flow's time. */
  lemma DoneEffect(q: Queue)
    requires Inv(q) && q.sending.Some?
    ensures var f, r, s := q.sending.value, OutputDone(q), DoneSubtrahend(q);
            && r == q.(sending := None, previous := Some(f), jobSet := true, time := r.time)
            && (forall g :: g in r.time <==> g in q.time)
            && r.time[f] == q.time[f] + q.weight + q.sendingLen - s
            && (forall g :: g in q.queued ==> g in q.time && r.time[g] == q.time[g] - s)
            && (forall g :: g in q.time && g != f ==> r.time[g] == if q.time[g] >= s then q.time[g] - s else 0)
            && InRange(r)
  {
    hide Increment, Sorted, Subtrahend;
    var f := q.sending.value;
    var q1 := q.(sending := None, previous := Some(f));
    assert q1.time == q.time && q1.queued == q.queued;
    IncrementExact(q1, f, q.weight + q.sendingLen);
    SameSubtrahend(q, q1, f, q.weight + q.sendingLen);
  }

  lemma SameSubtrahend(q: Queue, q1: Queue, f: Flow, amount: nat)
    requires q1 == q.(sending := q1.sending, previous := q1.previous) && f in q.time && Known(q.queued, q.time)
    ensures Subtrahend(q, f, amount) == Subtrahend(q1, f, amount)
  {
  }

  // ------------------------------------------------------------------ the arithmetic is exact

  /**
   * The wrap-around yields exactly time + amount - subtrahend for the finished flow, every queued flow loses exactly
   * the subtrahend, and only idle flows are clamped at 0.
   */
  lemma IncrementExact(q: Queue, f: Flow, amount: nat)
    requires Tables(q) && f in q.time && f !in q.queued && (q.unbounded || amount <= MAX_TIME)
    requires forall g :: g in q.queued ==> q.time[f] <= q.time[g]
    ensures var r, s := Increment(q, f, amount), Subtrahend(q, f, amount);
            && r == q.(time := r.time)
            && (forall g :: g in r.time <==> g in q.time)
            && r.time[f] == q.time[f] + amount - s
            && (forall g :: g in q.queued ==> r.time[g] == q.time[g] - s)
            && (forall g :: g in q.time && g != f ==> r.time[g] == if q.time[g] >= s then q.time[g] - s else 0)
            && (q.unbounded || forall g :: g in r.time ==> r.time[g] <= MAX_TIME)
  {
    hide Sorted, AddWrap, SubWrap;
    var s := Subtrahend(q, f, amount);
    SubtrahendBounds(q, f, amount);
    if q.unbounded {
    } else if amount <= MAX_TIME - q.time[f] {
      WrapsBack(q.time[f], 0, amount);
    } else {
      WrapsBack(q.time[f], s, amount);
      forall g | g in q.time && q.time[g] >= s
        ensures SubWrap(q.time[g], s) == q.time[g] - s
      {
        WrapsBack(q.time[g], s, 0);
      }
    }
  }

  /**
   * Nothing but the charged flow moves unless the addition would overflow; if it would, all times come down as far as
   * they can: the first queued flow, or with none queued the charged flow before the charge, ends up at 0.
   */
  lemma RenormalisesFully(q: Queue, f: Flow, amount: nat)
    requires Tables(q) && !q.unbounded && f in q.time && f !in q.queued && amount <= MAX_TIME
    requires forall g :: g in q.queued ==> q.time[f] <= q.time[g]
    ensures var r := Increment(q, f, amount);
            && f in r.time
            && (q.time[f] + amount <= MAX_TIME ==> r.time == q.time[f := q.time[f] + amount])
            && (q.time[f] + amount > MAX_TIME && q.queued == [] ==> r.time[f] == amount)
            && (q.time[f] + amount > MAX_TIME && q.queued != [] ==> q.queued[0] in r.time && r.time[q.queued[0]] == 0)
  {
    hide Sorted, AddWrap, SubWrap;
    IncrementExact(q, f, amount);
    if q.queued != [] { assert q.queued[0] in q.queued; }
    if q.time[f] + amount <= MAX_TIME { WrapsBack(q.time[f], 0, amount); }
  }

  lemma SubtrahendBounds(q: Queue, f: Flow, amount: nat)
    requires Tables(q) && f in q.time && (q.unbounded || amount <= MAX_TIME)
    requires forall g :: g in q.queued ==> q.time[f] <= q.time[g]
    ensures var s := Subtrahend(q, f, amount);
            && (s != 0 ==> q.time[f] <= s <= MAX_TIME)
            && (!q.unbounded && amount > MAX_TIME - q.time[f] ==> q.time[f] <= s <= MAX_TIME)
            && s <= q.time[f] + amount
            && (forall g :: g in q.queued ==> s <= q.time[g])
  {
    if q.queued != [] {
      assert q.queued[0] in q.queued;
    }
    forall g | g in q.queued
      ensures q.time[q.queued[0]] <= q.time[g]
    {
      var k :| 0 <= k < |q.queued| && q.queued[k] == g;
      assert k > 0 ==> Before(q.time, q.queued[0], q.queued[k]);
    }
  }

  /** Underflow and overflow cancel. */
  lemma WrapsBack(t: nat, s: nat, amount: nat)
    requires t <= MAX_TIME && s <= MAX_TIME && 0 <= t + amount - s <= MAX_TIME
    ensures AddWrap(SubWrap(t, s), amount) == t + amount - s
    ensures s == 0 ==> AddWrap(t, amount) == t + amount
    ensures t >= s ==> SubWrap(t, s) == t - s
  {
  }
}
