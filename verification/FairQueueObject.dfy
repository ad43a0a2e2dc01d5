/** The fair queue as the source has it: flows updated in place, times renormalised in a loop over all flows. */
module FairQueueObject {
  import opened Lists
  import F = FairQueue

  class PacketPassFairQueue {
    const weight: nat
    const mtu: nat
    var flows: seq<F.Flow>
    var time: F.Times
    var len: map<F.Flow, nat>
    var queued: seq<F.Flow>
    var sending: Option<F.Flow>
    var sendingLen: nat
    var previous: Option<F.Flow>
    var jobSet: bool
    var freeing: bool
    var busyHandlers: set<F.Flow>

    ghost function Model(): F.Queue
      reads this
    {
      F.Queue(false, weight, mtu, flows, time, len, queued, sending, sendingLen, previous, jobSet)
    }

    /** Only the flow being sent can have a busy handler set. */
    ghost predicate Valid()
      reads this
    {
      F.Inv(Model()) && !freeing && forall f :: f in busyHandlers ==> sending == Some(f)
    }

    /** After PrepareFree flows go in any order, and nothing is scheduled any more. */
    ghost predicate ShuttingDown()
      reads this
    {
      && freeing && F.Tables(Model())
      && (sending.Some? ==> sending.value in time) && (previous.Some? ==> previous.value in time)
    }

    constructor (weight: nat, mtu: nat)
      requires weight > 0 && weight + mtu <= F.MAX_TIME
      ensures Valid() && flows == [] && !jobSet && this.weight == weight && this.mtu == mtu
    {
      this.weight, this.mtu := weight, mtu;
      flows, time, len, queued := [], map[], map[], [];
      sending, sendingLen, previous, jobSet := None, 0, None, false;
      freeing, busyHandlers := false, {};
    }

    /** get_current_time */
    method GetCurrentTime() returns (t: nat)
      requires Valid()
      ensures t == F.CurrentTime(Model())
    {
      if sending.Some? {
        return time[sending.value];
      }
      var have := false;
      t := 0;
      if queued != [] {
        t, have := time[queued[0]], true;
      }
      if previous.Some? && (!have || time[previous.value] < t) {
        t := time[previous.value];
      }
    }

    ghost predicate TimesOk()
      reads this
    {
      && Distinct(flows) && (forall g :: g in time <==> g in flows) && (forall g :: g in time ==> time[g] <= F.MAX_TIME)
      && F.Known(queued, time)
    }

    lemma TimesFacts()
      requires Valid()
      ensures TimesOk() && (sending.Some? ==> sending.value in time)
    {
    }

    /** The loop of increment_sent_flow */
    method SubtractFromAll(subtract: nat, flow: F.Flow)
      requires TimesOk() && subtract <= F.MAX_TIME
      modifies `time
      ensures time == map g | g in old(time) :: Lowered(old(time)[g], subtract, g == flow)
    {
      hide F.SubWrap;
      ghost var before := time;
      var i := 0;
      while i < |flows|
        invariant 0 <= i <= |flows| && forall g :: g in time <==> g in before
        invariant forall g :: g in before ==>
                    time[g] == if g in flows[..i] then Lowered(before[g], subtract, g == flow) else before[g]
      {
        var g := flows[i];
        assert g in flows && g !in flows[..i];
        assert flows[..i + 1] == flows[..i] + [g];
        time := time[g := Lowered(time[g], subtract, g == flow)];
        i := i + 1;
      }
      assert flows[..i] == flows;
    }

    /** increment_sent_flow */
    method IncrementSentFlow(flow: F.Flow, amount: nat)
      requires TimesOk() && flow in time
      modifies `time
      ensures Model() == F.Increment(old(Model()), flow, amount)
    {
      hide F.SubWrap, F.AddWrap, Distinct;
      if amount > F.MAX_TIME - time[flow] {
        var subtract := time[flow];
        if queued != [] {
          subtract := time[queued[0]];
        }
        ghost var before := time;
        SubtractFromAll(subtract, flow);
        LoweredAll(before, time, subtract, flow);
      }
      time := time[flow := F.AddWrap(time[flow], amount)];
    }

    /** schedule: the flow that has had the least service so far starts sending, ties broken by address */
    method Schedule()
      requires F.Tables(Model()) && sending.None? && previous.None? && !jobSet && queued != []
      requires !freeing && busyHandlers == {}
      modifies `queued, `sending, `sendingLen
      ensures Valid() && Model() == F.Schedule(old(Model()))
      ensures sending.Some? && sending.value in old(queued) && sending.value in time
      ensures forall g :: g in old(queued) && g != sending.value ==> g in time && F.Before(time, sending.value, g)
    {
      F.ScheduleInv(Model());
      LeastFirst(queued, time);
      var f := queued[0];
      queued := queued[1..];
      sending, sendingLen := Some(f), len[f];
    }

    /** schedule_job_handler; the job was unset when it was taken to run */
    method ScheduleJobHandler()
      requires Valid() && jobSet
      modifies this
      ensures Valid() && Model() == F.ScheduleJob(old(Model()))
    {
      F.JobInv(Model());
      jobSet, previous := false, None;
      if queued != [] {
        assert queued[0] in queued;
        Schedule();
      }
    }

    /** input_handler_send */
    method InputHandlerSend(flow: F.Flow, dataLen: nat)
      requires Valid() && F.Enabled(Model(), F.Send(flow, dataLen))
      modifies this
      ensures Valid() && Model() == F.InputSend(old(Model()), flow, dataLen)
    {
      hide F.Inv, F.CurrentTime, F.Insert, F.Tables, F.Schedule;
      F.SendInv(Model(), flow, dataLen);
      assert F.Known(queued, time) && flow in time by { Facts(Model(), flow); }
      if previous == Some(flow) {
        previous := None;
      } else {
        var now := GetCurrentTime();
        time := time[flow := if time[flow] < now then now else time[flow]];
      }
      len := len[flow := dataLen];
      queued := F.Insert(queued, time, flow);
      if sending.None? && !jobSet {
        IdleFacts(old(Model()));
        F.EnqueueTables(old(Model()), flow, dataLen);
        Schedule();
      }
    }

    /**
     * output_handler_done: `flow` is the one whose input gets its done, and `busy` tells whether the flow's handler is
     * called, which is unset before.
     */
    method OutputHandlerDone() returns (flow: F.Flow, busy: bool)
      requires Valid() && sending.Some?
      modifies this
      ensures Valid() && Some(flow) == old(sending) && Model() == F.OutputDone(old(Model()))
      ensures (busy <==> flow in old(busyHandlers)) && busyHandlers == {}
    {
      hide F.Inv, F.Increment;
      F.DoneInv(Model());
      TimesFacts();
      flow := sending.value;
      sending, previous := None, Some(flow);
      IncrementSentFlow(flow, weight + sendingLen);
      jobSet := true;
      busy := flow in busyHandlers;
      busyHandlers := busyHandlers - {flow};
    }

    /** PacketPassFairQueueFlow_SetBusyHandler */
    method SetBusyHandler(flow: F.Flow)
      requires Valid() && sending == Some(flow)
      modifies `busyHandlers
      ensures Valid() && busyHandlers == {flow}
    {
      busyHandlers := busyHandlers + {flow};
    }

    /** PacketPassFairQueueFlow_Init */
    method FlowInit(flow: F.Flow)
      requires Valid() && F.Enabled(Model(), F.FlowInit(flow))
      modifies this
      ensures Valid() && Model() == F.Init(old(Model()), flow)
    {
      F.InitInv(Model(), flow);
      time, flows := time[flow := 0], flows + [flow];
    }

    /** PacketPassFairQueue_PrepareFree */
    method PrepareFree()
      requires Valid() || ShuttingDown()
      modifies `freeing
      ensures ShuttingDown() && Model() == old(Model())
    {
      freeing := true;
    }

    /** PacketPassFairQueueFlow_Free; the flow being sent goes only when the queue is shutting down */
    method FlowFree(flow: F.Flow)
      requires flow in flows && (if freeing then ShuttingDown() else Valid() && sending != Some(flow))
      modifies this
      ensures if old(freeing) then ShuttingDown() else Valid()
      ensures Model() == Freed(old(Model()), flow)
      ensures flow !in flows && flow !in queued && sending != Some(flow) && previous != Some(flow)
    {
      hide F.Tables, F.SenderIsLeast, F.Free;
      F.FlowGone(Model(), flow);
      if freeing {
        F.FreeTables(Model(), flow);
      } else {
        F.FreeInv(Model(), flow);
      }
      Forget(flow);
    }

    /** The flow leaves the tree, the list and the two places that refer to it. */
    method Forget(flow: F.Flow)
      modifies `sending, `previous, `queued, `flows, `time, `busyHandlers
      ensures Model() == Freed(old(Model()), flow)
      ensures busyHandlers == old(busyHandlers) - {flow}
    {
      hide Without;
      if sending == Some(flow) {
        sending := None;
      }
      if previous == Some(flow) {
        previous := None;
      }
      if flow in queued {
        queued := Without(queued, flow);
      }
      flows, time := Without(flows, flow), time - {flow};
      busyHandlers := busyHandlers - {flow};
    }

    /** PacketPassFairQueue_Free, once all flows are freed: nothing refers to a flow any more. */
    lemma AllFlowsFreed()
      requires (Valid() || ShuttingDown()) && flows == []
      ensures queued == [] && sending.None? && previous.None?
    {
      assert forall f :: f !in time;
      HeadIsKnown(queued, time);
    }
  }

  /** The queue without the flow, which may be the one being sent. */
  function Freed(q: F.Queue, flow: F.Flow): F.Queue {
    F.Free(q, flow).(sending := if q.sending == Some(flow) then None else q.sending)
  }

  /** Subtraction from one flow: clamped at 0, except that the finished flow may wrap around. */
  function Lowered(t: nat, subtract: nat, isFinished: bool): nat
    requires subtract <= F.MAX_TIME
  {
    if subtract > t && !isFinished then 0 else F.SubWrap(t, subtract)
  }

  /** Lowering every time is the map the specification builds. */
  lemma LoweredAll(before: F.Times, after: F.Times, s: nat, flow: F.Flow)
    requires s <= F.MAX_TIME && after == map g | g in before :: Lowered(before[g], s, g == flow)
    ensures after == map g | g in before :: if s > before[g] && g != flow then 0 else F.SubWrap(before[g], s)
  {
    hide F.SubWrap;
  }

  lemma HeadIsKnown(queued: seq<F.Flow>, time: F.Times)
    requires F.Known(queued, time)
    ensures queued != [] ==> queued[0] in time
  {
  }

  lemma Facts(q: F.Queue, f: F.Flow)
    requires F.Inv(q) && f in q.flows
    ensures F.Known(q.queued, q.time) && f in q.time
  {
  }

  lemma IdleFacts(q: F.Queue)
    requires F.Inv(q) && q.sending.None? && !q.jobSet
    ensures q.queued == [] && q.previous.None?
  {
  }

  /** The first flow of the tree comes before every other. */
  lemma LeastFirst(queued: seq<F.Flow>, time: F.Times)
    requires queued != [] && F.Known(queued, time) && F.Sorted(queued, time)
    ensures queued[0] in queued
    ensures forall g :: g in queued && g != queued[0] ==> g in time && F.Before(time, queued[0], g)
  {
    forall g | g in queued && g != queued[0] ensures g in time && F.Before(time, queued[0], g) {
      var k :| 0 <= k < |queued| && queued[k] == g;
      assert queued[k] in time;
    }
  }
}
