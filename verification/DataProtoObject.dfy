/** DataProto as the source has it: flows, buffers and sinks updated in place. */
module DataProtoObject {
  import opened Lists
  import opened DataProto

  class DataProtoSystem {
    var flows: map<Flow, FlowState>
    var buffers: map<Buffer, BufferState>
    var sinks: map<Sink, SinkState>
    var next: nat
    var freed: seq<Buffer>

    ghost function Model(): World
      reads this
    {
      World(flows, buffers, sinks, next, freed)
    }

    ghost predicate Valid()
      reads this
    {
      Inv(Model())
    }

    constructor ()
      ensures Valid() && Model() == EMPTY
    {
      flows, buffers, sinks, next, freed := map[], map[], map[], 0, [];
    }

    ghost predicate Holds(b: Buffer)
      reads this
    {
      b in buffers && buffers[b].sink.Some? && buffers[b].sink.value in sinks
    }

    /** flow_buffer_free: a buffer no sink holds is freed, for the first time */
    method BufferFree(b: Buffer)
      requires b in buffers && buffers[b].sink.None? && FreedOnce(Model())
      modifies `buffers, `freed
      ensures Model() == DataProto.BufferFree(old(Model()), b)
      ensures FreedOnce(Model()) && b !in old(freed) && b !in buffers
    {
      buffers, freed := buffers - {b}, freed + [b];
    }

    /** flow_buffer_attach: a buffer no sink holds gets its one sink */
    method BufferAttach(b: Buffer, s: Sink)
      requires b in buffers && buffers[b].sink.None? && s in sinks
      modifies `buffers
      ensures Model() == DataProto.BufferAttach(old(Model()), b, s)
      ensures Holds(b) && forall c :: c in buffers && c != b ==> c in old(buffers) && buffers[c] == old(buffers)[c]
    {
      buffers := buffers[b := buffers[b].(sink := Some(s))];
    }

    /** flow_buffer_detach, including the queue flow it frees; that may be busy only if the sink is going away */
    method BufferDetach(b: Buffer, ghost freeing: bool)
      requires Holds(b) && (freeing || !IsBusy(Model(), b, buffers[b].sink.value))
      modifies `buffers, `sinks
      ensures Model() == DataProto.BufferDetach(old(Model()), b)
      ensures b in buffers && buffers[b].sink.None? && forall s :: !IsBusy(Model(), b, s) || IsBusy(old(Model()), b, s)
    {
      var s := buffers[b].sink.value;
      var st := sinks[s];
      if st.sending == Some(b) {
        st := st.(sending := None);
      }
      if st.detaching == Some(b) {
        st := st.(detaching := None);
      }
      sinks := sinks[s := st];
      buffers := buffers[b := buffers[b].(sink := None)];
    }

    /** flow_buffer_schedule_detach */
    method ScheduleDetach(b: Buffer)
      requires Holds(b) && IsBusy(Model(), b, buffers[b].sink.value)
      requires sinks[buffers[b].sink.value].detaching.None? || sinks[buffers[b].sink.value].detaching == Some(b)
      modifies `sinks
      ensures Model() == DataProto.ScheduleDetach(old(Model()), b)
    {
      var s := buffers[b].sink.value;
      if sinks[s].detaching == Some(b) {
        assert sinks == sinks[s := sinks[s].(detaching := Some(b))];
        return;
      }
      sinks := sinks[s := sinks[s].(detaching := Some(b))];
    }

    /** flow_buffer_finish_detach */
    method FinishDetach(b: Buffer, ghost freeing: bool)
      requires Holds(b) && IsDetaching(Model(), b, buffers[b].sink.value)
      requires freeing || !IsBusy(Model(), b, buffers[b].sink.value)
      requires buffers[b].flow.Some? ==> buffers[b].flow.value in flows
      requires buffers[b].flow.Some? && flows[buffers[b].flow.value].desired.Some? ==>
                 flows[buffers[b].flow.value].desired.value in sinks
      requires FreedOnce(Model())
      modifies `buffers, `sinks, `freed
      ensures Model() == DataProto.FinishDetach(old(Model()), b) && FreedOnce(Model())
    {
      BufferDetach(b, freeing);
      if buffers[b].flow.None? {
        BufferFree(b);
      } else if flows[buffers[b].flow.value].desired.Some? {
        BufferAttach(b, flows[buffers[b].flow.value].desired.value);
      }
    }

    /** DataProtoFlow_Init */
    method FlowInit(f: Flow)
      requires Valid() && Enabled(Model(), Event.FlowInit(f))
      modifies this
      ensures Valid() && Model() == Handle(old(Model()), Event.FlowInit(f))
    {
      hide Inv;
      HandleInv(Model(), Event.FlowInit(f));
      flows := flows[f := FlowState(None, next)];
      buffers := buffers[next := BufferState(Some(f), None)];
      next := next + 1;
    }

    /** DataProtoFlow_Free; its branch for a buffer held by an idle sink is never taken */
    method FlowFree(f: Flow)
      requires Valid() && Enabled(Model(), Event.FlowFree(f))
      modifies this
      ensures Valid() && Model() == Handle(old(Model()), Event.FlowFree(f))
    {
      hide Inv;
      HandleInv(Model(), Event.FlowFree(f));
      FlowFacts(Model(), f);
      assert FreedOnce(Model()) by { FreedFacts(Model()); }
      var b := flows[f].buffer;
      DetachingIsBusy(Model(), b);
      HeldIsBusy(Model(), f);
      flows := flows - {f};
      if buffers[b].sink.Some? {
        // the buffer of a flow without a desired sink is only held by a sink that is sending from it
        assert sinks[buffers[b].sink.value].sending == Some(b);
        ScheduleDetach(b);
        buffers := buffers[b := buffers[b].(flow := None)];
      } else {
        BufferFree(b);
      }
    }

    /** DataProtoFlow_Attach; its branch for a buffer held by an idle sink is never taken */
    method FlowAttach(f: Flow, s: Sink)
      requires Valid() && Enabled(Model(), Event.Attach(f, s))
      modifies this
      ensures Valid() && Model() == Handle(old(Model()), Event.Attach(f, s))
    {
      hide Inv;
      HandleInv(Model(), Event.Attach(f, s));
      FlowFacts(Model(), f);
      var b := flows[f].buffer;
      DetachingIsBusy(Model(), b);
      HeldIsBusy(Model(), f);
      if buffers[b].sink.Some? {
        assert sinks[buffers[b].sink.value].sending == Some(b);
        ScheduleDetach(b);
      } else {
        BufferAttach(b, s);
      }
      flows := flows[f := flows[f].(desired := Some(s))];
    }

    /** DataProtoFlow_Detach */
    method FlowDetach(f: Flow)
      requires Valid() && Enabled(Model(), Event.Detach(f))
      modifies this
      ensures Valid() && Model() == Handle(old(Model()), Event.Detach(f))
    {
      hide Inv;
      HandleInv(Model(), Event.Detach(f));
      FlowFacts(Model(), f);
      var b := flows[f].buffer;
      DetachingIsBusy(Model(), b);
      if sinks[buffers[b].sink.value].sending == Some(b) {
        ScheduleDetach(b);
      } else {
        BufferDetach(b, false);
      }
      flows := flows[f := flows[f].(desired := None)];
    }

    /** DataProtoSink_Init */
    method SinkInit(s: Sink)
      requires Valid() && Enabled(Model(), Event.SinkInit(s))
      modifies this
      ensures Valid() && Model() == Handle(old(Model()), Event.SinkInit(s))
    {
      hide Inv;
      HandleInv(Model(), Event.SinkInit(s));
      sinks := sinks[s := SinkState(None, None)];
    }

    /** DataProtoSink_Free; only called once no flow desires the sink */
    method SinkFree(s: Sink)
      requires Valid() && Enabled(Model(), Event.SinkFree(s))
      modifies this
      ensures Valid() && Model() == Handle(old(Model()), Event.SinkFree(s))
      ensures forall b :: b in buffers ==> buffers[b].sink != Some(s)
    {
      hide Inv;
      SinkFreeInv(Model(), s);
      SinkFacts(Model(), s);
      DetachingFacts(Model(), s);
      if sinks[s].detaching.Some? {
        FinishDetach(sinks[s].detaching.value, true);
      }
      sinks := sinks - {s};
    }

    /** The sink's queue takes the next packet from buffer `b` */
    method QueueSends(s: Sink, b: Buffer)
      requires Valid() && Enabled(Model(), Event.QueueSends(s, b))
      modifies this
      ensures Valid() && Model() == Handle(old(Model()), Event.QueueSends(s, b))
    {
      hide Inv;
      HandleInv(Model(), Event.QueueSends(s, b));
      sinks := sinks[s := sinks[s].(sending := Some(b))];
    }

    /** The sink's queue is done with its packet; flow_buffer_qflow_handler_busy runs if it was asked for */
    method QueueDone(s: Sink)
      requires Valid() && Enabled(Model(), Event.QueueDone(s))
      modifies this
      ensures Valid() && Model() == Handle(old(Model()), Event.QueueDone(s))
    {
      hide Inv;
      HandleInv(Model(), Event.QueueDone(s));
      SinkFacts(Model(), s);
      DetachingFacts(Model(), s);
      IdleFirst(Model(), s);
      sinks := sinks[s := sinks[s].(sending := None)];
      if sinks[s].detaching.Some? {
        FinishDetach(sinks[s].detaching.value, false);
      }
    }
  }

  /** A flow that desires no sink has its buffer held only by a sink that is sending from it. */
  lemma HeldIsBusy(w: World, f: Flow)
    requires Inv(w) && f in w.flows && w.flows[f].desired.None?
    ensures var b := w.flows[f].buffer;
            b in w.buffers && (w.buffers[b].sink.Some? ==> IsBusy(w, b, w.buffers[b].sink.value))
  {
    assert FlowOk(w, f);
    var b := w.flows[f].buffer;
    if w.buffers[b].sink.Some? {
      assert BufferOk(w, b);
      assert SinkOk(w, w.buffers[b].sink.value);
    }
  }

  /** A sink busy with `b` is not about to let go of any other buffer: the assertion in flow_buffer_schedule_detach. */
  lemma DetachingIsBusy(w: World, b: Buffer)
    requires Inv(w) && b in w.buffers
    ensures w.buffers[b].sink.Some? ==>
              var s := w.buffers[b].sink.value;
              s in w.sinks && (IsBusy(w, b, s) ==> w.sinks[s].detaching.None? || w.sinks[s].detaching == Some(b))
  {
    assert BufferOk(w, b);
    if w.buffers[b].sink.Some? {
      assert SinkOk(w, w.buffers[b].sink.value);
    }
  }

  /** A buffer being let go is still held, and what its flow wants instead is there. */
  lemma DetachingFacts(w: World, s: Sink)
    requires Inv(w) && s in w.sinks
    ensures FreedOnce(w)
    ensures w.sinks[s].detaching.Some? ==>
              var b := w.sinks[s].detaching.value;
              && b in w.buffers && w.buffers[b].sink == Some(s)
              && (w.buffers[b].flow.Some? ==>
                    && w.buffers[b].flow.value in w.flows
                    && (w.flows[w.buffers[b].flow.value].desired.Some? ==>
                          w.flows[w.buffers[b].flow.value].desired.value in w.sinks))
  {
    assert SinkOk(w, s);
    if w.sinks[s].detaching.Some? {
      var b := w.sinks[s].detaching.value;
      assert BufferOk(w, b);
      if w.buffers[b].flow.Some? { assert FlowOk(w, w.buffers[b].flow.value); }
    }
  }

  lemma FreedFacts(w: World)
    requires Inv(w)
    ensures FreedOnce(w)
  {
  }

  /** The queue is idle again before the detach is finished, which makes no difference to the outcome. */
  lemma IdleFirst(w: World, s: Sink)
    requires Inv(w) && s in w.sinks
    requires w.sinks[s].detaching.Some? ==>
               var b := w.sinks[s].detaching.value;
               && b in w.buffers && w.buffers[b].sink == Some(s)
               && (w.buffers[b].flow.Some? ==> w.buffers[b].flow.value in w.flows)
    ensures w.sinks[s].detaching.Some? ==>
              FinishDetach(w.(sinks := w.sinks[s := w.sinks[s].(sending := None)]), w.sinks[s].detaching.value) ==
              LetGo(w, s)
  {
    assert SinkOk(w, s);
    if w.sinks[s].detaching.Some? {
      assert w.sinks[s := w.sinks[s].(sending := None)][s := SinkState(None, None)] ==
             w.sinks[s := SinkState(None, None)];
    }
  }
}
