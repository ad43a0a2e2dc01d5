/**
 * DataProto: the buffers of flows are attached to the fair queues of sinks, and let go of a sink only once the queue
 * is not in the middle of sending from them.
 */
module DataProto {
  import opened Lists

  type Sink = nat
  type Buffer = nat

  /** Flows of the device to a peer, and flows relayed from one peer to another. */
  datatype Flow = Local(peer: nat) | Relayed(src: nat, dst: nat)

  /** A DataProtoFlow: the sink it wants its packets to go to, and its buffer. */
  datatype FlowState = FlowState(desired: Option<Sink>, buffer: Buffer)

  /** A DataProtoFlow_buffer: its flow, gone once the flow is freed, and the sink it is attached to. */
  datatype BufferState = BufferState(flow: Option<Flow>, sink: Option<Sink>)

  /** A DataProtoSink: the buffer it is waiting to let go, and the buffer its queue is sending from. */
  datatype SinkState = SinkState(detaching: Option<Buffer>, sending: Option<Buffer>)

  /** `freed` lists the buffers freed so far; buffers are numbered in the order they are allocated. */
  datatype World = World(flows: map<Flow, FlowState>, buffers: map<Buffer, BufferState>, sinks: map<Sink, SinkState>,
                         next: nat, freed: seq<Buffer>)

  const EMPTY := World(map[], map[], map[], 0, [])

  // ------------------------------------------------------------------ buffers

  predicate IsDetaching(w: World, b: Buffer, s: Sink) {
    s in w.sinks && w.sinks[s].detaching == Some(b)
  }

  predicate IsBusy(w: World, b: Buffer, s: Sink) {
    s in w.sinks && w.sinks[s].sending == Some(b)
  }

  /** flow_buffer_free */
  function BufferFree(w: World, b: Buffer): World {
    w.(buffers := w.buffers - {b}, freed := w.freed + [b])
  }

  /** flow_buffer_attach */
  function BufferAttach(w: World, b: Buffer, s: Sink): World
    requires b in w.buffers
  {
    w.(buffers := w.buffers[b := w.buffers[b].(sink := Some(s))])
  }

  /** flow_buffer_detach */
  function BufferDetach(w: World, b: Buffer): World
    requires b in w.buffers && w.buffers[b].sink.Some? && w.buffers[b].sink.value in w.sinks
  {
    var s := w.buffers[b].sink.value;
    w.(buffers := w.buffers[b := w.buffers[b].(sink := None)],
       sinks := w.sinks[s := SinkState(if IsDetaching(w, b, s) then None else w.sinks[s].detaching,
                                       if IsBusy(w, b, s) then None else w.sinks[s].sending)])
  }

  /** flow_buffer_schedule_detach */
  function ScheduleDetach(w: World, b: Buffer): World
    requires b in w.buffers && w.buffers[b].sink.Some? && w.buffers[b].sink.value in w.sinks
  {
    var s := w.buffers[b].sink.value;
    w.(sinks := w.sinks[s := w.sinks[s].(detaching := Some(b))])
  }

  /** flow_buffer_finish_detach */
  function FinishDetach(w: World, b: Buffer): World
    requires b in w.buffers && w.buffers[b].sink.Some? && w.buffers[b].sink.value in w.sinks
    requires w.buffers[b].flow.Some? ==> w.buffers[b].flow.value in w.flows
  {
    var w1 := BufferDetach(w, b);
    var owner := w.buffers[b].flow;
    if owner.None? then BufferFree(w1, b)
    else if w.flows[owner.value].desired.Some? then BufferAttach(w1, b, w.flows[owner.value].desired.value)
    else w1
  }

  // ------------------------------------------------------------------ flows and sinks

  datatype Event =
    | FlowInit(flow: Flow) | FlowFree(flow: Flow) | Attach(flow: Flow, sink: Sink) | Detach(flow: Flow)
    | SinkInit(sink: Sink) | SinkFree(sink: Sink)
    | QueueSends(sink: Sink, buffer: Buffer) | QueueDone(sink: Sink)

  /** What callers and the queue respect; a sink is freed only when no flow desires it. */
  ghost predicate Enabled(w: World, e: Event) {
    match e
    case FlowInit(f) => f !in w.flows
    case FlowFree(f) => f in w.flows && w.flows[f].desired.None?
    case Attach(f, s) => f in w.flows && w.flows[f].desired.None? && s in w.sinks
    case Detach(f) => f in w.flows && w.flows[f].desired.Some?
    case SinkInit(s) => s !in w.sinks
    case SinkFree(s) => s in w.sinks && forall f :: f in w.flows ==> w.flows[f].desired != Some(s)
    case QueueSends(s, b) => s in w.sinks && w.sinks[s].sending.None? && b in w.buffers && w.buffers[b].sink == Some(s)
    case QueueDone(s) => s in w.sinks && w.sinks[s].sending.Some?
  }

  /** Lets go of the sink now, or once the queue is done with the buffer. */
  function Release(w: World, b: Buffer): World
    requires b in w.buffers && w.buffers[b].sink.Some? && w.buffers[b].sink.value in w.sinks
  {
    if IsBusy(w, b, w.buffers[b].sink.value) then ScheduleDetach(w, b) else BufferDetach(w, b)
  }

  /** Finishes the detaching a sink has pending, if any. */
  function LetGo(w: World, s: Sink): World
    requires Inv(w) && s in w.sinks
  {
    SinkFacts(w, s);
    if w.sinks[s].detaching.Some? then FinishDetach(w, w.sinks[s].detaching.value) else w
  }

  function Handle(w: World, e: Event): World
    requires Inv(w) && Enabled(w, e)
  {
    match e
    case FlowInit(f) =>
      w.(flows := w.flows[f := FlowState(None, w.next)], buffers := w.buffers[w.next := BufferState(Some(f), None)],
         next := w.next + 1)
    case FlowFree(f) =>
      var b := w.flows[f].buffer;
      FlowFacts(w, f);
      var w1 := w.(flows := w.flows - {f});
      if w.buffers[b].sink.Some? && IsBusy(w, b, w.buffers[b].sink.value) then
        ScheduleDetach(w1, b).(buffers := w.buffers[b := w.buffers[b].(flow := None)])
      else if w.buffers[b].sink.Some? then BufferFree(BufferDetach(w1, b), b)
      else BufferFree(w1, b)
    case Attach(f, s) =>
      var b := w.flows[f].buffer;
      FlowFacts(w, f);
      var w1 := if w.buffers[b].sink.None? then BufferAttach(w, b, s)
                else if IsBusy(w, b, w.buffers[b].sink.value) then ScheduleDetach(w, b)
                else BufferAttach(BufferDetach(w, b), b, s);
      w1.(flows := w.flows[f := w.flows[f].(desired := Some(s))])
    case Detach(f) =>
      FlowFacts(w, f);
      Release(w, w.flows[f].buffer).(flows := w.flows[f := w.flows[f].(desired := None)])
    case SinkInit(s) => w.(sinks := w.sinks[s := SinkState(None, None)])
    case SinkFree(s) =>
      var w1 := LetGo(w, s);
      w1.(sinks := w1.sinks - {s})
    case QueueSends(s, b) => w.(sinks := w.sinks[s := w.sinks[s].(sending := Some(b))])
    case QueueDone(s) =>
      if w.sinks[s].detaching.Some? then LetGo(w, s) else w.(sinks := w.sinks[s := w.sinks[s].(sending := None)])
  }

  // ------------------------------------------------------------------ invariant

  ghost predicate FlowOk(w: World, f: Flow)
    requires f in w.flows
  {
    var b := w.flows[f].buffer;
    && b in w.buffers && w.buffers[b].flow == Some(f)
    && (w.flows[f].desired.Some? ==>
          && w.flows[f].desired.value in w.sinks && w.buffers[b].sink.Some?
          && (w.buffers[b].sink == w.flows[f].desired || IsDetaching(w, b, w.buffers[b].sink.value)))
    && (w.flows[f].desired.None? && w.buffers[b].sink.Some? ==> IsDetaching(w, b, w.buffers[b].sink.value))
  }

  ghost predicate BufferOk(w: World, b: Buffer)
    requires b in w.buffers
  {
    && b < w.next
    && (w.buffers[b].sink.Some? ==> w.buffers[b].sink.value in w.sinks)
    && (w.buffers[b].flow.Some? ==> w.buffers[b].flow.value in w.flows && w.flows[w.buffers[b].flow.value].buffer == b)
    && (w.buffers[b].flow.None? ==> w.buffers[b].sink.Some? && IsDetaching(w, b, w.buffers[b].sink.value))
  }

  ghost predicate SinkOk(w: World, s: Sink)
    requires s in w.sinks
  {
    && (w.sinks[s].detaching.Some? ==> w.sinks[s].sending == w.sinks[s].detaching)
    && (w.sinks[s].sending.Some? ==>
          w.sinks[s].sending.value in w.buffers && w.buffers[w.sinks[s].sending.value].sink == Some(s))
  }

  /** Every buffer ever allocated is live or was freed once. */
  ghost predicate FreedOnce(w: World) {
    && Distinct(w.freed)
    && (forall b: Buffer :: b < w.next <==> b in w.buffers || b in w.freed)
    && (forall b :: b in w.freed ==> b !in w.buffers)
  }

  ghost predicate Inv(w: World) {
    && (forall f :: f in w.flows ==> FlowOk(w, f))
    && (forall b :: b in w.buffers ==> BufferOk(w, b))
    && (forall s :: s in w.sinks ==> SinkOk(w, s))
    && FreedOnce(w)
  }

  lemma FlowFacts(w: World, f: Flow)
    requires Inv(w) && f in w.flows
    ensures var b := w.flows[f].buffer;
            && b in w.buffers && w.buffers[b].flow == Some(f)
            && (w.buffers[b].sink.Some? ==> w.buffers[b].sink.value in w.sinks)
            && (w.flows[f].desired.Some? ==> w.buffers[b].sink.Some?)
  {
    assert FlowOk(w, f);
    assert BufferOk(w, w.flows[f].buffer);
  }

  lemma SinkFacts(w: World, s: Sink)
    requires Inv(w) && s in w.sinks
    ensures w.sinks[s].detaching.Some? ==>
              var b := w.sinks[s].detaching.value;
              && w.sinks[s].sending == Some(b)
              && b in w.buffers && w.buffers[b].sink == Some(s)
              && (w.buffers[b].flow.Some? ==> w.buffers[b].flow.value in w.flows)
  {
    assert SinkOk(w, s);
    if w.sinks[s].detaching.Some? {
      assert BufferOk(w, w.sinks[s].detaching.value);
    }
  }

  // ------------------------------------------------------------------ every event keeps the invariant

  lemma FlowInitInv(w: World, f: Flow)
    requires Inv(w) && Enabled(w, FlowInit(f))
    ensures Inv(Handle(w, FlowInit(f)))
  {
    var r := Handle(w, FlowInit(f));
    assert w.next !in w.buffers && w.next !in w.freed;
    forall g | g in r.flows ensures FlowOk(r, g) { if g != f { assert FlowOk(w, g); } }
    forall b | b in r.buffers ensures BufferOk(r, b) { if b != w.next { assert BufferOk(w, b); } }
    forall s | s in r.sinks ensures SinkOk(r, s) { assert SinkOk(w, s); }
  }

  lemma FreedKept(w: World, r: World)
    requires FreedOnce(w) && r.freed == w.freed && r.next == w.next && r.buffers.Keys == w.buffers.Keys
    ensures FreedOnce(r)
  {
    assert forall b :: b in r.buffers.Keys <==> b in r.buffers;
    assert forall b :: b in w.buffers.Keys <==> b in w.buffers;
  }

  lemma AttachInv(w: World, f: Flow, s: Sink)
    requires Inv(w) && Enabled(w, Attach(f, s))
    ensures Inv(Handle(w, Attach(f, s)))
  {
    hide FreedOnce;
    var r, b := Handle(w, Attach(f, s)), w.flows[f].buffer;
    assert FlowOk(w, f);
    if w.buffers[b].sink.Some? { assert SinkOk(w, w.buffers[b].sink.value); }
    FreedKept(w, r);
    forall g | g in r.flows ensures FlowOk(r, g) { assert FlowOk(w, g); }
    forall c | c in r.buffers ensures BufferOk(r, c) { assert BufferOk(w, c); }
    forall t | t in r.sinks ensures SinkOk(r, t) { assert SinkOk(w, t); }
  }

  lemma DetachShape(w: World, f: Flow)
    requires Inv(w) && Enabled(w, Detach(f))
    ensures var r, b := Handle(w, Detach(f)), w.flows[f].buffer;
            && b in w.buffers && w.buffers[b].sink.Some? && w.buffers[b].sink.value in w.sinks
            && r == w.(flows := w.flows[f := FlowState(None, b)], sinks := r.sinks, buffers := r.buffers)
            && var s := w.buffers[b].sink.value;
               if w.sinks[s].sending == Some(b) then
                 r.buffers == w.buffers && r.sinks == w.sinks[s := w.sinks[s].(detaching := Some(b))]
               else r.sinks == w.sinks && r.buffers == w.buffers[b := w.buffers[b].(sink := None)]
  {
    hide Inv;
    FlowFacts(w, f);
    var b := w.flows[f].buffer;
    var s := w.buffers[b].sink.value;
    SinkFacts(w, s);
    assert w.sinks[s := SinkState(w.sinks[s].detaching, w.sinks[s].sending)] == w.sinks;
  }

  lemma DetachInv(w: World, f: Flow)
    requires Inv(w) && Enabled(w, Detach(f))
    ensures Inv(Handle(w, Detach(f)))
  {
    hide Handle;
    DetachShape(w, f);
    var r, b := Handle(w, Detach(f)), w.flows[f].buffer;
    assert FlowOk(w, f) && SinkOk(w, w.buffers[b].sink.value);
    forall g | g in r.flows ensures FlowOk(r, g) { assert FlowOk(w, g); }
    forall c | c in r.buffers ensures BufferOk(r, c) { assert BufferOk(w, c); }
    forall t | t in r.sinks ensures SinkOk(r, t) { assert SinkOk(w, t); }
  }

  lemma FlowFreeInv(w: World, f: Flow)
    requires Inv(w) && Enabled(w, FlowFree(f))
    ensures Inv(Handle(w, FlowFree(f)))
  {
    var r, b := Handle(w, FlowFree(f)), w.flows[f].buffer;
    assert FlowOk(w, f);
    if w.buffers[b].sink.Some? { assert SinkOk(w, w.buffers[b].sink.value); }
    forall g | g in r.flows ensures FlowOk(r, g) { assert FlowOk(w, g); assert w.flows[g].buffer != b; }
    forall c | c in r.buffers ensures BufferOk(r, c) { assert BufferOk(w, c); }
    forall t | t in r.sinks ensures SinkOk(r, t) { assert SinkOk(w, t); }
  }

  lemma LetGoShape(w: World, s: Sink)
    requires Inv(w) && s in w.sinks && w.sinks[s].detaching.Some?
    ensures var r, b := LetGo(w, s), w.sinks[s].detaching.value;
            && b in w.buffers && w.buffers[b].sink == Some(s)
            && r.sinks == w.sinks[s := SinkState(None, None)] && r.flows == w.flows && r.next == w.next
            && (w.buffers[b].flow.None? ==> r.buffers == w.buffers - {b} && r.freed == w.freed + [b])
            && (w.buffers[b].flow.Some? ==>
                  && w.buffers[b].flow.value in w.flows && r.freed == w.freed
                  && r.buffers == w.buffers[b := w.buffers[b].(sink := w.flows[w.buffers[b].flow.value].desired)])
  {
    SinkFacts(w, s);
  }

  lemma LetGoInv(w: World, s: Sink)
    requires Inv(w) && s in w.sinks && w.sinks[s].detaching.Some?
    ensures Inv(LetGo(w, s))
    ensures LetGo(w, s).sinks == w.sinks[s := SinkState(None, None)] && LetGo(w, s).flows == w.flows
  {
    hide LetGo;
    LetGoShape(w, s);
    var b, r := w.sinks[s].detaching.value, LetGo(w, s);
    assert SinkOk(w, s) && BufferOk(w, b);
    forall g | g in r.flows ensures FlowOk(r, g) { assert FlowOk(w, g); }
    forall c | c in r.buffers ensures BufferOk(r, c) { assert BufferOk(w, c); }
    forall t | t in r.sinks ensures SinkOk(r, t) { assert SinkOk(w, t); }
  }

  /** Once no flow desires a sink and it has nothing to let go, no buffer is attached to it. */
  lemma NoneAttached(w: World, s: Sink)
    requires Inv(w) && s in w.sinks && w.sinks[s].detaching.None?
    requires forall f :: f in w.flows ==> w.flows[f].desired != Some(s)
    ensures forall b :: b in w.buffers ==> w.buffers[b].sink != Some(s)
  {
    forall b | b in w.buffers ensures w.buffers[b].sink != Some(s) {
      assert BufferOk(w, b);
      if w.buffers[b].flow.Some? { assert FlowOk(w, w.buffers[b].flow.value); }
    }
  }

  lemma DropSinkInv(w: World, s: Sink)
    requires Inv(w) && s in w.sinks && w.sinks[s].detaching.None?
    requires forall f :: f in w.flows ==> w.flows[f].desired != Some(s)
    ensures Inv(w.(sinks := w.sinks - {s}))
  {
    NoneAttached(w, s);
    var r := w.(sinks := w.sinks - {s});
    forall g | g in r.flows ensures FlowOk(r, g) { assert FlowOk(w, g); }
    forall c | c in r.buffers ensures BufferOk(r, c) { assert BufferOk(w, c); }
    forall t | t in r.sinks ensures SinkOk(r, t) { assert SinkOk(w, t); }
  }

  lemma SinkFreeInv(w: World, s: Sink)
    requires Inv(w) && Enabled(w, SinkFree(s))
    ensures Inv(Handle(w, SinkFree(s)))
    ensures var r := Handle(w, SinkFree(s)); forall b :: b in r.buffers ==> r.buffers[b].sink != Some(s)
  {
    hide Inv;
    var w1 := LetGo(w, s);
    if w.sinks[s].detaching.Some? { LetGoInv(w, s); }
    NoneAttached(w1, s);
    DropSinkInv(w1, s);
  }

  lemma SinkInitInv(w: World, s: Sink)
    requires Inv(w) && Enabled(w, SinkInit(s))
    ensures Inv(Handle(w, SinkInit(s)))
  {
    var r := Handle(w, SinkInit(s));
    forall g | g in r.flows ensures FlowOk(r, g) { assert FlowOk(w, g); }
    forall c | c in r.buffers ensures BufferOk(r, c) { assert BufferOk(w, c); }
    forall t | t in r.sinks ensures SinkOk(r, t) { if t != s { assert SinkOk(w, t); } }
  }

  lemma QueueInv(w: World, e: Event)
    requires Inv(w) && Enabled(w, e) && (e.QueueSends? || e.QueueDone?)
    ensures Inv(Handle(w, e))
  {
    var s, r := e.sink, Handle(w, e);
    assert SinkOk(w, s);
    if e.QueueDone? && w.sinks[s].detaching.Some? {
      LetGoInv(w, s);
    } else {
      forall g | g in r.flows ensures FlowOk(r, g) { assert FlowOk(w, g); }
      forall c | c in r.buffers ensures BufferOk(r, c) { assert BufferOk(w, c); }
      forall t | t in r.sinks ensures SinkOk(r, t) { assert SinkOk(w, t); }
    }
  }

  lemma HandleInv(w: World, e: Event)
    requires Inv(w) && Enabled(w, e)
    ensures Inv(Handle(w, e))
  {
    match e
    case FlowInit(f) => FlowInitInv(w, f);
    case FlowFree(f) => FlowFreeInv(w, f);
    case Attach(f, s) => AttachInv(w, f, s);
    case Detach(f) => DetachInv(w, f);
    case SinkInit(s) => SinkInitInv(w, s);
    case SinkFree(s) => SinkFreeInv(w, s);
    case QueueSends(_, _) => QueueInv(w, e);
    case QueueDone(_) => QueueInv(w, e);
  }

  // ------------------------------------------------------------------ every run

  ghost function Run(es: seq<Event>): (w: World)
    ensures Inv(w)
  {
    if es == [] then EMPTY
    else
      var w := Run(es[..|es| - 1]);
      var e := es[|es| - 1];
      if Enabled(w, e) then
        HandleInv(w, e);
        Handle(w, e)
      else w
  }

  /**
   * The life of a buffer. In every run: a flow that wants a sink has its buffer attached there, or still held by the
   * one sink that is about to let it go; such a sink is sending from it; a buffer without a flow is always held so;
   * and each buffer allocated is either live or was freed exactly once.
   */
  lemma BufferLifecycle(es: seq<Event>)
    ensures var w := Run(es);
            && (forall f :: f in w.flows && w.flows[f].desired.Some? ==>
                  var b := w.flows[f].buffer;
                  && b in w.buffers && w.flows[f].desired.value in w.sinks && w.buffers[b].sink.Some?
                  && (w.buffers[b].sink == w.flows[f].desired || IsDetaching(w, b, w.buffers[b].sink.value)))
            && (forall s :: s in w.sinks && w.sinks[s].detaching.Some? ==> w.sinks[s].sending == w.sinks[s].detaching)
            && (forall b :: b in w.buffers && w.buffers[b].flow.None? ==>
                  w.buffers[b].sink.Some? && IsDetaching(w, b, w.buffers[b].sink.value))
            && Distinct(w.freed)
            && (forall b: Buffer :: b < w.next ==> (b in w.buffers <==> b !in w.freed))
  {
    var w := Run(es);
    forall f | f in w.flows ensures FlowOk(w, f) { }
    forall b | b in w.buffers ensures BufferOk(w, b) { }
    forall s | s in w.sinks ensures SinkOk(w, s) { }
  }

  /** A sink is sending from when its queue begins until its queue is done, and from the buffer the queue took. */
  lemma SendingEffect(w: World, e: Event, s: Sink)
    requires Inv(w) && Enabled(w, e) && s in w.sinks
    ensures var r := Handle(w, e);
            s in r.sinks ==>
              r.sinks[s].sending == if e == QueueDone(s) then None
                                    else if e.QueueSends? && e.sink == s then Some(e.buffer)
                                    else w.sinks[s].sending
  {
    hide Inv;
    SinkFacts(w, s);
    match e
    case FlowInit(f) =>
    case FlowFree(f) => FlowFacts(w, f);
    case Attach(f, t) => FlowFacts(w, f);
    case Detach(f) => FlowFacts(w, f);
    case SinkInit(t) =>
    case SinkFree(t) => SinkFacts(w, t);
    case QueueSends(t, b) =>
    case QueueDone(t) => SinkFacts(w, t);
  }

  /** What an event changes of the flows' wishes and of the set of sinks; nothing else is visible to the owners. */
  lemma VisibleEffect(w: World, e: Event)
    requires Inv(w) && Enabled(w, e)
    ensures var r := Handle(w, e);
            && (forall f :: f in r.flows <==> (f in w.flows || e == FlowInit(f)) && e != FlowFree(f))
            && (forall f :: f in r.flows ==>
                  r.flows[f].desired == if e == FlowInit(f) || e == Detach(f) then None
                                        else if e.Attach? && e.flow == f then Some(e.sink)
                                        else w.flows[f].desired)
            && (forall s :: s in r.sinks <==> (s in w.sinks || e == SinkInit(s)) && e != SinkFree(s))
  {
    hide Inv;
    match e
    case FlowInit(f) =>
    case FlowFree(f) => FlowFacts(w, f);
    case Attach(f, s) => FlowFacts(w, f);
    case Detach(f) => DetachShape(w, f);
    case SinkInit(s) =>
    case SinkFree(s) => SinkFacts(w, s);
    case QueueSends(s, b) =>
    case QueueDone(s) => SinkFacts(w, s);
  }
}
