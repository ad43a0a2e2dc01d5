/**
 * PacketPassInterface, the hand-over between a sender and a provider: four states and three jobs, with cancelling.
 * Every packet sent is answered by exactly one done, however the calls and the jobs interleave.
 */
module PacketInterface {
  import opened Lists
  import opened JobStack

  /** The four states; the packet handed over waits in OperationPending. */
  datatype Phase = Idle | OperationPending(packet: nat) | Busy | DonePending

  datatype Job = Operation | RequestCancel | Done | Other(n: nat)

  datatype Interface = Interface(phase: Phase, cancelRequested: bool, jobs: seq<Job>)

  const FRESH := Interface(Idle, false, [])

  /** What the two sides see: a packet sent, and the calls of their handlers. */
  datatype Call = Sent(packet: nat) | HandlerSend(packet: nat) | HandlerCancel | HandlerDone

  // ------------------------------------------------------------------ the interface

  /** PacketPassInterface_Sender_Send */
  function Send(i: Interface, packet: nat): Interface {
    Interface(OperationPending(packet), false, SetJob(i.jobs, Operation))
  }

  /** PacketPassInterface_Done */
  function Finish(i: Interface): Interface {
    i.(phase := DonePending, jobs := SetJob(UnsetJob(i.jobs, RequestCancel), Done))
  }

  /** PacketPassInterface_Sender_RequestCancel */
  function Cancel(i: Interface): Interface {
    if i.cancelRequested then i
    else if i.phase.OperationPending? then
      i.(cancelRequested := true, phase := DonePending, jobs := SetJob(UnsetJob(i.jobs, Operation), Done))
    else if i.phase.Busy? then i.(cancelRequested := true, jobs := SetJob(i.jobs, RequestCancel))
    else i.(cancelRequested := true)
  }

  /** The three job bodies, up to the handler they call. */
  function RunJob(i: Interface, j: Job): Interface {
    match j
    case Operation => i.(phase := Busy)
    case RequestCancel => i
    case Done => i.(phase := Idle)
    case Other(_) => i
  }

  function CallOf(i: Interface, j: Job): seq<Call> {
    match j
    case Operation => if i.phase.OperationPending? then [HandlerSend(i.phase.packet)] else []
    case RequestCancel => [HandlerCancel]
    case Done => [HandlerDone]
    case Other(_) => []
  }

  /** The assertions at the head of the job bodies. */
  predicate JobCanRun(i: Interface, j: Job) {
    match j
    case Operation => i.phase.OperationPending?
    case RequestCancel => i.phase.Busy? && i.cancelRequested
    case Done => i.phase.DonePending?
    case Other(_) => true
  }

  // ------------------------------------------------------------------ runs

  datatype Event = SenderSends(packet: nat) | SenderCancels | ProviderFinishes | Execute
                 | SetOther(n: nat) | UnsetOther(n: nat)

  datatype World = World(i: Interface, calls: seq<Call>)

  /** What the two sides must keep to. */
  predicate Enabled(w: World, ev: Event) {
    match ev
    case SenderSends(_) => w.i.phase.Idle?
    case SenderCancels => !w.i.phase.Idle?
    case ProviderFinishes => w.i.phase.Busy?
    case Execute => w.i.jobs != []
    case _ => true
  }

  function Step(w: World, ev: Event): World
    requires Enabled(w, ev)
  {
    match ev
    case SenderSends(packet) => World(Send(w.i, packet), w.calls + [Sent(packet)])
    case SenderCancels => w.(i := Cancel(w.i))
    case ProviderFinishes => w.(i := Finish(w.i))
    case Execute =>
      var i := w.i.(jobs := w.i.jobs[1..]);
      World(RunJob(i, w.i.jobs[0]), w.calls + CallOf(i, w.i.jobs[0]))
    case SetOther(n) => w.(i := w.i.(jobs := SetJob(w.i.jobs, Other(n))))
    case UnsetOther(n) => w.(i := w.i.(jobs := UnsetJob(w.i.jobs, Other(n))))
  }

  predicate IsRun(w: World, evs: seq<Event>)
    decreases |evs|
  {
    evs == [] || (Enabled(w, evs[0]) && IsRun(Step(w, evs[0]), evs[1..]))
  }

  function Run(w: World, evs: seq<Event>): World
    requires IsRun(w, evs)
    decreases |evs|
  {
    if evs == [] then w else Run(Step(w, evs[0]), evs[1..])
  }

  // ------------------------------------------------------------------ the contract between the two sides

  /**
   * How far an orderly exchange has come: a packet is sent, handed to the provider unless cancelled before, possibly
   * cancelled once, and answered by one done before the next packet.
   */
  datatype Progress = Ready | Sending(packet: nat) | Handed | Cancelling | Disorder

  function Follow(p: Progress, c: Call): Progress {
    match c
    case Sent(packet) => if p.Ready? then Sending(packet) else Disorder
    case HandlerSend(packet) => if p == Sending(packet) then Handed else Disorder
    case HandlerCancel => if p.Handed? then Cancelling else Disorder
    case HandlerDone => if p.Ready? || p.Disorder? then Disorder else Ready
  }

  function ProgressOf(calls: seq<Call>): Progress {
    if calls == [] then Ready else Follow(ProgressOf(calls[..|calls| - 1]), calls[|calls| - 1])
  }

  lemma ProgressStep(calls: seq<Call>, c: Call)
    ensures ProgressOf(calls + [c]) == Follow(ProgressOf(calls), c)
  {
    assert (calls + [c])[..|calls|] == calls;
  }

  ghost predicate JobsMatch(i: Interface) {
    && Distinct(i.jobs)
    && (Operation in i.jobs <==> i.phase.OperationPending?)
    && (Done in i.jobs <==> i.phase.DonePending?)
    && (RequestCancel in i.jobs ==> i.phase.Busy? && i.cancelRequested)
    && (i.phase.OperationPending? ==> !i.cancelRequested)
  }

  /** The state of the interface and what was called so far fit together. */
  ghost predicate InStep(i: Interface, p: Progress) {
    match i.phase
    case Idle => p.Ready?
    case OperationPending(packet) => p == Sending(packet)
    case Busy => if i.cancelRequested && RequestCancel !in i.jobs then p.Cancelling? else p.Handed?
    case DonePending => p.Handed? || p.Cancelling? || (p.Sending? && i.cancelRequested)
  }

  ghost predicate Inv(w: World) {
    JobsMatch(w.i) && InStep(w.i, ProgressOf(w.calls))
  }

  lemma TopJobCanRun(i: Interface)
    requires JobsMatch(i) && i.jobs != []
    ensures JobCanRun(i, i.jobs[0]) && Distinct(i.jobs[1..]) && i.jobs[0] !in i.jobs[1..]
    ensures forall j :: j != i.jobs[0] ==> (j in i.jobs <==> j in i.jobs[1..])
  {
    assert i.jobs[0] in i.jobs;
    assert i.jobs == [i.jobs[0]] + i.jobs[1..];
  }

  lemma ExecuteInv(w: World)
    requires Inv(w) && w.i.jobs != []
    ensures Inv(Step(w, Event.Execute))
  {
    hide Distinct, ProgressOf;
    TopJobCanRun(w.i);
    var j := w.i.jobs[0];
    if j.Other? {
      assert w.calls + [] == w.calls;
    } else {
      ProgressStep(w.calls, CallOf(w.i, j)[0]);
    }
  }

  lemma StepInv(w: World, ev: Event)
    requires Inv(w) && Enabled(w, ev)
    ensures Inv(Step(w, ev))
  {
    hide Without, ProgressOf;
    match ev
    case Execute => ExecuteInv(w);
    case SenderSends(packet) => ProgressStep(w.calls, Sent(packet));
    case _ =>
  }

  lemma {:induction false} RunInv(w: World, evs: seq<Event>)
    requires Inv(w) && IsRun(w, evs)
    ensures Inv(Run(w, evs))
    decreases |evs|
  {
    hide Inv, Step, Enabled;
    if evs != [] {
      StepInv(w, evs[0]);
      RunInv(Step(w, evs[0]), evs[1..]);
    }
  }

  /** How many packets were sent, handed to the provider, and answered. */
  datatype Tally = Tally(sent: nat, handed: nat, done: nat)

  function TallyOf(calls: seq<Call>): Tally {
    if calls == [] then Tally(0, 0, 0) else
      var t := TallyOf(calls[..|calls| - 1]);
      match calls[|calls| - 1]
      case Sent(_) => t.(sent := t.sent + 1)
      case HandlerSend(_) => t.(handed := t.handed + 1)
      case HandlerCancel => t
      case HandlerDone => t.(done := t.done + 1)
  }

  /** Exchanges that are orderly balance. */
  lemma {:induction false} OrderlyBalance(calls: seq<Call>)
    requires !ProgressOf(calls).Disorder?
    ensures TallyOf(calls).sent == TallyOf(calls).done + if ProgressOf(calls).Ready? then 0 else 1
    ensures TallyOf(calls).handed <= TallyOf(calls).sent
    ensures ProgressOf(calls).Sending? ==> TallyOf(calls).handed < TallyOf(calls).sent
  {
    if calls != [] { OrderlyBalance(calls[..|calls| - 1]); }
  }

  /**
   * In every run the calls form orderly exchanges: each packet sent gets exactly one done, and the sender is idle
   * exactly when every packet has had its done. No job ever runs in a state its body does not expect.
   */
  lemma OneDonePerSend(evs: seq<Event>)
    requires IsRun(World(FRESH, []), evs)
    ensures var w := Run(World(FRESH, []), evs);
            && !ProgressOf(w.calls).Disorder?
            && (w.i.phase.Idle? <==> TallyOf(w.calls).sent == TallyOf(w.calls).done)
            && TallyOf(w.calls).handed <= TallyOf(w.calls).sent <= TallyOf(w.calls).done + 1
            && (w.i.jobs != [] ==> JobCanRun(w.i, w.i.jobs[0]))
  {
    hide Run, IsRun, ProgressOf, TallyOf;
    EmptyInv();
    RunInv(World(FRESH, []), evs);
    var w := Run(World(FRESH, []), evs);
    OrderlyBalance(w.calls);
    if w.i.jobs != [] { TopJobCanRun(w.i); }
  }

  /** Whether the sender has asked to cancel since it last sent. */
  function Asked(before: bool, evs: seq<Event>): bool
    decreases |evs|
  {
    if evs == [] then before
    else Asked(if evs[0].SenderSends? then false else before || evs[0].SenderCancels?, evs[1..])
  }

  lemma {:induction false} RunAsked(w: World, evs: seq<Event>)
    requires Inv(w) && IsRun(w, evs)
    ensures Run(w, evs).i.cancelRequested == Asked(w.i.cancelRequested, evs)
    decreases |evs|
  {
    hide ProgressOf, Without;
    if evs != [] {
      StepInv(w, evs[0]);
      RunAsked(Step(w, evs[0]), evs[1..]);
    }
  }

  /**
   * In every run a request to cancel is heard: while the provider has the packet, its cancel handler was called or the
   * call is pending if the sender asked for it, and only then; a packet not yet handed over is then not handed over.
   */
  lemma CancelIsHeard(evs: seq<Event>)
    requires IsRun(World(FRESH, []), evs)
    ensures var w, asked := Run(World(FRESH, []), evs), Asked(false, evs);
            && (w.i.phase.Busy? ==> (ProgressOf(w.calls).Cancelling? || RequestCancel in w.i.jobs <==> asked))
            && (w.i.phase.OperationPending? ==> !asked)
            && (w.i.phase.Busy? && w.i.jobs == [] ==> (ProgressOf(w.calls).Cancelling? <==> asked))
  {
    hide Run, IsRun, ProgressOf;
    EmptyInv();
    RunInv(World(FRESH, []), evs);
    RunAsked(World(FRESH, []), evs);
  }

  lemma EmptyInv()
    ensures Inv(World(FRESH, []))
  {
  }

  // ------------------------------------------------------------------ the object

  class PacketPassInterface {
    const pending: BPendingGroup<Job>
    var phase: Phase
    var cancelRequested: bool

    ghost predicate Valid()
      reads this, pending
    {
      JobsMatch(State())
    }

    ghost function State(): Interface
      reads this, pending
    {
      Interface(phase, cancelRequested, pending.jobs)
    }

    constructor (pg: BPendingGroup<Job>)
      requires Distinct(pg.jobs) && forall j :: j in pg.jobs ==> j.Other?
      ensures pending == pg && Valid() && State() == Interface(Idle, false, old(pg.jobs))
    {
      pending := pg;
      phase := Idle;
      cancelRequested := false;
    }

    method SenderSend(packet: nat)
      requires Valid() && phase.Idle?
      modifies this, pending
      ensures Valid() && State() == Send(old(State()), packet)
    {
      hide Without;
      pending.Set(Operation);
      phase := OperationPending(packet);
      cancelRequested := false;
    }

    method Done()
      requires Valid() && phase.Busy?
      modifies this`phase, pending
      ensures Valid() && State() == Finish(old(State()))
    {
      hide Without;
      pending.Unset(RequestCancel);
      pending.Set(Job.Done);
      phase := DonePending;
    }

    method SenderRequestCancel()
      requires Valid() && !phase.Idle?
      modifies this`phase, this`cancelRequested, pending
      ensures Valid() && State() == Cancel(old(State()))
    {
      hide Without;
      if cancelRequested {
        return;
      }
      cancelRequested := true;
      if phase.OperationPending? {
        pending.Unset(Operation);
        pending.Set(Job.Done);
        phase := DonePending;
      } else if phase.Busy? {
        pending.Set(RequestCancel);
      }
    }

    /** The top job of the stack runs; `call` is the handler it ends in, if it is a job of the interface. */
    method ExecuteJob() returns (call: seq<Call>)
      requires Valid() && pending.jobs != []
      modifies this`phase, pending
      ensures Valid()
      ensures var i := old(State()).(jobs := old(pending.jobs)[1..]);
              && State() == RunJob(i, old(pending.jobs)[0]) && call == CallOf(i, old(pending.jobs)[0])
    {
      TopJobCanRun(State());
      var j := pending.TakeJob();
      call := [];
      match j
      case Operation =>
        assert phase.OperationPending?;
        call := [HandlerSend(phase.packet)];
        phase := Busy;
      case RequestCancel =>
        assert phase == Busy && cancelRequested;
        call := [HandlerCancel];
      case Done =>
        assert phase == DonePending;
        phase := Idle;
        call := [HandlerDone];
      case Other(_) =>
    }
  }
}
