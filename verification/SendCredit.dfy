/**
 * The fair queue, the packet interfaces of its flows and the job stack together: a source that sends again from its
 * done handler is queued again before the queue picks the next flow.
 */
module SendCredit {
  import opened Lists
  import opened JobStack
  import opened FairQueue
  import PI = PacketInterface

  /** schedule_job; job_operation and job_done of each flow's input; job_done of the output; anything else. */
  datatype Job = Schedule | Operation(flow: Flow) | InputDone(flow: Flow) | OutputDoneJob | Other(n: nat)

  /** The flow last served and its time right after it was charged, unless it was freed since. */
  datatype Credit = NoneYet | Owed(flow: Flow, time: nat) | Freed

  datatype System = System(q: Queue, jobs: seq<Job>, iface: map<Flow, PI.Phase>, credit: Credit)

  /**
   * `Execute(again)` runs the top job; if that is a source's done handler, `again` says whether it sends at once.
   * The other events are what handlers and the environment may do at any moment.
   */
  datatype Event = Execute(again: Option<nat>) | SourceSends(flow: Flow, len: nat) | OutputFinishes
                 | Join(flow: Flow) | Leave(flow: Flow) | SetOther(n: nat) | UnsetOther(n: nat)

  predicate Enabled(s: System, e: Event) {
    match e
    case Execute(again) => s.jobs != [] && (again.Some? ==> again.value <= s.q.mtu)
    case SourceSends(f, n) => f in s.iface && s.iface[f].Idle? && n <= s.q.mtu
    case OutputFinishes => s.q.sending.Some? && OutputDoneJob !in s.jobs
    case Join(f) => f !in s.iface
    case Leave(f) => f in s.iface && s.q.sending != Some(f)
    case SetOther(n) => true
    case UnsetOther(n) => true
  }

  /** PacketPassInterface_Sender_Send */
  function SenderSend(s: System, f: Flow, n: nat): System {
    s.(iface := s.iface[f := PI.OperationPending(n)], jobs := SetJob(s.jobs, Operation(f)))
  }

  /** PacketPassFairQueueFlow_Init with the PacketPassInterface_Init in it */
  function FlowJoins(s: System, f: Flow): System {
    s.(q := Init(s.q, f), iface := s.iface[f := PI.Idle])
  }

  /** PacketPassFairQueueFlow_Free with the PacketPassInterface_Free it ends in: the jobs of the input go too */
  function FlowLeaves(s: System, f: Flow): System {
    System(Free(s.q, f), UnsetJob(UnsetJob(s.jobs, InputDone(f)), Operation(f)), s.iface - {f},
           if s.credit.Owed? && s.credit.flow == f then Freed else s.credit)
  }

  /** output_handler_done with the PacketPassInterface_Done it ends in */
  function RunOutputDone(s: System): System
    requires FairQueue.Inv(s.q) && s.q.sending.Some?
  {
    var f := s.q.sending.value;
    var q := OutputDone(s.q);
    DoneEffect(s.q);
    System(q, SetJob(SetJob(s.jobs, Schedule), InputDone(f)), s.iface[f := PI.DonePending], Owed(f, q.time[f]))
  }

  function RunJob(s: System, j: Job, again: Option<nat>): System
    requires JobCanRun(s, j)
  {
    match j
    case Schedule => s.(q := ScheduleJob(s.q))
    case Operation(f) => s.(q := InputSend(s.q, f, s.iface[f].packet), iface := s.iface[f := PI.Busy])
    case InputDone(f) =>
      var s1 := s.(iface := s.iface[f := PI.Idle]);
      if again.Some? then SenderSend(s1, f, again.value) else s1
    case OutputDoneJob => RunOutputDone(s)
    case Other(n) => s
  }

  /** The assertions at the head of each handler. */
  ghost predicate JobCanRun(s: System, j: Job) {
    && FairQueue.Inv(s.q)
    && match j
       case Schedule => s.q.jobSet && s.q.sending.None?
       case Operation(f) =>
         f in s.iface && s.iface[f].OperationPending? && FairQueue.Enabled(s.q, Send(f, s.iface[f].packet))
       case InputDone(f) => f in s.iface && s.iface[f].DonePending?
       case OutputDoneJob => s.q.sending.Some? && s.q.previous.None? && !s.q.jobSet
       case Other(n) => true
  }

  function Step(s: System, e: Event): System
    requires SystemInv(s)
  {
    if !Enabled(s, e) then s
    else
      match e
      case Execute(again) =>
        TopJobCanRun(s);
        RunJob(s.(jobs := s.jobs[1..]), s.jobs[0], again)
      case SourceSends(f, n) => SenderSend(s, f, n)
      case OutputFinishes => s.(jobs := SetJob(s.jobs, OutputDoneJob))
      case Join(f) => FlowJoins(s, f)
      case Leave(f) => FlowLeaves(s, f)
      case SetOther(n) => s.(jobs := SetJob(s.jobs, Other(n)))
      case UnsetOther(n) => s.(jobs := UnsetJob(s.jobs, Other(n)))
  }

  // ------------------------------------------------------------------ invariant

  /** The part of the stack that runs before schedule_job. */
  function OnTop(jobs: seq<Job>): (r: seq<Job>)
    ensures forall j :: j in r ==> j in jobs && j != Schedule
  {
    if jobs == [] || jobs[0] == Schedule then [] else [jobs[0]] + OnTop(jobs[1..])
  }

  /** The jobs of a flow's input are pending, and its packet queued, exactly as the interface state says. */
  ghost predicate FlowMatch(s: System, f: Flow) {
    && (f in s.iface <==> f in s.q.time)
    && (Operation(f) in s.jobs <==> f in s.iface && s.iface[f].OperationPending?)
    && (InputDone(f) in s.jobs <==> f in s.iface && s.iface[f].DonePending?)
    && (f in s.iface ==> (s.iface[f] == PI.Busy <==> f in s.q.queued || s.q.sending == Some(f)))
    && (f in s.iface && s.iface[f].OperationPending? ==> s.iface[f].packet <= s.q.mtu)
  }

  ghost predicate JobsMatch(s: System) {
    && Distinct(s.jobs)
    && (Schedule in s.jobs <==> s.q.jobSet)
    && (OutputDoneJob in s.jobs ==> s.q.sending.Some?)
    && (forall f :: FlowMatch(s, f))
  }

  /**
   * Until schedule_job runs, the flow last served keeps its time and its place, and its jobs are above schedule_job,
   * unless it is freed.
   */
  ghost predicate CreditKept(s: System) {
    s.q.jobSet ==>
      && !s.credit.NoneYet? && (s.credit.Freed? ==> s.q.previous.None?)
      && (s.credit.Owed? ==>
            var f := s.credit.flow;
            && f in s.q.time && f in s.iface && s.q.time[f] == s.credit.time && FlowMatch(s, f)
            && (f in s.q.queued || s.q.previous == Some(f))
            && (s.q.previous.Some? ==> s.q.previous == Some(f))
            && (s.iface[f].OperationPending? ==> Operation(f) in OnTop(s.jobs))
            && (s.iface[f].DonePending? ==> InputDone(f) in OnTop(s.jobs)))
  }

  ghost predicate SystemInv(s: System) {
    FairQueue.Inv(s.q) && JobsMatch(s) && CreditKept(s)
  }

  lemma TopJobCanRun(s: System)
    requires SystemInv(s) && s.jobs != []
    ensures JobCanRun(s.(jobs := s.jobs[1..]), s.jobs[0])
  {
    hide Tables, SenderIsLeast;
    assert s.jobs[0] in s.jobs;
    if s.jobs[0].Operation? || s.jobs[0].InputDone? {
      assert FlowMatch(s, s.jobs[0].flow);
    }
    FlowsKnown(s.q);
  }

  lemma FlowsKnown(q: Queue)
    requires FairQueue.Inv(q)
    ensures forall f :: f in q.time <==> f in q.flows
  {
  }

  lemma {:induction false} OnTopSet(jobs: seq<Job>, k: Job)
    requires Distinct(jobs)
    ensures k != Schedule ==> k in OnTop(SetJob(jobs, k))
    ensures forall j :: j in OnTop(jobs) && k != Schedule ==> j in OnTop(SetJob(jobs, k))
  {
    OnTopWithout(jobs, k);
    var r := SetJob(jobs, k);
    assert r[1..] == Without(jobs, k);
  }

  lemma {:induction false} OnTopWithout(jobs: seq<Job>, k: Job)
    ensures forall j :: j in OnTop(jobs) && k != Schedule && j != k ==> j in OnTop(Without(jobs, k))
  {
    if jobs != [] && jobs[0] != Schedule {
      OnTopWithout(jobs[1..], k);
      if jobs[0] != k {
        assert ([jobs[0]] + Without(jobs[1..], k))[1..] == Without(jobs[1..], k);
      }
    }
  }

  /** A job of another kind comes or goes; queue and interfaces are untouched. */
  lemma OtherJobInv(s: System, k: Job, set1: bool)
    requires SystemInv(s) && (k.Other? || (k == OutputDoneJob && set1 && s.q.sending.Some?))
    ensures SystemInv(s.(jobs := if set1 then SetJob(s.jobs, k) else UnsetJob(s.jobs, k)))
  {
    hide FairQueue.Inv, OnTop, Without;
    OnTopSet(s.jobs, k);
    OnTopWithout(s.jobs, k);
    var r := s.(jobs := if set1 then SetJob(s.jobs, k) else UnsetJob(s.jobs, k));
    forall g
      ensures FlowMatch(r, g)
    {
      assert FlowMatch(s, g);
    }
  }

  lemma SenderSendInv(s: System, f: Flow, n: nat)
    requires SystemInv(s) && f in s.iface && s.iface[f].Idle? && n <= s.q.mtu
    ensures SystemInv(SenderSend(s, f, n))
  {
    hide FairQueue.Inv, OnTop, Without;
    OnTopSet(s.jobs, Operation(f));
    var r := SenderSend(s, f, n);
    forall g
      ensures FlowMatch(r, g)
    {
      assert FlowMatch(s, g);
    }
  }

  /** Taking the top job off leaves the others as they were. */
  lemma Popped(s: System)
    requires SystemInv(s) && s.jobs != []
    ensures var r := s.jobs[1..];
            && Distinct(r) && s.jobs[0] !in r
            && (forall j :: j != s.jobs[0] ==> (j in r <==> j in s.jobs))
            && (s.jobs[0] != Schedule ==> forall j :: j in OnTop(s.jobs) && j != s.jobs[0] ==> j in OnTop(r))
            && (s.jobs[0] == Schedule ==> OnTop(s.jobs) == [])
  {
    assert s.jobs == [s.jobs[0]] + s.jobs[1..];
  }

  lemma RunScheduleInv(s: System)
    requires SystemInv(s) && s.jobs != [] && s.jobs[0] == Schedule
    ensures SystemInv(s.(jobs := s.jobs[1..], q := ScheduleJob(s.q)))
  {
    Popped(s);
    JobInv(s.q);
    hide FairQueue.Inv, OnTop;
    if s.q.queued != [] {
      assert s.q.queued == [s.q.queued[0]] + s.q.queued[1..];
    }
    var r := s.(jobs := s.jobs[1..], q := ScheduleJob(s.q));
    forall g
      ensures FlowMatch(r, g)
    {
      assert FlowMatch(s, g);
    }
  }

  lemma RunOperationInv(s: System, f: Flow)
    requires SystemInv(s) && s.jobs != [] && s.jobs[0] == Operation(f)
    ensures JobCanRun(s.(jobs := s.jobs[1..]), Operation(f))
    ensures SystemInv(RunJob(s.(jobs := s.jobs[1..]), Operation(f), None))
  {
    hide FairQueue.Inv, OnTop, InputSend;
    Popped(s);
    TopJobCanRun(s);
    SendInv(s.q, f, s.iface[f].packet);
    SendEffect(s.q, f, s.iface[f].packet);
    var r := RunJob(s.(jobs := s.jobs[1..]), Operation(f), None);
    assert FlowMatch(s, f);
    forall g
      ensures FlowMatch(r, g)
    {
      assert FlowMatch(s, g);
    }
  }

  /** What handing in a packet changes. */
  lemma SendEffect(q: Queue, f: Flow, n: nat)
    requires FairQueue.Inv(q) && FairQueue.Enabled(q, Send(f, n))
    ensures var r := InputSend(q, f, n);
            && r.jobSet == q.jobSet && r.mtu == q.mtu
            && (forall g :: g in r.time <==> g in q.time)
            && (forall g :: g in r.queued || r.sending == Some(g) <==> g == f || g in q.queued || q.sending == Some(g))
            && (q.jobSet ==> r.sending == q.sending && forall g :: g in r.queued <==> g == f || g in q.queued)
            && (q.sending.Some? ==> r.sending == q.sending)
            && (forall g :: g != f && g in q.time ==> r.time[g] == q.time[g])
            && (q.previous == Some(f) ==> r.time == q.time && r.previous.None?)
            && (q.previous != Some(f) ==> r.previous == q.previous)
  {
    var r := InputSend(q, f, n);
    if q.sending.None? && !q.jobSet {
      assert q.queued == [];
    }
  }

  lemma RunInputDoneInv(s: System, f: Flow, again: Option<nat>)
    requires SystemInv(s) && s.jobs != [] && s.jobs[0] == InputDone(f) && (again.Some? ==> again.value <= s.q.mtu)
    ensures JobCanRun(s.(jobs := s.jobs[1..]), InputDone(f))
    ensures SystemInv(RunJob(s.(jobs := s.jobs[1..]), InputDone(f), again))
  {
    hide FairQueue.Inv, OnTop, SetJob;
    Popped(s);
    TopJobCanRun(s);
    var s1 := s.(jobs := s.jobs[1..], iface := s.iface[f := PI.Idle]);
    assert FlowMatch(s, f);
    forall g
      ensures FlowMatch(s1, g)
    {
      assert FlowMatch(s, g);
    }
    if again.Some? {
      SenderSendInv(s1, f, again.value);
    }
  }

  lemma SenderFacts(q: Queue)
    requires FairQueue.Inv(q) && q.sending.Some?
    ensures q.sending.value in q.time && q.sending.value !in q.queued && q.previous.None? && !q.jobSet
  {
  }

  /** schedule_job is set first, so that job_done of the flow runs before it. */
  lemma DoneJobs(jobs: seq<Job>, f: Flow)
    requires Distinct(jobs)
    ensures var r := SetJob(SetJob(jobs, Schedule), InputDone(f));
            && Distinct(r) && InputDone(f) in OnTop(r)
            && (forall j :: j in r <==> j == Schedule || j == InputDone(f) || j in jobs)
  {
    OnTopSet(SetJob(jobs, Schedule), InputDone(f));
    hide OnTop, Without;
  }

  lemma RunOutputDoneInv(s: System)
    requires SystemInv(s) && s.jobs != [] && s.jobs[0] == OutputDoneJob
    ensures SystemInv(RunOutputDone(s.(jobs := s.jobs[1..])))
  {
    hide FairQueue.Inv, OnTop, OutputDone, SetJob, DoneSubtrahend;
    assert s.jobs[0] in s.jobs;
    SenderFacts(s.q);
    Popped(s);
    DoneInv(s.q);
    DoneEffect(s.q);
    var f := s.q.sending.value;
    DoneJobs(s.jobs[1..], f);
    var r := RunOutputDone(s.(jobs := s.jobs[1..]));
    assert FlowMatch(s, f);
    forall g
      ensures FlowMatch(r, g)
    {
      assert FlowMatch(s, g);
    }
  }

  lemma JoinsInv(s: System, f: Flow)
    requires SystemInv(s) && f !in s.iface
    ensures SystemInv(FlowJoins(s, f))
  {
    assert FlowMatch(s, f);
    FlowsKnown(s.q);
    InitInv(s.q, f);
    NotQueued(s.q, f);
    hide FairQueue.Inv, OnTop;
    var r := FlowJoins(s, f);
    forall g
      ensures FlowMatch(r, g)
    {
      assert FlowMatch(s, g);
    }
  }

  lemma NotQueued(q: Queue, f: Flow)
    requires FairQueue.Inv(q) && f !in q.time
    ensures f !in q.queued && q.sending != Some(f) && q.previous != Some(f)
  {
  }

  lemma TwoJobsLess(jobs: seq<Job>, a: Job, b: Job)
    requires Distinct(jobs) && a != Schedule && b != Schedule
    ensures var r := UnsetJob(UnsetJob(jobs, a), b);
            && Distinct(r) && (forall j :: j in r <==> j in jobs && j != a && j != b)
            && (forall j :: j in OnTop(jobs) && j != a && j != b ==> j in OnTop(r))
  {
    OnTopWithout(jobs, a);
    OnTopWithout(Without(jobs, a), b);
    hide OnTop, Without;
  }

  /** `r` is `s` without the flow `f`, as far as the jobs and the interfaces go. */
  ghost predicate LeftBy(s: System, r: System, f: Flow) {
    && r.q.mtu == s.q.mtu && r.q.sending == s.q.sending
    && (forall g :: g in r.q.queued <==> g in s.q.queued && g != f)
    && (forall g :: g in r.q.time <==> g in s.q.time && g != f)
    && (forall j :: j in r.jobs <==> j in s.jobs && j != InputDone(f) && j != Operation(f))
    && (forall g :: g in r.iface <==> g in s.iface && g != f)
    && (forall g :: g in r.iface ==> r.iface[g] == s.iface[g])
  }

  lemma LeavesMatch(s: System, r: System, f: Flow, g: Flow)
    requires LeftBy(s, r, f) && FlowMatch(s, g) && s.q.sending != Some(f)
    ensures FlowMatch(r, g)
  {
  }

  lemma LeavesEffect(s: System, f: Flow)
    requires SystemInv(s) && f in s.q.flows
    ensures var r := FlowLeaves(s, f);
            && LeftBy(s, r, f) && Distinct(r.jobs)
            && (forall j :: j in OnTop(s.jobs) && j != InputDone(f) && j != Operation(f) ==> j in OnTop(r.jobs))
            && (forall g :: g in r.q.time ==> r.q.time[g] == s.q.time[g])
  {
    hide OnTop, UnsetJob, Free, FairQueue.Inv, CreditKept, FlowMatch;
    GoneFromQueue(s.q, f);
    TwoJobsLess(s.jobs, InputDone(f), Operation(f));
  }

  /** A flow that leaves takes its jobs with it and changes nothing for the others. */
  lemma LeavesInv(s: System, f: Flow)
    requires SystemInv(s) && f in s.iface && s.q.sending != Some(f)
    ensures SystemInv(FlowLeaves(s, f))
  {
    hide FairQueue.Inv, OnTop, UnsetJob, Free;
    assert FlowMatch(s, f);
    FlowsKnown(s.q);
    FreeInv(s.q, f);
    LeavesEffect(s, f);
    GoneFromQueue(s.q, f);
    var r := FlowLeaves(s, f);
    assert JobsMatch(r) by {
      forall g
        ensures FlowMatch(r, g)
      {
        assert FlowMatch(s, g);
        LeavesMatch(s, r, f, g);
      }
      hide FlowMatch;
    }
    hide FlowMatch;
  }

  lemma GoneFromQueue(q: Queue, f: Flow)
    requires FairQueue.Inv(q) && f in q.flows
    ensures var r := Free(q, f);
            && r.jobSet == q.jobSet && r.mtu == q.mtu && r.sending == q.sending
            && (forall g :: g in r.queued <==> g in q.queued && g != f)
            && (forall g :: g in r.time <==> g in q.time && g != f)
            && (forall g :: g in r.time ==> r.time[g] == q.time[g])
            && r.previous == if q.previous == Some(f) then None else q.previous
  {
    hide Without;
  }

  lemma StepInv(s: System, e: Event)
    requires SystemInv(s)
    ensures SystemInv(Step(s, e))
  {
    if Enabled(s, e) {
      hide SystemInv;
      match e
      case Execute(again) => ExecuteInv(s, again);
      case SourceSends(f, n) => SenderSendInv(s, f, n);
      case OutputFinishes => OtherJobInv(s, OutputDoneJob, true);
      case Join(f) => JoinsInv(s, f);
      case Leave(f) => LeavesInv(s, f);
      case SetOther(n) => OtherJobInv(s, Other(n), true);
      case UnsetOther(n) => OtherJobInv(s, Other(n), false);
    }
  }

  lemma ExecuteInv(s: System, again: Option<nat>)
    requires SystemInv(s) && Enabled(s, Event.Execute(again))
    ensures SystemInv(Step(s, Event.Execute(again)))
  {
    hide SystemInv;
    TopJobCanRun(s);
    match s.jobs[0]
    case Schedule => RunScheduleInv(s);
    case Operation(f) => RunOperationInv(s, f);
    case InputDone(f) => RunInputDoneInv(s, f, again);
    case OutputDoneJob => RunOutputDoneInv(s);
    case Other(n) => RunOtherInv(s, n);
  }

  lemma RunOtherInv(s: System, n: nat)
    requires SystemInv(s) && s.jobs != [] && s.jobs[0] == Other(n)
    ensures SystemInv(s.(jobs := s.jobs[1..]))
  {
    hide FairQueue.Inv, OnTop;
    Popped(s);
    var r := s.(jobs := s.jobs[1..]);
    forall g
      ensures FlowMatch(r, g)
    {
      assert FlowMatch(s, g);
    }
  }

  // ------------------------------------------------------------------ every run

  /** All flows idle, nothing pending. */
  ghost predicate Start(s: System) {
    && FairQueue.Inv(s.q) && s.jobs == [] && s.credit.NoneYet?
    && s.q.queued == [] && s.q.sending.None? && s.q.previous.None? && !s.q.jobSet
    && s.iface == map f | f in s.q.time :: PI.Idle
  }

  function Run(s: System, es: seq<Event>): (r: System)
    requires SystemInv(s)
    ensures SystemInv(r)
    decreases |es|
  {
    if es == [] then s
    else
      StepInv(s, es[0]);
      Run(Step(s, es[0]), es[1..])
  }

  lemma StartInv(s: System)
    requires Start(s)
    ensures SystemInv(s)
  {
    forall f
      ensures FlowMatch(s, f)
    {
    }
  }

  /**
   * In every run, when the schedule job is about to run, the flow served last has kept the time it was charged, and
   * is queued with it unless its source has not sent again, or it was freed meanwhile: sending from the done handler
   * always comes in time, whatever flows come and go.
   */
  lemma SendersKeepTheirCredit(s: System, es: seq<Event>)
    requires Start(s)
    ensures SystemInv(s)
    ensures var r := Run(s, es);
            r.jobs != [] && r.jobs[0] == Schedule ==>
              match r.credit
              case NoneYet => false
              case Freed => r.q.previous.None?
              case Owed(f, t) =>
                && f in r.q.time && f in r.iface && r.q.time[f] == t
                && (f in r.q.queued || (r.q.previous == Some(f) && r.iface[f].Idle?))
  {
    StartInv(s);
    var r := Run(s, es);
    hide FairQueue.Inv;
    if r.jobs != [] && r.jobs[0] == Schedule {
      assert r.jobs[0] in r.jobs;
      assert OnTop(r.jobs) == [];
    }
  }

  /** In every run no handler is called in a state its assertions forbid. */
  lemma NoJobRunsTooEarly(s: System, es: seq<Event>)
    requires Start(s)
    ensures SystemInv(s)
    ensures var r := Run(s, es); r.jobs != [] ==> JobCanRun(r.(jobs := r.jobs[1..]), r.jobs[0])
  {
    StartInv(s);
    var r := Run(s, es);
    if r.jobs != [] {
      TopJobCanRun(r);
    }
  }
}
