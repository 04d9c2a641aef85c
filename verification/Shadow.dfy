/** Shadow evaluation of a candidate model: one result per call, bounded concurrency,
    and counters that account for every submission. */
module Shadow {
  import opened Wrappers

  // ----- one evaluation -----

  datatype Reply = Raised | Empty | Said(raw: string)
  datatype Validation = ValidatorRaised | Invalid | Valid(action: string, confidence: Option<real>)

  datatype Result = Result(callFailed: bool, schemaFailed: bool, agreed: Option<bool>,
                           confidence: Option<real>, latency: real)

  /** The validator is consulted only on a non-empty reply. */
  function Evaluate(reply: Reply, validation: Validation, primaryAction: string, latency: real): Result {
    match reply
    case Raised => Result(true, false, None, None, latency)
    case Empty => Result(true, false, None, None, latency)
    case Said(raw) =>
      if raw == "" then Result(true, false, None, None, latency)
      else
        match validation
        case ValidatorRaised => Result(false, true, None, None, latency)
        case Invalid => Result(false, true, None, None, latency)
        case Valid(action, confidence) => Result(false, false, Some(action == primaryAction), confidence, latency)
  }

  /** One call of the candidate: what its provider and validator did, next to the primary's action. */
  datatype Call = Call(reply: Reply, validation: Validation, primaryAction: string, latency: real)

  function ResultOf(c: Call): Result {
    Evaluate(c.reply, c.validation, c.primaryAction, c.latency)
  }

  datatype Kind = NoReply | Rejected | Agreed | Differed

  /** What a reader of the call would expect to be counted. */
  function KindOf(c: Call): Kind {
    if !c.reply.Said? || c.reply.raw == "" then NoReply
    else if !c.validation.Valid? then Rejected
    else if c.validation.action == c.primaryAction then Agreed
    else Differed
  }

  // ----- metrics -----

  datatype Metrics = Metrics(
    total: nat, callFailures: nat, schemaFailures: nat, valid: nat, agreements: nat, dropped: nat,
    latencies: seq<real>, confidences: seq<real>)

  const NO_METRICS := Metrics(0, 0, 0, 0, 0, 0, [], [])

  function Appended(s: seq<real>, x: real, max: nat): seq<real> {
    if |s| < max then s + [x] else s
  }

  function Recorded(m: Metrics, r: Result, maxSamples: nat): Metrics {
    var m' := m.(total := m.total + 1);
    if r.callFailed then m'.(callFailures := m.callFailures + 1)
    else if r.schemaFailed then m'.(schemaFailures := m.schemaFailures + 1)
    else m'.(valid := m.valid + 1,
             agreements := if r.agreed == Some(true) then m.agreements + 1 else m.agreements,
             latencies := Appended(m.latencies, r.latency, maxSamples),
             confidences := if r.confidence.Some? then Appended(m.confidences, r.confidence.value, maxSamples)
                            else m.confidences)
  }

  class ShadowMetrics {
    const maxSamples: nat
    var total: nat
    var callFailures: nat
    var schemaFailures: nat
    var valid: nat
    var agreements: nat
    var dropped: nat
    var latencies: seq<real>
    var confidences: seq<real>

    function View(): Metrics
      reads this
    {
      Metrics(total, callFailures, schemaFailures, valid, agreements, dropped, latencies, confidences)
    }

    constructor (maxSamples: nat)
      ensures View() == NO_METRICS && this.maxSamples == maxSamples
    {
      this.maxSamples := maxSamples;
      total, callFailures, schemaFailures, valid, agreements, dropped := 0, 0, 0, 0, 0, 0;
      latencies, confidences := [], [];
    }

    /** Runs under the lock, as one step. */
    method Record(r: Result)
      modifies this
      ensures View() == Recorded(old(View()), r, maxSamples)
    {
      total := total + 1;
      if r.callFailed {
        callFailures := callFailures + 1;
        return;
      }
      if r.schemaFailed {
        schemaFailures := schemaFailures + 1;
        return;
      }
      valid := valid + 1;
      if r.agreed == Some(true) {
        agreements := agreements + 1;
      }
      if |latencies| < maxSamples {
        latencies := latencies + [r.latency];
      }
      if r.confidence.Some? {
        if |confidences| < maxSamples {
          confidences := confidences + [r.confidence.value];
        }
      }
    }

    method RecordDropped()
      modifies this
      ensures View() == old(View()).(dropped := old(dropped) + 1)
    {
      dropped := dropped + 1;
    }
  }

  /** Every total is one of three kinds, agreements are among the valid ones, and the
      samples are capped. */
  predicate Consistent(m: Metrics, maxSamples: nat) {
    && m.total == m.callFailures + m.schemaFailures + m.valid
    && m.agreements <= m.valid
    && |m.latencies| == (if m.valid < maxSamples then m.valid else maxSamples)
    && |m.confidences| <= |m.latencies|
  }

  // ----- submissions as threads interleave -----

  /** Where one submission is: it holds a permit from acquire to release. */
  datatype Phase =
    | Acquired            // permit taken, thread not started yet
    | StartFailed         // starting it raised; the permit is still held
    | Running             // evaluating
    | Counted             // recorded, permit still held
    | MustDrop            // no permit; the drop is not counted yet

  predicate Holds(p: Phase) {
    !p.MustDrop?
  }

  /** Not yet in any counter. */
  predicate Uncounted(p: Phase) {
    !p.Counted?
  }

  datatype Pool = Pool(
    permits: nat, tasks: map<nat, Phase>, submitted: nat, metrics: Metrics)

  datatype Action =
    | Submit(id: nat)
    | Start(id: nat, ok: bool)
    | Evaluated(id: nat, call: Call)
    | Release(id: nat)
    | CountDrop(id: nat)

  predicate Enabled(s: Pool, act: Action) {
    match act
    case Submit(id) => id !in s.tasks
    case Start(id, _) => id in s.tasks && s.tasks[id].Acquired?
    case Evaluated(id, _) => id in s.tasks && s.tasks[id].Running?
    case Release(id) => id in s.tasks && (s.tasks[id].Counted? || s.tasks[id].StartFailed?)
    case CountDrop(id) => id in s.tasks && s.tasks[id].MustDrop?
  }

  /** One atomic step of one thread. */
  function Do(s: Pool, act: Action, maxSamples: nat): Pool
    requires Enabled(s, act)
  {
    match act
    case Submit(id) =>
      if s.permits > 0
      then s.(permits := s.permits - 1, tasks := s.tasks[id := Acquired], submitted := s.submitted + 1)
      else s.(tasks := s.tasks[id := MustDrop], submitted := s.submitted + 1)
    case Start(id, ok) => s.(tasks := s.tasks[id := if ok then Running else StartFailed])
    case Evaluated(id, call) =>
      s.(tasks := s.tasks[id := Counted], metrics := Recorded(s.metrics, ResultOf(call), maxSamples))
    case Release(id) =>
      if s.tasks[id].StartFailed?
      then s.(permits := s.permits + 1, tasks := s.tasks[id := MustDrop])
      else s.(permits := s.permits + 1, tasks := s.tasks - {id})
    case CountDrop(id) =>
      s.(tasks := s.tasks - {id}, metrics := s.metrics.(dropped := s.metrics.dropped + 1))
  }

  function Capacity(maxConcurrent: int): nat {
    if maxConcurrent > 1 then maxConcurrent else 1
  }

  function InFlight(s: Pool): set<nat> {
    set id | id in s.tasks && Holds(s.tasks[id])
  }

  function Pending(s: Pool): set<nat> {
    set id | id in s.tasks && Uncounted(s.tasks[id])
  }

  /** No permit is lost or made up, and every submission is in exactly one place. */
  predicate Accounted(s: Pool, cap: nat, maxSamples: nat) {
    && s.permits + |InFlight(s)| == cap
    && s.submitted == s.metrics.total + s.metrics.dropped + |Pending(s)|
    && Consistent(s.metrics, maxSamples)
  }

  /** A task entering phase `p` changes the two head counts by exactly what it was and
      what it becomes. */
  lemma PhaseMoves(s: Pool, s': Pool, id: nat, p: Phase)
    requires s'.tasks == s.tasks[id := p]
    ensures |InFlight(s')| == |InFlight(s)| - One(id in InFlight(s)) + One(Holds(p))
    ensures |Pending(s')| == |Pending(s)| - One(id in Pending(s)) + One(Uncounted(p))
  {
    Resized(InFlight(s), InFlight(s'), id);
    Resized(Pending(s), Pending(s'), id);
  }

  lemma TaskLeaves(s: Pool, s': Pool, id: nat)
    requires s'.tasks == s.tasks - {id}
    ensures |InFlight(s')| == |InFlight(s)| - One(id in InFlight(s))
    ensures |Pending(s')| == |Pending(s)| - One(id in Pending(s))
  {
    Resized(InFlight(s), InFlight(s'), id);
    Resized(Pending(s), Pending(s'), id);
  }

  function One(b: bool): nat {
    if b then 1 else 0
  }

  /** Two sets that agree everywhere but on `id`. */
  lemma Resized(a: set<nat>, b: set<nat>, id: nat)
    requires forall x :: x != id ==> (x in a <==> x in b)
    ensures |b| == |a| - One(id in a) + One(id in b)
  {
    assert a - {id} == b - {id};
    assert |a| == |a - {id}| + One(id in a) by {
      if id in a { assert a == (a - {id}) + {id}; } else { assert a == a - {id}; }
    }
    assert |b| == |b - {id}| + One(id in b) by {
      if id in b { assert b == (b - {id}) + {id}; } else { assert b == b - {id}; }
    }
  }

  lemma RecordConsistent(m: Metrics, r: Result, maxSamples: nat)
    requires Consistent(m, maxSamples)
    ensures Consistent(Recorded(m, r, maxSamples), maxSamples)
  {
  }

  /** What the acting task counted as before its step. */
  lemma InFlightIff(s: Pool, act: Action)
    ensures act.id in InFlight(s) <==> act.id in s.tasks && Holds(s.tasks[act.id])
    ensures act.id in Pending(s) <==> act.id in s.tasks && Uncounted(s.tasks[act.id])
  {
  }

  lemma StepAccounted(s: Pool, act: Action, cap: nat, maxSamples: nat)
    requires Accounted(s, cap, maxSamples) && Enabled(s, act)
    ensures Accounted(Do(s, act, maxSamples), cap, maxSamples)
  {
    hide Recorded, Consistent, InFlight, Pending;
    InFlightIff(s, act);
    var s' := Do(s, act, maxSamples);
    match act {
      case Submit(id) => PhaseMoves(s, s', id, s'.tasks[id]);
      case Start(id, ok) => PhaseMoves(s, s', id, s'.tasks[id]);
      case Evaluated(id, call) =>
        PhaseMoves(s, s', id, Counted);
        RecordConsistent(s.metrics, ResultOf(call), maxSamples);
        RecordCounts(s.metrics, ResultOf(call), maxSamples);
      case Release(id) =>
        if s.tasks[id].StartFailed? { PhaseMoves(s, s', id, MustDrop); } else { TaskLeaves(s, s', id); }
      case CountDrop(id) =>
        TaskLeaves(s, s', id);
        DropConsistent(s.metrics, maxSamples);
    }
  }

  lemma RecordCounts(m: Metrics, r: Result, maxSamples: nat)
    ensures Recorded(m, r, maxSamples).total == m.total + 1 && Recorded(m, r, maxSamples).dropped == m.dropped
  {
  }

  lemma DropConsistent(m: Metrics, maxSamples: nat)
    requires Consistent(m, maxSamples)
    ensures Consistent(m.(dropped := m.dropped + 1), maxSamples)
  {
  }

  predicate Run(ss: seq<Pool>, acts: seq<Action>, maxSamples: nat) {
    && |ss| == |acts| + 1
    && forall k :: 0 <= k < |acts| ==> Enabled(ss[k], acts[k]) && ss[k + 1] == Do(ss[k], acts[k], maxSamples)
  }

  predicate Idle(s: Pool, cap: nat) {
    s == Pool(cap, map[], 0, NO_METRICS)
  }

  lemma {:induction false} RunAccounted(ss: seq<Pool>, acts: seq<Action>, cap: nat, maxSamples: nat, k: nat)
    requires Run(ss, acts, maxSamples) && Idle(ss[0], cap) && k < |ss|
    ensures Accounted(ss[k], cap, maxSamples)
    decreases k
  {
    if k == 0 {
      assert InFlight(ss[0]) == {} && Pending(ss[0]) == {};
    } else {
      hide Accounted, Do, Enabled;
      RunAccounted(ss, acts, cap, maxSamples, k - 1);
      StepAccounted(ss[k - 1], acts[k - 1], cap, maxSamples);
    }
  }

  /** At every point of every interleaving no more evaluations are in flight than the
      capacity; once all have finished every permit is back, start failures included, and
      every submission was recorded or dropped. */
  lemma BoundedAndComplete(ss: seq<Pool>, acts: seq<Action>, maxConcurrent: int, maxSamples: nat, k: nat)
    requires Run(ss, acts, maxSamples) && Idle(ss[0], Capacity(maxConcurrent)) && k < |ss|
    ensures |InFlight(ss[k])| <= if maxConcurrent > 1 then maxConcurrent else 1
    ensures ss[k].tasks == map[] ==>
      && ss[k].permits == (if maxConcurrent > 1 then maxConcurrent else 1)
      && ss[k].submitted == ss[k].metrics.total + ss[k].metrics.dropped
    ensures ss[k].metrics.total == ss[k].metrics.callFailures + ss[k].metrics.schemaFailures + ss[k].metrics.valid
    ensures ss[k].metrics.agreements <= ss[k].metrics.valid
  {
    hide Idle, Run;
    RunAccounted(ss, acts, Capacity(maxConcurrent), maxSamples, k);
    if ss[k].tasks == map[] {
      assert InFlight(ss[k]) == {} && Pending(ss[k]) == {};
    }
  }

  // ----- the counters of a run -----

  /** How many of the evaluations were of a kind. */
  function Count(acts: seq<Action>, kind: Kind): nat {
    if acts == [] then 0
    else
      var last := acts[|acts| - 1];
      Count(acts[..|acts| - 1], kind) + if last.Evaluated? && KindOf(last.call) == kind then 1 else 0
  }

  predicate Tallies(m: Metrics, acts: seq<Action>) {
    && m.callFailures == Count(acts, NoReply) && m.schemaFailures == Count(acts, Rejected)
    && m.agreements == Count(acts, Agreed) && m.valid == Count(acts, Agreed) + Count(acts, Differed)
  }

  /** However the threads interleave, each counter is the number of evaluations of its kind
      so far; an agreement is a valid decision with the primary's action. */
  lemma {:induction false} RunTallies(ss: seq<Pool>, acts: seq<Action>, cap: nat, maxSamples: nat, k: nat)
    requires Run(ss, acts, maxSamples) && Idle(ss[0], cap) && k < |ss|
    ensures Tallies(ss[k].metrics, acts[..k])
    decreases k
  {
    if k > 0 {
      hide Tallies, Do, Enabled;
      RunTallies(ss, acts, cap, maxSamples, k - 1);
      assert acts[..k] == acts[..k - 1] + [acts[k - 1]];
    }
  }

  /** How many steps a task in a phase is from its end. */
  function StepsLeft(p: Phase): nat {
    match p
    case Acquired => 3
    case Running => 2
    case StartFailed => 2
    case Counted => 1
    case MustDrop => 1
  }

  /** Whatever phase a task is in, it can take a step. */
  lemma NobodyStuck(s: Pool, id: nat)
    requires id in s.tasks
    ensures exists act: Action :: act.id == id && !act.Submit? && Enabled(s, act)
  {
    match s.tasks[id] {
      case Acquired => assert Enabled(s, Start(id, true));
      case StartFailed => assert Enabled(s, Release(id));
      case Running => assert Enabled(s, Evaluated(id, Call(Raised, Invalid, "", 0.0)));
      case Counted => assert Enabled(s, Release(id));
      case MustDrop => assert Enabled(s, CountDrop(id));
    }
  }

  /** And every step brings its task one nearer to its end and moves no other. */
  lemma StepsRunOut(s: Pool, act: Action, maxSamples: nat)
    requires !act.Submit? && Enabled(s, act)
    ensures
      var after := Do(s, act, maxSamples).tasks;
      && act.id in s.tasks && after - {act.id} == s.tasks - {act.id}
      && StepsLeft(s.tasks[act.id]) == 1 + if act.id in after then StepsLeft(after[act.id]) else 0
  {
    hide Recorded, ResultOf;
  }

  /** An admitted submission that starts is evaluated and recorded, and its permit is back. */
  lemma StartedLife(s: Pool, id: nat, call: Call, maxSamples: nat)
    requires id !in s.tasks && s.permits > 0
    ensures
      var started := Do(Do(s, Submit(id), maxSamples), Start(id, true), maxSamples);
      && Enabled(started, Evaluated(id, call))
      && Enabled(Do(started, Evaluated(id, call), maxSamples), Release(id))
      && Do(Do(started, Evaluated(id, call), maxSamples), Release(id), maxSamples)
         == s.(submitted := s.submitted + 1, metrics := Recorded(s.metrics, ResultOf(call), maxSamples))
  {
    hide Recorded, ResultOf;
    assert s.tasks[id := Acquired][id := Running][id := Counted] - {id} == s.tasks;
  }

  /** One that fails to start is counted as dropped, and its permit is back too. */
  lemma FailedLife(s: Pool, id: nat, maxSamples: nat)
    requires id !in s.tasks && s.permits > 0
    ensures
      var failed := Do(Do(s, Submit(id), maxSamples), Start(id, false), maxSamples);
      && Enabled(failed, Release(id)) && Enabled(Do(failed, Release(id), maxSamples), CountDrop(id))
      && Do(Do(failed, Release(id), maxSamples), CountDrop(id), maxSamples)
         == s.(submitted := s.submitted + 1, metrics := s.metrics.(dropped := s.metrics.dropped + 1))
  {
    assert s.tasks[id := Acquired][id := StartFailed][id := MustDrop] - {id} == s.tasks;
  }

  /** A submission is turned away only when every permit is in use at that instant. */
  lemma TurnedAwayOnlyWhenFull(s: Pool, id: nat, cap: nat, maxSamples: nat)
    requires Accounted(s, cap, maxSamples) && id !in s.tasks
    ensures Do(s, Submit(id), maxSamples).tasks[id].MustDrop? <==> |InFlight(s)| == cap
  {
  }

  /** A valid decision raises agreement exactly when its action is the primary one's. */
  lemma AgreementMeansSameAction(m: Metrics, reply: Reply, v: Validation, primary: string, latency: real,
                                 maxSamples: nat)
    ensures
      var m' := Recorded(m, Evaluate(reply, v, primary, latency), maxSamples);
      && (m'.agreements == m.agreements + 1 <==> reply.Said? && reply.raw != "" && v.Valid? && v.action == primary)
      && (m'.callFailures == m.callFailures + 1 <==> !(reply.Said? && reply.raw != ""))
      && (m'.schemaFailures == m.schemaFailures + 1 <==> reply.Said? && reply.raw != "" && !v.Valid?)
      && (m'.valid == m.valid + 1 <==> reply.Said? && reply.raw != "" && v.Valid?)
    ensures
      var r := Evaluate(reply, v, primary, latency);
      && !(r.callFailed && r.schemaFailed) && r.latency == latency
      && (r.agreed.Some? <==> !r.callFailed && !r.schemaFailed)
  {
  }
}
