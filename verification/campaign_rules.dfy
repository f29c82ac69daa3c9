/**
The campaign core as a transition system over any number of jobs and generations and any retry cap.
*/
module CampaignRules {
  datatype Option<+T> = None | Some(value: T)

  /** What a delivery or the provider may report. */
  datatype Kind = KAccepted | KDelivered | KFailedTransient | KFailedPermanent | KOutcomeUnknown

  datatype JobState =
    | Pending | InFlight | FailedTransient | OutcomeUnknown | Accepted | Delivered
    | FailedPermanent | Cancelled | SkippedRevalidation | SkippedPlatformPolicy

  /** Claimed: about to deliver; Returned: deliver came back with a result not yet recorded. */
  datatype Phase = Resting | Claimed | Returned(kind: Kind)

  datatype Job = Job(state: JobState, attempts: nat, eligible: bool, phase: Phase, providerHas: bool,
                     bound: bool, pending: Option<Kind>, blocked: bool, everDelivered: bool)

  datatype Lifecycle = Ready | Scheduled | Sending | Complete | Withdrawn

  datatype Summary = NoSummary | InProgress | Indeterminate | Sent | Partial | CancelledSummary | Failed

  datatype Key = Key(generation: nat, job: nat, content: nat)

  datatype State = State(lifecycle: Lifecycle, due: bool, scheduled: bool, gens: nat, content: nat, keys: seq<Key>,
                         jobs: seq<Job>, summary: Summary, claimedBlocked: bool, earlyClaim: bool,
                         claimedIneligible: bool, emptyGeneration: bool, lateTouched: bool)

  datatype Evidence =
    | Provider(value: Kind, current: bool)
    | ResultOf(value: Kind)
    | Claim | Cancel | Skip | Retry | Recover | ResolveSent | ResolveNotSent

  datatype Answer = Accept | Deliver | Transient | Permanent | UnknownSent | UnknownUnsent

  datatype Op =
    | Freeze(mask: seq<bool>, scheduled: bool)
    | AdvanceClock
    | RunDue
    | Unschedule
    | CancelAll
    | RetryAll
    | Crash
    | RecoverAll
    | Invalidate(i: nat)
    | ClaimJob(i: nat)
    | DeliverJob(i: nat, answer: Answer)
    | RecordJob(i: nat)
    | ProviderUpdate(i: nat, value: Kind)
    | LateFailure(i: nat)
    | Resolve(i: nat, sent: bool)

  function StateOf(kind: Kind): JobState {
    match kind
    case KAccepted => Accepted
    case KDelivered => Delivered
    case KFailedTransient => FailedTransient
    case KFailedPermanent => FailedPermanent
    case KOutcomeUnknown => OutcomeUnknown
  }

  predicate IsSuccess(state: JobState) { state == Accepted || state == Delivered }

  predicate IsActive(state: JobState) { state == Pending || state == InFlight }

  function Rank(state: JobState): Option<nat> {
    match state
    case Pending => Some(0)
    case InFlight => Some(1)
    case FailedTransient => Some(2)
    case OutcomeUnknown => Some(2)
    case Accepted => Some(3)
    case Delivered => Some(4)
    case _ => None
  }

  function KindOf(answer: Answer): Kind {
    match answer
    case Accept => KAccepted
    case Deliver => KDelivered
    case Transient => KFailedTransient
    case Permanent => KFailedPermanent
    case UnknownSent => KOutcomeUnknown
    case UnknownUnsent => KOutcomeUnknown
  }

  /** The provider received the message. */
  predicate Received(answer: Answer) { answer == Accept || answer == Deliver || answer == UnknownSent }

  /** The state the evidence moves a job to, if it applies. */
  function Verdict(cap: nat, job: Job, e: Evidence): Option<JobState> {
    var s := job.state;
    match e
    case Provider(value, current) =>
      var to := StateOf(value);
      if IsSuccess(to) then
        if Rank(s).Some? && Rank(to).Some? && Rank(to).value > Rank(s).value then Some(to) else None
      else if current && (s == InFlight || s == Accepted || s == OutcomeUnknown) then Some(FailedPermanent)
      else None
    case ResultOf(value) => if s == InFlight then Some(StateOf(value)) else None
    case Claim => if s == Pending then Some(InFlight) else None
    case Cancel => if s == Pending then Some(Cancelled) else None
    case Skip => if s == Pending then Some(SkippedRevalidation) else None
    case Retry => if s == FailedTransient && job.attempts < cap then Some(Pending) else None
    case Recover => if s == InFlight then Some(OutcomeUnknown) else None
    case ResolveSent => if s == OutcomeUnknown then Some(Accepted) else None
    case ResolveNotSent => if s == OutcomeUnknown then Some(FailedTransient) else None
  }

  /** The job after the evidence: `blocked` is entered with OUTCOME_UNKNOWN and left by a resolution only. */
  function Reduce(cap: nat, job: Job, e: Evidence): Job {
    match Verdict(cap, job, e)
    case None => job
    case Some(to) =>
      job.(state := to, blocked := to == OutcomeUnknown || (job.blocked && !e.ResolveSent? && !e.ResolveNotSent?),
           everDelivered := job.everDelivered || to == Delivered)
  }

  function ReduceAll(cap: nat, jobs: seq<Job>, e: Evidence): seq<Job> {
    seq(|jobs|, i requires 0 <= i < |jobs| => Reduce(cap, jobs[i], e))
  }

  function Wins(jobs: seq<Job>): nat {
    if jobs == [] then 0 else Wins(jobs[..|jobs| - 1]) + if IsSuccess(jobs[|jobs| - 1].state) then 1 else 0
  }

  predicate AnyActive(jobs: seq<Job>) { exists i :: 0 <= i < |jobs| && IsActive(jobs[i].state) }

  predicate AnyIn(jobs: seq<Job>, state: JobState) { exists i :: 0 <= i < |jobs| && jobs[i].state == state }

  predicate AnyAttempt(jobs: seq<Job>) { exists i :: 0 <= i < |jobs| && jobs[i].attempts > 0 }

  function Summarize(jobs: seq<Job>): Summary {
    if AnyActive(jobs) then InProgress
    else if AnyIn(jobs, OutcomeUnknown) then Indeterminate
    else if Wins(jobs) == |jobs| then Sent
    else if Wins(jobs) > 0 then Partial
    else if AnyIn(jobs, Cancelled) && !AnyAttempt(jobs) then CancelledSummary
    else Failed
  }

  /** The summary follows the jobs, and a campaign with no active job left is no longer Sending. */
  function Settle(s: State): State {
    if s.jobs == [] then s
    else s.(summary := Summarize(s.jobs),
            lifecycle := if s.lifecycle == Sending && !AnyActive(s.jobs) then Complete else s.lifecycle)
  }

  function NewJob(eligible: bool): Job {
    Job(if eligible then Pending else SkippedPlatformPolicy, 0, true, Resting, false, false, None, false, false)
  }

  function NewJobs(mask: seq<bool>): seq<Job> { seq(|mask|, i requires 0 <= i < |mask| => NewJob(mask[i])) }

  function NewKeys(s: State, n: nat): seq<Key> { seq(n, i requires 0 <= i < n => Key(s.gens, i, s.content)) }

  function DoFreeze(s: State, mask: seq<bool>, scheduled: bool): Option<State> {
    if s.lifecycle != Ready || true !in mask then None
    else Some(Settle(s.(lifecycle := if scheduled then Scheduled else Sending, due := false, scheduled := scheduled,
                        gens := s.gens + 1, keys := s.keys + NewKeys(s, |mask|), jobs := NewJobs(mask),
                        emptyGeneration := s.emptyGeneration || true !in mask)))
  }

  function DoCancel(cap: nat, s: State): Option<State> {
    match s.lifecycle
    case Scheduled => Some(s.(lifecycle := Withdrawn, jobs := [], summary := NoSummary))
    case Ready => Some(s.(lifecycle := Withdrawn))
    case Sending => Some(Settle(s.(jobs := ReduceAll(cap, s.jobs, Cancel))))
    case _ => None
  }

  function DoRetry(cap: nat, s: State): Option<State> {
    var jobs := ReduceAll(cap, s.jobs, Retry);
    if (s.lifecycle != Sending && s.lifecycle != Complete) || jobs == s.jobs then None
    else Some(Settle(s.(lifecycle := Sending, jobs := jobs)))
  }

  predicate AnyPhase(jobs: seq<Job>) { exists i :: 0 <= i < |jobs| && jobs[i].phase != Resting }

  function Rested(jobs: seq<Job>): seq<Job> {
    seq(|jobs|, i requires 0 <= i < |jobs| => jobs[i].(phase := Resting))
  }

  function SetJob(s: State, i: nat, job: Job): State
    requires i < |s.jobs|
  {
    s.(jobs := s.jobs[i := job])
  }

  function ClaimedJob(cap: nat, job: Job): Job {
    Reduce(cap, job, Claim).(attempts := job.attempts + 1, phase := Claimed, bound := false)
  }

  /** The result is recorded; an early provider status is applied once the reference is bound. */
  function Recorded(cap: nat, job: Job, kind: Kind): Job {
    var done := Reduce(cap, job, ResultOf(kind)).(phase := Resting, bound := IsSuccess(StateOf(kind)));
    if done.bound && done.pending.Some? then Reduce(cap, done, Provider(done.pending.value, true)).(pending := None)
    else done
  }

  predicate OnJob(op: Op) {
    op.Invalidate? || op.ClaimJob? || op.DeliverJob? || op.RecordJob? || op.ProviderUpdate? || op.LateFailure? || op.Resolve?
  }

  predicate JobEnabled(sending: bool, job: Job, op: Op)
    requires OnJob(op)
  {
    match op
    case Invalidate(_) => job.eligible && job.state == Pending
    case ClaimJob(_) => job.state == Pending && sending
    case DeliverJob(_, _) => job.phase == Claimed
    case RecordJob(_) => job.phase.Returned?
    case ProviderUpdate(_, _) => job.providerHas
    case LateFailure(_) => job.attempts >= 2
    case Resolve(_, _) => job.state == OutcomeUnknown
  }

  /** What an enabled operation makes of its job. */
  function JobAfter(cap: nat, job: Job, op: Op): Job
    requires OnJob(op)
  {
    match op
    case Invalidate(_) => job.(eligible := false)
    case ClaimJob(_) => if job.eligible then ClaimedJob(cap, job) else Reduce(cap, job, Skip)
    case DeliverJob(_, answer) => job.(phase := Returned(KindOf(answer)), providerHas := job.providerHas || Received(answer))
    case RecordJob(_) => if job.phase.Returned? then Recorded(cap, job, job.phase.kind) else job
    case ProviderUpdate(_, value) =>
      if job.bound then Reduce(cap, job, Provider(value, true))
      else job.(pending := if job.pending.Some? then job.pending else Some(value))
    case LateFailure(_) => Reduce(cap, job, Provider(KFailedPermanent, false))
    case Resolve(_, sent) => Reduce(cap, job, if sent then ResolveSent else ResolveNotSent)
  }

  /** The operation ends by settling the campaign, in the same transaction. */
  predicate Settles(cap: nat, job: Job, op: Op)
    requires OnJob(op)
  {
    match op
    case Invalidate(_) => false
    case DeliverJob(_, _) => false
    case ProviderUpdate(_, _) => job.bound
    case LateFailure(_) => JobAfter(cap, job, op) != job
    case _ => true
  }

  /** The monitors: set when something forbidden happens, never cleared. */
  function Watched(cap: nat, s: State, job: Job, op: Op): State
    requires OnJob(op)
  {
    if op.ClaimJob? && job.eligible then
      s.(claimedBlocked := s.claimedBlocked || job.blocked,
         earlyClaim := s.earlyClaim || (s.scheduled && !s.due),
         claimedIneligible := s.claimedIneligible || !job.eligible)
    else if op.LateFailure? then s.(lateTouched := s.lateTouched || JobAfter(cap, job, op) != job)
    else s
  }

  /** The operations on one job. */
  function JobStep(cap: nat, s: State, op: Op, i: nat): Option<State>
    requires OnJob(op) && i < |s.jobs|
  {
    var job := s.jobs[i];
    if !JobEnabled(s.lifecycle == Sending, job, op) then None
    else
      var s' := SetJob(Watched(cap, s, job, op), i, JobAfter(cap, job, op));
      Some(if Settles(cap, job, op) then Settle(s') else s')
  }

  /** The next state, or none where the rules do not allow the operation. */
  function Step(cap: nat, s: State, op: Op): Option<State> {
    if OnJob(op) then if op.i < |s.jobs| then JobStep(cap, s, op, op.i) else None
    else
      match op
      case Freeze(mask, scheduled) => DoFreeze(s, mask, scheduled)
      case AdvanceClock => if !s.due then Some(s.(due := true)) else None
      case RunDue => if s.lifecycle == Scheduled && s.due then Some(Settle(s.(lifecycle := Sending))) else None
      case Unschedule =>
        if s.lifecycle == Scheduled
        then Some(s.(lifecycle := Ready, jobs := [], summary := NoSummary, content := s.content + 1))
        else None
      case CancelAll => DoCancel(cap, s)
      case RetryAll => DoRetry(cap, s)
      case Crash => if AnyPhase(s.jobs) then Some(s.(jobs := Rested(s.jobs))) else None
      case RecoverAll =>
        if AnyPhase(s.jobs) || !AnyIn(s.jobs, InFlight) then None
        else Some(Settle(s.(jobs := ReduceAll(cap, s.jobs, Recover))))
      case _ => None
  }

  function Apply(cap: nat, s: State, op: Op): State {
    match Step(cap, s, op)
    case None => s
    case Some(s') => s'
  }

  function Init(): State {
    State(Ready, false, false, 0, 0, [], [], NoSummary, false, false, false, false, false)
  }

  /** Where a sequence of operations leads from the start. */
  function Run(cap: nat, ops: seq<Op>): State
    decreases |ops|, 1
  {
    if ops == [] then Init() else RunOn(cap, ops)
  }

  function RunOn(cap: nat, ops: seq<Op>): State
    requires ops != []
    decreases |ops|, 0
  {
    Apply(cap, Run(cap, ops[..|ops| - 1]), ops[|ops| - 1])
  }

  lemma LastStep(cap: nat, ops: seq<Op>)
    requires ops != []
    ensures Run(cap, ops) == Apply(cap, Run(cap, ops[..|ops| - 1]), ops[|ops| - 1])
  {
    assert Run(cap, ops) == RunOn(cap, ops);
  }
}
