/** What becomes of jobs: each result, verdict and sweep leads to the state it should, and a whole campaign to its summary. */
module CampaignOutcomes {
  import opened CampaignRules
  import opened CampaignSafety
  import opened CampaignMessages

  // -- what was answered is what is recorded ------------------------------------------------------

  /** What the last provider call for job `i` came back with. */
  function AnswerOf(cap: nat, ops: seq<Op>, i: nat): Option<Answer> {
    if ops == [] then None else
      var before, op := ops[..|ops| - 1], ops[|ops| - 1];
      if Delivers(Run(cap, before), op, i) then Some(op.answer) else AnswerOf(cap, before, i)
  }

  /** The result waiting to be recorded is what the answer amounts to. */
  predicate Waits(job: Job, a: Option<Answer>) {
    job.phase.Returned? ==> a.Some? && job.phase.kind == match a.value
      case Accept => KAccepted
      case Deliver => KDelivered
      case Transient => KFailedTransient
      case Permanent => KFailedPermanent
      case UnknownSent => KOutcomeUnknown
      case UnknownUnsent => KOutcomeUnknown
  }

  lemma JobWaits(cap: nat, sending: bool, job: Job, op: Op, a: Option<Answer>)
    requires OnJob(op) && JobEnabled(sending, job, op) && Waits(job, a)
    ensures Waits(JobAfter(cap, job, op), if op.DeliverJob? then Some(op.answer) else a)
  {
  }

  lemma JobOpWaits(cap: nat, s: State, op: Op, i: nat, a: Option<Answer>)
    requires OnJob(op) && (i < |s.jobs| ==> Waits(s.jobs[i], a))
    ensures var s' := Apply(cap, s, op);
      i < |s'.jobs| ==> Waits(s'.jobs[i], if Delivers(s, op, i) then Some(op.answer) else a)
  {
    if op.i < |s.jobs| {
      OneJobChanges(cap, s, op);
      if op.i == i && JobEnabled(s.lifecycle == Sending, s.jobs[i], op) { JobWaits(cap, s.lifecycle == Sending, s.jobs[i], op, a); }
    }
  }

  lemma SweepWaits(cap: nat, s: State, op: Op, i: nat, a: Option<Answer>)
    requires Inv(cap, s) && !OnJob(op) && (i < |s.jobs| ==> Waits(s.jobs[i], a))
    ensures var s' := Apply(cap, s, op); i < |s'.jobs| ==> Waits(s'.jobs[i], a)
  {
    if Started(s.lifecycle) {
      AllJobsChange(cap, s, op);
      if i < |s.jobs| { assert SweptTo(cap, s.jobs[i], Apply(cap, s, op).jobs[i]); }
    } else {
      assert i < |s.jobs| ==> Untouched(s.jobs[i]);
    }
  }

  lemma StepWaits(cap: nat, s: State, op: Op, i: nat, a: Option<Answer>)
    requires Inv(cap, s) && (i < |s.jobs| ==> Waits(s.jobs[i], a))
    ensures var s' := Apply(cap, s, op);
      i < |s'.jobs| ==> Waits(s'.jobs[i], if Delivers(s, op, i) then Some(op.answer) else a)
  {
    if OnJob(op) { JobOpWaits(cap, s, op, i, a); } else { SweepWaits(cap, s, op, i, a); }
  }

  lemma {:induction false} RunWaits(cap: nat, ops: seq<Op>, i: nat)
    ensures var s := Run(cap, ops); i < |s.jobs| ==> Waits(s.jobs[i], AnswerOf(cap, ops, i))
  {
    if ops != [] {
      var before := ops[..|ops| - 1];
      RunWaits(cap, before, i);
      RunKeeps(cap, before);
      LastStep(cap, ops);
      StepWaits(cap, Run(cap, before), ops[|ops| - 1], i, AnswerOf(cap, before, i));
    }
  }

  /** The provider told of a failure before the reference was bound. */
  predicate FailedEarly(job: Job) { job.pending.Some? && job.pending.value !in {KAccepted, KDelivered} }

  lemma RecordedJob(cap: nat, job: Job, a: Answer)
    requires JobInv(cap, job) && Waits(job, Some(a)) && job.phase.Returned?
    ensures var job' := JobAfter(cap, job, RecordJob(0));
      && (job'.state == FailedTransient <==> a == Transient)
      && (job'.state == OutcomeUnknown <==> a == UnknownSent || a == UnknownUnsent)
      && (job'.state == FailedPermanent <==> a == Permanent || (a == Accept && FailedEarly(job)))
      && (job'.state == Delivered <==> a == Deliver || (a == Accept && job.pending == Some(KDelivered)))
      && (job'.state == Accepted <==> a == Accept && job.pending in {None, Some(KAccepted)})
      && (job'.blocked <==> a == UnknownSent || a == UnknownUnsent) && job'.phase == Resting
      && (job'.bound <==> a == Accept || a == Deliver) && (job'.bound ==> job'.pending == None)
      && job'.attempts == job.attempts
  {
  }

  /** Over every run: what is recorded is what the provider call came back with, an early status applied on top. */
  lemma RecordedAsAnswered(cap: nat, ops: seq<Op>, i: nat)
    requires i < |Run(cap, ops).jobs| && Run(cap, ops).jobs[i].phase.Returned?
    ensures AnswerOf(cap, ops, i).Some? && i < |Run(cap, ops + [RecordJob(i)]).jobs|
    ensures var a, job, job' := AnswerOf(cap, ops, i).value, Run(cap, ops).jobs[i], Run(cap, ops + [RecordJob(i)]).jobs[i];
      && (job'.state == FailedTransient <==> a == Transient)
      && (job'.state == OutcomeUnknown <==> a == UnknownSent || a == UnknownUnsent)
      && (job'.state == FailedPermanent <==> a == Permanent || (a == Accept && FailedEarly(job)))
      && (job'.state == Delivered <==> a == Deliver || (a == Accept && job.pending == Some(KDelivered)))
      && (job'.state == Accepted <==> a == Accept && job.pending in {None, Some(KAccepted)})
  {
    RunKeeps(cap, ops);
    RunWaits(cap, ops, i);
    var s := Run(cap, ops);
    assert JobInv(cap, s.jobs[i]);
    RecordedJob(cap, s.jobs[i], AnswerOf(cap, ops, i).value);
    OneJobChanges(cap, s, RecordJob(i));
    OneMore(cap, ops, RecordJob(i));
  }

  // -- verdicts, updates and claims -----------------------------------------------------------------

  /** A claim in a sending campaign: the eligible job is tried once more, the other is skipped for good. */
  lemma ClaimTries(cap: nat, s: State, i: nat)
    requires i < |s.jobs| && s.lifecycle == Sending && s.jobs[i].state == Pending
    ensures var job, s' := s.jobs[i], Apply(cap, s, ClaimJob(i));
      && i < |s'.jobs|
      && (job.eligible ==> s'.jobs[i].state == InFlight && s'.jobs[i].phase == Claimed && s'.jobs[i].attempts == job.attempts + 1 && !s'.jobs[i].bound)
      && (!job.eligible ==> s'.jobs[i].state == SkippedRevalidation && s'.jobs[i].attempts == job.attempts && s'.jobs[i].phase == job.phase)
  {
    OneJobChanges(cap, s, ClaimJob(i));
  }

  /** An operator's verdict on an unknown outcome. */
  lemma ResolveDecides(cap: nat, s: State, i: nat, sent: bool)
    requires i < |s.jobs| && s.jobs[i].state == OutcomeUnknown
    ensures var s' := Apply(cap, s, Resolve(i, sent));
      i < |s'.jobs| && !s'.jobs[i].blocked && s'.jobs[i].state == if sent then Accepted else FailedTransient
  {
    OneJobChanges(cap, s, Resolve(i, sent));
  }

  /** A provider status: kept for later while the reference is not bound, and then raising a success or failing it. */
  lemma UpdateCounts(cap: nat, s: State, i: nat, value: Kind)
    requires Inv(cap, s) && i < |s.jobs| && s.jobs[i].providerHas
    ensures var job, s' := s.jobs[i], Apply(cap, s, ProviderUpdate(i, value));
      && i < |s'.jobs|
      && (!job.bound ==> s'.jobs[i].state == job.state && s'.jobs[i].pending == if job.pending == None then Some(value) else job.pending)
      && (job.bound ==> s'.jobs[i].pending == None)
      && (job.bound && job.state != Accepted ==> s'.jobs[i].state == job.state)
      && (job.bound && job.state == Accepted ==> s'.jobs[i].state == match value
            case KAccepted => Accepted
            case KDelivered => Delivered
            case _ => FailedPermanent)
  {
    assert JobInv(cap, s.jobs[i]);
    OneJobChanges(cap, s, ProviderUpdate(i, value));
  }

  /** On any job at all: a reported success raises what is not yet as far and never lowers; a failure of the current
      attempt fails what is in flight, accepted or unknown, and one of an earlier attempt nothing. */
  lemma StatusRaises(cap: nat, job: Job, value: Kind, current: bool)
    ensures var to := Reduce(cap, job, Provider(value, current)).state;
      to == match value
        case KAccepted => if job.state in {Pending, InFlight, FailedTransient, OutcomeUnknown} then Accepted else job.state
        case KDelivered => if job.state in {Pending, InFlight, FailedTransient, OutcomeUnknown, Accepted} then Delivered else job.state
        case _ => if current && job.state in {InFlight, OutcomeUnknown, Accepted} then FailedPermanent else job.state
  {
  }

  /** A failure reported for an earlier attempt changes nothing, nor does invalidating anything but eligibility. */
  lemma LateAndInvalid(cap: nat, s: State, i: nat)
    requires Inv(cap, s) && i < |s.jobs|
    ensures Apply(cap, s, LateFailure(i)).jobs == s.jobs
    ensures Apply(cap, s, Invalidate(i)).jobs ==
      if s.jobs[i].state == Pending then s.jobs[i := s.jobs[i].(eligible := false)] else s.jobs
  {
    OneJobChanges(cap, s, LateFailure(i));
    OneJobChanges(cap, s, Invalidate(i));
    assert JobInv(cap, s.jobs[i]);
  }

  // -- sweeps ------------------------------------------------------------------------------------------

  predicate Retryable(cap: nat, job: Job) { job.state == FailedTransient && job.attempts < cap }

  lemma RetriedJob(cap: nat, job: Job)
    ensures var job' := Reduce(cap, job, Retry);
      && (if Retryable(cap, job) then job'.state == Pending else job' == job)
      && job'.attempts == job.attempts && job'.eligible == job.eligible
  {
  }

  lemma RetryReduces(cap: nat, s: State, i: nat)
    requires Started(s.lifecycle) && i < |s.jobs|
    ensures var s' := Apply(cap, s, RetryAll); i < |s'.jobs| && s'.jobs[i] == Reduce(cap, s.jobs[i], Retry)
  {
    var jobs := ReduceAll(cap, s.jobs, Retry);
    if jobs == s.jobs {
      assert Apply(cap, s, RetryAll) == s && jobs[i] == Reduce(cap, s.jobs[i], Retry);
    } else {
      Settled(s.(lifecycle := Sending, jobs := jobs));
    }
  }

  /** Exactly the transiently failed jobs with attempts left are made PENDING again, and the campaign sends. */
  lemma RetryReopens(cap: nat, s: State, i: nat)
    requires Started(s.lifecycle) && i < |s.jobs|
    ensures var job, s' := s.jobs[i], Apply(cap, s, RetryAll);
      && i < |s'.jobs|
      && (if job.state == FailedTransient && job.attempts < cap then s'.jobs[i].state == Pending && s'.lifecycle == Sending
          else s'.jobs[i] == job)
      && s'.jobs[i].attempts == job.attempts && s'.jobs[i].eligible == job.eligible
  {
    RetryReduces(cap, s, i);
    RetriedJob(cap, s.jobs[i]);
    if Retryable(cap, s.jobs[i]) { RetryWorks(cap, s, i); }
  }

  /** While sending exactly the jobs not yet tried are cancelled; before that the whole campaign is withdrawn. */
  lemma CancelStops(cap: nat, s: State)
    ensures s.lifecycle == Sending ==> |Apply(cap, s, CancelAll).jobs| == |s.jobs|
    ensures s.lifecycle == Sending ==> forall i :: 0 <= i < |s.jobs| ==>
      var job, job' := s.jobs[i], Apply(cap, s, CancelAll).jobs[i];
      if job.state == Pending then job'.state == Cancelled && job'.attempts == job.attempts else job' == job
    ensures s.lifecycle in {Ready, Scheduled} ==> Apply(cap, s, CancelAll).lifecycle == Withdrawn
    ensures s.lifecycle == Scheduled ==> Apply(cap, s, CancelAll).jobs == [] && Apply(cap, s, CancelAll).summary == NoSummary
  {
    if s.lifecycle == Sending { Settled(s.(jobs := ReduceAll(cap, s.jobs, Cancel))); }
  }

  /** A crash forgets what each call was doing and nothing else. */
  lemma CrashForgets(cap: nat, s: State, i: nat)
    requires i < |s.jobs|
    ensures var s' := Apply(cap, s, Crash);
      |s'.jobs| == |s.jobs| && s'.lifecycle == s.lifecycle && s'.jobs[i] == s.jobs[i].(phase := Resting) && !AnyPhase(s'.jobs)
  {
    if AnyPhase(s.jobs) {
      assert Apply(cap, s, Crash) == s.(jobs := Rested(s.jobs));
      assert forall k :: 0 <= k < |s.jobs| ==> Rested(s.jobs)[k].phase == Resting;
    } else {
      assert Apply(cap, s, Crash) == s;
    }
  }

  /** Recovery after it: exactly the jobs in flight become unknown and blocked. */
  lemma RecoverBlocks(cap: nat, s: State, i: nat)
    requires i < |s.jobs| && !AnyPhase(s.jobs)
    ensures var job, s' := s.jobs[i], Apply(cap, s, RecoverAll);
      && |s'.jobs| == |s.jobs|
      && (job.state == InFlight ==> s'.jobs[i].state == OutcomeUnknown && s'.jobs[i].blocked && s'.jobs[i].attempts == job.attempts)
      && (job.state != InFlight ==> s'.jobs[i] == job)
  {
    if Step(cap, s, RecoverAll).Some? {
      Settled(s.(jobs := ReduceAll(cap, s.jobs, Recover)));
    } else {
      assert !AnyIn(s.jobs, InFlight);
    }
  }

  // -- starting ------------------------------------------------------------------------------------------

  predicate Fresh(job: Job, eligible: bool) {
    && job.state == (if eligible then Pending else SkippedPlatformPolicy) && job.attempts == 0 && job.eligible
    && job.phase == Resting && !job.providerHas && !job.bound && job.pending == None && !job.blocked
  }

  /** A new generation: one job for each endpoint, PENDING if the policy allows it, each with its own key. */
  lemma FreezeStarts(cap: nat, s: State, mask: seq<bool>, scheduled: bool)
    requires s.lifecycle == Ready && true in mask
    ensures var s' := Apply(cap, s, Freeze(mask, scheduled));
      && |s'.jobs| == |mask| && s'.gens == s.gens + 1 && s'.scheduled == scheduled && !s'.due && s'.content == s.content
      && s'.lifecycle == (if scheduled then Scheduled else Sending)
      && |s'.keys| == |s.keys| + |mask| && s.keys <= s'.keys
      && (forall i :: 0 <= i < |mask| ==> s'.keys[|s.keys| + i] == Key(s.gens, i, s.content))
      && forall i :: 0 <= i < |mask| ==> Fresh(s'.jobs[i], mask[i])
  {
    var m :| 0 <= m < |mask| && mask[m];
    assert IsActive(NewJobs(mask)[m].state);
  }

  /** Scheduled campaigns start once their time has come, or go back to be edited. */
  lemma ScheduleTurns(cap: nat, s: State)
    requires Inv(cap, s)
    ensures Apply(cap, s, AdvanceClock) == s.(due := true)
    ensures s.lifecycle == Scheduled && s.due ==> Apply(cap, s, RunDue).jobs == s.jobs && Started(Apply(cap, s, RunDue).lifecycle)
    ensures !(s.lifecycle == Scheduled && s.due) ==> Apply(cap, s, RunDue) == s
    ensures s.lifecycle == Scheduled ==> var s' := Apply(cap, s, Unschedule); s'.lifecycle == Ready && s'.jobs == [] && s'.summary == NoSummary && s'.content == s.content + 1
    ensures s.lifecycle != Scheduled ==> Apply(cap, s, Unschedule) == s
  {
  }

  /** The monitors tell: each is set by the thing it watches for, and stays set. */
  lemma MonitorsTell(cap: nat, s: State, op: Op)
    requires OnJob(op) && op.i < |s.jobs|
    ensures var job, w := s.jobs[op.i], Watched(cap, s, s.jobs[op.i], op);
      && (w.claimedBlocked <==> s.claimedBlocked || (op.ClaimJob? && job.eligible && job.blocked))
      && (w.earlyClaim <==> s.earlyClaim || (op.ClaimJob? && job.eligible && s.scheduled && !s.due))
      && (w.lateTouched <==> s.lateTouched || (op.LateFailure? && JobAfter(cap, job, op) != job))
      && w.emptyGeneration == s.emptyGeneration && (s.claimedIneligible ==> w.claimedIneligible)
  {
  }

  // -- a whole campaign -----------------------------------------------------------------------------------

  /** One attempt at job `i`. */
  function Attempt(i: nat, a: Answer): seq<Op> { [] + [ClaimJob(i)] + [DeliverJob(i, a)] + [RecordJob(i)] }

  /** The state an attempt ends in. */
  function Ending(a: Answer): JobState {
    match a
    case Accept => Accepted
    case Deliver => Delivered
    case Transient => FailedTransient
    case Permanent => FailedPermanent
    case UnknownSent => OutcomeUnknown
    case UnknownUnsent => OutcomeUnknown
  }

  lemma JobMoves(cap: nat, ops: seq<Op>, op: Op)
    requires var s := Run(cap, ops); OnJob(op) && op.i < |s.jobs| && JobEnabled(s.lifecycle == Sending, s.jobs[op.i], op)
    ensures var s, s' := Run(cap, ops), Run(cap, ops + [op]);
      s'.jobs == s.jobs[op.i := JobAfter(cap, s.jobs[op.i], op)] && Started(s'.lifecycle) == Started(s.lifecycle)
  {
    OneMore(cap, ops, op);
    OneJobChanges(cap, Run(cap, ops), op);
  }

  /** The job through one attempt. */
  function Tried1(cap: nat, job: Job): Job { JobAfter(cap, job, ClaimJob(0)) }

  function Tried2(cap: nat, job: Job, a: Answer): Job { JobAfter(cap, Tried1(cap, job), DeliverJob(0, a)) }

  function Attempted(cap: nat, job: Job, a: Answer): Job { JobAfter(cap, Tried2(cap, job, a), RecordJob(0)) }

  lemma AttemptedJob(cap: nat, job: Job, a: Answer)
    requires job.state == Pending && job.eligible && job.pending == None
    ensures Attempted(cap, job, a).state == Ending(a) && Attempted(cap, job, a).attempts == job.attempts + 1
  {
  }

  lemma AttemptIsEnabled(cap: nat, job: Job, a: Answer)
    requires job.state == Pending && job.eligible
    ensures Tried1(cap, job).phase == Claimed && Tried2(cap, job, a).phase.Returned?
  {
  }

  /** The job at `i` becomes `job`, and no other changes. */
  predicate Becomes(s: State, s': State, i: nat, job: Job) {
    i < |s.jobs| && s'.jobs == s.jobs[i := job] && Started(s'.lifecycle) == Started(s.lifecycle)
  }

  lemma MovesTo(cap: nat, ops: seq<Op>, op: Op, i: nat, job: Job)
    requires var s := Run(cap, ops);
      && OnJob(op) && op.i == i < |s.jobs| && JobEnabled(s.lifecycle == Sending, s.jobs[i], op)
      && job == JobAfter(cap, s.jobs[i], op)
    ensures Becomes(Run(cap, ops), Run(cap, ops + [op]), i, job)
  {
    JobMoves(cap, ops, op);
  }

  lemma AttemptMoves(cap: nat, ops: seq<Op>, i: nat, a: Answer)
    requires var s := Run(cap, ops); s.lifecycle == Sending && i < |s.jobs| && s.jobs[i].state == Pending && s.jobs[i].eligible
    ensures var s := Run(cap, ops); Becomes(s, Run(cap, ops + Attempt(i, a)), i, Attempted(cap, s.jobs[i], a))
  {
    var job, o1 := Run(cap, ops).jobs[i], ops + [ClaimJob(i)];
    var o2 := o1 + [DeliverJob(i, a)];
    AttemptIsEnabled(cap, job, a);
    MovesTo(cap, ops, ClaimJob(i), i, Tried1(cap, job));
    MovesTo(cap, o1, DeliverJob(i, a), i, Tried2(cap, job, a));
    MovesTo(cap, o2, RecordJob(i), i, Attempted(cap, job, a));
    assert ops + Attempt(i, a) == o2 + [RecordJob(i)];
  }

  lemma AttemptEnds(cap: nat, ops: seq<Op>, i: nat, a: Answer)
    requires var s := Run(cap, ops); s.lifecycle == Sending && i < |s.jobs|
    requires var job := Run(cap, ops).jobs[i]; job.state == Pending && job.eligible && job.pending == None
    ensures var s, s' := Run(cap, ops), Run(cap, ops + Attempt(i, a));
      && |s'.jobs| == |s.jobs| && s'.jobs[i].state == Ending(a) && s'.jobs[i].attempts == s.jobs[i].attempts + 1
      && Started(s'.lifecycle) && forall k :: 0 <= k < |s.jobs| && k != i ==> s'.jobs[k] == s.jobs[k]
  {
    AttemptMoves(cap, ops, i, a);
    AttemptedJob(cap, Run(cap, ops).jobs[i], a);
  }

  /** The first `n` jobs were tried once each, as answered; the others wait. */
  ghost predicate Tried(s: State, mask: seq<bool>, answers: seq<Answer>, n: nat)
    requires |answers| == |mask|
  {
    && |s.jobs| == |mask| && Started(s.lifecycle)
    && (forall i :: 0 <= i < |mask| ==>
          if !mask[i] then s.jobs[i].state == SkippedPlatformPolicy && s.jobs[i].attempts == 0
          else if i < n then s.jobs[i].state == Ending(answers[i]) && s.jobs[i].attempts == 1
          else s.jobs[i].state == Pending && s.jobs[i].eligible && s.jobs[i].pending == None && s.jobs[i].attempts == 0)
  }

  lemma TryNext(cap: nat, ops: seq<Op>, mask: seq<bool>, answers: seq<Answer>, n: nat) returns (more: seq<Op>)
    requires |answers| == |mask| && n < |mask| && Tried(Run(cap, ops), mask, answers, n)
    ensures Tried(Run(cap, more), mask, answers, n + 1)
  {
    more := ops;
    if mask[n] {
      var s := Run(cap, ops);
      RunKeeps(cap, ops);
      assert IsActive(s.jobs[n].state) && AnyActive(s.jobs);
      AttemptEnds(cap, ops, n, answers[n]);
      more := ops + Attempt(n, answers[n]);
      var s' := Run(cap, more);
      forall i | 0 <= i < |mask| && i != n ensures s'.jobs[i] == s.jobs[i] {}
    }
  }

  lemma FrozenIsTried(cap: nat, mask: seq<bool>, answers: seq<Answer>)
    requires true in mask && |answers| == |mask|
    ensures Tried(Run(cap, [] + [Freeze(mask, false)]), mask, answers, 0)
  {
    OneMore(cap, [], Freeze(mask, false));
    FreezeStarts(cap, Init(), mask, false);
    var s := Run(cap, [] + [Freeze(mask, false)]);
    forall i | 0 <= i < |mask| ensures Fresh(s.jobs[i], mask[i]) {}
  }

  lemma {:induction false} AllTried(cap: nat, mask: seq<bool>, answers: seq<Answer>, n: nat) returns (ops: seq<Op>)
    requires true in mask && |answers| == |mask| && n <= |mask|
    ensures Tried(Run(cap, ops), mask, answers, n)
  {
    if n == 0 {
      FrozenIsTried(cap, mask, answers);
      ops := [] + [Freeze(mask, false)];
    } else {
      var before := AllTried(cap, mask, answers, n - 1);
      ops := TryNext(cap, before, mask, answers, n - 1);
    }
  }

  predicate Taken(a: Answer) { a == Accept || a == Deliver }

  predicate IsUnknown(a: Answer) { a == UnknownSent || a == UnknownUnsent }

  /** Every job ends as it was answered, or is skipped. */
  ghost predicate Ended(jobs: seq<Job>, mask: seq<bool>, answers: seq<Answer>) {
    && |jobs| == |mask| == |answers|
    && forall i :: 0 <= i < |mask| ==> jobs[i].state == if mask[i] then Ending(answers[i]) else SkippedPlatformPolicy
  }

  lemma NothingLeft(jobs: seq<Job>, mask: seq<bool>, answers: seq<Answer>)
    requires Ended(jobs, mask, answers)
    ensures !AnyActive(jobs) && !AnyIn(jobs, Cancelled)
    ensures AnyIn(jobs, OutcomeUnknown) <==> exists i :: 0 <= i < |mask| && mask[i] && IsUnknown(answers[i])
    ensures AnySuccess(jobs) <==> exists i :: 0 <= i < |mask| && mask[i] && Taken(answers[i])
  {
    if i :| 0 <= i < |mask| && mask[i] && IsUnknown(answers[i]) { assert jobs[i].state == OutcomeUnknown; }
    if i :| 0 <= i < |mask| && mask[i] && Taken(answers[i]) { assert IsSuccess(jobs[i].state); }
  }

  function SummaryOf(all: bool, some: bool, unknown: bool): Summary {
    if unknown then Indeterminate else if all then Sent else if some then Partial else Failed
  }

  lemma EndedSummary(jobs: seq<Job>, mask: seq<bool>, answers: seq<Answer>)
    requires Ended(jobs, mask, answers) && jobs != []
    ensures var all := forall i :: 0 <= i < |mask| ==> mask[i] && Taken(answers[i]);
      var some := exists i :: 0 <= i < |mask| && mask[i] && Taken(answers[i]);
      var unknown := exists i :: 0 <= i < |mask| && mask[i] && IsUnknown(answers[i]);
      Summarize(jobs) == SummaryOf(all, some, unknown)
  {
    NothingLeft(jobs, mask, answers);
    SummaryIsExact(jobs);
    forall i | 0 <= i < |mask| ensures IsSuccess(jobs[i].state) <==> mask[i] && Taken(answers[i]) {}
  }

  /**
  A whole campaign of any size, each job tried once: the campaign is complete, every job ends as it was answered,
  and the summary is SENT exactly if all of them were taken, INDETERMINATE exactly if one is unknown, and else
  PARTIAL or FAILED as some or none were taken.
  */
  lemma CampaignComesToItsSummary(cap: nat, mask: seq<bool>, answers: seq<Answer>) returns (ops: seq<Op>)
    requires true in mask && |answers| == |mask|
    ensures Ended(Run(cap, ops).jobs, mask, answers) && Run(cap, ops).lifecycle == Complete
    ensures var all := forall i :: 0 <= i < |mask| ==> mask[i] && Taken(answers[i]);
      var some := exists i :: 0 <= i < |mask| && mask[i] && Taken(answers[i]);
      var unknown := exists i :: 0 <= i < |mask| && mask[i] && IsUnknown(answers[i]);
      Run(cap, ops).summary == if unknown then Indeterminate else if all then Sent else if some then Partial else Failed
  {
    ops := AllTried(cap, mask, answers, |mask|);
    var s := Run(cap, ops);
    RunKeeps(cap, ops);
    assert Ended(s.jobs, mask, answers);
    NothingLeft(s.jobs, mask, answers);
    EndedSummary(s.jobs, mask, answers);
  }
}
