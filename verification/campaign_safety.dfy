/** Bookkeeping: what holds in every reachable state of a campaign. */
module CampaignSafety {
  import opened CampaignRules

  function Limit(cap: nat): nat { if cap == 0 then 1 else cap }

  ghost predicate JobInv(cap: nat, job: Job) {
    && (job.everDelivered <==> job.state == Delivered)
    && (job.blocked ==> job.state in {OutcomeUnknown, Accepted, Delivered, FailedPermanent})
    && (job.phase != Resting ==> job.state == InFlight)
    && (job.bound ==> job.state in {Accepted, Delivered, FailedPermanent} && job.pending.None?)
    && job.attempts <= Limit(cap) && (job.state == Pending ==> job.attempts < Limit(cap))
  }

  /** Not touched since it was frozen. */
  predicate Untouched(job: Job) {
    job.state in {Pending, SkippedPlatformPolicy} && job.attempts == 0 && job.phase == Resting && !job.providerHas
  }

  predicate Started(lifecycle: Lifecycle) { lifecycle == Sending || lifecycle == Complete }

  ghost predicate JobsInv(cap: nat, s: State) {
    forall i :: 0 <= i < |s.jobs| ==> JobInv(cap, s.jobs[i])
  }

  ghost predicate LifeInv(s: State) {
    && (s.jobs == [] <==> s.lifecycle == Ready || s.lifecycle == Withdrawn)
    && (s.jobs != [] ==> s.summary == Summarize(s.jobs))
    && (s.lifecycle == Sending ==> AnyActive(s.jobs))
    && (s.lifecycle == Complete ==> !AnyActive(s.jobs))
    && (s.lifecycle == Scheduled ==> s.scheduled && forall i :: 0 <= i < |s.jobs| ==> Untouched(s.jobs[i]))
    && (Started(s.lifecycle) && s.scheduled ==> s.due)
  }

  ghost predicate KeysInv(s: State) {
    && (forall k :: k in s.keys ==> k.generation < s.gens)
    && (forall a, b :: 0 <= a < b < |s.keys| ==> s.keys[a].generation != s.keys[b].generation || s.keys[a].job != s.keys[b].job)
    && (forall a, b :: 0 <= a < |s.keys| && 0 <= b < |s.keys| && s.keys[a].generation == s.keys[b].generation ==>
          s.keys[a].content == s.keys[b].content)
  }

  predicate Quiet(s: State) {
    !s.claimedBlocked && !s.earlyClaim && !s.claimedIneligible && !s.emptyGeneration && !s.lateTouched
  }

  ghost predicate Inv(cap: nat, s: State) { JobsInv(cap, s) && LifeInv(s) && KeysInv(s) && Quiet(s) }

  // -- the reducer ---------------------------------------------------------------------------

  lemma ReduceKeeps(cap: nat, job: Job, e: Evidence)
    requires JobInv(cap, job) && (e.Cancel? || e.Skip? || e.Retry? || e.ResolveSent? || e.ResolveNotSent?)
    ensures JobInv(cap, Reduce(cap, job, e))
  {
  }

  lemma UpdateKeeps(cap: nat, job: Job, value: Kind)
    requires JobInv(cap, job) && job.bound
    ensures JobInv(cap, Reduce(cap, job, Provider(value, true))) && Reduce(cap, job, Provider(value, true)).bound
  {
  }

  lemma RecordedKeeps(cap: nat, job: Job, kind: Kind)
    requires JobInv(cap, job) && job.phase == Returned(kind)
    ensures JobInv(cap, Recorded(cap, job, kind))
  {
    var done := Reduce(cap, job, ResultOf(kind)).(phase := Resting, bound := IsSuccess(StateOf(kind)));
    if done.bound && done.pending.Some? {
      assert JobInv(cap, done.(pending := None));
      UpdateKeeps(cap, done.(pending := None), done.pending.value);
    }
  }

  // -- one job changes -----------------------------------------------------------------------

  /** A started campaign may change one job and settle. */
  lemma SetSettleKeeps(cap: nat, s: State, i: nat, job: Job)
    requires Inv(cap, s) && Started(s.lifecycle) && i < |s.jobs| && JobInv(cap, job)
    requires IsActive(job.state) ==> IsActive(s.jobs[i].state)
    ensures Inv(cap, Settle(SetJob(s, i, job)))
  {
    assert AnyActive(s.jobs[i := job]) ==> AnyActive(s.jobs);
  }

  lemma {:induction false} SameWins(a: seq<Job>, b: seq<Job>)
    requires |a| == |b| && forall k :: 0 <= k < |a| ==> a[k].state == b[k].state
    ensures Wins(a) == Wins(b)
  {
    if a != [] { SameWins(a[..|a| - 1], b[..|b| - 1]); }
  }

  lemma SameSummary(a: seq<Job>, b: seq<Job>)
    requires |a| == |b| && forall k :: 0 <= k < |a| ==> a[k].state == b[k].state && a[k].attempts == b[k].attempts
    ensures Summarize(a) == Summarize(b) && AnyActive(a) == AnyActive(b)
  {
    SameWins(a, b);
    forall k | 0 <= k < |a| ensures IsActive(a[k].state) ==> AnyActive(b) {}
    forall k | 0 <= k < |a| ensures IsActive(b[k].state) ==> AnyActive(a) {}
    forall x | x in {OutcomeUnknown, Cancelled} ensures AnyIn(a, x) == AnyIn(b, x) {
      if AnyIn(a, x) { var k :| 0 <= k < |a| && a[k].state == x; assert b[k].state == x; }
      if AnyIn(b, x) { var k :| 0 <= k < |b| && b[k].state == x; assert a[k].state == x; }
    }
    if AnyAttempt(a) { var k :| 0 <= k < |a| && a[k].attempts > 0; assert b[k].attempts > 0; }
    if AnyAttempt(b) { var k :| 0 <= k < |b| && b[k].attempts > 0; assert a[k].attempts > 0; }
  }

  /** A change that leaves state and attempts alone needs no settling. */
  lemma SetKeeps(cap: nat, s: State, i: nat, job: Job)
    requires Inv(cap, s) && i < |s.jobs| && JobInv(cap, job)
    requires job.state == s.jobs[i].state && job.attempts == s.jobs[i].attempts
    requires s.lifecycle == Scheduled ==> Untouched(job)
    ensures Inv(cap, SetJob(s, i, job))
  {
    SameSummary(s.jobs, SetJob(s, i, job).jobs);
  }

  lemma JobStaysSound(cap: nat, job: Job, op: Op, sending: bool)
    requires JobInv(cap, job) && OnJob(op) && JobEnabled(sending, job, op)
    ensures var job' := JobAfter(cap, job, op);
      && JobInv(cap, job') && (IsActive(job'.state) ==> IsActive(job.state))
      && (!Settles(cap, job, op) ==> job'.state == job.state && job'.attempts == job.attempts)
      && (op.LateFailure? ==> job' == job)
  {
    match op
    case RecordJob(_) => RecordedKeeps(cap, job, job.phase.kind);
    case ProviderUpdate(_, value) => if job.bound { UpdateKeeps(cap, job, value); }
    case Resolve(_, sent) => ReduceKeeps(cap, job, if sent then ResolveSent else ResolveNotSent);
    case _ =>
  }

  lemma JobStepKeeps(cap: nat, s: State, op: Op, i: nat)
    requires Inv(cap, s) && OnJob(op) && i < |s.jobs| && JobEnabled(s.lifecycle == Sending, s.jobs[i], op)
    ensures Inv(cap, JobStep(cap, s, op, i).value)
  {
    var job := s.jobs[i];
    assert JobInv(cap, job);
    JobStaysSound(cap, job, op, s.lifecycle == Sending);
    assert Watched(cap, s, job, op) == s by { assert Quiet(s); }
    assert s.lifecycle == Scheduled ==> Untouched(job);
    if Settles(cap, job, op) {
      SetSettleKeeps(cap, s, i, JobAfter(cap, job, op));
    } else {
      SetKeeps(cap, s, i, JobAfter(cap, job, op));
    }
  }

  // -- the whole campaign changes ------------------------------------------------------------

  lemma FreezeKeeps(cap: nat, s: State, mask: seq<bool>, scheduled: bool)
    requires Inv(cap, s) && DoFreeze(s, mask, scheduled).Some?
    ensures Inv(cap, DoFreeze(s, mask, scheduled).value)
  {
    var jobs := NewJobs(mask);
    var m :| 0 <= m < |mask| && mask[m];
    assert IsActive(jobs[m].state) && AnyActive(jobs);
    var s' := DoFreeze(s, mask, scheduled).value;
    assert s'.jobs == jobs && JobsInv(cap, s');
    forall a, b | 0 <= a < b < |s'.keys|
      ensures s'.keys[a].generation != s'.keys[b].generation || s'.keys[a].job != s'.keys[b].job {
      if a < |s.keys| { assert s.keys[a] in s.keys; }
    }
    forall a, b | 0 <= a < |s'.keys| && 0 <= b < |s'.keys| && s'.keys[a].generation == s'.keys[b].generation
      ensures s'.keys[a].content == s'.keys[b].content {
      if a < |s.keys| { assert s.keys[a] in s.keys; }
      if b < |s.keys| { assert s.keys[b] in s.keys; }
    }
  }

  lemma AllKeeps(cap: nat, s: State, e: Evidence)
    requires Inv(cap, s) && Started(s.lifecycle)
    requires e.Cancel? || e.Retry? || (e.Recover? && !AnyPhase(s.jobs))
    ensures Inv(cap, Settle(s.(lifecycle := Sending, jobs := ReduceAll(cap, s.jobs, e))))
  {
    var jobs := ReduceAll(cap, s.jobs, e);
    forall i | 0 <= i < |jobs| ensures JobInv(cap, jobs[i]) {
      assert JobInv(cap, s.jobs[i]);
      if !e.Recover? { ReduceKeeps(cap, s.jobs[i], e); }
    }
  }

  lemma RecoverKeeps(cap: nat, s: State)
    requires Inv(cap, s) && !AnyPhase(s.jobs) && AnyIn(s.jobs, InFlight)
    ensures Inv(cap, Settle(s.(jobs := ReduceAll(cap, s.jobs, Recover))))
  {
    var i :| 0 <= i < |s.jobs| && s.jobs[i].state == InFlight;
    assert AnyActive(s.jobs) by { assert IsActive(s.jobs[i].state); }
    assert s.lifecycle == Sending by { assert !Untouched(s.jobs[i]); }
    AllKeeps(cap, s, Recover);
  }

  lemma CrashKeeps(cap: nat, s: State)
    requires Inv(cap, s)
    ensures Inv(cap, s.(jobs := Rested(s.jobs)))
  {
    SameSummary(s.jobs, Rested(s.jobs));
    forall i | 0 <= i < |s.jobs| ensures JobInv(cap, Rested(s.jobs)[i]) { assert JobInv(cap, s.jobs[i]); }
  }

  lemma RunDueKeeps(cap: nat, s: State)
    requires Inv(cap, s) && s.lifecycle == Scheduled && s.due
    ensures Inv(cap, Settle(s.(lifecycle := Sending)))
  {
  }

  lemma StepKeeps(cap: nat, s: State, op: Op)
    requires Inv(cap, s)
    ensures Inv(cap, Apply(cap, s, op))
  {
    if Step(cap, s, op).Some? {
      if OnJob(op) {
        JobStepKeeps(cap, s, op, op.i);
      } else {
        match op
        case Freeze(mask, scheduled) => FreezeKeeps(cap, s, mask, scheduled);
        case AdvanceClock =>
        case RunDue => RunDueKeeps(cap, s);
        case Unschedule =>
        case CancelAll => if s.lifecycle == Sending { AllKeeps(cap, s, Cancel); }
        case RetryAll => AllKeeps(cap, s, Retry);
        case Crash => CrashKeeps(cap, s);
        case RecoverAll => RecoverKeeps(cap, s);
      }
    }
  }

  lemma {:induction false} RunKeeps(cap: nat, ops: seq<Op>)
    ensures Inv(cap, Run(cap, ops))
  {
    if ops != [] {
      RunKeeps(cap, ops[..|ops| - 1]);
      LastStep(cap, ops);
      StepKeeps(cap, Run(cap, ops[..|ops| - 1]), ops[|ops| - 1]);
    }
  }

  // -- main results --------------------------------------------------------------------------

  lemma {:induction false} WinsCounts(jobs: seq<Job>)
    ensures Wins(jobs) <= |jobs|
    ensures Wins(jobs) == |jobs| <==> forall i :: 0 <= i < |jobs| ==> IsSuccess(jobs[i].state)
    ensures Wins(jobs) == 0 <==> forall i :: 0 <= i < |jobs| ==> !IsSuccess(jobs[i].state)
  {
    if jobs != [] {
      var most := jobs[..|jobs| - 1];
      WinsCounts(most);
      assert forall i :: 0 <= i < |most| ==> most[i] == jobs[i];
    }
  }

  /** What the summary says about the jobs, both ways. */
  lemma SummaryIsExact(jobs: seq<Job>)
    requires jobs != []
    ensures Summarize(jobs) == Sent <==> forall i :: 0 <= i < |jobs| ==> IsSuccess(jobs[i].state)
    ensures Summarize(jobs) == InProgress <==> AnyActive(jobs)
    ensures Summarize(jobs) == Indeterminate <==> !AnyActive(jobs) && AnyIn(jobs, OutcomeUnknown)
    ensures Summarize(jobs) == Partial <==> AllOver(jobs) && AnySuccess(jobs) && AnyOther(jobs)
    ensures Summarize(jobs) == CancelledSummary <==> AllOver(jobs) && !AnySuccess(jobs) && AnyIn(jobs, Cancelled) && NeverTried(jobs)
    ensures Summarize(jobs) == Failed <==> AllOver(jobs) && !AnySuccess(jobs) && !(AnyIn(jobs, Cancelled) && NeverTried(jobs))
  {
    if !NeverTried(jobs) { var job :| job in jobs && job.attempts != 0; assert AnyAttempt(jobs); }
    WinsCounts(jobs);
    if AnySuccess(jobs) { var i :| 0 <= i < |jobs| && IsSuccess(jobs[i].state); }
    if AnyOther(jobs) { var i :| 0 <= i < |jobs| && !IsSuccess(jobs[i].state); }
    assert IsSuccess(jobs[0].state) || !IsSuccess(jobs[0].state);
  }

  /** No job was ever attempted. */
  predicate NeverTried(jobs: seq<Job>) { forall job :: job in jobs ==> job.attempts == 0 }

  /** Nothing is active and nothing unknown. */
  predicate AllOver(jobs: seq<Job>) { !AnyActive(jobs) && !AnyIn(jobs, OutcomeUnknown) }

  predicate AnySuccess(jobs: seq<Job>) { exists i :: 0 <= i < |jobs| && IsSuccess(jobs[i].state) }

  predicate AnyOther(jobs: seq<Job>) { exists i :: 0 <= i < |jobs| && !IsSuccess(jobs[i].state) }

  /** The books of a campaign, in every reachable state. */
  lemma BooksBalance(cap: nat, ops: seq<Op>)
    ensures var s := Run(cap, ops);
      && (s.jobs != [] ==> s.summary == Summarize(s.jobs))
      && (s.lifecycle == Sending ==> AnyActive(s.jobs))
      && (s.lifecycle == Complete ==> !AnyActive(s.jobs))
      && Quiet(s)
      && (forall i :: 0 <= i < |s.jobs| ==> s.jobs[i].attempts <= Limit(cap))
      && (forall i :: 0 <= i < |s.jobs| ==> !(s.jobs[i].bound && s.jobs[i].pending.Some?))
      && (forall a, b :: 0 <= a < b < |s.keys| ==> s.keys[a].generation != s.keys[b].generation || s.keys[a].job != s.keys[b].job)
      && (forall a, b :: 0 <= a < |s.keys| && 0 <= b < |s.keys| && s.keys[a].generation == s.keys[b].generation ==>
            s.keys[a].content == s.keys[b].content)
  {
    RunKeeps(cap, ops);
    var s := Run(cap, ops);
    forall i | 0 <= i < |s.jobs| ensures JobInv(cap, s.jobs[i]) {}
  }

  /** Every claim happens in a started campaign, of an eligible and unblocked job, not before its send time. */
  lemma ClaimsAreDue(cap: nat, ops: seq<Op>, i: nat)
    requires i < |Run(cap, ops).jobs| && JobEnabled(Run(cap, ops).lifecycle == Sending, Run(cap, ops).jobs[i], ClaimJob(i))
    ensures (Run(cap, ops).scheduled ==> Run(cap, ops).due) && !Run(cap, ops).jobs[i].blocked
    ensures JobAfter(cap, Run(cap, ops).jobs[i], ClaimJob(i)).state == InFlight <==> Run(cap, ops).jobs[i].eligible
  {
    RunKeeps(cap, ops);
    assert JobInv(cap, Run(cap, ops).jobs[i]);
  }

  // -- one job at a time ---------------------------------------------------------------------

  lemma Settled(s: State)
    ensures Settle(s).jobs == s.jobs && Started(Settle(s).lifecycle) == Started(s.lifecycle)
  {
  }

  lemma WatchedKeeps(cap: nat, s: State, job: Job, op: Op)
    requires OnJob(op)
    ensures Watched(cap, s, job, op).jobs == s.jobs && Watched(cap, s, job, op).lifecycle == s.lifecycle
  {
  }

  lemma JobStepChanges(cap: nat, s: State, op: Op, i: nat)
    requires OnJob(op) && i < |s.jobs| && JobEnabled(s.lifecycle == Sending, s.jobs[i], op)
    ensures var r := JobStep(cap, s, op, i);
      r.Some? && r.value.jobs == s.jobs[i := JobAfter(cap, s.jobs[i], op)] && Started(r.value.lifecycle) == Started(s.lifecycle)
  {
    WatchedKeeps(cap, s, s.jobs[i], op);
    Settled(SetJob(Watched(cap, s, s.jobs[i], op), i, JobAfter(cap, s.jobs[i], op)));
  }

  lemma OneJobChanges(cap: nat, s: State, op: Op)
    requires OnJob(op) && op.i < |s.jobs|
    ensures var s', job := Apply(cap, s, op), s.jobs[op.i];
      && s'.jobs == (if JobEnabled(s.lifecycle == Sending, job, op) then s.jobs[op.i := JobAfter(cap, job, op)] else s.jobs)
      && Started(s'.lifecycle) == Started(s.lifecycle)
  {
    if JobEnabled(s.lifecycle == Sending, s.jobs[op.i], op) {
      JobStepChanges(cap, s, op, op.i);
    }
  }

  /** What an operation on a started campaign as a whole may make of a job. */
  ghost predicate SweptTo(cap: nat, job: Job, job': Job) {
    || job' in {job, job.(phase := Resting), Reduce(cap, job, Cancel), Reduce(cap, job, Retry)}
    || (job.phase == Resting && job' == Reduce(cap, job, Recover))
  }

  lemma SweepChanges(cap: nat, s: State, e: Evidence, settled: State)
    requires e.Cancel? || e.Retry? || (e.Recover? && !AnyPhase(s.jobs))
    requires settled.jobs == ReduceAll(cap, s.jobs, e)
    ensures |settled.jobs| == |s.jobs| && forall i :: 0 <= i < |s.jobs| ==> SweptTo(cap, s.jobs[i], settled.jobs[i])
  {
  }

  /** An operation that leaves a started campaign started and each job where such an operation may take it. */
  ghost predicate AllSwept(cap: nat, s: State, s': State) {
    && Started(s'.lifecycle) && |s'.jobs| == |s.jobs|
    && forall i :: 0 <= i < |s.jobs| ==> SweptTo(cap, s.jobs[i], s'.jobs[i])
  }

  lemma CancelChanges(cap: nat, s: State)
    requires Started(s.lifecycle)
    ensures AllSwept(cap, s, Apply(cap, s, CancelAll))
  {
    if Step(cap, s, CancelAll).Some? {
      var next := s.(jobs := ReduceAll(cap, s.jobs, Cancel));
      Settled(next);
      SweepChanges(cap, s, Cancel, Settle(next));
    }
  }

  lemma RetryChanges(cap: nat, s: State)
    requires Started(s.lifecycle)
    ensures AllSwept(cap, s, Apply(cap, s, RetryAll))
  {
    if Step(cap, s, RetryAll).Some? {
      var next := s.(lifecycle := Sending, jobs := ReduceAll(cap, s.jobs, Retry));
      Settled(next);
      SweepChanges(cap, s, Retry, Settle(next));
    }
  }

  lemma RecoverChanges(cap: nat, s: State)
    requires Started(s.lifecycle)
    ensures AllSwept(cap, s, Apply(cap, s, RecoverAll))
  {
    if Step(cap, s, RecoverAll).Some? {
      var next := s.(jobs := ReduceAll(cap, s.jobs, Recover));
      Settled(next);
      SweepChanges(cap, s, Recover, Settle(next));
    }
  }

  lemma AllJobsChange(cap: nat, s: State, op: Op)
    requires !OnJob(op) && Started(s.lifecycle)
    ensures AllSwept(cap, s, Apply(cap, s, op))
  {
    match op
    case CancelAll => CancelChanges(cap, s);
    case RetryAll => RetryChanges(cap, s);
    case RecoverAll => RecoverChanges(cap, s);
    case _ =>
  }

  lemma SweptDelivered(cap: nat, job: Job, job': Job)
    requires SweptTo(cap, job, job') && job.state == Delivered
    ensures job'.state == Delivered
  {
  }

  lemma DeliveredStays(cap: nat, s: State, op: Op, i: nat)
    requires Inv(cap, s) && i < |s.jobs| && s.jobs[i].state == Delivered
    ensures i < |Apply(cap, s, op).jobs| && Apply(cap, s, op).jobs[i].state == Delivered
  {
    assert JobInv(cap, s.jobs[i]);
    assert Started(s.lifecycle) by { assert !Untouched(s.jobs[i]); }
    if !OnJob(op) {
      AllJobsChange(cap, s, op);
      SweptDelivered(cap, s.jobs[i], Apply(cap, s, op).jobs[i]);
    } else if op.i < |s.jobs| {
      OneJobChanges(cap, s, op);
      if i == op.i && JobEnabled(s.lifecycle == Sending, s.jobs[i], op) { DeliveredJobStays(cap, s.jobs[i], op, s.lifecycle == Sending); }
    }
  }

  lemma DeliveredJobStays(cap: nat, job: Job, op: Op, sending: bool)
    requires JobInv(cap, job) && job.state == Delivered && OnJob(op) && JobEnabled(sending, job, op)
    ensures JobAfter(cap, job, op).state == Delivered
  {
  }

  lemma OneMore(cap: nat, ops: seq<Op>, op: Op)
    ensures Run(cap, ops + [op]) == Apply(cap, Run(cap, ops), op)
  {
    LastStep(cap, ops + [op]);
    assert (ops + [op])[..|ops + [op]| - 1] == ops;
  }

  predicate DeliveredIn(s: State, i: nat) { i < |s.jobs| && s.jobs[i].state == Delivered }

  lemma DeliveredOneMore(cap: nat, ops: seq<Op>, op: Op, i: nat)
    requires DeliveredIn(Run(cap, ops), i)
    ensures DeliveredIn(Run(cap, ops + [op]), i)
  {
    RunKeeps(cap, ops);
    DeliveredStays(cap, Run(cap, ops), op, i);
    OneMore(cap, ops, op);
  }

  /** DELIVERED is absorbing over the rest of the campaign. */
  lemma {:induction false} DeliveredIsForGood(cap: nat, ops: seq<Op>, more: seq<Op>, i: nat)
    requires DeliveredIn(Run(cap, ops), i)
    ensures DeliveredIn(Run(cap, ops + more), i)
    decreases |more|
  {
    if more == [] {
      assert ops + more == ops;
    } else {
      var before, op := more[..|more| - 1], more[|more| - 1];
      DeliveredIsForGood(cap, ops, before, i);
      assert ops + more == (ops + before) + [op];
      DeliveredOneMore(cap, ops + before, op, i);
    }
  }
}
