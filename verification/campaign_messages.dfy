/** How many messages the provider receives for one job index over a whole campaign. */
module CampaignMessages {
  import opened CampaignRules
  import opened CampaignSafety

  /** The operation calls the provider for job `i`. */
  predicate Delivers(s: State, op: Op, i: nat) {
    op.DeliverJob? && op.i == i && i < |s.jobs| && s.jobs[i].phase == Claimed
  }

  /** It records a transient failure of job `i`, or resolves its unknown outcome as not sent. */
  predicate Clears(s: State, op: Op, i: nat) {
    && i < |s.jobs|
    && ((op == RecordJob(i) && s.jobs[i].phase == Returned(KFailedTransient)) ||
        (op == Resolve(i, false) && s.jobs[i].state == OutcomeUnknown))
  }

  function Before(cap: nat, ops: seq<Op>, k: nat): State
    requires k <= |ops|
  {
    Run(cap, ops[..k])
  }

  /** Messages the provider received for index `i`, over every generation. */
  function Messages(cap: nat, ops: seq<Op>, i: nat): nat {
    if ops == [] then 0 else
      var before, op := ops[..|ops| - 1], ops[|ops| - 1];
      Messages(cap, before, i) + if Delivers(Run(cap, before), op, i) && Received(op.answer) then 1 else 0
  }

  /** No unknown outcome is resolved as not sent while the provider holds the message. */
  ghost predicate Truthful(cap: nat, ops: seq<Op>) {
    forall k :: 0 <= k < |ops| ==> TruthfulAt(Before(cap, ops, k), ops[k])
  }

  predicate TruthfulAt(s: State, op: Op) {
    op.Resolve? && !op.sent && op.i < |s.jobs| && s.jobs[op.i].state == OutcomeUnknown ==> !s.jobs[op.i].providerHas
  }

  lemma TruthfulBefore(cap: nat, ops: seq<Op>)
    requires ops != [] && Truthful(cap, ops)
    ensures Truthful(cap, ops[..|ops| - 1]) && TruthfulAt(Run(cap, ops[..|ops| - 1]), ops[|ops| - 1])
  {
    var before := ops[..|ops| - 1];
    forall k | 0 <= k < |before| ensures TruthfulAt(Before(cap, before, k), before[k]) {
      assert before[..k] == ops[..k];
      assert TruthfulAt(Before(cap, ops, k), ops[k]);
    }
    assert TruthfulAt(Before(cap, ops, |ops| - 1), ops[|ops| - 1]);
  }

  /** A job that may be claimed, or has been but not delivered, has nothing at the provider. */
  predicate Unsent(job: Job) {
    job.state in {Pending, FailedTransient} || job.phase == Claimed || job.phase == Returned(KFailedTransient) ==> !job.providerHas
  }

  predicate UnsentAt(s: State, i: nat) { i < |s.jobs| ==> Unsent(s.jobs[i]) }

  predicate HasAt(s: State, i: nat) { i < |s.jobs| && s.jobs[i].providerHas }

  lemma JobStaysUnsent(cap: nat, sending: bool, job: Job, op: Op)
    requires JobInv(cap, job) && Unsent(job) && OnJob(op) && JobEnabled(sending, job, op)
    requires op.Resolve? && !op.sent ==> !job.providerHas
    ensures var job' := JobAfter(cap, job, op);
      Unsent(job') && (job'.providerHas <==> job.providerHas || (op.DeliverJob? && Received(op.answer)))
  {
    match op
    case RecordJob(_) =>
    case ProviderUpdate(_, value) =>
    case _ =>
  }

  lemma OneJobKeepsUnsent(cap: nat, s: State, op: Op, i: nat)
    requires Inv(cap, s) && UnsentAt(s, i) && TruthfulAt(s, op) && OnJob(op)
    ensures var s' := Apply(cap, s, op);
      UnsentAt(s', i) && (HasAt(s', i) <==> HasAt(s, i) || (Delivers(s, op, i) && Received(op.answer)))
    ensures Delivers(s, op, i) ==> !HasAt(s, i)
  {
    if op.i < |s.jobs| {
      OneJobChanges(cap, s, op);
      if i == op.i && JobEnabled(s.lifecycle == Sending, s.jobs[i], op) {
        assert JobInv(cap, s.jobs[i]);
        JobStaysUnsent(cap, s.lifecycle == Sending, s.jobs[i], op);
      }
    }
  }

  lemma SweptUnsent(cap: nat, job: Job, job': Job)
    requires SweptTo(cap, job, job') && JobInv(cap, job) && Unsent(job)
    ensures Unsent(job') && job'.providerHas == job.providerHas
  {
  }

  lemma OthersKeepUnsent(cap: nat, s: State, op: Op, i: nat)
    requires Inv(cap, s) && UnsentAt(s, i) && !OnJob(op)
    ensures var s' := Apply(cap, s, op); UnsentAt(s', i) && HasAt(s', i) == HasAt(s, i)
  {
    if Started(s.lifecycle) {
      AllJobsChange(cap, s, op);
      if i < |s.jobs| { SweptUnsent(cap, s.jobs[i], Apply(cap, s, op).jobs[i]); }
    } else {
      assert i < |s.jobs| ==> Untouched(s.jobs[i]);
    }
  }

  lemma {:induction false} MessagesAreHeld(cap: nat, ops: seq<Op>, i: nat)
    requires Truthful(cap, ops)
    ensures UnsentAt(Run(cap, ops), i)
    ensures Messages(cap, ops, i) == if HasAt(Run(cap, ops), i) then 1 else 0
  {
    if ops != [] {
      var before, op := ops[..|ops| - 1], ops[|ops| - 1];
      TruthfulBefore(cap, ops);
      MessagesAreHeld(cap, before, i);
      LastStep(cap, ops);
      RunKeeps(cap, before);
      var s := Run(cap, before);
      if OnJob(op) { OneJobKeepsUnsent(cap, s, op, i); } else { OthersKeepUnsent(cap, s, op, i); }
    }
  }

  /** At most one message per job index over the whole campaign, if every "not sent" verdict is truthful. */
  lemma AtMostOneMessage(cap: nat, ops: seq<Op>, i: nat)
    requires Truthful(cap, ops)
    ensures Messages(cap, ops, i) <= 1
  {
    MessagesAreHeld(cap, ops, i);
  }

  /** Otherwise not: after one untruthful verdict on a job that may still be retried, a second message follows. */
  lemma UntruthfulVerdictDuplicates(cap: nat, ops: seq<Op>, i: nat)
    requires Truthful(cap, ops)
    requires var s := Run(cap, ops); !TruthfulAt(s, Resolve(i, false)) && s.jobs[i].attempts < cap && s.jobs[i].eligible
    ensures Messages(cap, ops + [Resolve(i, false)] + [RetryAll] + [ClaimJob(i)] + [DeliverJob(i, Accept)], i) == 2
  {
    MessagesAreHeld(cap, ops, i);
    RunKeeps(cap, ops);
    var s := Run(cap, ops);
    assert Started(s.lifecycle) by { assert !Untouched(s.jobs[i]); }
    SecondDelivery(cap, s, i);
    var o1 := ops + [Resolve(i, false)];
    OneMoreMessage(cap, ops, Resolve(i, false), i);
    OneMoreMessage(cap, o1, RetryAll, i);
    OneMoreMessage(cap, o1 + [RetryAll], ClaimJob(i), i);
    OneMoreMessage(cap, o1 + [RetryAll] + [ClaimJob(i)], DeliverJob(i, Accept), i);
  }

  lemma SecondDelivery(cap: nat, s: State, i: nat)
    requires i < |s.jobs| && s.jobs[i].state == OutcomeUnknown && s.jobs[i].attempts < cap && s.jobs[i].eligible && Started(s.lifecycle)
    ensures Delivers(Apply(cap, Apply(cap, Apply(cap, s, Resolve(i, false)), RetryAll), ClaimJob(i)), DeliverJob(i, Accept), i)
  {
    OneJobChanges(cap, s, Resolve(i, false));
    var s1 := Apply(cap, s, Resolve(i, false));
    RetryWorks(cap, s1, i);
    OneJobChanges(cap, Apply(cap, s1, RetryAll), ClaimJob(i));
  }

  /** Such a campaign: one job, its delivery arrives but comes back unknown, and the verdict is wrong. */
  lemma DuplicateMessage() returns (ops: seq<Op>)
    ensures Messages(2, ops, 0) == 2
  {
    var first := [] + [Freeze([true], false)] + [ClaimJob(0)] + [DeliverJob(0, UnknownSent)] + [RecordJob(0)];
    UnknownButSent();
    forall k | 0 <= k < |first| ensures TruthfulAt(Before(2, first, k), first[k]) { assert !first[k].Resolve?; }
    UntruthfulVerdictDuplicates(2, first, 0);
    ops := first + [Resolve(0, false)] + [RetryAll] + [ClaimJob(0)] + [DeliverJob(0, Accept)];
  }

  lemma UnknownButSent()
    ensures var s := Run(2, [] + [Freeze([true], false)] + [ClaimJob(0)] + [DeliverJob(0, UnknownSent)] + [RecordJob(0)]);
      |s.jobs| == 1 && s.jobs[0].state == OutcomeUnknown && s.jobs[0].providerHas && s.jobs[0].attempts == 1 && s.jobs[0].eligible
  {
    var o1 := [] + [Freeze([true], false)];
    OneMore(2, [], Freeze([true], false));
    FrozenSends();
    var job := NewJob(true);
    var claimed := ClaimedJob(2, job);
    var sent := claimed.(phase := Returned(KOutcomeUnknown), providerHas := true);
    OnlyJobMoves(o1, ClaimJob(0), job, claimed);
    OnlyJobMoves(o1 + [ClaimJob(0)], DeliverJob(0, UnknownSent), claimed, sent);
    OnlyJobMoves(o1 + [ClaimJob(0)] + [DeliverJob(0, UnknownSent)], RecordJob(0), sent, Recorded(2, sent, KOutcomeUnknown));
  }

  lemma OnlyJobMoves(ops: seq<Op>, op: Op, job: Job, job': Job)
    requires Run(2, ops).jobs == [job] && OnJob(op) && op.i == 0
    requires JobEnabled(Run(2, ops).lifecycle == Sending, job, op) && JobAfter(2, job, op) == job'
    ensures Run(2, ops + [op]).jobs == [job']
  {
    OneMore(2, ops, op);
    OneJobChanges(2, Run(2, ops), op);
  }

  lemma FrozenSends()
    ensures var s := Apply(2, Init(), Freeze([true], false)); s.lifecycle == Sending && s.jobs == [NewJob(true)]
  {
    var jobs := NewJobs([true]);
    assert jobs == [NewJob(true)] && IsActive(jobs[0].state);
    assert AnyActive(jobs) && [true][0] in [true];
  }

  lemma OneMoreMessage(cap: nat, ops: seq<Op>, op: Op, i: nat)
    ensures Run(cap, ops + [op]) == Apply(cap, Run(cap, ops), op)
    ensures Messages(cap, ops + [op], i) == Messages(cap, ops, i) + if Delivers(Run(cap, ops), op, i) && Received(op.answer) then 1 else 0
  {
    OneMore(cap, ops, op);
    assert (ops + [op])[..|ops + [op]| - 1] == ops;
  }

  lemma RetryWorks(cap: nat, s: State, i: nat)
    requires i < |s.jobs| && s.jobs[i].state == FailedTransient && s.jobs[i].attempts < cap && Started(s.lifecycle)
    ensures var s' := Apply(cap, s, RetryAll);
      s'.lifecycle == Sending && i < |s'.jobs| && s'.jobs[i] == Reduce(cap, s.jobs[i], Retry) && s'.jobs[i].state == Pending
  {
    var jobs := ReduceAll(cap, s.jobs, Retry);
    assert jobs[i].state == Pending && IsActive(jobs[i].state);
    assert jobs != s.jobs;
  }

  // -- two deliveries of one job ---------------------------------------------------------------

  /** Nothing was delivered for `i` yet, or its last delivery has since been cleared. */
  predicate Cleared(cap: nat, ops: seq<Op>, i: nat) {
    if ops == [] then true else
      var before, op := ops[..|ops| - 1], ops[|ops| - 1];
      if Delivers(Run(cap, before), op, i) then false
      else Clears(Run(cap, before), op, i) || Cleared(cap, before, i)
  }

  /** A delivery not cleared yet keeps its job out of reach of another. */
  predicate Closed(s: State, i: nat) {
    i < |s.jobs| && Started(s.lifecycle) && ClosedJob(s.jobs[i])
  }

  predicate ClosedJob(job: Job) { job.state !in {Pending, FailedTransient} && job.phase != Claimed }

  lemma JobStaysClosed(cap: nat, sending: bool, job: Job, op: Op)
    requires JobInv(cap, job) && OnJob(op) && JobEnabled(sending, job, op)
    requires ClosedJob(job) || op.DeliverJob?
    requires !(op.RecordJob? && job.phase == Returned(KFailedTransient)) && !(op.Resolve? && !op.sent)
    ensures ClosedJob(JobAfter(cap, job, op))
  {
    match op
    case RecordJob(_) =>
    case ProviderUpdate(_, value) =>
    case _ =>
  }

  lemma JobKeepsClosed(cap: nat, s: State, op: Op, i: nat)
    requires Inv(cap, s) && OnJob(op) && (Closed(s, i) || Delivers(s, op, i)) && !Clears(s, op, i)
    ensures Closed(Apply(cap, s, op), i)
  {
    assert JobInv(cap, s.jobs[i]);
    assert s.lifecycle == Scheduled ==> Untouched(s.jobs[i]);
    if op.i < |s.jobs| {
      OneJobChanges(cap, s, op);
      if i == op.i && JobEnabled(s.lifecycle == Sending, s.jobs[i], op) { JobStaysClosed(cap, s.lifecycle == Sending, s.jobs[i], op); }
    }
  }

  lemma OthersKeepClosed(cap: nat, s: State, op: Op, i: nat)
    requires Inv(cap, s) && !OnJob(op) && Closed(s, i)
    ensures Closed(Apply(cap, s, op), i)
  {
    AllJobsChange(cap, s, op);
    SweptClosed(cap, s.jobs[i], Apply(cap, s, op).jobs[i]);
  }

  lemma SweptClosed(cap: nat, job: Job, job': Job)
    requires SweptTo(cap, job, job') && JobInv(cap, job) && ClosedJob(job)
    ensures ClosedJob(job')
  {
  }

  lemma {:induction false} UnclearedIsClosed(cap: nat, ops: seq<Op>, i: nat)
    ensures Cleared(cap, ops, i) || Closed(Run(cap, ops), i)
  {
    if ops != [] && !Cleared(cap, ops, i) {
      var before, op := ops[..|ops| - 1], ops[|ops| - 1];
      UnclearedIsClosed(cap, before, i);
      LastStep(cap, ops);
      RunKeeps(cap, before);
      if OnJob(op) { JobKeepsClosed(cap, Run(cap, before), op, i); } else { OthersKeepClosed(cap, Run(cap, before), op, i); }
    }
  }

  lemma {:induction false} ClearedSince(cap: nat, ops: seq<Op>, i: nat, a: nat) returns (c: nat)
    requires Cleared(cap, ops, i) && a < |ops| && Delivers(Before(cap, ops, a), ops[a], i)
    ensures a < c < |ops| && Clears(Before(cap, ops, c), ops[c], i)
  {
    var before, op := ops[..|ops| - 1], ops[|ops| - 1];
    if Clears(Run(cap, before), op, i) {
      c := |ops| - 1;
    } else {
      assert before[..a] == ops[..a];
      c := ClearedSince(cap, before, i, a);
      assert before[..c] == ops[..c];
    }
  }

  /** Between two deliveries of one job lies a recorded transient failure or a "not sent" resolution of it. */
  lemma DeliveriesAreSeparated(cap: nat, ops: seq<Op>, i: nat, a: nat, b: nat) returns (c: nat)
    requires a < b < |ops| && Delivers(Before(cap, ops, a), ops[a], i) && Delivers(Before(cap, ops, b), ops[b], i)
    ensures a < c < b && Clears(Before(cap, ops, c), ops[c], i)
  {
    var first := ops[..b];
    UnclearedIsClosed(cap, first, i);
    assert first[..a] == ops[..a];
    c := ClearedSince(cap, first, i, a);
    assert first[..c] == ops[..c];
  }
}
