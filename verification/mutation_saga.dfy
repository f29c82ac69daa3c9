/** What a provider write comes to when nothing interferes: each step once, in order, up to the first that fails. */
module MutationSaga {
  import opened MutationRecords
  import opened MutationSafety
  import opened MutationReplay

  /** What the adapter answers to one step. */
  datatype Told = Told(answer: Answer, code: Option<Code>)

  /** The step succeeded and the saga goes on. */
  predicate Fine(t: Told) { t.answer == AnswerSucceeded }

  /** From step `p` on all went well up to `k`, which, if there is such a step, did not. */
  ghost predicate FineUpTo(told: seq<Told>, p: nat, k: nat) {
    p <= k <= |told| && (forall i :: p <= i < k ==> Fine(told[i])) && (k < |told| ==> !Fine(told[k]))
  }

  ghost predicate RealCodes(told: seq<Told>) { forall k :: 0 <= k < |told| ==> told[k].code != Some(NotAttempted) }

  /** The step as the answer leaves it. */
  function StepTold(t: Step, told: Told): Step {
    Step(t.policy, match told.answer
                   case AnswerSucceeded => StepSucceeded
                   case AnswerFailed => StepFailed
                   case AnswerUnknown => StepUnknown, told.code)
  }

  /** Steps `p` to `n` called, the others as they were. */
  function StepsAfter(steps: seq<Step>, told: seq<Told>, p: nat, n: nat): seq<Step>
    requires |told| == |steps|
  {
    seq(|steps|, i requires 0 <= i < |steps| => if p <= i < n then StepTold(steps[i], told[i]) else steps[i])
  }

  function CallsOf(id: nat, told: seq<Told>, p: nat, n: nat): seq<Call>
    requires p <= n <= |told|
  {
    seq(n - p, i requires 0 <= i < n - p => Call(id, p + i, told[p + i].answer, told[p + i].code))
  }

  /** In the middle of the saga of record `id`. */
  function Under(s: State, id: nat, told: seq<Told>, p: nat, n: nat, pc: Pc): State
    requires id < |s.table| && |told| == |s.table[id].steps| && p <= n <= |told|
  {
    var m := s.table[id];
    s.(table := s.table[id := m.(steps := StepsAfter(m.steps, told, p, n))], calls := s.calls + CallsOf(id, told, p, n), pc := pc)
  }

  /** A healthy daemon, and a record whose steps from `p` on may be called. */
  ghost predicate Ready(s: State, id: nat, told: seq<Told>, p: nat) {
    && !s.latch && id < |s.table| && |told| == |s.table[id].steps| && RealCodes(told) && p <= |told|
    && forall i :: p <= i < |told| ==> MayCall(s.table[id].steps[i])
  }

  function OneStep(t: Told, made: Option<nat>): seq<Event> {
    [Proceed(true), StartCall] + [Invoke(t.answer, t.code), Record(made, false, true)]
  }

  /** One step of the saga, answered so and anchored. */
  lemma StepRuns(s: State, id: nat, told: seq<Told>, p: nat, n: nat, made: Option<nat>)
    requires Ready(s, id, told, p) && p <= n < |told|
    ensures var next := match told[n].answer
      case AnswerSucceeded => At(id, n + 1, if n + 1 == |told| then made else None)
      case AnswerFailed => Closing(id, Failed, told[n].code, None)
      case AnswerUnknown => Closing(id, OutcomeUnknown, told[n].code, None);
      Run(Under(s, id, told, p, n, At(id, n, None)), OneStep(told[n], made)) == Under(s, id, told, p, n + 1, next)
  {
    var t := told[n];
    var s0 := Under(s, id, told, p, n, At(id, n, None));
    assert MayCall(s.table[id].steps[n]) && s0.table[id].steps[n] == s.table[id].steps[n];
    StepArms(s0, id, n);
    var s1 := Put(s0, id, StartStep(s0.table[id], n)).(pc := Armed(id, n));
    StepAnswers(s1, t, made);
    RunJoins(s0, [Proceed(true), StartCall], [Invoke(t.answer, t.code), Record(made, false, true)]);
    StepLands(s, id, told, p, n);
  }

  lemma StepArms(s: State, id: nat, n: nat)
    requires s.pc == At(id, n, None) && !s.latch && id < |s.table| && n < |s.table[id].steps| && MayCall(s.table[id].steps[n])
    ensures Run(s, [Proceed(true), StartCall]) == Put(s, id, StartStep(s.table[id], n)).(pc := Armed(id, n))
  {
    RunTwo(s, Proceed(true), StartCall);
    assert Apply(s, Proceed(true)) == s.(pc := Tested(id, n));
  }

  lemma StepAnswers(s: State, t: Told, made: Option<nat>)
    requires s.pc.Armed? && s.pc.id < |s.table| && s.pc.index < |s.table[s.pc.id].steps| && t.code != Some(NotAttempted)
    ensures var id, i := s.pc.id, s.pc.index;
      Run(s, [Invoke(t.answer, t.code), Record(made, false, true)]) ==
        s.(table := s.table[id := FinishStep(s.table[id], i, Outcome(t.answer), t.code)],
           calls := s.calls + [Call(id, i, t.answer, t.code)],
           pc := match t.answer
                 case AnswerSucceeded => At(id, i + 1, if i + 1 == |s.table[id].steps| then made else None)
                 case AnswerFailed => Closing(id, Failed, t.code, None)
                 case AnswerUnknown => Closing(id, OutcomeUnknown, t.code, None))
  {
    RunTwo(s, Invoke(t.answer, t.code), Record(made, false, true));
    var called := Apply(s, Invoke(t.answer, t.code));
    assert called == s.(calls := s.calls + [Call(s.pc.id, s.pc.index, t.answer, t.code)], pc := Called(s.pc.id, s.pc.index, t.answer, t.code));
  }

  /** The started step is recorded over, and its call comes last. */
  lemma StepLands(s: State, id: nat, told: seq<Told>, p: nat, n: nat)
    requires Ready(s, id, told, p) && p <= n < |told|
    ensures var before, after := Under(s, id, told, p, n, Idle), Under(s, id, told, p, n + 1, Idle);
      && before.calls + [Call(id, n, told[n].answer, told[n].code)] == after.calls
      && before.table[id := FinishStep(StartStep(before.table[id], n), n, Outcome(told[n].answer), told[n].code)] == after.table
  {
    assert CallsOf(id, told, p, n + 1) == CallsOf(id, told, p, n) + [Call(id, n, told[n].answer, told[n].code)];
    var before, after := Under(s, id, told, p, n, Idle), Under(s, id, told, p, n + 1, Idle);
    assert FinishStep(StartStep(before.table[id], n), n, Outcome(told[n].answer), told[n].code).steps == after.table[id].steps;
  }

  /** What the caller is told when step `k` is the first that did not go well. */
  function Verdict(told: seq<Told>, k: nat, made: Option<nat>): Result
    requires k <= |told|
  {
    if k == |told| then Result(Succeeded, None, made)
    else if told[k].answer == AnswerFailed then Result(Failed, told[k].code, None)
    else Result(OutcomeUnknown, told[k].code, None)
  }

  /** The steps that were called: those that went well and the first that did not. */
  function Reached(told: seq<Told>, k: nat): nat { if k < |told| then k + 1 else k }

  /** The saga is over: the record of `id` says so. */
  function Over(s: State, id: nat, told: seq<Told>, p: nat, k: nat, made: Option<nat>): State
    requires id < |s.table| && |told| == |s.table[id].steps| && p <= k <= |told|
  {
    var r, s' := Verdict(told, k, made), Under(s, id, told, p, Reached(told, k), Idle);
    s'.(table := s'.table[id := s'.table[id].(state := r.state, code := r.code, result := Some(r))])
  }

  /** The rest of the saga from step `n` on. */
  lemma {:induction false} SagaFrom(s: State, id: nat, told: seq<Told>, p: nat, n: nat, made: Option<nat>) returns (events: seq<Event>, k: nat)
    requires Ready(s, id, told, p) && p <= n <= |told|
    requires forall i :: p <= i < n ==> Fine(told[i])
    ensures FineUpTo(told, p, k)
    ensures Run(Under(s, id, told, p, n, At(id, n, if n == |told| && p < n then made else None)), events) ==
      Over(s, id, told, p, k, if p < |told| then made else None)
    decreases |told| - n
  {
    if n == |told| {
      k := n;
      RunTwo(Under(s, id, told, p, n, At(id, n, if p < n then made else None)), Proceed(true), Close(true));
      events := [Proceed(true), Close(true)];
    } else {
      StepRuns(s, id, told, p, n, made);
      var s0, step := Under(s, id, told, p, n, At(id, n, None)), OneStep(told[n], made);
      if Fine(told[n]) {
        var rest;
        rest, k := SagaFrom(s, id, told, p, n + 1, made);
        RunJoins(s0, step, rest);
        events := step + rest;
      } else {
        k := n;
        RunOne(Run(s0, step), Close(true));
        RunJoins(s0, step, [Close(true)]);
        events := step + [Close(true)];
      }
    }
  }

  lemma RunOne(s: State, e: Event)
    ensures Run(s, [e]) == Apply(s, e)
  {
    assert [e][..0] == [];
    assert Run(s, [e]) == Apply(Run(s, []), e);
  }

  /**
  A new provider write on a healthy daemon, with no crash: the adapter is called once for each step in order up
  to the first that does not succeed; the record and the answer say SUCCEEDED with what was made, or FAILED or
  OUTCOME_UNKNOWN with that step's code, exactly as it was answered; the later steps stay PENDING.
  */
  lemma NewWriteComesToItsAnswer(s: State, who: nat, digest: nat, policy: Policy, policies: seq<Policy>, told: seq<Told>, made: Option<nat>)
    returns (events: seq<Event>, k: nat)
    requires s.pc == Idle && !s.latch && Find(s.table, who).None? && policies != [] && |told| == |policies| && RealCodes(told)
    ensures FineUpTo(told, 0, k)
    ensures var born := s.(table := s.table + [Mutation(who, digest, policy, InFlight, false, None, None, false, NewSteps(policies))]);
      Run(s, events) == Over(born, |s.table|, told, 0, k, made)
  {
    var e, id := Request(who, digest, policy, policies, true), |s.table|;
    var born := s.(table := s.table + [Born(who, digest, policy, policies)]);
    RunOne(s, e);
    StepsUntouched(born, id, told, 0, At(id, 0, None));
    var rest;
    rest, k := SagaFrom(born, id, told, 0, 0, made);
    RunJoins(s, [e], rest);
    events := [e] + rest;
  }

  lemma StepsUntouched(s: State, id: nat, told: seq<Told>, p: nat, pc: Pc)
    requires id < |s.table| && |told| == |s.table[id].steps| && p <= |told|
    ensures Under(s, id, told, p, p, pc) == s.(pc := pc)
  {
    assert StepsAfter(s.table[id].steps, told, p, p) == s.table[id].steps;
    assert CallsOf(id, told, p, p) == [] && s.calls + [] == s.calls;
    assert s.table[id := s.table[id]] == s.table;
  }

  /** The record a request goes on with: an interrupted one as it is, an unknown outcome marked as retried. */
  predicate Resumes(m: Mutation) { m.state == InFlight || (m.state == OutcomeUnknown && !m.retried && m.policy == RetrySameKey) }

  function Marked(m: Mutation): Mutation { if m.state == OutcomeUnknown then m.(retried := true) else m }

  /**
  A request repeated for an interrupted write, or the one retry of an unknown outcome: the steps that succeeded
  are not called again, the others are, from the first on, as for a new write.
  */
  lemma RepeatedWriteComesToItsAnswer(s: State, e: Event, id: nat, told: seq<Told>, p: nat, made: Option<nat>)
    returns (events: seq<Event>, k: nat)
    requires s.pc == Idle && e.Request? && Find(s.table, e.who) == Some(id) && s.table[id].digest == e.digest && Resumes(s.table[id])
    requires Ready(s, id, told, p) && forall i :: 0 <= i < p ==> s.table[id].steps[i].state == StepSucceeded
    ensures FineUpTo(told, p, k)
    ensures Run(s, events) == Over(Put(s, id, Marked(s.table[id])), id, told, p, k, if p < |told| then made else None)
  {
    var marked := Put(s, id, Marked(s.table[id]));
    RunOne(s, e);
    assert s.table[id := s.table[id]] == s.table;
    var at := marked.(pc := At(id, 0, None));
    assert Apply(s, e) == at;
    var walk := SkipSucceeded(at, id, p);
    RunJoins(s, [e], walk);
    StepsUntouched(marked, id, told, p, At(id, p, None));
    var rest;
    rest, k := SagaFrom(marked, id, told, p, p, made);
    RunJoins(s, [e] + walk, rest);
    events := [e] + walk + rest;
  }

  lemma ToldUnknown(s: State, id: nat, p: nat)
    requires s.pc == At(id, p, None) && id < |s.table| && p < |s.table[id].steps|
    requires Started(s.table[id].steps[p]) && s.table[id].steps[p].policy == ResolveOnly
    ensures var s', m := Run(s, [Proceed(true), Close(true)]), s.table[id];
      exists code :: s' == Put(s, id, m.(state := OutcomeUnknown, code := None, result := Some(Result(OutcomeUnknown, None, None)),
                                         steps := m.steps[p := m.steps[p].(state := StepUnknown, code := code)])).(pc := Idle)
  {
    RunTwo(s, Proceed(true), Close(true));
    var m := s.table[id];
    var code := if m.steps[p].state == StepUnknown then m.steps[p].code else None;
    assert m.steps[p := m.steps[p].(state := StepUnknown, code := code)] == (if m.steps[p].state == StepUnknown then m else FinishStep(m, p, StepUnknown, None)).steps;
  }

  /** Where the step it stopped at was started and may not be repeated, the write is told unknown and nothing
      is called. */
  lemma RepeatedWriteIsUnknown(s: State, e: Event, id: nat, p: nat) returns (events: seq<Event>)
    requires s.pc == Idle && e.Request? && Find(s.table, e.who) == Some(id) && s.table[id].digest == e.digest && Resumes(s.table[id])
    requires p < |s.table[id].steps| && Started(s.table[id].steps[p]) && s.table[id].steps[p].policy == ResolveOnly
    requires forall i :: 0 <= i < p ==> s.table[id].steps[i].state == StepSucceeded
    ensures var s' := Run(s, events);
      && s'.calls == s.calls && s'.pc == Idle && s'.latch == s.latch && |s'.table| == |s.table| && |s'.table[id].steps| == |s.table[id].steps|
      && s'.table[id].state == OutcomeUnknown && s'.table[id].result == Some(Result(OutcomeUnknown, None, None))
      && s'.table[id].steps[p].state == StepUnknown
      && (forall i :: 0 <= i < |s.table| && i != id ==> s'.table[i] == s.table[i])
  {
    var at := Put(s, id, Marked(s.table[id])).(pc := At(id, 0, None));
    RunOne(s, e);
    assert s.table[id := s.table[id]] == s.table;
    assert Apply(s, e) == at;
    var walk := SkipSucceeded(at, id, p);
    RunJoins(s, [e], walk);
    ToldUnknown(at.(pc := At(id, p, None)), id, p);
    RunJoins(s, [e] + walk, [Proceed(true), Close(true)]);
    events := [e] + walk + [Proceed(true), Close(true)];
  }

  /** A local write is one transaction: a finished record, or nothing. */
  lemma LocalWriteCommitsWhole(s: State, who: nat, digest: nat, made: Option<nat>, anchored: bool)
    requires s.pc == Idle
    ensures var s' := Apply(s, Local(who, digest, made, anchored));
      && s'.calls == s.calls && s'.pc == Idle
      && (s.latch || Find(s.table, who).Some? ==> s' == s)
      && (!s.latch && Find(s.table, who).None? ==>
            s'.latch == !anchored && |s'.table| == |s.table| + 1 && s.table <= s'.table && IsWritten(s'.table[|s.table|], who, digest, made))
  {
  }

  predicate IsWritten(m: Mutation, who: nat, digest: nat, made: Option<nat>) {
    && m.who == who && m.digest == digest && m.state == Succeeded && m.code == None && m.steps == []
    && m.result == Some(Result(Succeeded, None, made)) && !m.degraded && !m.retried && m.policy == ResolveOnly
  }

  /** A crash, or bookkeeping that raises, forgets where the executor stood and nothing else; others may move the
      latch at any time. */
  lemma InterruptionsForget(s: State, on: bool)
    ensures Apply(s, Crash) == s.(pc := Idle)
    ensures s.pc.Called? ==> Apply(s, Raise) == s.(pc := Idle)
    ensures Apply(s, SetLatch(on)) == s.(latch := on)
    ensures s.pc.Degrading? && s.pc.id < |s.table| ==>
      Apply(s, MarkDegraded) == s.(table := s.table[s.pc.id := s.table[s.pc.id].(degraded := true)], pc := Idle)
  {
  }

  /** Startup recovery writes what the steps show, changes no other record, calls nobody, and latches when its
      commit is not anchored. */
  lemma RecoveryWrites(s: State, id: nat, anchored: bool)
    requires s.pc == Idle && id < |s.table|
    ensures var s' := Apply(s, Recover(id, anchored));
      && s'.table == s.table[id := Recovered(s.table[id])] && s'.calls == s.calls && s'.pc == Idle
      && (s'.latch <==> s.latch || (!anchored && Recovered(s.table[id]) != s.table[id]))
  {
    assert s.table[id := s.table[id]] == s.table;
  }
}
