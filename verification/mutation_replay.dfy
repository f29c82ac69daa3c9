/**
Replay: what later events can still do to a mutation that is already on record.
*/
module MutationReplay {
  import opened MutationRecords
  import opened MutationSafety

  predicate Final(m: Mutation) { m.state == Succeeded || m.state == Failed }

  /** How a record may change: forward only, and not at all once final (but for the degraded mark). */
  ghost predicate Evolves(m: Mutation, m': Mutation) {
    && m'.who == m.who && m'.digest == m.digest && m'.policy == m.policy && |m'.steps| == |m.steps|
    && (m.retried ==> m'.retried) && (m.degraded ==> m'.degraded)
    && (m.state != InFlight ==> m'.state != InFlight)
    && (Final(m) ==> m'.(degraded := m.degraded) == m)
    && forall i :: 0 <= i < |m.steps| ==> StepEvolves(m.steps[i], m'.steps[i])
  }

  predicate StepEvolves(t: Step, t': Step) {
    && t'.policy == t.policy && (t.state != Pending ==> t'.state != Pending)
    && (t.state in {StepSucceeded, StepFailed} ==> t' == t)
  }

  /** Where the executor stands, as far as a record's changes go. */
  ghost predicate Standing(s: State) {
    && (s.pc != Idle ==> s.pc.id < |s.table|)
    && (s.pc != Idle && !s.pc.Degrading? ==> Running(s.table[s.pc.id]))
    && (s.pc.Tested? ==> s.pc.index < |s.table[s.pc.id].steps|)
    && (s.pc.Armed? || s.pc.Called? ==>
          s.pc.index < |s.table[s.pc.id].steps| && Started(s.table[s.pc.id].steps[s.pc.index]))
    && (s.pc.Closing? ==> s.pc.state != InFlight)
  }

  predicate Started(t: Step) { t.state == StepInFlight || t.state == StepUnknown }

  lemma ProceedEvolves(s: State, anchored: bool, id: nat)
    requires Standing(s) && id < |s.table| && s.pc.At?
    ensures Evolves(s.table[id], DoProceed(s, anchored).table[id])
  {
  }

  lemma StartEvolves(m: Mutation, i: nat)
    requires Running(m) && i < |m.steps|
    ensures Evolves(m, StartStep(m, i))
  {
  }

  lemma RecordEvolves(s: State, e: Event, id: nat)
    requires Standing(s) && id < |s.table| && s.pc.Called? && e.Record?
    ensures Evolves(s.table[id], DoRecord(s, e.made, e.unnamed, e.anchored).table[id])
  {
  }

  lemma RequestEvolves(s: State, e: Event, id: nat)
    requires id < |s.table| && e.Request?
    ensures id < |DoRequest(s, e).table| && Evolves(s.table[id], DoRequest(s, e).table[id])
  {
  }

  lemma RecoverEvolves(m: Mutation)
    ensures Evolves(m, Recovered(m))
  {
  }

  lemma CloseEvolves(m: Mutation, state: MutationState, code: Option<Code>, made: Option<nat>)
    requires Running(m) && state != InFlight
    ensures Evolves(m, Finish(m, state, code, made))
  {
  }

  /** Events that write one record through a helper of their own. */
  lemma WriteEvolves(s: State, e: Event, id: nat)
    requires Standing(s) && id < |s.table| && (e.StartCall? || e.Close? || e.Recover?)
    ensures id < |Apply(s, e).table| && Evolves(s.table[id], Apply(s, e).table[id])
  {
    if Enabled(s, e) {
      match e
      case StartCall => StartEvolves(s.table[s.pc.id], s.pc.index);
      case Close(_) => CloseEvolves(s.table[s.pc.id], s.pc.state, s.pc.code, s.pc.made);
      case Recover(k, _) => RecoverEvolves(s.table[k]);
    }
  }

  lemma RestEvolves(s: State, e: Event, id: nat)
    requires id < |s.table| && (e.Local? || e.Invoke? || e.Raise? || e.MarkDegraded? || e.Crash? || e.SetLatch?)
    ensures id < |Apply(s, e).table| && Evolves(s.table[id], Apply(s, e).table[id])
  {
  }

  lemma EventEvolves(s: State, e: Event, id: nat)
    requires Standing(s) && id < |s.table|
    ensures id < |Apply(s, e).table| && Evolves(s.table[id], Apply(s, e).table[id])
  {
    if e.StartCall? || e.Close? || e.Recover? {
      WriteEvolves(s, e, id);
    } else if Enabled(s, e) && (e.Request? || e.Proceed? || e.Record?) {
      match e
      case Request(_, _, _, _, _) => RequestEvolves(s, e, id);
      case Proceed(anchored) => ProceedEvolves(s, anchored, id);
      case Record(_, _, _) => RecordEvolves(s, e, id);
    } else if Enabled(s, e) {
      RestEvolves(s, e, id);
    }
  }

  lemma {:induction false} RunEvolves(s: State, more: seq<Event>, id: nat)
    requires Inv(s) && id < |s.table|
    ensures Inv(Run(s, more))
    ensures id < |Run(s, more).table| && Evolves(s.table[id], Run(s, more).table[id])
  {
    if more != [] {
      var before := more[..|more| - 1];
      RunEvolves(s, before, id);
      assert Standing(Run(s, before));
      EventEvolves(Run(s, before), more[|more| - 1], id);
      StepKeeps(Run(s, before), more[|more| - 1]);
    }
  }

  // -- how often a recorded mutation can still be invoked -------------------------------------

  /** The pass under way, if it is one over mutation `id`, has not called step `i` yet. */
  predicate StillAhead(pc: Pc, id: nat, i: nat) {
    match pc
    case At(k, j, _) => k == id && j <= i
    case Tested(k, j) => k == id && j <= i
    case Armed(k, j) => k == id && j <= i
    case Called(k, j, _, _) => k == id && j < i
    case _ => false
  }

  /** Calls of step `i` still possible once the mutation has been recorded with some outcome. */
  function Budget(s: State, id: nat, i: nat): nat
    requires id < |s.table|
  {
    var m := s.table[id];
    if Final(m) then 0
    else if !m.retried then if m.policy == RetrySameKey then 1 else 0
    else if StillAhead(s.pc, id, i) then 1
    else 0
  }

  lemma ProceedSpends(s: State, anchored: bool, id: nat, i: nat)
    requires Standing(s) && id < |s.table| && s.table[id].state != InFlight && s.pc.At?
    ensures Budget(DoProceed(s, anchored), id, i) <= Budget(s, id, i)
  {
  }

  lemma RecordSpends(s: State, e: Event, id: nat, i: nat)
    requires Standing(s) && id < |s.table| && s.table[id].state != InFlight && s.pc.Called? && e.Record?
    ensures Budget(DoRecord(s, e.made, e.unnamed, e.anchored), id, i) <= Budget(s, id, i)
  {
  }

  lemma RequestSpends(s: State, e: Event, id: nat, i: nat)
    requires id < |s.table| && s.table[id].state != InFlight && e.Request? && s.pc == Idle
    ensures id < |DoRequest(s, e).table| && Budget(DoRequest(s, e), id, i) <= Budget(s, id, i)
  {
  }

  lemma InvokeSpends(s: State, e: Event, id: nat, i: nat)
    requires Standing(s) && id < |s.table| && s.table[id].state != InFlight && s.pc.Armed? && e.Invoke? && Enabled(s, e)
    ensures Count(Apply(s, e).calls, id, i) + Budget(Apply(s, e), id, i) <= Count(s.calls, id, i) + Budget(s, id, i)
  {
    OneMoreCall(s.calls, Call(s.pc.id, s.pc.index, e.answer, e.code), id, i);
  }

  lemma EventSpends(s: State, e: Event, id: nat, i: nat)
    requires Standing(s) && id < |s.table| && s.table[id].state != InFlight
    ensures id < |Apply(s, e).table|
    ensures Count(Apply(s, e).calls, id, i) + Budget(Apply(s, e), id, i) <= Count(s.calls, id, i) + Budget(s, id, i)
  {
    if Enabled(s, e) {
      match e
      case Request(_, _, _, _, _) => RequestSpends(s, e, id, i);
      case Proceed(anchored) => ProceedSpends(s, anchored, id, i);
      case Record(_, _, _) => RecordSpends(s, e, id, i);
      case Invoke(_, _) => InvokeSpends(s, e, id, i);
      case _ =>
    }
  }

  lemma {:induction false} RunSpends(s: State, more: seq<Event>, id: nat, i: nat)
    requires Inv(s) && id < |s.table| && s.table[id].state != InFlight
    ensures id < |Run(s, more).table|
    ensures Count(Run(s, more).calls, id, i) + Budget(Run(s, more), id, i) <= Count(s.calls, id, i) + Budget(s, id, i)
  {
    if more != [] {
      var before := more[..|more| - 1];
      RunSpends(s, before, id, i);
      RunEvolves(s, before, id);
      assert Standing(Run(s, before));
      EventSpends(Run(s, before), more[|more| - 1], id, i);
    }
  }

  lemma CallsKept(s: State, e: Event, id: nat, i: nat)
    ensures Count(Apply(s, e).calls, id, i) >= Count(s.calls, id, i)
  {
    if Enabled(s, e) && e.Invoke? { OneMoreCall(s.calls, Call(s.pc.id, s.pc.index, e.answer, e.code), id, i); }
  }

  lemma {:induction false} CallsGrow(s: State, more: seq<Event>, id: nat, i: nat)
    ensures Count(Run(s, more).calls, id, i) >= Count(s.calls, id, i)
  {
    if more != [] {
      var before := more[..|more| - 1];
      CallsGrow(s, before, id, i);
      CallsKept(Run(s, before), more[|more| - 1], id, i);
    }
  }

  /** SUCCEEDED and FAILED are for good: same record, same replay answer, no further call. */
  lemma FinalIsStable(events: seq<Event>, more: seq<Event>, id: nat, i: nat)
    requires id < |Run(Init(), events).table| && Final(Run(Init(), events).table[id])
    ensures var s, s' := Run(Init(), events), Run(Run(Init(), events), more);
      && id < |s'.table| && s'.table[id].(degraded := s.table[id].degraded) == s.table[id]
      && Count(s'.calls, id, i) == Count(s.calls, id, i)
  {
    RunKeeps(events);
    var s := Run(Init(), events);
    RunEvolves(s, more, id);
    RunSpends(s, more, id, i);
    CallsGrow(s, more, id, i);
  }

  /** After OUTCOME_UNKNOWN is on record each step is invoked at most once more, and only if the
      mutation's own policy allows the retry. */
  lemma UnknownIsRetriedOnce(events: seq<Event>, more: seq<Event>, id: nat, i: nat)
    requires id < |Run(Init(), events).table| && Run(Init(), events).table[id].state == OutcomeUnknown
    ensures var s, s' := Run(Init(), events), Run(Run(Init(), events), more);
      && Count(s'.calls, id, i) <= Count(s.calls, id, i) + 1
      && (s.table[id].policy == ResolveOnly ==> Count(s'.calls, id, i) == Count(s.calls, id, i))
  {
    RunKeeps(events);
    var s := Run(Init(), events);
    assert MutationInv(s.table[id], id, s.calls);
    RunSpends(s, more, id, i);
    CallsGrow(s, more, id, i);
  }

  lemma FoundIsUnique(s: State, id: nat)
    requires Inv(s) && id < |s.table|
    ensures Find(s.table, s.table[id].who) == Some(id)
  {
  }

  lemma ReuseIsRefused(s: State, id: nat, e: Event)
    requires id < |s.table| && (e.Request? || e.Local?) && Find(s.table, e.who) == Some(id) && e.digest != s.table[id].digest
    ensures Apply(s, e) == s
  {
  }

  /** A request id on record answers to one digest for ever: another changes nothing, at any later time. */
  lemma OtherDigestChangesNothing(events: seq<Event>, more: seq<Event>, id: nat, e: Event)
    requires id < |Run(Init(), events).table| && (e.Request? || e.Local?)
    requires e.who == Run(Init(), events).table[id].who && e.digest != Run(Init(), events).table[id].digest
    ensures var s' := Run(Run(Init(), events), more); Apply(s', e) == s'
  {
    RunKeeps(events);
    RunEvolves(Run(Init(), events), more, id);
    var s' := Run(Run(Init(), events), more);
    FoundIsUnique(s', id);
    ReuseIsRefused(s', id, e);
  }

  // -- when a step is re-invoked more than once ------------------------------------------------

  predicate Repeats(t: Step) { Started(t) && t.policy == RetrySameKey }

  /** The request replays a mutation still IN_FLIGHT with a started retry_same_key step. */
  ghost predicate ResumesStarted(s: State, e: Event) {
    && e.Request? && s.pc == Idle && Find(s.table, e.who).Some?
    && var m := s.table[Find(s.table, e.who).value];
       m.digest == e.digest && m.state == InFlight && exists i :: 0 <= i < |m.steps| && Repeats(m.steps[i])
  }

  /** No request of the run did; startup recovery after every interruption is enough for that. */
  ghost predicate Careful(events: seq<Event>) {
    events == [] ||
    var before := events[..|events| - 1];
    Careful(before) && !ResumesStarted(Run(Init(), before), events[|events| - 1])
  }

  ghost predicate OnceInv(s: State, id: nat, i: nat)
    requires id < |s.table|
  {
    var m := s.table[id];
    if m.state != InFlight then Count(s.calls, id, i) + Budget(s, id, i) <= 2
    else
      && Count(s.calls, id, i) <= 1
      && (s.pc.At? && s.pc.id == id && i < |m.steps| ==> !Repeats(m.steps[i]))
      && (s.pc == Tested(id, i) || s.pc == Armed(id, i) ==> Count(s.calls, id, i) == 0)
  }

  lemma ProceedKeepsOnce(s: State, anchored: bool, id: nat, i: nat)
    requires Standing(s) && id < |s.table| && OnceInv(s, id, i) && s.table[id].state == InFlight && s.pc.At?
    requires i < |s.table[id].steps| ==> StepInv(s.table[id], id, i, s.calls)
    ensures OnceInv(DoProceed(s, anchored), id, i)
  {
  }

  lemma RecordKeepsOnce(s: State, e: Event, id: nat, i: nat)
    requires Standing(s) && id < |s.table| && OnceInv(s, id, i) && s.table[id].state == InFlight
    requires s.pc.Called? && e.Record? && (s.pc.id == id ==> ShapedAt(s.table[id].steps, s.pc.index))
    ensures OnceInv(DoRecord(s, e.made, e.unnamed, e.anchored), id, i)
  {
  }

  lemma RequestKeepsOnce(s: State, e: Event, id: nat, i: nat)
    requires id < |s.table| && OnceInv(s, id, i) && s.table[id].state == InFlight
    requires s.pc == Idle && e.Request? && !ResumesStarted(s, e)
    ensures id < |DoRequest(s, e).table| && OnceInv(DoRequest(s, e), id, i)
  {
  }

  lemma RestKeepsOnce(s: State, e: Event, id: nat, i: nat)
    requires Standing(s) && id < |s.table| && OnceInv(s, id, i) && s.table[id].state == InFlight
    requires Enabled(s, e) && !(e.Request? || e.Proceed? || e.Record?)
    ensures OnceInv(Apply(s, e), id, i)
  {
    if e.Invoke? {
      OneMoreCall(s.calls, Call(s.pc.id, s.pc.index, e.answer, e.code), id, i);
    }
  }

  lemma EventKeepsOnce(s: State, e: Event, id: nat, i: nat)
    requires Inv(s) && id < |s.table| && OnceInv(s, id, i) && !ResumesStarted(s, e)
    ensures id < |Apply(s, e).table| && OnceInv(Apply(s, e), id, i)
  {
    assert Standing(s);
    if s.table[id].state != InFlight {
      EventSpends(s, e, id, i);
      EventEvolves(s, e, id);
    } else if Enabled(s, e) {
      var m := s.table[id];
      assert i < |m.steps| ==> StepInv(m, id, i, s.calls) by { assert MutationInv(m, id, s.calls); }
      InFlightKeepsOnce(s, e, id, i);
    }
  }

  lemma InFlightKeepsOnce(s: State, e: Event, id: nat, i: nat)
    requires Standing(s) && Enabled(s, e) && !ResumesStarted(s, e)
    requires id < |s.table| && OnceInv(s, id, i) && s.table[id].state == InFlight
    requires i < |s.table[id].steps| ==> StepInv(s.table[id], id, i, s.calls)
    requires s.pc.Called? && s.pc.id == id ==> ShapedAt(s.table[id].steps, s.pc.index)
    ensures id < |Apply(s, e).table| && OnceInv(Apply(s, e), id, i)
  {
    if e.Request? {
      RequestKeepsOnce(s, e, id, i);
    } else if e.Proceed? {
      ProceedKeepsOnce(s, e.anchored, id, i);
    } else if e.Record? {
      RecordKeepsOnce(s, e, id, i);
    } else {
      RestKeepsOnce(s, e, id, i);
    }
  }

  lemma NewKeepsOnce(s: State, e: Event, id: nat, i: nat)
    requires Standing(s) && Count(s.calls, id, i) == 0 && |s.table| <= id < |Apply(s, e).table|
    ensures OnceInv(Apply(s, e), id, i)
  {
    assert e.Request? || e.Local?;
  }

  lemma {:induction false} CarefulKeepsOnce(events: seq<Event>, id: nat, i: nat)
    requires Careful(events) && id < |Run(Init(), events).table|
    ensures OnceInv(Run(Init(), events), id, i)
  {
    if events != [] {
      var before, e := events[..|events| - 1], events[|events| - 1];
      RunKeeps(before);
      RunKeeps(events);
      var s := Run(Init(), before);
      if id < |s.table| {
        CarefulKeepsOnce(before, id, i);
        EventKeepsOnce(s, e, id, i);
      } else {
        NeverCalledCounts(s.calls, id, i);
        assert Standing(s);
        NewKeepsOnce(s, e, id, i);
      }
    }
  }

  /** Re-invoked at most once over the whole run, as long as no request resumes a started call in flight. */
  lemma CarefulRunsInvokeTwiceAtMost(events: seq<Event>, id: nat, i: nat)
    requires Careful(events) && id < |Run(Init(), events).table|
    ensures Count(Run(Init(), events).calls, id, i) <= 2
  {
    CarefulKeepsOnce(events, id, i);
  }

  lemma {:induction false} RunJoins(s: State, a: seq<Event>, b: seq<Event>)
    ensures Run(s, a + b) == Run(Run(s, a), b)
    decreases |b|
  {
    if b == [] {
      assert a + b == a;
    } else {
      assert (a + b)[..|a + b| - 1] == a + b[..|b| - 1];
      RunJoins(s, a, b[..|b| - 1]);
    }
  }

  /** Walking over the succeeded steps at the front. */
  lemma {:induction false} SkipSucceeded(s: State, id: nat, n: nat) returns (walk: seq<Event>)
    requires id < |s.table| && n <= |s.table[id].steps| && s.pc == At(id, 0, None)
    requires forall k :: 0 <= k < n ==> s.table[id].steps[k].state == StepSucceeded
    ensures Run(s, walk) == s.(pc := At(id, n, None))
  {
    if n == 0 {
      walk := [];
    } else {
      walk := SkipSucceeded(s, id, n - 1);
      RunJoins(s, walk, [Proceed(true)]);
      assert Run(Run(s, walk), [Proceed(true)]) == Apply(Run(Run(s, walk), []), Proceed(true));
      walk := walk + [Proceed(true)];
    }
  }

  /** The walk to a started step, the latch cleared before it, and a call whose bookkeeping raises. */
  function Round(e: Event, walk: seq<Event>): seq<Event> {
    [SetLatch(false), e] + walk + [Proceed(true), StartCall] + [Invoke(AnswerUnknown, None), Raise]
  }

  lemma RunTwo(s: State, a: Event, b: Event)
    ensures Run(s, [a, b]) == Apply(Apply(s, a), b)
  {
    assert [a, b][..1] == [a];
    assert Run(s, [a]) == Apply(Run(s, []), a);
  }

  lemma ArmAgain(s: State, id: nat, p: nat)
    requires s.pc == At(id, p, None) && id < |s.table| && !s.latch && p < |s.table[id].steps| && Repeats(s.table[id].steps[p])
    ensures Run(s, [Proceed(true), StartCall]) == s.(pc := Armed(id, p))
  {
    RunTwo(s, Proceed(true), StartCall);
    assert Apply(s, Proceed(true)) == s.(pc := Tested(id, p));
  }

  lemma CallAndRaise(s: State)
    requires s.pc.Armed?
    ensures Run(s, [Invoke(AnswerUnknown, None), Raise]) == s.(calls := s.calls + [Call(s.pc.id, s.pc.index, AnswerUnknown, None)], pc := Idle)
  {
    RunTwo(s, Invoke(AnswerUnknown, None), Raise);
  }

  /** Where the guard fails, the started step can be invoked again without any trace in the records. */
  lemma OneMoreRound(s: State, e: Event, p: nat) returns (round: seq<Event>)
    requires ResumesStarted(s, e)
    requires var m := s.table[Find(s.table, e.who).value]; ShapedAt(m.steps, p) && p < |m.steps| && Repeats(m.steps[p])
    ensures Run(s, round) == s.(latch := false, calls := s.calls + [Call(Find(s.table, e.who).value, p, AnswerUnknown, None)])
  {
    var id := Find(s.table, e.who).value;
    RunTwo(s, SetLatch(false), e);
    var s1 := Run(s, [SetLatch(false), e]);
    assert s1 == s.(latch := false, pc := At(id, 0, None));
    var walk := SkipSucceeded(s1, id, p);
    round := Round(e, walk);
    RunJoins(s, [SetLatch(false), e], walk);
    ArmAgain(s1.(pc := At(id, p, None)), id, p);
    RunJoins(s, [SetLatch(false), e] + walk, [Proceed(true), StartCall]);
    CallAndRaise(s1.(pc := Armed(id, p)));
    RunJoins(s, [SetLatch(false), e] + walk + [Proceed(true), StartCall], [Invoke(AnswerUnknown, None), Raise]);
  }

  /** So there the number of invocations has no bound while the records stay as they are. */
  lemma {:induction false} NoBoundFrom(s: State, e: Event, p: nat, n: nat) returns (more: seq<Event>)
    requires ResumesStarted(s, e)
    requires var m := s.table[Find(s.table, e.who).value]; ShapedAt(m.steps, p) && p < |m.steps| && Repeats(m.steps[p])
    ensures Run(s, more).table == s.table && Run(s, more).pc == s.pc
    ensures var id := Find(s.table, e.who).value; Count(Run(s, more).calls, id, p) == Count(s.calls, id, p) + n
  {
    if n == 0 {
      more := [];
    } else {
      more := NoBoundFrom(s, e, p, n - 1);
      var t := Run(s, more);
      var round := OneMoreRound(t, e, p);
      RunJoins(s, more, round);
      var id := Find(s.table, e.who).value;
      OneMoreCall(t.calls, Call(id, p, AnswerUnknown, None), id, p);
      more := more + round;
    }
  }

  /** A run that is not careful can be led to any number of invocations, from the first request that was not,
      and the records do not show it. */
  lemma NoBoundOtherwise(events: seq<Event>, n: nat) returns (k: nat, more: seq<Event>, id: nat, p: nat)
    requires !Careful(events)
    ensures k < |events| && Careful(events[..k])
    ensures var s, s' := Run(Init(), events[..k]), Run(Init(), events[..k] + more);
      && s'.table == s.table && id < |s.table| && s.table[id].state == InFlight
      && p < |s.table[id].steps| && Repeats(s.table[id].steps[p]) && Count(s'.calls, id, p) == Count(s.calls, id, p) + n
  {
    k := FirstCareless(events);
    var s, e := Run(Init(), events[..k]), events[k];
    id := Find(s.table, e.who).value;
    var m := s.table[id];
    var i: nat :| i < |m.steps| && Repeats(m.steps[i]);
    RunKeeps(events[..k]);
    assert MutationInv(m, id, s.calls);
    var q :| ShapedAt(m.steps, q);
    assert i == q;
    p := i;
    more := NoBoundFrom(s, e, p, n);
    RunJoins(Init(), events[..k], more);
  }

  lemma {:induction false} FirstCareless(events: seq<Event>) returns (k: nat)
    requires !Careful(events)
    ensures k < |events| && Careful(events[..k]) && ResumesStarted(Run(Init(), events[..k]), events[k])
  {
    var before := events[..|events| - 1];
    if Careful(before) {
      k := |events| - 1;
    } else {
      k := FirstCareless(before);
      assert before[..k] == events[..k];
    }
  }

  /** A first call of a one-step mutation. */
  function FirstCall(e: Event): seq<Event> { [e, Proceed(true)] + [StartCall, Invoke(AnswerUnknown, None)] }

  lemma FirstCallRuns(e: Event)
    requires e == Request(0, 0, RetrySameKey, [RetrySameKey], true)
    ensures var s := Run(Init(), FirstCall(e));
      s.pc.Called? && s.calls == [Call(0, 0, AnswerUnknown, None)] &&
      s.table == [StartStep(Born(0, 0, RetrySameKey, [RetrySameKey]), 0)]
  {
    RunTwo(Init(), e, Proceed(true));
    var s := Run(Init(), [e, Proceed(true)]);
    assert s == Init().(table := [Born(0, 0, RetrySameKey, [RetrySameKey])], pc := Tested(0, 0));
    RunTwo(s, StartCall, Invoke(AnswerUnknown, None));
    RunJoins(Init(), [e, Proceed(true)], [StartCall, Invoke(AnswerUnknown, None)]);
  }

  /** Such a state is reached by one request whose bookkeeping failed after the provider call. */
  lemma ReinvokedWithoutBound(n: nat) returns (events: seq<Event>)
    ensures var s := Run(Init(), events);
      |s.table| == 1 && s.table[0].state == InFlight && Count(s.calls, 0, 0) == n + 1
  {
    var e := Request(0, 0, RetrySameKey, [RetrySameKey], true);
    FirstCallRuns(e);
    OneMoreCall([], Call(0, 0, AnswerUnknown, None), 0, 0);
    assert [] + [Call(0, 0, AnswerUnknown, None)] == [Call(0, 0, AnswerUnknown, None)];
    events := AfterTheCall(FirstCall(e), e, n);
  }

  lemma AfterTheCall(start: seq<Event>, e: Event, n: nat) returns (events: seq<Event>)
    requires var s := Run(Init(), start); s.pc.Called? && |s.table| == 1 && s.table[0].state == InFlight && Count(s.calls, 0, 0) == 1
    requires var m := Run(Init(), start).table[0]; |m.steps| == 1 && Repeats(m.steps[0]) && e.Request? && e.who == m.who && e.digest == m.digest
    ensures var s := Run(Init(), events);
      |s.table| == 1 && s.table[0].state == InFlight && Count(s.calls, 0, 0) == n + 1
  {
    var s := Apply(Run(Init(), start), Raise);
    assert Run(Init(), start + [Raise]) == s by { assert (start + [Raise])[..|start|] == start; }
    assert ResumesStarted(s, e) by { assert Repeats(s.table[0].steps[0]); }
    assert ShapedAt(s.table[0].steps, 0);
    var more := NoBoundFrom(s, e, 0, n);
    RunJoins(Init(), start + [Raise], more);
    events := start + [Raise] + more;
  }
}
