/**
The executor and startup recovery as they run: tables changed in place, one transaction after another,
with a crash possible at every seam.  `trace` is everything that happened to the records so far, and
every method keeps the records equal to what the state machine makes of that trace (`NowIsRun`), so the theorems
about all runs are theorems about this code.
*/
module MutationExecutor {
  import opened MutationRecords
  import opened MutationSafety
  import opened MutationReplay

  datatype Refusal = RequestIdReuse | AuditIntegrityDegraded

  /** `Answered` carries the record; `Degraded` answers without an anchored record;
      `Broken` is a crash or an exception that reaches the caller. */
  datatype Reply =
    | Answered(result: Result, replayed: bool)
    | Degraded(state: MutationState, replayed: bool)
    | Refused(reason: Refusal)
    | Broken

  predicate SettledFor(m: Mutation, digest: nat) { m.digest == digest && Final(m) }

  /** The recorded answer, word for word. */
  function Replay(m: Mutation): Option<Reply> {
    if m.result.None? then None else Some(Answered(m.result.value, true))
  }

  /** What came of getting ready for a call. */
  datatype Armament = Ready | AuditDegraded | Stopped

  /** What recovery made of one interrupted mutation. */
  datatype Kind = NothingTried | Unknown | Settled | Resumes

  /** The counter a mutation falls under, and that it is the one its recovered record belongs to. */
  function KindOf(m: Mutation): (kind: Kind)
    requires m.state == InFlight && FirstCode(m.steps) != Some(NotAttempted)
    ensures kind.Resumes? <==> Recovered(m).state == InFlight
    ensures kind.Resumes? ==> Recovered(m) == m
    ensures kind.NothingTried? <==> Recovered(m).state == Failed && Recovered(m).code == Some(NotAttempted)
    ensures kind.Unknown? <==> Recovered(m).state == OutcomeUnknown
  {
    if AllIn(m, Pending) then NothingTried
    else if SomeIn(m, StepInFlight) || SomeIn(m, StepUnknown) then Unknown
    else if SomeIn(m, StepFailed) || AllIn(m, StepSucceeded) then Settled
    else Resumes
  }

  lemma LeftAreResumable(events: seq<Event>, before: seq<Mutation>, after: seq<Mutation>)
    requires before == Now(events).table && |after| == |before|
    requires forall id :: 0 <= id < |after| ==> after[id] == Recovered(before[id])
    ensures forall id :: 0 <= id < |after| && after[id].state == InFlight ==> Resumable(after[id])
  {
    forall id | 0 <= id < |after| && after[id].state == InFlight ensures Resumable(after[id]) {
      NowIsRun(events);
      RecoveryIsExact(events, id);
    }
  }

  predicate SameRequest(m: Mutation, m': Mutation) { m'.who == m.who && m'.digest == m.digest && |m'.steps| == |m.steps| }

  predicate SameFrom(steps: seq<Step>, steps': seq<Step>, from: nat) {
    |steps'| == |steps| && forall k :: from <= k < |steps| ==> steps'[k] == steps[k]
  }

  /** The state a trace leads to: `Run` from the start, one event at a time. */
  ghost function Now(trace: seq<Event>): State {
    if trace == [] then Init() else After(trace)
  }

  ghost function After(trace: seq<Event>): State
    requires trace != []
    decreases trace, 0
  {
    Apply(Now(trace[..|trace| - 1]), trace[|trace| - 1])
  }

  lemma {:induction false} NowIsRun(trace: seq<Event>)
    ensures Now(trace) == Run(Init(), trace)
  {
    if trace != [] {
      NowIsRun(trace[..|trace| - 1]);
      assert Now(trace) == After(trace);
    }
  }

  lemma OneMore(trace: seq<Event>, e: Event)
    ensures Now(trace + [e]) == Apply(Now(trace), e)
  {
    assert (trace + [e])[..|trace + [e]| - 1] == trace;
    assert Now(trace + [e]) == After(trace + [e]);
  }

  /** What the run so far says of one record. */
  lemma RecordIsSound(trace: seq<Event>, id: nat)
    requires id < |Now(trace).table|
    ensures var m := Now(trace).table[id];
      && (m.state == InFlight <==> m.result.None?)
      && (m.result.Some? ==> m.result.value.state == m.state && m.result.value.code == m.code)
      && (m.state == InFlight ==> FirstCode(m.steps) != Some(NotAttempted))
  {
    NowIsRun(trace);
    RunKeeps(trace);
    var s := Run(Init(), trace);
    var m := s.table[id];
    assert MutationInv(m, id, s.calls);
    if m.state == InFlight {
      CodesAreReal(m, id, s.calls, 0);
      assert m.steps[0..] == m.steps;
    }
  }

  /** A request as it reaches the executor. */
  datatype Ask = AskLocal(who: nat, digest: nat) | AskProvider(who: nat, digest: nat, policy: Policy, steps: seq<Policy>)

  /** What the whole run so far did at the providers, and what it left alone. */
  lemma CallsAreBounded(trace: seq<Event>)
    ensures var s := Now(trace);
      forall id, i :: 0 <= id < |s.table| && 0 <= i < |s.table[id].steps| && s.table[id].steps[i].policy == ResolveOnly ==>
        Count(s.calls, id, i) <= 1
  {
    NowIsRun(trace);
    var s := Now(trace);
    forall id, i | 0 <= id < |s.table| && 0 <= i < |s.table[id].steps| && s.table[id].steps[i].policy == ResolveOnly
      ensures Count(s.calls, id, i) <= 1
    {
      AtMostOnce(trace, id, i);
    }
  }

  lemma FinalsAreLeftAlone(before: seq<Event>, after: seq<Event>)
    requires before <= after
    ensures var s, s' := Now(before), Now(after);
      |s.table| <= |s'.table| && forall id :: 0 <= id < |s.table| && Final(s.table[id]) ==> s'.table[id].result == s.table[id].result
  {
    NowIsRun(before);
    NowIsRun(after);
    var s, s', more := Now(before), Now(after), after[|before|..];
    assert after == before + more;
    RunJoins(Init(), before, more);
    RunKeeps(before);
    TableGrows(s, more);
    forall id | 0 <= id < |s.table| && Final(s.table[id]) ensures s'.table[id].result == s.table[id].result {
      FinalIsStable(before, more, id, 0);
    }
  }

  lemma TableGrows(s: State, more: seq<Event>)
    requires Inv(s)
    ensures |s.table| <= |Run(s, more).table|
  {
    if s.table != [] { RunEvolves(s, more, |s.table| - 1); }
  }

  class Executor {
    var table: seq<Mutation>
    var latch: bool
    const alone: bool  // nobody else touches the latch while a request is served
    ghost var calls: seq<Call>
    ghost var trace: seq<Event>

    /** The records and the call log are what the state machine makes of the trace. */
    ghost predicate Stands(pc: Pc)
      reads this
    {
      Now(trace) == State(table, latch, calls, pc)
    }

    constructor (alone: bool)
      ensures Stands(Idle) && trace == [] && table == [] && !latch && this.alone == alone
    {
      this.alone := alone;
      table, latch, calls, trace := [], false, [], [];
    }

    /** Another part of the daemon sets or clears the latch. */
    method SetLatchTo(on: bool, ghost pc: Pc)
      requires Stands(pc)
      modifies this`latch, this`trace
      ensures Stands(pc) && trace == old(trace) + [SetLatch(on)] && latch == on && table == old(table)
    {
      OneMore(trace, SetLatch(on));
      latch, trace := on, trace + [SetLatch(on)];
    }

    ghost method Interrupt(pc: Pc)
      requires Stands(pc)
      modifies this`trace
      ensures Stands(Idle) && trace == old(trace) + [Crash]
    {
      OneMore(trace, Crash);
      trace := trace + [Crash];
    }

    // -- local writes ------------------------------------------------------------------------

    method Local(who: nat, digest: nat) returns (r: Reply)
      requires Stands(Idle)
      modifies this
      ensures Stands(Idle) && old(trace) <= trace && calls == old(calls)
      ensures r == Refused(RequestIdReuse) <==> exists id :: 0 <= id < |old(table)| && Find(old(table), who) == Some(id) && old(table)[id].digest != digest
      // a recorded request changes nothing and is answered from its record
      ensures Find(old(table), who).Some? ==> table == old(table)
      ensures forall id :: 0 <= id < |old(table)| && Find(old(table), who) == Some(id) && SettledFor(old(table)[id], digest) ==>
        Some(r) == Replay(old(table)[id])
      // a new one is refused only while the latch is set, and commits whole
      ensures r == Refused(AuditIntegrityDegraded) <==> Find(old(table), who).None? && old(latch)
      ensures Find(old(table), who).None? && !r.Refused? ==> exists made :: table == old(table) + [Written(who, digest, made)]
      ensures r.Answered? && !r.replayed ==> table == old(table) + [Written(who, digest, r.result.made)] && r.result.state == Succeeded && !latch
    {
      var found := Find(table, who);
      if found.Some? {
        var m := table[found.value];
        if m.digest != digest { return Refused(RequestIdReuse); }
        RecordIsSound(trace, found.value);
        return Answered(if m.result.Some? then m.result.value else Result(m.state, m.code, None), true);
      }
      if latch { return Refused(AuditIntegrityDegraded); }
      var made: Option<nat> := *;
      var anchored: bool := *;
      OneMore(trace, Event.Local(who, digest, made, anchored));
      trace := trace + [Event.Local(who, digest, made, anchored)];
      table := table + [Written(who, digest, made)];
      if !anchored {
        latch := true;
        return Broken;
      }
      return Answered(Result(Succeeded, None, made), false);
    }

    // -- provider writes ---------------------------------------------------------------------

    method Provider(who: nat, digest: nat, policy: Policy, steps: seq<Policy>) returns (r: Reply)
      requires Stands(Idle) && steps != []
      modifies this
      ensures Stands(Idle) && old(trace) <= trace
      // another digest is refused, and only that is refused as a reuse; nothing changes
      ensures r == Refused(RequestIdReuse) <==>
        exists id :: 0 <= id < |old(table)| && Find(old(table), who) == Some(id) && old(table)[id].digest != digest
      ensures r == Refused(AuditIntegrityDegraded) <==> Find(old(table), who).None? && old(latch)
      ensures r.Refused? ==> table == old(table) && calls == old(calls)
      // a final record is answered as it stands, with no call
      ensures forall id :: 0 <= id < |old(table)| && Find(old(table), who) == Some(id) && SettledFor(old(table)[id], digest) ==>
        table == old(table) && calls == old(calls) && Some(r) == Replay(old(table)[id])
      // an answer is what the record says, and an answer that is not a replay is anchored
      ensures r.Answered? ==> exists id :: Holds(id, who, digest, r.result)
      ensures alone && r.Answered? && !r.replayed ==> !latch
    {
      var found := Find(table, who);
      if found.None? {
        if latch { return Refused(AuditIntegrityDegraded); }
        var id := |table|;
        var anchored: bool := *;
        OneMore(trace, Request(who, digest, policy, steps, anchored));
        trace := trace + [Request(who, digest, policy, steps, anchored)];
        table := table + [Born(who, digest, policy, steps)];
        if !anchored {
          latch := true;
          r := MarkAndAnswer(id, InFlight, false);
          return;
        }
        r := RunSteps(id, false);
        assert r.Answered? ==> Holds(id, who, digest, r.result);
        return;
      }
      var id := found.value;
      var m := table[id];
      RecordIsSound(trace, id);
      if m.digest != digest { return Refused(RequestIdReuse); }
      if m.state == Succeeded || m.state == Failed || (m.state == OutcomeUnknown && (m.retried || m.policy != RetrySameKey)) {
        r := Answered(m.result.value, true);
        assert Holds(id, who, digest, r.result);
        return;
      }
      OneMore(trace, Request(who, digest, policy, steps, true));
      trace := trace + [Request(who, digest, policy, steps, true)];
      if m.state == OutcomeUnknown {
        table := table[id := m.(retried := true)];
      }
      r := RunSteps(id, true);
      assert r.Answered? ==> Holds(id, who, digest, r.result);
    }

    ghost predicate Holds(id: nat, who: nat, digest: nat, result: Result)
      reads this
    {
      id < |table| && table[id].who == who && table[id].digest == digest && table[id].result == Some(result)
    }

    /** The loop over the steps, read once at its start. */
    method RunSteps(id: nat, replayed: bool) returns (r: Reply)
      requires Stands(At(id, 0, None)) && id < |table|
      modifies this
      ensures Stands(Idle) && old(trace) <= trace && !r.Refused?
      ensures id < |table| && SameRequest(old(table)[id], table[id])
      ensures r.Answered? ==> table[id].result == Some(r.result) && r.replayed == replayed && (alone ==> latch == old(latch))
    {
      var steps := table[id].steps;
      var made: Option<nat> := None;
      var index := 0;
      var going := true;
      r := Broken;
      while going && index < |steps|
        invariant index <= |steps| && old(trace) <= trace && !r.Refused?
        invariant id < |table| && SameRequest(old(table)[id], table[id])
        invariant going ==> Stands(At(id, index, made)) && (alone ==> latch == old(latch)) && SameFrom(steps, table[id].steps, index)
        invariant !going ==> Stands(Idle)
        invariant !going && r.Answered? ==> table[id].result == Some(r.result) && r.replayed == replayed && (alone ==> latch == old(latch))
      {
        var step := steps[index];
        assert table[id].steps[index] == step;
        if step.state == StepSucceeded {
          Pass(id, index, made);
          index := index + 1;
        } else if step.state == StepFailed {
          going := false;
          r := StopAtFailed(id, index, made, replayed);
        } else if step.state != Pending && step.policy == ResolveOnly {
          going := false;
          r := TellUnknown(id, index, made, replayed);
        } else {
          r, going, made := OneStep(id, index, made, replayed);
          index := index + 1;
        }
      }
      if going {
        Pass(id, index, made);
        r := CloseMutation(id, Succeeded, None, made, replayed);
      }
    }

    /** A step already done, or the end of the steps: nothing durable happens. */
    ghost method Pass(id: nat, index: nat, made: Option<nat>)
      requires Stands(At(id, index, made)) && id < |table|
      requires index < |table[id].steps| ==> table[id].steps[index].state == StepSucceeded
      modifies this`trace
      ensures old(trace) <= trace
      ensures Stands(if index < |table[id].steps| then At(id, index + 1, made) else Closing(id, Succeeded, None, made))
    {
      OneMore(trace, Proceed(true));
      trace := trace + [Proceed(true)];
    }

    method StopAtFailed(id: nat, index: nat, made: Option<nat>, replayed: bool) returns (r: Reply)
      requires Stands(At(id, index, made)) && id < |table| && index < |table[id].steps| && table[id].steps[index].state == StepFailed
      modifies this
      ensures Stands(Idle) && old(trace) <= trace && !r.Refused?
      ensures id < |table| && SameRequest(old(table)[id], table[id])
      ensures r.Answered? ==> r == Answered(Result(Failed, None, None), replayed) && table[id].result == Some(r.result) && latch == old(latch)
    {
      OneMore(trace, Proceed(true));
      trace := trace + [Proceed(true)];
      r := CloseMutation(id, Failed, None, None, replayed);
    }

    /** A started call that may not be repeated settles its step, and with it the saga, as unknown. */
    method TellUnknown(id: nat, index: nat, made: Option<nat>, replayed: bool) returns (r: Reply)
      requires Stands(At(id, index, made)) && id < |table| && index < |table[id].steps|
      requires Started(table[id].steps[index]) && table[id].steps[index].policy == ResolveOnly
      modifies this
      ensures Stands(Idle) && old(trace) <= trace && !r.Refused?
      ensures id < |table| && SameRequest(old(table)[id], table[id])
      ensures r.Answered? ==>
        r == Answered(Result(OutcomeUnknown, None, None), replayed) && table[id].result == Some(r.result) && latch == old(latch)
    {
      var anchored: bool := *;
      OneMore(trace, Proceed(anchored));
      trace := trace + [Proceed(anchored)];
      if table[id].steps[index].state != StepUnknown {
        table := table[id := FinishStep(table[id], index, StepUnknown, None)];
      }
      if !anchored {
        latch := true;
        return Broken;
      }
      r := CloseMutation(id, OutcomeUnknown, None, None, replayed);
    }

    /** One provider call: the step leaves PENDING durably first, and its outcome is recorded after.
        `going` says whether the saga goes on with the next step. */
    method OneStep(id: nat, index: nat, made: Option<nat>, replayed: bool) returns (r: Reply, going: bool, next: Option<nat>)
      requires Stands(At(id, index, made)) && id < |table| && index < |table[id].steps| && MayCall(table[id].steps[index])
      modifies this
      ensures old(trace) <= trace && !r.Refused? && Stands(if going then At(id, index + 1, next) else Idle)
      ensures id < |table| && SameRequest(old(table)[id], table[id])
      ensures going ==> (alone ==> latch == old(latch)) && SameFrom(old(table)[id].steps, table[id].steps, index + 1)
      ensures !going && r.Answered? ==> table[id].result == Some(r.result) && r.replayed == replayed && (alone ==> latch == old(latch))
    {
      r, going, next := Broken, false, None;
      var armed := Arm(id, index, made);
      if armed == AuditDegraded { r := Degraded(InFlight, replayed); }
      if armed != Ready { return; }
      var answer, code := Call(id, index);
      var crash: bool := *;
      if crash {
        OneMore(trace, Raise);
        trace := trace + [Raise];
        return;
      }
      r, going, next := RecordOutcome(id, index, answer, code, replayed);
    }

    /** The latch test, then the durable start, with a seam before, between and after them: only a latch that is
        set at the test keeps the call from starting, and one set by others right after it does not. */
    method Arm(id: nat, index: nat, made: Option<nat>) returns (r: Armament)
      requires Stands(At(id, index, made)) && id < |table| && index < |table[id].steps| && MayCall(table[id].steps[index])
      modifies this`table, this`latch, this`trace
      ensures old(trace) <= trace && Stands(if r == Ready then Armed(id, index) else Idle) && (alone ==> latch == old(latch))
      ensures r == AuditDegraded ==> old(latch)
      ensures r == Ready ==> !old(latch) && table == old(table)[id := StartStep(old(table)[id], index)]
      ensures old(latch) ==> table == old(table)
      ensures table == old(table) || table == old(table)[id := StartStep(old(table)[id], index)]
    {
      var crash: bool := *;
      if crash {
        Interrupt(At(id, index, made));
        return Stopped;
      }
      OneMore(trace, Proceed(true));
      trace := trace + [Proceed(true)];
      if latch { return AuditDegraded; }
      crash := Seam(Tested(id, index));
      if crash { return Stopped; }
      OneMore(trace, StartCall);
      trace := trace + [StartCall];
      table := table[id := StartStep(table[id], index)];
      crash := Seam(Armed(id, index));
      r := if crash then Stopped else Ready;
    }

    /** Others may set or clear the latch here, and the process may end. */
    method Seam(ghost pc: Pc) returns (crash: bool)
      requires Stands(pc)
      modifies this`latch, this`trace
      ensures old(trace) <= trace && Stands(if crash then Idle else pc) && (alone ==> latch == old(latch))
    {
      var change: bool := *;
      if !alone && change {
        var on: bool := *;
        SetLatchTo(on, pc);
      }
      crash := *;
      if crash { Interrupt(pc); }
    }

    /** The adapter's answer; an exception of the call itself is an unknown outcome. */
    method Call(id: nat, index: nat) returns (answer: Answer, code: Option<Code>)
      requires Stands(Armed(id, index))
      modifies this`calls, this`trace
      ensures old(trace) <= trace && Stands(Called(id, index, answer, code)) && calls == old(calls) + [MutationRecords.Call(id, index, answer, code)]
    {
      answer := *;
      code := *;
      if code == Some(NotAttempted) { code := None; }
      OneMore(trace, Invoke(answer, code));
      trace := trace + [Invoke(answer, code)];
      calls := calls + [MutationRecords.Call(id, index, answer, code)];
    }

    method RecordOutcome(id: nat, index: nat, answer: Answer, code: Option<Code>, replayed: bool)
      returns (r: Reply, going: bool, next: Option<nat>)
      requires Stands(Called(id, index, answer, code)) && id < |table| && index < |table[id].steps|
      modifies this
      ensures old(trace) <= trace && !r.Refused? && Stands(if going then At(id, index + 1, next) else Idle)
      ensures id < |table| && SameRequest(old(table)[id], table[id])
      ensures going ==> latch == old(latch) && SameFrom(old(table)[id].steps, table[id].steps, index + 1)
      ensures !going && r.Answered? ==> table[id].result == Some(r.result) && r.replayed == replayed && latch == old(latch)
    {
      r, going, next := Broken, false, None;
      var state, made, anchored, unnamed := RecordStep(id, index, answer, code);
      var known := if state == StepFailed then Failed else if state == StepUnknown then OutcomeUnknown else Succeeded;
      if !anchored {
        r := MarkAndAnswer(id, known, replayed);
      } else if state != StepSucceeded {
        r := CloseMutation(id, known, code, None, replayed);
      } else {
        going, next := true, made;
      }
    }

    method RecordStep(id: nat, index: nat, answer: Answer, code: Option<Code>)
      returns (state: StepState, made: Option<nat>, anchored: bool, unnamed: bool)
      requires Stands(Called(id, index, answer, code)) && id < |table| && index < |table[id].steps|
      modifies this
      ensures old(trace) <= trace && table == old(table)[id := FinishStep(old(table)[id], index, state, code)]
      ensures state == StepFailed <==> answer == AnswerFailed
      ensures state == StepSucceeded <==> answer == AnswerSucceeded && !(unnamed && index + 1 == |old(table)[id].steps|)
      ensures state in {StepSucceeded, StepFailed, StepUnknown}
      ensures table[id].steps[index].state == state && table[id].steps[index].code == code
      ensures latch == (old(latch) || !anchored)
      ensures Stands(if !anchored then Degrading(id) else if state == StepSucceeded then At(id, index + 1, made)
                     else Closing(id, if state == StepFailed then Failed else OutcomeUnknown, code, None))
    {
      made := *;
      anchored := *;
      unnamed := *;
      var last := index + 1 == |table[id].steps|;
      OneMore(trace, Record(made, unnamed, anchored));
      trace := trace + [Record(made, unnamed, anchored)];
      state := Told(table[id], index, answer, unnamed);
      if !last { made := None; }
      table := table[id := FinishStep(table[id], index, state, code)];
      if !anchored { latch := true; }
    }

    method CloseMutation(id: nat, state: MutationState, code: Option<Code>, made: Option<nat>, replayed: bool) returns (r: Reply)
      requires Stands(Closing(id, state, code, made)) && id < |table|
      modifies this
      ensures Stands(Idle) && old(trace) <= trace && !r.Refused?
      ensures |table| == |old(table)|
      ensures SameRequest(old(table)[id], table[id]) && (table[id].state == old(table)[id].state || table[id].state == state)
      ensures r.Answered? ==> r == Answered(Result(state, code, made), replayed) && latch == old(latch) && table[id].result == Some(r.result)
    {
      var crash: bool := *;
      if crash {
        Interrupt(Closing(id, state, code, made));
        return Broken;
      }
      var anchored: bool := *;
      OneMore(trace, Close(anchored));
      trace := trace + [Close(anchored)];
      table := table[id := Finish(table[id], state, code, made)];
      if !anchored {
        latch := true;
        r := MarkAndAnswer(id, state, replayed);
        return;
      }
      return Answered(Result(state, code, made), replayed);
    }

    /** Committed but not anchored: mark the mutation, answer the known state as degraded. */
    method MarkAndAnswer(id: nat, state: MutationState, replayed: bool) returns (r: Reply)
      requires Stands(Degrading(id)) && id < |table|
      modifies this
      ensures Stands(Idle) && old(trace) <= trace && latch == old(latch) && |table| == |old(table)|
      ensures (r == Degraded(state, replayed) && table == old(table)[id := old(table)[id].(degraded := true)]) || (r == Broken && table == old(table))
    {
      var crash: bool := *;
      if crash {
        Interrupt(Degrading(id));
        return Broken;
      }
      OneMore(trace, MarkDegraded);
      trace := trace + [MarkDegraded];
      table := table[id := table[id].(degraded := true)];
      return Degraded(state, replayed);
    }

    // -- a day's work ------------------------------------------------------------------------------

    /** Any sequence of requests, with restarts and latch changes between them: whatever each of them met, a
        step that may not be repeated was called at most once, and what was final before still answers the same. */
    method Serve(asks: seq<Ask>) returns (replies: seq<Reply>)
      requires Stands(Idle) && forall i :: 0 <= i < |asks| && asks[i].AskProvider? ==> asks[i].steps != []
      modifies this
      ensures Stands(Idle) && old(trace) <= trace && |replies| == |asks|
      ensures forall id, i :: 0 <= id < |table| && 0 <= i < |table[id].steps| && table[id].steps[i].policy == ResolveOnly ==>
        Count(calls, id, i) <= 1
      ensures |old(table)| <= |table| && forall id :: 0 <= id < |old(table)| && Final(old(table)[id]) ==> table[id].result == old(table)[id].result
    {
      replies := [];
      for n := 0 to |asks|
        invariant Stands(Idle) && old(trace) <= trace && |replies| == n
      {
        Meanwhile();
        var reply;
        match asks[n] {
          case AskLocal(who, digest) => reply := Local(who, digest);
          case AskProvider(who, digest, policy, steps) => reply := Provider(who, digest, policy, steps);
        }
        replies := replies + [reply];
      }
      CallsAreBounded(trace);
      FinalsAreLeftAlone(old(trace), trace);
    }

    /** Between two requests the daemon may restart, which recovers, and others may set or clear the latch. */
    method Meanwhile()
      requires Stands(Idle)
      modifies this
      ensures Stands(Idle) && old(trace) <= trace
    {
      var restart: bool := *;
      if restart {
        var settled, notAttempted, unknown, resumable, completed := RecoverMutations();
      }
      var on: bool := *;
      SetLatchTo(on, Idle);
    }

    // -- startup recovery ----------------------------------------------------------------------

    /** One interrupted mutation; false when its commit could not be anchored. */
    method RecoverOne(id: nat) returns (kind: Kind, anchored: bool)
      requires Stands(Idle) && id < |table| && table[id].state == InFlight
      modifies this`table, this`latch, this`trace
      ensures Stands(Idle) && old(trace) <= trace && table == old(table)[id := Recovered(old(table)[id])]
      ensures kind.Resumes? <==> table[id].state == InFlight
      ensures kind.NothingTried? <==> table[id].state == Failed && table[id].code == Some(NotAttempted)
      ensures kind.Unknown? <==> table[id].state == OutcomeUnknown
    {
      var m := table[id];
      RecordIsSound(trace, id);
      kind := KindOf(m);
      anchored := true;
      if kind != Resumes {
        anchored := *;
        OneMore(trace, Recover(id, anchored));
        trace := trace + [Recover(id, anchored)];
        table := table[id := Recovered(m)];
        if !anchored { latch := true; }
      }
    }

    /** Settles every interrupted mutation by what its records prove, calls no provider, and stops at the
        first anchor failure.  The counters add up to the interrupted mutations it looked at. */
    method RecoverMutations() returns (settled: nat, notAttempted: nat, unknown: nat, resumable: nat, completed: bool)
      requires Stands(Idle)
      modifies this
      ensures Stands(Idle) && old(trace) <= trace && calls == old(calls) && |table| == |old(table)|
      ensures completed ==> forall id :: 0 <= id < |table| ==> table[id] == Recovered(old(table)[id])
      ensures completed ==> forall id :: 0 <= id < |table| && table[id].state == InFlight ==> Resumable(table[id])
      ensures completed ==> resumable == Interrupted(table, |table|)
      ensures completed ==> settled + notAttempted + unknown + resumable == Interrupted(old(table), |table|)
    {
      settled, notAttempted, unknown, resumable, completed := 0, 0, 0, 0, true;
      var id := 0;
      while id < |table|
        invariant id <= |table| == |old(table)| && Stands(Idle) && old(trace) <= trace && calls == old(calls)
        invariant forall k :: 0 <= k < id ==> table[k] == Recovered(old(table)[k])
        invariant forall k :: id <= k < |table| ==> table[k] == old(table)[k]
        invariant resumable == Interrupted(table, id)
        invariant settled + notAttempted + unknown + resumable == Interrupted(old(table), id)
      {
        if table[id].state == InFlight {
          ghost var before := table;
          var kind;
          kind, completed := RecoverOne(id);
          SameCount(before, table, id);
          if !completed { return; }
          match kind
          case NothingTried => notAttempted := notAttempted + 1;
          case Unknown => unknown := unknown + 1;
          case Settled => settled := settled + 1;
          case Resumes => resumable := resumable + 1;
        }
        id := id + 1;
      }
      LeftAreResumable(old(trace), old(table), table);
    }
  }

  function Interrupted(table: seq<Mutation>, n: nat): nat
    requires n <= |table|
  {
    if n == 0 then 0 else Interrupted(table, n - 1) + if table[n - 1].state == InFlight then 1 else 0
  }

  lemma {:induction false} SameCount(a: seq<Mutation>, b: seq<Mutation>, n: nat)
    requires n <= |a| && n <= |b| && forall k :: 0 <= k < n ==> a[k] == b[k]
    ensures Interrupted(a, n) == Interrupted(b, n)
  {
    if n > 0 { SameCount(a, b, n - 1); }
  }
}
