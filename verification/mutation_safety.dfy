/** What every run of requests, replays, crashes, anchor failures, latch changes and recoveries keeps. */
module MutationSafety {
  import opened MutationRecords

  /** How often step `i` of mutation `id` was invoked. */
  function Count(calls: seq<Call>, id: nat, i: nat): nat {
    if calls == [] then 0 else
      var last := calls[|calls| - 1];
      Count(calls[..|calls| - 1], id, i) + if last.id == id && last.step == i then 1 else 0
  }

  function LastCall(calls: seq<Call>, id: nat, i: nat): Option<Call> {
    if calls == [] then None else
      var last := calls[|calls| - 1];
      if last.id == id && last.step == i then Some(last) else LastCall(calls[..|calls| - 1], id, i)
  }

  /** The last call of the step was answered so, with this code. */
  predicate LastAnswered(calls: seq<Call>, id: nat, i: nat, answer: Answer, code: Option<Code>) {
    LastCall(calls, id, i) == Some(Call(id, i, answer, code))
  }

  ghost predicate NeverCalled(calls: seq<Call>, id: nat) {
    forall c :: c in calls ==> c.id != id
  }

  /** Calls of one mutation go through its steps in order. */
  ghost predicate InOrder(calls: seq<Call>) {
    forall a, b :: 0 <= a < b < |calls| && calls[a].id == calls[b].id ==> calls[a].step <= calls[b].step
  }

  /** SUCCEEDED*, at most one other non-pending step at `p`, PENDING* */
  ghost predicate ShapedAt(steps: seq<Step>, p: int) {
    && 0 <= p <= |steps|
    && (forall i :: 0 <= i < p ==> steps[i].state == StepSucceeded)
    && (forall i :: p < i < |steps| ==> steps[i].state == Pending)
  }

  ghost predicate Shaped(m: Mutation) { exists p :: ShapedAt(m.steps, p) }

  predicate SettledUntried(m: Mutation) { m.state == Failed && m.code == Some(NotAttempted) }

  ghost predicate StepInv(m: Mutation, id: nat, i: nat, calls: seq<Call>)
    requires i < |m.steps|
  {
    var n := Count(calls, id, i);
    && (m.steps[i].state == Pending ==> n == 0)
    && (m.steps[i].policy == ResolveOnly ==> n <= 1)
    && (m.steps[i].state == StepSucceeded ==> LastAnswered(calls, id, i, AnswerSucceeded, m.steps[i].code))
    && (m.steps[i].state == StepFailed && m.steps[i].code != Some(NotAttempted) ==> LastAnswered(calls, id, i, AnswerFailed, m.steps[i].code))
    && (m.steps[i].code == Some(NotAttempted) ==> m.code == Some(NotAttempted))
  }

  predicate FailedWith(steps: seq<Step>, i: int, code: Option<Code>) {
    0 <= i < |steps| && steps[i].state == StepFailed && (code == None || code == steps[i].code)
  }

  predicate UnknownAt(steps: seq<Step>, i: int) { 0 <= i < |steps| && steps[i].state == StepUnknown }

  /** The steps say why the mutation is in this state: they all succeeded, one failed, or one is unknown. */
  ghost predicate Shown(steps: seq<Step>, state: MutationState, code: Option<Code>) {
    match state
    case InFlight => true
    case Succeeded => forall i :: 0 <= i < |steps| ==> steps[i].state == StepSucceeded
    case Failed => exists i :: FailedWith(steps, i, code)
    case OutcomeUnknown => exists i :: UnknownAt(steps, i)
  }

  ghost predicate MutationInv(m: Mutation, id: nat, calls: seq<Call>) {
    && (forall i :: 0 <= i < |m.steps| ==> StepInv(m, id, i, calls))
    && (if m.code == Some(NotAttempted) then m.state == Failed && NeverCalled(calls, id) else Shaped(m))
    && (m.state == InFlight ==> m.steps != [] && !m.retried && m.code == None)
    && (m.code != Some(NotAttempted) && (m.state == OutcomeUnknown ==> !m.retried) ==> Shown(m.steps, m.state, m.code))
    && (m.retried ==> m.policy == RetrySameKey)
    && (if m.state == InFlight then m.result == None
        else m.result.Some? && m.result.value.state == m.state && m.result.value.code == m.code)
  }

  /** A run of the loop may be under way: nothing settled for good, and a retry is marked. */
  predicate Running(m: Mutation) { m.state == InFlight || (m.state == OutcomeUnknown && m.retried) }

  /** Not called yet, or a call that may be repeated under its key. */
  predicate MayCall(t: Step) { t.state == Pending || (t.state in {StepInFlight, StepUnknown} && t.policy == RetrySameKey) }

  ghost predicate PcInv(s: State) {
    match s.pc
    case Idle => true
    case At(id, i, _) =>
      id < |s.table| && Running(s.table[id]) && i <= |s.table[id].steps| &&
      forall k :: 0 <= k < i ==> s.table[id].steps[k].state == StepSucceeded
    case Tested(id, i) =>
      id < |s.table| && Running(s.table[id]) && i < |s.table[id].steps| && MayCall(s.table[id].steps[i]) &&
      forall k :: 0 <= k < i ==> s.table[id].steps[k].state == StepSucceeded
    case Armed(id, i) =>
      id < |s.table| && Running(s.table[id]) && i < |s.table[id].steps| && ShapedAt(s.table[id].steps, i) &&
      s.table[id].steps[i].state in {StepInFlight, StepUnknown} &&
      (s.table[id].steps[i].policy == ResolveOnly ==> Count(s.calls, id, i) == 0)
    case Called(id, i, answer, code) =>
      id < |s.table| && Running(s.table[id]) && i < |s.table[id].steps| && ShapedAt(s.table[id].steps, i) &&
      s.table[id].steps[i].state in {StepInFlight, StepUnknown} &&
      LastAnswered(s.calls, id, i, answer, code) && code != Some(NotAttempted)
    case Closing(id, state, code, _) =>
      id < |s.table| && Running(s.table[id]) && state != InFlight && code != Some(NotAttempted) &&
      Shown(s.table[id].steps, state, code)
    case Degrading(id) => id < |s.table|
  }

  ghost predicate Inv(s: State) {
    && (forall a, b :: 0 <= a < b < |s.table| ==> s.table[a].who != s.table[b].who)
    && (forall id :: 0 <= id < |s.table| ==> MutationInv(s.table[id], id, s.calls))
    && (forall c :: c in s.calls ==> c.id < |s.table| && c.step < |s.table[c.id].steps|)
    && InOrder(s.calls) && PcInv(s)
  }

  // -- counting ------------------------------------------------------------------------------

  lemma {:induction false} NeverCalledCounts(calls: seq<Call>, id: nat, i: nat)
    ensures NeverCalled(calls, id) ==> Count(calls, id, i) == 0
    ensures Count(calls, id, i) == 0 <==> forall c :: c in calls ==> !(c.id == id && c.step == i)
  {
    if calls != [] {
      NeverCalledCounts(calls[..|calls| - 1], id, i);
      assert calls == calls[..|calls| - 1] + [calls[|calls| - 1]];
    }
  }

  lemma OneMoreCall(calls: seq<Call>, c: Call, id: nat, i: nat)
    ensures Count(calls + [c], id, i) == Count(calls, id, i) + if c.id == id && c.step == i then 1 else 0
    ensures LastCall(calls + [c], id, i) == if c.id == id && c.step == i then Some(c) else LastCall(calls, id, i)
  {
    assert (calls + [c])[..|calls|] == calls;
  }

  // -- each event ----------------------------------------------------------------------------

  /** Replacing one record by another that satisfies its invariant keeps the table's part. */
  lemma PutKeeps(s: State, id: nat, m: Mutation)
    requires Inv(s) && id < |s.table| && m.who == s.table[id].who && |m.steps| == |s.table[id].steps|
    requires MutationInv(m, id, s.calls)
    ensures Inv(Put(s, id, m).(pc := Idle))
    ensures Inv(Put(s, id, m).(pc := Idle, latch := true))
  {
  }

  lemma BornKeeps(s: State, m: Mutation, made: Option<nat>)
    requires Inv(s) && Find(s.table, m.who).None?
    requires (m.state == InFlight && m.steps != [] && AllIn(m, Pending)) || (m.state == Succeeded && m.steps == [])
    requires m.code == None && !m.retried && m.result == (if m.state == InFlight then None else Some(Result(m.state, None, made)))
    requires forall i :: 0 <= i < |m.steps| ==> m.steps[i].code == None
    ensures Inv(s.(table := s.table + [m], pc := Idle))
  {
    var id := |s.table|;
    assert NeverCalled(s.calls, id);
    forall i | 0 <= i < |m.steps| ensures StepInv(m, id, i, s.calls) { NeverCalledCounts(s.calls, id, i); }
    assert ShapedAt(m.steps, 0);
  }

  lemma StartKeeps(s: State, id: nat, i: nat)
    requires Inv(s) && id < |s.table| && i < |s.table[id].steps| && Running(s.table[id])
    requires forall k :: 0 <= k < i ==> s.table[id].steps[k].state == StepSucceeded
    requires MayCall(s.table[id].steps[i])
    ensures Inv(Put(s, id, StartStep(s.table[id], i)).(pc := Armed(id, i)))
  {
    var m := s.table[id];
    var p :| ShapedAt(m.steps, p);
    var m' := StartStep(m, i);
    assert ShapedAt(m'.steps, i);
    forall k | 0 <= k < |m'.steps| ensures StepInv(m', id, k, s.calls) { assert StepInv(m, id, k, s.calls); }
    assert StepInv(m, id, i, s.calls);
    PutKeeps(s, id, m');
  }

  lemma FinishStepKeeps(s: State, id: nat, i: nat, state: StepState, code: Option<Code>)
    requires Inv(s) && id < |s.table| && i < |s.table[id].steps| && Running(s.table[id]) && ShapedAt(s.table[id].steps, i)
    requires s.table[id].steps[i].state != Pending && state in {StepSucceeded, StepFailed, StepUnknown} && code != Some(NotAttempted)
    requires state == StepSucceeded ==> LastAnswered(s.calls, id, i, AnswerSucceeded, code)
    requires state == StepFailed ==> LastAnswered(s.calls, id, i, AnswerFailed, code)
    ensures var m' := FinishStep(s.table[id], i, state, code);
      MutationInv(m', id, s.calls) && ShapedAt(m'.steps, i) && Running(m')
      && (state == StepFailed ==> FailedWith(m'.steps, i, code)) && (state == StepUnknown ==> UnknownAt(m'.steps, i))
  {
    var m := s.table[id];
    var m' := FinishStep(m, i, state, code);
    forall k | 0 <= k < |m'.steps| ensures StepInv(m', id, k, s.calls) { assert StepInv(m, id, k, s.calls); }
    assert ShapedAt(m'.steps, i);
  }

  lemma SettleKeeps(s: State, id: nat, state: MutationState, code: Option<Code>, made: Option<nat>)
    requires Inv(s) && id < |s.table| && state != InFlight && code != Some(NotAttempted)
    requires s.table[id].code != Some(NotAttempted) && Shown(s.table[id].steps, state, code)
    ensures MutationInv(Finish(s.table[id], state, code, made), id, s.calls)
  {
    var m := s.table[id];
    var m' := Finish(m, state, code, made);
    forall k | 0 <= k < |m'.steps| ensures StepInv(m', id, k, s.calls) { assert StepInv(m, id, k, s.calls); }
    var p :| ShapedAt(m.steps, p);
    assert ShapedAt(m'.steps, p);
  }

  lemma RecoverKeeps(s: State, id: nat)
    requires Inv(s) && id < |s.table|
    ensures MutationInv(Recovered(s.table[id]), id, s.calls)
  {
    var m := s.table[id];
    var m' := Recovered(m);
    if m.state == InFlight {
      var p :| ShapedAt(m.steps, p);
      forall k | 0 <= k < |m'.steps| ensures StepInv(m', id, k, s.calls) { assert StepInv(m, id, k, s.calls); }
      if AllIn(m, Pending) {
        forall c | c in s.calls ensures c.id != id {
          if c.id == id {
            assert StepInv(m, id, c.step, s.calls);
            NeverCalledCounts(s.calls, id, c.step);
          }
        }
      } else {
        assert ShapedAt(m'.steps, p);
        if SomeIn(m, StepFailed) { CodesAreReal(m, id, s.calls, 0); }
        RecoveredIsShown(m);
      }
    }
  }

  lemma RecoveredIsShown(m: Mutation)
    requires m.state == InFlight && !AllIn(m, Pending)
    ensures Shown(Recovered(m).steps, Recovered(m).state, Recovered(m).code)
  {
    if SomeIn(m, StepInFlight) || SomeIn(m, StepUnknown) {
      var i :| 0 <= i < |m.steps| && m.steps[i].state in {StepInFlight, StepUnknown};
      assert UnknownAt(Recovered(m).steps, i);
    } else if SomeIn(m, StepFailed) {
      var i := FirstCodeIsOf(m.steps, 0);
      assert m.steps[0..] == m.steps;
      assert FailedWith(m.steps, i, FirstCode(m.steps));
    }
  }

  /** `FirstCode` is the code of the first step that failed. */
  lemma {:induction false} FirstCodeIsOf(steps: seq<Step>, from: nat) returns (i: nat)
    requires from <= |steps| && exists k :: from <= k < |steps| && steps[k].state == StepFailed
    ensures from <= i < |steps| && steps[i].state == StepFailed && FirstCode(steps[from..]) == steps[i].code
    ensures forall k :: from <= k < i ==> steps[k].state != StepFailed
    decreases |steps| - from
  {
    i := from;
    if steps[from].state != StepFailed {
      assert steps[from..][1..] == steps[from + 1..];
      i := FirstCodeIsOf(steps, from + 1);
    }
  }

  lemma {:induction false} CodesAreReal(m: Mutation, id: nat, calls: seq<Call>, from: nat)
    requires MutationInv(m, id, calls) && m.code != Some(NotAttempted) && from <= |m.steps|
    ensures FirstCode(m.steps[from..]) != Some(NotAttempted)
    decreases |m.steps| - from
  {
    if from < |m.steps| {
      assert StepInv(m, id, from, calls);
      assert m.steps[from..][1..] == m.steps[from + 1..];
      CodesAreReal(m, id, calls, from + 1);
    }
  }

  lemma MutationKeptByCall(s: State, c: Call, id: nat)
    requires Inv(s) && s.pc.Armed? && c.id == s.pc.id && c.step == s.pc.index && id < |s.table|
    ensures MutationInv(s.table[id], id, s.calls + [c])
  {
    var m := s.table[id];
    forall i | 0 <= i < |m.steps| ensures StepInv(m, id, i, s.calls + [c]) {
      assert StepInv(m, id, i, s.calls);
      OneMoreCall(s.calls, c, id, i);
    }
    if m.code != Some(NotAttempted) {
      var p :| ShapedAt(m.steps, p);
    }
  }

  lemma MutationsKeptByCall(s: State, c: Call)
    requires Inv(s) && s.pc.Armed? && c.id == s.pc.id && c.step == s.pc.index
    ensures forall id :: 0 <= id < |s.table| ==> MutationInv(s.table[id], id, s.calls + [c])
  {
    forall id | 0 <= id < |s.table| ensures MutationInv(s.table[id], id, s.calls + [c]) { MutationKeptByCall(s, c, id); }
  }

  lemma OrderKeptByCall(s: State, c: Call)
    requires Inv(s) && s.pc.Armed? && c.id == s.pc.id && c.step == s.pc.index
    ensures InOrder(s.calls + [c])
  {
    forall a | 0 <= a < |s.calls| && s.calls[a].id == c.id ensures s.calls[a].step <= c.step {
      if s.calls[a].step > c.step {
        assert s.calls[a] in s.calls && StepInv(s.table[c.id], c.id, s.calls[a].step, s.calls);
        NeverCalledCounts(s.calls, c.id, s.calls[a].step);
      }
    }
  }

  lemma PcKeptByCall(s: State, answer: Answer, code: Option<Code>)
    requires PcInv(s) && s.pc.Armed? && code != Some(NotAttempted)
    ensures PcInv(s.(calls := s.calls + [Call(s.pc.id, s.pc.index, answer, code)], pc := Called(s.pc.id, s.pc.index, answer, code)))
  {
    OneMoreCall(s.calls, Call(s.pc.id, s.pc.index, answer, code), s.pc.id, s.pc.index);
  }

  lemma InvokeKeeps(s: State, e: Event)
    requires Inv(s) && e.Invoke? && Enabled(s, e)
    ensures Inv(Apply(s, e))
  {
    var c := Call(s.pc.id, s.pc.index, e.answer, e.code);
    var s' := s.(calls := s.calls + [c], pc := Called(s.pc.id, s.pc.index, e.answer, e.code));
    MutationsKeptByCall(s, c);
    OrderKeptByCall(s, c);
    PcKeptByCall(s, e.answer, e.code);
    assert forall d :: d in s'.calls ==> d in s.calls || d == c;
    assert Inv(s');
  }

  lemma TellUnknownKeeps(s: State, id: nat, i: nat, anchored: bool)
    requires Inv(s) && id < |s.table| && i < |s.table[id].steps| && Running(s.table[id])
    requires forall k :: 0 <= k < i ==> s.table[id].steps[k].state == StepSucceeded
    requires s.table[id].steps[i].state in {StepInFlight, StepUnknown}
    ensures var m := s.table[id];
      var told := if m.steps[i].state == StepUnknown then m else FinishStep(m, i, StepUnknown, None);
      Inv(Committed(Put(s, id, told), anchored, Closing(id, OutcomeUnknown, None, None), Idle))
  {
    var m := s.table[id];
    var p :| ShapedAt(m.steps, p);
    var told := if m.steps[i].state == StepUnknown then m else FinishStep(m, i, StepUnknown, None);
    assert UnknownAt(told.steps, i);
    FinishStepKeeps(s, id, i, StepUnknown, None);
    PutKeeps(s, id, told);
  }

  /** A move of the executor alone. */
  lemma MoveKeeps(s: State, pc: Pc)
    requires Inv(s) && PcInv(s.(pc := pc))
    ensures Inv(s.(pc := pc))
  {
  }

  lemma ProceedMoves(s: State, anchored: bool)
    requires PcInv(s) && s.pc.At?
    requires s.pc.index < |s.table[s.pc.id].steps| ==>
      s.table[s.pc.id].steps[s.pc.index].state in {StepSucceeded, StepFailed} || MayCall(s.table[s.pc.id].steps[s.pc.index])
    ensures DoProceed(s, anchored) == s.(pc := DoProceed(s, anchored).pc) && PcInv(DoProceed(s, anchored))
  {
    assert s.pc.index < |s.table[s.pc.id].steps| && s.table[s.pc.id].steps[s.pc.index].state == StepFailed ==>
      FailedWith(s.table[s.pc.id].steps, s.pc.index, None);
  }

  lemma ProceedKeeps(s: State, anchored: bool)
    requires Inv(s) && Enabled(s, Proceed(anchored))
    ensures Inv(Apply(s, Proceed(anchored)))
  {
    var id, i := s.pc.id, s.pc.index;
    var m := s.table[id];
    if i < |m.steps| {
      var step := m.steps[i];
      if step.state in {StepInFlight, StepUnknown} && step.policy == ResolveOnly {
        TellUnknownKeeps(s, id, i, anchored);
        return;
      }
    }
    ProceedMoves(s, anchored);
    MoveKeeps(s, DoProceed(s, anchored).pc);
  }

  lemma RecordKeeps(s: State, e: Event)
    requires Inv(s) && e.Record? && Enabled(s, e)
    ensures Inv(Apply(s, e))
  {
    var id, i := s.pc.id, s.pc.index;
    var state := Told(s.table[id], i, s.pc.answer, e.unnamed);
    var m' := FinishStep(s.table[id], i, state, s.pc.code);
    FinishStepKeeps(s, id, i, state, s.pc.code);
    PutKeeps(s, id, m');
    RecordMoves(s, e, m');
  }

  lemma RecordMoves(s: State, e: Event, m': Mutation)
    requires e.Record? && Enabled(s, e) && Inv(Put(s, s.pc.id, m').(pc := Idle)) && Inv(Put(s, s.pc.id, m').(pc := Idle, latch := true))
    requires s.pc.code != Some(NotAttempted) && Running(m') && ShapedAt(m'.steps, s.pc.index)
    requires FailedWith(m'.steps, s.pc.index, s.pc.code) || UnknownAt(m'.steps, s.pc.index) ||
      (s.pc.index < |m'.steps| && m'.steps[s.pc.index].state == StepSucceeded)
    requires m' == FinishStep(s.table[s.pc.id], s.pc.index, Told(s.table[s.pc.id], s.pc.index, s.pc.answer, e.unnamed), s.pc.code)
    ensures Inv(Apply(s, e))
  {
    assert PcInv(Apply(s, e));
  }

  lemma RequestKeeps(s: State, e: Event)
    requires Inv(s) && e.Request? && Enabled(s, e)
    ensures Inv(Apply(s, e))
  {
    match Find(s.table, e.who)
    case None =>
      if !s.latch && e.steps != [] { BornKeeps(s, Born(e.who, e.digest, e.policy, e.steps), None); }
    case Some(id) =>
      var m := s.table[id];
      if m.state == OutcomeUnknown && !m.retried && m.policy == RetrySameKey {
        var m' := m.(retried := true);
        forall k | 0 <= k < |m'.steps| ensures StepInv(m', id, k, s.calls) { assert StepInv(m, id, k, s.calls); }
        var p :| ShapedAt(m.steps, p);
        assert ShapedAt(m'.steps, p);
        PutKeeps(s, id, m');
      }
  }

  lemma LocalKeeps(s: State, who: nat, digest: nat, made: Option<nat>, anchored: bool)
    requires Inv(s)
    ensures Inv(Apply(s, Local(who, digest, made, anchored)))
  {
    if Find(s.table, who).None? && !s.latch { BornKeeps(s, Written(who, digest, made), made); }
  }

  lemma CloseKeeps(s: State, anchored: bool)
    requires Inv(s) && Enabled(s, Close(anchored))
    ensures Inv(Apply(s, Close(anchored)))
  {
    SettleKeeps(s, s.pc.id, s.pc.state, s.pc.code, s.pc.made);
    PutKeeps(s, s.pc.id, Finish(s.table[s.pc.id], s.pc.state, s.pc.code, s.pc.made));
  }

  lemma RecoveryKeeps(s: State, id: nat, anchored: bool)
    requires Inv(s) && Enabled(s, Recover(id, anchored))
    ensures Inv(Apply(s, Recover(id, anchored)))
  {
    RecoverKeeps(s, id);
    PutKeeps(s, id, Recovered(s.table[id]));
  }

  lemma StepKeeps(s: State, e: Event)
    requires Inv(s)
    ensures Inv(Apply(s, e))
  {
    if Enabled(s, e) {
      match e
      case Local(who, digest, made, anchored) => LocalKeeps(s, who, digest, made, anchored);
      case Request(_, _, _, _, _) => RequestKeeps(s, e);
      case Proceed(anchored) => ProceedKeeps(s, anchored);
      case StartCall => StartKeeps(s, s.pc.id, s.pc.index);
      case Invoke(_, _) => InvokeKeeps(s, e);
      case Raise =>
      case Record(_, _, _) => RecordKeeps(s, e);
      case Close(anchored) => CloseKeeps(s, anchored);
      case MarkDegraded => DegradedKeeps(s, s.pc.id);
      case Crash =>
      case SetLatch(_) =>
      case Recover(id, anchored) => RecoveryKeeps(s, id, anchored);
    }
  }

  lemma DegradedKeeps(s: State, id: nat)
    requires Inv(s) && id < |s.table|
    ensures Inv(Put(s, id, s.table[id].(degraded := true)).(pc := Idle))
  {
    var m := s.table[id];
    var m' := m.(degraded := true);
    forall k | 0 <= k < |m'.steps| ensures StepInv(m', id, k, s.calls) { assert StepInv(m, id, k, s.calls); }
    if m.code != Some(NotAttempted) {
      var p :| ShapedAt(m.steps, p);
      assert ShapedAt(m'.steps, p);
    }
    PutKeeps(s, id, m');
  }

  lemma {:induction false} RunKeeps(events: seq<Event>)
    ensures Inv(Run(Init(), events))
  {
    if events != [] {
      RunKeeps(events[..|events| - 1]);
      StepKeeps(Run(Init(), events[..|events| - 1]), events[|events| - 1]);
    }
  }

  // -- main results --------------------------------------------------------------------------

  /** A step whose policy is not retry_same_key is invoked at most once, whatever happens. */
  lemma AtMostOnce(events: seq<Event>, id: nat, i: nat)
    requires var s := Run(Init(), events); id < |s.table| && i < |s.table[id].steps| && s.table[id].steps[i].policy == ResolveOnly
    ensures Count(Run(Init(), events).calls, id, i) <= 1
  {
    RunKeeps(events);
    var s := Run(Init(), events);
    assert MutationInv(s.table[id], id, s.calls) && StepInv(s.table[id], id, i, s.calls);
  }

  /** SUCCEEDED*, at most one other, PENDING*; and what is settled as never attempted never was. */
  lemma SagaShape(events: seq<Event>, id: nat)
    requires id < |Run(Init(), events).table|
    ensures var s := Run(Init(), events);
      if SettledUntried(s.table[id]) then NeverCalled(s.calls, id) else Shaped(s.table[id])
  {
    RunKeeps(events);
    var s := Run(Init(), events);
    assert MutationInv(s.table[id], id, s.calls);
  }

  /** A mutation recorded SUCCEEDED had every step's last call answered SUCCEEDED, in order. */
  lemma SucceededWasAnswered(events: seq<Event>, id: nat)
    requires var s := Run(Init(), events); id < |s.table| && s.table[id].state == Succeeded
    ensures var s := Run(Init(), events);
      InOrder(s.calls) && forall i :: 0 <= i < |s.table[id].steps| ==> LastAnswered(s.calls, id, i, AnswerSucceeded, s.table[id].steps[i].code)
  {
    RunKeeps(events);
    var s := Run(Init(), events);
    assert MutationInv(s.table[id], id, s.calls);
    forall i | 0 <= i < |s.table[id].steps| ensures LastAnswered(s.calls, id, i, AnswerSucceeded, s.table[id].steps[i].code) {
      assert StepInv(s.table[id], id, i, s.calls);
    }
  }

  /** What an answer is recorded as: FAILED exactly for a definite failure, SUCCEEDED exactly for a success that
      is not a last step nobody can name, unknown otherwise; with the answer's code, and no other step changes. */
  lemma RecordTells(s: State, made: Option<nat>, unnamed: bool, anchored: bool)
    requires s.pc.Called? && s.pc.id < |s.table| && s.pc.index < |s.table[s.pc.id].steps|
    ensures var m, m' := s.table[s.pc.id], Apply(s, Record(made, unnamed, anchored)).table[s.pc.id];
      var i, last := s.pc.index, s.pc.index + 1 == |m.steps|;
      && |m'.steps| == |m.steps| && m'.steps[i].code == s.pc.code && m'.steps[i].policy == m.steps[i].policy
      && (m'.steps[i].state == StepFailed <==> s.pc.answer == AnswerFailed)
      && (m'.steps[i].state == StepSucceeded <==> s.pc.answer == AnswerSucceeded && !(unnamed && last))
      && m'.steps[i].state in {StepSucceeded, StepFailed, StepUnknown}
      && forall k :: 0 <= k < |m.steps| && k != i ==> m'.steps[k] == m.steps[k]
  {
  }

  /** A step recorded FAILED, of a mutation that was attempted, was answered FAILED by its last call, with that code. */
  lemma FailedWasAnswered(events: seq<Event>, id: nat, i: nat)
    requires var s := Run(Init(), events);
      id < |s.table| && i < |s.table[id].steps| && s.table[id].steps[i].state == StepFailed && !SettledUntried(s.table[id])
    ensures var s := Run(Init(), events); LastAnswered(s.calls, id, i, AnswerFailed, s.table[id].steps[i].code)
  {
    RunKeeps(events);
    var s := Run(Init(), events);
    assert MutationInv(s.table[id], id, s.calls) && StepInv(s.table[id], id, i, s.calls);
  }

  /** What is settled is what its steps show, a retry of an unknown outcome apart; and so is that when it closes. */
  lemma OutcomeIsShown(events: seq<Event>, id: nat)
    requires id < |Run(Init(), events).table|
    ensures var s := Run(Init(), events);
      var m := s.table[id];
      && (!SettledUntried(m) && (m.state == OutcomeUnknown ==> !m.retried) ==> Shown(m.steps, m.state, m.code))
      && (s.pc.Closing? && s.pc.id == id ==> Shown(m.steps, s.pc.state, s.pc.code))
  {
    RunKeeps(events);
    var s := Run(Init(), events);
    assert MutationInv(s.table[id], id, s.calls);
  }

  predicate Interrupts(t: Step) { t.state == StepInFlight || t.state == StepUnknown }

  lemma SomeStepIs(m: Mutation)
    ensures SomeIn(m, StepInFlight) || SomeIn(m, StepUnknown) <==> exists t :: t in m.steps && Interrupts(t)
    ensures SomeIn(m, StepFailed) <==> exists t :: t in m.steps && t.state == StepFailed
  {
    if SomeIn(m, StepInFlight) || SomeIn(m, StepUnknown) {
      var i :| 0 <= i < |m.steps| && Interrupts(m.steps[i]);
      assert m.steps[i] in m.steps;
    }
    if SomeIn(m, StepFailed) {
      var i :| 0 <= i < |m.steps| && m.steps[i].state == StepFailed;
      assert m.steps[i] in m.steps;
    }
  }

  /** The state recovery gives an interrupted mutation, read off its steps. */
  lemma RecoveryReadsTheSteps(m: Mutation)
    requires m.state == InFlight && m.steps != []
    ensures var r := Recovered(m);
      var unknown, failed := exists t :: t in m.steps && Interrupts(t), exists t :: t in m.steps && t.state == StepFailed;
      && (r.state == Succeeded <==> forall t :: t in m.steps ==> t.state == StepSucceeded)
      && (r.state == OutcomeUnknown <==> unknown)
      && (r.state == Failed <==> (forall t :: t in m.steps ==> t.state == Pending) || (failed && !unknown))
      && (r.state != InFlight ==> r.result == Some(Result(r.state, r.code, None)))
      && (r.state in {Succeeded, OutcomeUnknown} ==> r.code == None)
  {
    assert m.steps[0] in m.steps;
    SomeStepIs(m);
  }

  /** And what becomes of the steps: untried ones are settled as never attempted, started ones as unknown. */
  lemma RecoverySettlesTheSteps(m: Mutation, i: nat)
    requires m.state == InFlight && i < |m.steps|
    ensures var r := Recovered(m);
      && |r.steps| == |m.steps|
      && r.steps[i] == (if forall t :: t in m.steps ==> t.state == Pending then m.steps[i].(state := StepFailed, code := Some(NotAttempted))
                        else if m.steps[i].state == StepInFlight then m.steps[i].(state := StepUnknown, code := None)
                        else m.steps[i])
      && ((forall t :: t in m.steps ==> t.state == Pending) ==> r.code == Some(NotAttempted))
  {
    assert m.steps[i] in m.steps;
    SomeStepIs(m);
  }

  /** A recovered FAILED carries the code of the first step that failed. */
  lemma RecoveredCodeIsTheFirst(m: Mutation) returns (i: nat)
    requires m.state == InFlight && Recovered(m).state == Failed && !AllIn(m, Pending)
    ensures i < |m.steps| && m.steps[i].state == StepFailed && Recovered(m).code == m.steps[i].code
    ensures forall k :: 0 <= k < i ==> m.steps[k].state != StepFailed
  {
    i := FirstCodeIsOf(m.steps, 0);
    assert m.steps[0..] == m.steps;
  }

  /** SUCCEEDED+ PENDING+ */
  ghost predicate Resumable(m: Mutation) {
    exists p :: 0 < p < |m.steps| && ShapedAt(m.steps, p) && m.steps[p].state == Pending
  }

  lemma ResumableIsLeftAlone(m: Mutation)
    requires Resumable(m)
    ensures Recovered(m) == m
  {
    var p :| 0 < p < |m.steps| && ShapedAt(m.steps, p) && m.steps[p].state == Pending;
    assert m.steps[0].state == StepSucceeded;
  }

  /** What recovery leaves in flight is a saga stopped between two steps, it leaves exactly
      those and leaves them as they are, and running it again changes nothing. */
  lemma RecoveryIsExact(events: seq<Event>, id: nat)
    requires id < |Run(Init(), events).table|
    ensures var m := Run(Init(), events).table[id];
      && (Recovered(m).state == InFlight <==> m.state == InFlight && Resumable(m))
      && (Recovered(m).state == InFlight ==> Recovered(m) == m)
      && Recovered(Recovered(m)) == Recovered(m)
  {
    RunKeeps(events);
    var s := Run(Init(), events);
    var m := s.table[id];
    assert MutationInv(m, id, s.calls);
    if m.state == InFlight {
      var p :| ShapedAt(m.steps, p);
      if Recovered(m).state == InFlight {
        assert p < |m.steps| ==> m.steps[p].state in {Pending, StepSucceeded};
        var q := if p < |m.steps| && m.steps[p].state == StepSucceeded then p + 1 else p;
        assert ShapedAt(m.steps, q);
        assert q < |m.steps| && m.steps[q].state == Pending;
      } else {
        assert Resumable(m) ==> Recovered(m) == m by { if Resumable(m) { ResumableIsLeftAlone(m); } }
      }
    }
  }
}
