/**
Durable mutation and step records, and the executor as a state machine over them: every event is one
transaction, one provider call or one volatile move, so a crash is possible between any two.  `calls`
is the log of adapter invocations with what the provider did.  Events that are not enabled change
nothing, so a run is any sequence of events.
*/
module MutationRecords {
  datatype Option<+T> = None | Some(value: T)

  datatype Policy = RetrySameKey | ResolveOnly

  datatype Code = NotAttempted | ProviderCode(n: nat)

  datatype StepState = Pending | StepInFlight | StepSucceeded | StepFailed | StepUnknown

  datatype MutationState = InFlight | Succeeded | Failed | OutcomeUnknown

  datatype Step = Step(policy: Policy, state: StepState, code: Option<Code>)

  /** What a replay answers: the recorded state and code, and the object ref a success made, if any. */
  datatype Result = Result(state: MutationState, code: Option<Code>, made: Option<nat>)

  /** `who` stands for (authenticated client, request id); a local write has no steps. */
  datatype Mutation = Mutation(who: nat, digest: nat, policy: Policy, state: MutationState, retried: bool,
                               code: Option<Code>, result: Option<Result>, degraded: bool, steps: seq<Step>)

  datatype Answer = AnswerSucceeded | AnswerFailed | AnswerUnknown

  datatype Call = Call(id: nat, step: nat, answer: Answer, code: Option<Code>)

  /** Where the executor stands; Idle between requests and after a crash. */
  datatype Pc =
    | Idle
    | At(id: nat, index: nat, made: Option<nat>)
    | Tested(id: nat, index: nat)
    | Armed(id: nat, index: nat)
    | Called(id: nat, index: nat, answer: Answer, code: Option<Code>)
    | Closing(id: nat, state: MutationState, code: Option<Code>, made: Option<nat>)
    | Degrading(id: nat)

  datatype State = State(table: seq<Mutation>, latch: bool, calls: seq<Call>, pc: Pc)

  datatype Event =
    | Local(who: nat, digest: nat, made: Option<nat>, anchored: bool)
    | Request(who: nat, digest: nat, policy: Policy, steps: seq<Policy>, anchored: bool)
    | Proceed(anchored: bool)
    | StartCall
    | Invoke(answer: Answer, code: Option<Code>)
    | Raise
    | Record(made: Option<nat>, unnamed: bool, anchored: bool)
    | Close(anchored: bool)
    | MarkDegraded
    | Crash
    | SetLatch(latch: bool)
    | Recover(id: nat, anchored: bool)

  // -- the record writers --------------------------------------------------------------------

  function Find(table: seq<Mutation>, who: nat): (found: Option<nat>)
    ensures found.Some? ==> found.value < |table| && table[found.value].who == who
    ensures found.None? ==> forall i :: 0 <= i < |table| ==> table[i].who != who
  {
    if table == [] then None
    else if table[|table| - 1].who == who then Some(|table| - 1)
    else Find(table[..|table| - 1], who)
  }

  function NewSteps(policies: seq<Policy>): seq<Step> {
    seq(|policies|, i requires 0 <= i < |policies| => Step(policies[i], Pending, None))
  }

  function Born(who: nat, digest: nat, policy: Policy, policies: seq<Policy>): Mutation {
    Mutation(who, digest, policy, InFlight, false, None, None, false, NewSteps(policies))
  }

  function StartStep(m: Mutation, i: nat): Mutation
    requires i < |m.steps|
  {
    if m.steps[i].state == Pending then m.(steps := m.steps[i := m.steps[i].(state := StepInFlight)]) else m
  }

  function FinishStep(m: Mutation, i: nat, state: StepState, code: Option<Code>): Mutation
    requires i < |m.steps|
  {
    m.(steps := m.steps[i := m.steps[i].(state := state, code := code)])
  }

  function Finish(m: Mutation, state: MutationState, code: Option<Code>, made: Option<nat>): Mutation {
    m.(state := state, code := code, result := Some(Result(state, code, made)))
  }

  /** A local write: recorded and finished in one transaction. */
  function Written(who: nat, digest: nat, made: Option<nat>): Mutation {
    Finish(Mutation(who, digest, ResolveOnly, InFlight, false, None, None, false, []), Succeeded, None, made)
  }

  // -- recovery of one mutation --------------------------------------------------------------

  predicate AllIn(m: Mutation, state: StepState) { forall i :: 0 <= i < |m.steps| ==> m.steps[i].state == state }

  predicate SomeIn(m: Mutation, state: StepState) { exists i :: 0 <= i < |m.steps| && m.steps[i].state == state }

  function FirstCode(steps: seq<Step>): Option<Code> {
    if steps == [] then None else if steps[0].state == StepFailed then steps[0].code else FirstCode(steps[1..])
  }

  function Settle(steps: seq<Step>, from: StepState, to: StepState, code: Option<Code>): seq<Step> {
    seq(|steps|, i requires 0 <= i < |steps| =>
      if steps[i].state == from then steps[i].(state := to, code := code) else steps[i])
  }

  /** What the records of an interrupted mutation prove; a saga between steps is left alone. */
  function Recovered(m: Mutation): Mutation {
    if m.state != InFlight then m
    else if AllIn(m, Pending) then
      Finish(m.(steps := Settle(m.steps, Pending, StepFailed, Some(NotAttempted))), Failed, Some(NotAttempted), None)
    else if SomeIn(m, StepInFlight) || SomeIn(m, StepUnknown) then
      Finish(m.(steps := Settle(m.steps, StepInFlight, StepUnknown, None)), OutcomeUnknown, None, None)
    else if SomeIn(m, StepFailed) then Finish(m, Failed, FirstCode(m.steps), None)
    else if AllIn(m, StepSucceeded) then Finish(m, Succeeded, None, None)
    else m
  }

  // -- one event -----------------------------------------------------------------------------

  function Put(s: State, id: nat, m: Mutation): State
    requires id < |s.table|
  {
    s.(table := s.table[id := m])
  }

  /** After an audited commit: the next place, or the degraded path when the anchor refresh failed. */
  function Committed(s: State, anchored: bool, next: Pc, otherwise: Pc): State {
    if anchored then s.(pc := next) else s.(latch := true, pc := otherwise)
  }

  function DoRequest(s: State, e: Event): State
    requires e.Request?
  {
    match Find(s.table, e.who)
    case None =>
      if s.latch || e.steps == [] then s
      else
        var id := |s.table|;
        Committed(s.(table := s.table + [Born(e.who, e.digest, e.policy, e.steps)]), e.anchored,
                  At(id, 0, None), Degrading(id))
    case Some(id) =>
      var m := s.table[id];
      if m.digest != e.digest || m.state == Succeeded || m.state == Failed then s
      else if m.state == InFlight then s.(pc := At(id, 0, None))
      else if m.retried || m.policy != RetrySameKey then s
      else Put(s, id, m.(retried := true)).(pc := At(id, 0, None))
  }

  /** The next turn of the loop over the steps.  A call is tested against the latch here and started later. */
  function DoProceed(s: State, anchored: bool): State
    requires s.pc.At? && s.pc.id < |s.table|
  {
    var id, i := s.pc.id, s.pc.index;
    var m := s.table[id];
    if i >= |m.steps| then s.(pc := Closing(id, Succeeded, None, s.pc.made))
    else
      var step := m.steps[i];
      if step.state == StepSucceeded then s.(pc := At(id, i + 1, s.pc.made))
      else if step.state == StepFailed then s.(pc := Closing(id, Failed, None, None))
      else if step.state != Pending && step.policy == ResolveOnly then
        var told := if step.state == StepUnknown then m else FinishStep(m, i, StepUnknown, None);
        Committed(Put(s, id, told), anchored, Closing(id, OutcomeUnknown, None, None), Idle)
      else s.(pc := if s.latch then Idle else Tested(id, i))
  }

  function Outcome(answer: Answer): StepState {
    match answer
    case AnswerSucceeded => StepSucceeded
    case AnswerFailed => StepFailed
    case AnswerUnknown => StepUnknown
  }

  /** A last step that created something nothing names is recorded as unknown. */
  function Told(m: Mutation, i: nat, answer: Answer, unnamed: bool): StepState {
    if unnamed && answer == AnswerSucceeded && i + 1 == |m.steps| then StepUnknown else Outcome(answer)
  }

  function DoRecord(s: State, made: Option<nat>, unnamed: bool, anchored: bool): State
    requires s.pc.Called? && s.pc.id < |s.table| && s.pc.index < |s.table[s.pc.id].steps|
  {
    var id, i := s.pc.id, s.pc.index;
    var m := s.table[id];
    var state := Told(m, i, s.pc.answer, unnamed);
    var next := if state == StepSucceeded then At(id, i + 1, if i + 1 == |m.steps| then made else None)
                else Closing(id, if state == StepFailed then Failed else OutcomeUnknown, s.pc.code, None);
    Committed(Put(s, id, FinishStep(m, i, state, s.pc.code)), anchored, next, Degrading(id))
  }

  predicate Enabled(s: State, e: Event) {
    match e
    case Local(_, _, _, _) => s.pc == Idle
    case Request(_, _, _, _, _) => s.pc == Idle
    case Proceed(_) => s.pc.At? && s.pc.id < |s.table|
    case StartCall => s.pc.Tested? && s.pc.id < |s.table| && s.pc.index < |s.table[s.pc.id].steps|
    case Invoke(_, code) => s.pc.Armed? && code != Some(NotAttempted)
    case Raise => s.pc.Called?
    case Record(_, _, _) => s.pc.Called? && s.pc.id < |s.table| && s.pc.index < |s.table[s.pc.id].steps|
    case Close(_) => s.pc.Closing? && s.pc.id < |s.table|
    case MarkDegraded => s.pc.Degrading? && s.pc.id < |s.table|
    case Crash => true
    case SetLatch(_) => true
    case Recover(id, _) => s.pc == Idle && id < |s.table|
  }

  function Apply(s: State, e: Event): State {
    if !Enabled(s, e) then s else
      match e
      case Local(who, digest, made, anchored) =>
        if Find(s.table, who).Some? || s.latch then s
        else Committed(s.(table := s.table + [Written(who, digest, made)]), anchored, Idle, Idle)
      case Request(_, _, _, _, _) => DoRequest(s, e)
      case Proceed(anchored) => DoProceed(s, anchored)
      case StartCall => Put(s, s.pc.id, StartStep(s.table[s.pc.id], s.pc.index)).(pc := Armed(s.pc.id, s.pc.index))
      case Invoke(answer, code) =>
        s.(calls := s.calls + [Call(s.pc.id, s.pc.index, answer, code)], pc := Called(s.pc.id, s.pc.index, answer, code))
      case Raise => s.(pc := Idle)
      case Record(made, unnamed, anchored) => DoRecord(s, made, unnamed, anchored)
      case Close(anchored) =>
        Committed(Put(s, s.pc.id, Finish(s.table[s.pc.id], s.pc.state, s.pc.code, s.pc.made)), anchored, Idle, Degrading(s.pc.id))
      case MarkDegraded => Put(s, s.pc.id, s.table[s.pc.id].(degraded := true)).(pc := Idle)
      case Crash => s.(pc := Idle)
      case SetLatch(latch) => s.(latch := latch)
      case Recover(id, anchored) =>
        var m := s.table[id];
        if Recovered(m) == m then s else Committed(Put(s, id, Recovered(m)), anchored, Idle, Idle)
  }

  function Init(): State { State([], false, [], Idle) }

  function Run(s: State, events: seq<Event>): State {
    if events == [] then s else Apply(Run(s, events[..|events| - 1]), events[|events| - 1])
  }
}
