/**
Rotation and revocation of one provider credential, with a crash possible between any two durable
steps.  Beside the tables the state carries what happened to each attempt (`attempts` numbers them,
`owner` says which attempt wrote a version), so that claims can be about candidates even where a version
number is used again.  A key id is the credential itself: ideal hashing.
*/
module CredentialMachine {
  datatype Option<+T> = None | Some(value: T)

  datatype SlotState = Active | Retired | Orphan | Revoked | Destroyed

  datatype Slot = Slot(state: SlotState, keyId: nat)

  /** Where the process is; Idle between calls and after a crash. */
  datatype Pc =
    | Idle
    | Staged(version: nat, secret: nat, prior: Option<nat>)
    | Unproven(version: nat)
    | Proven(version: nat, secret: nat, prior: Option<nat>)
    | Registered(version: nat, prior: Option<nat>)
    | Doubted(version: nat, prior: Option<nat>)
    | Confirmed(version: nat, prior: Option<nat>)
    | Released(prior: Option<nat>)
    | Revoking(version: nat)
    | Gone(version: nat)

  datatype State = State(slots: map<nat, Slot>, secrets: map<nat, nat>, latch: bool, pc: Pc,
                         attempts: nat, owner: map<nat, nat>, issued: set<nat>, dropped: set<nat>,
                         failedProof: set<nat>, failedRecheck: set<nat>, passed: set<nat>, stranded: set<nat>)

  datatype Event =
    | Stage(version: nat, secret: nat)
    | Prove(ok: bool)
    | DropCandidate
    | Register(anchored: bool)
    | Recheck(ok: bool)
    | RollBack(anchored: bool)
    | DeleteOld
    | MarkOldDestroyed
    | Revoke(version: nat, anchored: bool)
    | DeleteRevoked
    | MarkRevokedDestroyed
    | Crash
    | SetLatch(on: bool)

  function Used(s: State): set<nat> { s.slots.Keys + s.secrets.Keys }

  /** One more than the greatest version in either table, starting from 1. */
  predicate IsNext(used: set<nat>, version: nat) {
    version >= 1 && (forall v :: v in used ==> v < version) && (version == 1 || version - 1 in used)
  }

  predicate IsActive(s: State, v: nat) { v in s.slots && s.slots[v].state == Active }

  predicate NoneActive(s: State) { forall v :: v in s.slots ==> s.slots[v].state != Active }

  /** active_version: the version whose slot is ACTIVE, or none. */
  predicate OldIs(s: State, prior: Option<nat>) {
    match prior
    case None => NoneActive(s)
    case Some(v) => IsActive(s, v)
  }

  ghost function ActiveOf(s: State): (prior: Option<nat>)
    ensures OldIs(s, prior)
  {
    if NoneActive(s) then None else
      var v :| v in s.slots && s.slots[v].state == Active;
      Some(v)
  }

  function SetState(slots: map<nat, Slot>, v: nat, state: SlotState): map<nat, Slot> {
    if v in slots then slots[v := slots[v].(state := state)] else slots
  }

  function SetOld(slots: map<nat, Slot>, prior: Option<nat>, state: SlotState): map<nat, Slot> {
    if prior.Some? then SetState(slots, prior.value, state) else slots
  }

  predicate Enabled(s: State, e: Event) {
    match e
    case Stage(version, _) => s.pc == Idle && !s.latch && IsNext(Used(s), version)
    case Prove(_) => s.pc.Staged?
    case DropCandidate => s.pc.Unproven?
    case Register(_) => s.pc.Proven?
    case Recheck(_) => s.pc.Registered?
    case RollBack(_) => s.pc.Doubted?
    case DeleteOld => s.pc.Confirmed?
    case MarkOldDestroyed => s.pc.Released?
    case Revoke(version, _) => s.pc == Idle && IsActive(s, version)
    case DeleteRevoked => s.pc.Revoking?
    case MarkRevokedDestroyed => s.pc.Gone?
    case Crash => true
    case SetLatch(_) => true
  }

  ghost function DoStage(s: State, version: nat, secret: nat): State {
    s.(secrets := s.secrets[version := secret], pc := Staged(version, secret, ActiveOf(s)), attempts := s.attempts + 1,
       owner := s.owner[version := s.attempts], issued := s.issued + {version}, dropped := s.dropped - {version})
  }

  function DoProve(s: State, ok: bool): State
    requires s.pc.Staged?
  {
    var v := s.pc.version;
    if ok then s.(pc := Proven(v, s.pc.secret, s.pc.prior))
    else s.(pc := Unproven(v), failedProof := s.failedProof + if v in s.owner then {s.owner[v]} else {})
  }

  function DoRegister(s: State, anchored: bool): State
    requires s.pc.Proven?
  {
    s.(slots := SetOld(s.slots, s.pc.prior, Retired)[s.pc.version := Slot(Active, s.pc.secret)],
       latch := s.latch || !anchored, pc := if anchored then Registered(s.pc.version, s.pc.prior) else Idle)
  }

  function DoRecheck(s: State, ok: bool): State
    requires s.pc.Registered?
  {
    var v := s.pc.version;
    var attempt := if v in s.owner then {s.owner[v]} else {};
    if ok then s.(pc := Confirmed(v, s.pc.prior), passed := s.passed + attempt)
    else s.(pc := Doubted(v, s.pc.prior), failedRecheck := s.failedRecheck + attempt)
  }

  function DoRollBack(s: State, anchored: bool): State
    requires s.pc.Doubted?
  {
    s.(slots := SetOld(SetState(s.slots, s.pc.version, Orphan), s.pc.prior, Active), latch := s.latch || !anchored, pc := Idle)
  }

  ghost function Apply(s: State, e: Event): State {
    if !Enabled(s, e) then s else
      match e
      case Stage(version, secret) => DoStage(s, version, secret)
      case Prove(ok) => DoProve(s, ok)
      case DropCandidate =>
        s.(secrets := s.secrets - {s.pc.version}, dropped := s.dropped + {s.pc.version}, pc := Idle)
      case Register(anchored) => DoRegister(s, anchored)
      case Recheck(ok) => DoRecheck(s, ok)
      case RollBack(anchored) => DoRollBack(s, anchored)
      case DeleteOld =>
        if s.pc.prior.None? then s.(pc := Idle)
        else s.(secrets := s.secrets - {s.pc.prior.value}, pc := Released(s.pc.prior))
      case MarkOldDestroyed => s.(slots := SetOld(s.slots, s.pc.prior, Destroyed), pc := Idle)
      case Revoke(version, anchored) =>
        s.(slots := SetState(s.slots, version, Revoked), latch := s.latch || !anchored,
           pc := if anchored then Revoking(version) else Idle)
      case DeleteRevoked => s.(secrets := s.secrets - {s.pc.version}, pc := Gone(s.pc.version))
      case MarkRevokedDestroyed => s.(slots := SetState(s.slots, s.pc.version, Destroyed), pc := Idle)
      case Crash =>
        s.(pc := Idle, stranded := s.stranded + if s.pc.Doubted? && s.pc.version in s.owner then {s.owner[s.pc.version]} else {})
      case SetLatch(on) => s.(latch := on)
  }

  function Init(): State {
    State(map[], map[], false, Idle, 0, map[], {}, {}, {}, {}, {}, {})
  }

  /** Where a sequence of events leads from the start. */
  ghost function Run(events: seq<Event>): State
    decreases |events|, 1
  {
    if events == [] then Init() else RunOn(events)
  }

  ghost function RunOn(events: seq<Event>): State
    requires events != []
    decreases |events|, 0
  {
    Apply(Run(events[..|events| - 1]), events[|events| - 1])
  }

  lemma LastStep(events: seq<Event>, e: Event)
    ensures Run(events + [e]) == Apply(Run(events), e)
  {
    assert (events + [e])[..|events + [e]| - 1] == events;
    assert Run(events + [e]) == RunOn(events + [e]);
  }
}
