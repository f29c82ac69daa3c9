/**
The resumable cutover from the legacy audit chain to the comms chain.  Every event is one durable
transaction, one check, one legacy call, one anchor refresh or a crash.  A check and what is done on its
strength are two events, so that others may append to the comms chain or replace the seal in between.
Digests are ideal: equal digests, equal content.
*/
module CutoverMachine {
  datatype Option<+T> = None | Some(value: T)

  datatype Phase =
    | NotStarted | Entered | Drained | Verified | Sealed | LegacyAnchored
    | Genesis | CommsAnchored | AuthRevoked | Complete

  /** The position in the fixed table of phases; the table allows a step of one. */
  function Rank(p: Phase): nat {
    match p
    case NotStarted => 0
    case Entered => 1
    case Drained => 2
    case Verified => 3
    case Sealed => 4
    case LegacyAnchored => 5
    case Genesis => 6
    case CommsAnchored => 7
    case AuthRevoked => 8
    case Complete => 9
  }

  datatype Seal = Seal(epoch: nat, head: nat, digest: nat, keyId: nat)

  datatype Lineage = Lineage(cut: nat, epoch: nat, head: nat, checkpointDigest: nat, keyId: nat, createdAt: nat)

  /** A stored lineage row with the digest stored beside it. */
  datatype LineageRow = LineageRow(columns: Lineage, digest: Lineage)

  datatype CommsEvent =
    | CutoverEvent(cut: nat, lineageDigest: Lineage, payload: Lineage)
    | RevokedEvent(cut: nat, count: nat, securityEpoch: nat)
    | OtherEvent

  /** What the run still going knows beyond what is stored: the seal it read, the check it passed, the call it made. */
  datatype Place =
    | Resting
    | SealRead(read: Seal) | SealChecked | AfterRefresh
    | EmptyChecked(read: Seal) | LineageChecked | AfterGenesis
    | AuthChecked | AfterRevoke(count: nat, securityEpoch: nat)

  datatype State = State(phase: Phase, cut: Option<nat>, digest: Option<nat>, lineage: seq<LineageRow>, chain: seq<CommsEvent>,
                         anchor: nat, seal: Option<Seal>, legacyAnchor: Option<Seal>, sealsMade: nat, authRevoked: bool, place: Place)

  datatype Event =
    | Enter(ref: nat)
    | CloseAndDrain
    | VerifyLegacy
    | SealLegacy(made: Seal)
    | ReadSeal
    | RecordSeal
    | CheckSeal
    | RefreshLegacy
    | AnchorLegacy
    | CheckEmpty
    | CommitGenesis(createdAt: nat, anchored: bool)
    | ContinueAnchored
    | CheckGenesis
    | Reanchor(anchored: bool)
    | CheckAuth
    | RevokeAuth(count: nat, securityEpoch: nat)
    | RecordRevocation(anchored: bool)
    | Finish
    | Crash
    | AppendOther(anchored: bool)
    | Tamper(seal: Option<Seal>)

  /** Every lineage column as the seal determines it, and the time. */
  function Expected(cut: nat, seal: Seal, createdAt: nat): Lineage {
    Lineage(cut, seal.epoch, seal.head, seal.digest, seal.keyId, createdAt)
  }

  predicate SealIsRecorded(s: State) { s.seal.Some? && s.digest == Some(s.seal.value.digest) }

  /** The stored lineage is a single row that the reported seal determines, and its digest is its own. */
  predicate LineageHolds(s: State) {
    && SealIsRecorded(s) && s.cut.Some? && |s.lineage| == 1
    && s.lineage[0].columns == Expected(s.cut.value, s.seal.value, s.lineage[0].columns.createdAt)
    && s.lineage[0].digest == s.lineage[0].columns
  }

  function Appended(s: State, e: CommsEvent, anchored: bool): State {
    s.(chain := s.chain + [e], anchor := if anchored then |s.chain| + 1 else s.anchor)
  }

  predicate Enabled(s: State, e: Event) {
    match e
    case Enter(_) => s.phase == NotStarted
    case CloseAndDrain => s.phase == Entered
    case VerifyLegacy => s.phase == Drained
    case SealLegacy(_) => s.phase == Verified && s.place == Resting && s.seal.None?
    case ReadSeal => s.phase == Verified && s.place == Resting && s.seal.Some?
    case RecordSeal => s.phase == Verified && s.place.SealRead? && (s.digest.None? || s.digest == Some(s.place.read.digest))
    case CheckSeal => s.phase == Sealed && s.place == Resting && SealIsRecorded(s)
    case RefreshLegacy => s.phase == Sealed && s.place == SealChecked
    case AnchorLegacy => s.phase == Sealed && s.place == AfterRefresh
    case CheckEmpty => s.phase == LegacyAnchored && s.place == Resting && SealIsRecorded(s) && s.chain == [] && s.lineage == []
    case CommitGenesis(_, _) => s.phase == LegacyAnchored && s.place.EmptyChecked? && s.cut.Some?
    case ContinueAnchored => s.phase == Genesis && s.place == AfterGenesis
    case CheckGenesis => s.phase == Genesis && s.place == Resting && LineageHolds(s)
    case Reanchor(_) => s.phase == Genesis && s.place == LineageChecked
    case CheckAuth => s.phase == CommsAnchored && s.place == Resting && LineageHolds(s)
    case RevokeAuth(_, _) => s.phase == CommsAnchored && s.place == AuthChecked
    case RecordRevocation(_) => s.phase == CommsAnchored && s.place.AfterRevoke? && s.cut.Some?
    case Finish => s.phase == AuthRevoked
    case _ => true
  }

  function Apply(s: State, e: Event): State {
    if !Enabled(s, e) then s else
      match e
      case Enter(ref) => s.(phase := Entered, cut := Some(ref))
      case CloseAndDrain => s.(phase := Drained)
      case VerifyLegacy => s.(phase := Verified)
      case SealLegacy(made) => s.(seal := Some(made), sealsMade := s.sealsMade + 1)
      case ReadSeal => s.(place := SealRead(s.seal.value))
      case RecordSeal => s.(phase := Sealed, digest := Some(s.place.read.digest), place := Resting)
      case CheckSeal => s.(place := SealChecked)
      case RefreshLegacy => s.(legacyAnchor := s.seal, place := AfterRefresh)
      case AnchorLegacy => s.(phase := LegacyAnchored, place := Resting)
      case CheckEmpty => s.(place := EmptyChecked(s.seal.value))
      case CommitGenesis(createdAt, anchored) =>
        var row := Expected(s.cut.value, s.place.read, createdAt);
        Appended(s.(phase := Genesis, lineage := [LineageRow(row, row)], place := if anchored then AfterGenesis else Resting),
                 CutoverEvent(s.cut.value, row, row), anchored)
      case ContinueAnchored => s.(phase := CommsAnchored, place := Resting)
      case CheckGenesis => s.(place := LineageChecked)
      case Reanchor(anchored) => if anchored then s.(anchor := |s.chain|, place := AfterGenesis) else s.(place := Resting)
      case CheckAuth => s.(place := AuthChecked)
      case RevokeAuth(count, securityEpoch) => s.(authRevoked := true, place := AfterRevoke(count, securityEpoch))
      case RecordRevocation(anchored) =>
        Appended(s.(phase := AuthRevoked, place := Resting), RevokedEvent(s.cut.value, s.place.count, s.place.securityEpoch), anchored)
      case Finish => s.(phase := Complete)
      case Crash => s.(place := Resting)
      case AppendOther(anchored) => Appended(s, OtherEvent, anchored)
      case Tamper(seal) => s.(seal := seal)
  }

  function Init(): State {
    State(NotStarted, None, None, [], [], 0, None, None, 0, false, Resting)
  }

  function Run(s: State, events: seq<Event>): State
    decreases |events|, 1
  {
    if events == [] then s else RunOn(s, events)
  }

  function RunOn(s: State, events: seq<Event>): State
    requires events != []
    decreases |events|, 0
  {
    Apply(Run(s, events[..|events| - 1]), events[|events| - 1])
  }

  lemma LastEvent(s: State, events: seq<Event>)
    requires events != []
    ensures Run(s, events) == Apply(Run(s, events[..|events| - 1]), events[|events| - 1])
  {
    assert Run(s, events) == RunOn(s, events);
  }
}
