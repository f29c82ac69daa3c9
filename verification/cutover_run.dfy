/**
The cutover as it runs: each `if` takes one phase further from what is stored.  After every step, checks
included, the process may crash, others may append to the comms chain and the seal may be replaced
(`Seam`).  `trace` records the steps; the stored state is always what the state machine makes of it, so
the theorems over all schedules are about this code.
*/
module CutoverRun {
  import opened CutoverMachine
  import opened CutoverSafety

  datatype Error = NotDrained | NotVerified | LineageConflict | LegacyNotAnchored | ChainNotEmpty | AnchorFailed | SealGone

  datatype Ended = Done | Refused(error: Error) | Crashed

  ghost function Now(trace: seq<Event>): State
    decreases |trace|, 1
  {
    if trace == [] then Init() else After(trace)
  }

  ghost function After(trace: seq<Event>): State
    requires trace != []
    decreases |trace|, 0
  {
    Apply(Now(trace[..|trace| - 1]), trace[|trace| - 1])
  }

  lemma {:induction false} NowIsRun(trace: seq<Event>)
    ensures Now(trace) == Run(Init(), trace)
    decreases |trace|
  {
    if trace != [] {
      NowIsRun(trace[..|trace| - 1]);
      assert Now(trace) == After(trace);
    }
  }

  lemma OneMore(trace: seq<Event>, e: Event)
    ensures Now(trace + [e]) == Apply(Now(trace), e)
  {
    assert (trace + [e])[..|trace + [e]| - 1] == trace;
    assert Now(trace + [e]) == After(trace + [e]);
  }

  lemma StoredIsSound(trace: seq<Event>)
    ensures Inv(Now(trace))
  {
    NowIsRun(trace);
    RunKeeps(Init(), trace);
  }

  /** Steps were added; with `alone` only the cutover's own. */
  ghost predicate Grown(before: seq<Event>, after: seq<Event>, alone: bool) {
    before <= after && (alone ==> forall i :: |before| <= i < |after| ==> !after[i].Tamper? && !after[i].AppendOther?)
  }

  class Cutover {
    const alone: bool  // nobody else touches the comms chain or the legacy seal while a run is going
    var phase: Phase
    var cut: Option<nat>
    var digest: Option<nat>
    var lineage: seq<LineageRow>
    var chain: seq<CommsEvent>
    var anchor: nat
    // the legacy side, behind its port
    var seal: Option<Seal>
    var legacyAnchor: Option<Seal>
    var authRevoked: bool
    ghost var sealsMade: nat
    ghost var trace: seq<Event>

    ghost predicate Stands(place: Place)
      reads this
    {
      Now(trace) == State(phase, cut, digest, lineage, chain, anchor, seal, legacyAnchor, sealsMade, authRevoked, place)
    }

    constructor (alone: bool)
      ensures Stands(Resting) && trace == [] && this.alone == alone
    {
      this.alone := alone;
      phase, cut, digest, lineage, chain, anchor := NotStarted, None, None, [], [], 0;
      seal, legacyAnchor, authRevoked, sealsMade, trace := None, None, false, 0, [];
    }

    /** One more step happened. */
    ghost method Note(e: Event, before: State, place: Place)
      requires Now(trace) == before && (alone ==> !e.Tamper? && !e.AppendOther?)
      requires Apply(before, e) == State(phase, cut, digest, lineage, chain, anchor, seal, legacyAnchor, sealsMade, authRevoked, place)
      modifies this`trace
      ensures Stands(place) && trace == old(trace) + [e]
    {
      OneMore(trace, e);
      trace := trace + [e];
    }

    /** Between two steps of a run: what others do, and perhaps the end of the process. */
    method Seam(ghost place: Place) returns (crash: bool)
      requires Stands(place)
      modifies this`chain, this`anchor, this`seal, this`trace
      ensures Stands(if crash then Resting else place) && Grown(old(trace), trace, alone)
      ensures old(chain) <= chain && (alone ==> chain == old(chain) && anchor == old(anchor) && seal == old(seal))
    {
      var others: nat := *;
      while !alone && others > 0
        invariant Stands(place) && Grown(old(trace), trace, alone) && old(chain) <= chain
        invariant alone ==> chain == old(chain) && anchor == old(anchor) && seal == old(seal)
      {
        Meanwhile(place);
        others := others - 1;
      }
      crash := *;
      if crash { Note(Crash, Now(trace), Resting); }
    }

    /** Somebody else appends an event, or the seal the legacy side reports changes. */
    method Meanwhile(ghost place: Place)
      requires Stands(place) && !alone
      modifies this`chain, this`anchor, this`seal, this`trace
      ensures Stands(place) && Grown(old(trace), trace, alone) && old(chain) <= chain
    {
      var appends: bool := *;
      ghost var before := Now(trace);
      if appends {
        var anchored: bool := *;
        chain := chain + [OtherEvent];
        if anchored { anchor := |chain|; }
        Note(AppendOther(anchored), before, place);
      } else {
        var other: Option<Seal> := *;
        seal := other;
        Note(Tamper(other), before, place);
      }
    }

    // -- the legacy half ---------------------------------------------------------------------

    /** `drained` and `verified` are what the legacy side reports when it is asked. */
    method AdvanceLegacy(drained: bool, verified: bool) returns (r: Ended)
      requires Stands(Resting)
      modifies this
      ensures Stands(Resting) && Grown(old(trace), trace, alone)
      ensures r.Done? ==> Rank(phase) >= Rank(LegacyAnchored)
      ensures Rank(old(phase)) <= Rank(Entered) && Rank(phase) > Rank(Entered) ==> drained
      ensures alone && old(seal).None? && Rank(old(phase)) <= Rank(Drained) && Rank(phase) > Rank(Drained) ==> verified
      ensures r == Refused(NotDrained) ==> !drained && phase == Entered
      ensures r == Refused(NotVerified) ==> !verified && phase == Drained && seal.None?
      ensures r == Refused(LineageConflict) ==> phase == Sealed && !(seal.Some? && digest == Some(seal.value.digest))
    {
      r := Done;
      if phase == NotStarted {
        var ref: nat := *;
        ghost var before := Now(trace);
        phase, cut := Entered, Some(ref);
        Note(Enter(ref), before, Resting);
        var crash := Seam(Resting);
        if crash { return Crashed; }
      }
      if phase == Entered || phase == Drained { r := DrainAndVerify(drained, verified); }
      if r.Done? && (phase == Verified || phase == Sealed) { r := SealAndAnchor(); }
    }

    method DrainAndVerify(drained: bool, verified: bool) returns (r: Ended)
      requires Stands(Resting) && (phase == Entered || phase == Drained)
      modifies this
      ensures Stands(Resting) && Grown(old(trace), trace, alone)
      ensures r.Done? ==> phase == Verified
      ensures old(phase) == Entered && phase != Entered ==> drained
      ensures alone ==> seal == old(seal)
      ensures phase == Verified ==> old(phase) == Drained || drained
      ensures alone && phase == Verified ==> verified || old(seal).Some?
      ensures r == Refused(NotDrained) ==> !drained && phase == Entered
      ensures r == Refused(NotVerified) ==> !verified && phase == Drained && seal.None?
      ensures phase in {Entered, Drained, Verified} && (r.Done? || r.Crashed? || r == Refused(NotDrained) || r == Refused(NotVerified))
    {
      if phase == Entered {
        if !drained { return Refused(NotDrained); }
        r := Move(Drained, CloseAndDrain, Resting);
        if r.Crashed? { return; }
      }
      if seal.None? && !verified { return Refused(NotVerified); }
      r := Move(Verified, VerifyLegacy, Resting);
    }

    method SealAndAnchor() returns (r: Ended)
      requires Stands(Resting) && (phase == Verified || phase == Sealed)
      modifies this
      ensures Stands(Resting) && Grown(old(trace), trace, alone)
      ensures r.Done? ==> phase == LegacyAnchored
      ensures r.Done? || r.Crashed? || r == Refused(LineageConflict) || r == Refused(SealGone)
      ensures r == Refused(LineageConflict) ==> phase == Sealed && !(seal.Some? && digest == Some(seal.value.digest))
    {
      if phase == Verified {
        r := SealOnce();
        if !r.Done? { return; }
      }
      if seal.None? || digest != Some(seal.value.digest) { return Refused(LineageConflict); }
      ghost var before := Now(trace);
      Note(CheckSeal, before, SealChecked);
      var crash := Seam(SealChecked);
      if crash { return Crashed; }
      r := AnchorSealed();
    }

    /** The legacy anchor is refreshed first, then the phase moves. */
    method AnchorSealed() returns (r: Ended)
      requires Stands(SealChecked) && phase == Sealed
      modifies this
      ensures Stands(Resting) && Grown(old(trace), trace, alone) && (r == Done || r == Crashed) && legacyAnchor == old(seal)
      ensures r.Done? ==> phase == LegacyAnchored
    {
      var crash := RefreshSealed();
      if crash { return Crashed; }
      r := Move(LegacyAnchored, AnchorLegacy, AfterRefresh);
    }

    method RefreshSealed() returns (crash: bool)
      requires Stands(SealChecked) && phase == Sealed
      modifies this`chain, this`anchor, this`seal, this`trace, this`legacyAnchor
      ensures Stands(if crash then Resting else AfterRefresh) && Grown(old(trace), trace, alone) && legacyAnchor == old(seal)
    {
      ghost var before := Now(trace);
      legacyAnchor := seal;
      Note(RefreshLegacy, before, AfterRefresh);
      crash := Seam(AfterRefresh);
    }

    /** A transaction that moves the phase and nothing else. */
    method Move(to: Phase, ghost e: Event, ghost place: Place) returns (r: Ended)
      requires Stands(place) && Apply(Now(trace), e) == Now(trace).(phase := to, place := Resting) && !e.Tamper? && !e.AppendOther?
      modifies this`chain, this`anchor, this`seal, this`trace, this`phase
      ensures Stands(Resting) && Grown(old(trace), trace, alone) && phase == to && (r == Done || r == Crashed)
      ensures old(chain) <= chain && (alone ==> chain == old(chain) && anchor == old(anchor) && seal == old(seal))
    {
      ghost var before := Now(trace);
      phase := to;
      Note(e, before, Resting);
      var crash := Seam(Resting);
      return if crash then Crashed else Done;
    }

    /** Reuses a seal that exists, makes one otherwise, and records the digest of the one it read. */
    method SealOnce() returns (r: Ended)
      requires Stands(Resting) && phase == Verified
      modifies this
      ensures Stands(Resting) && Grown(old(trace), trace, alone) && (r.Done? || r.Crashed? || r == Refused(SealGone))
      ensures r.Done? ==> phase == Sealed && digest.Some?
      ensures r.Done? && old(seal).Some? ==> digest == Some(old(seal).value.digest)
      ensures old(seal).Some? ==> sealsMade == old(sealsMade)
      ensures alone && r.Done? ==> seal.Some? && digest == Some(seal.value.digest)
      ensures alone && old(seal).Some? ==> seal == old(seal)
    {
      StoredIsSound(trace);
      if seal.None? {
        var made: Seal := *;
        ghost var before := Now(trace);
        seal, sealsMade := Some(made), sealsMade + 1;
        Note(SealLegacy(made), before, Resting);
        var crash := Seam(Resting);
        if crash { return Crashed; }
        if seal.None? { return Refused(SealGone); }  // read back after the commit
      }
      r := RecordSeen(seal.value);
    }

    method RecordSeen(read: Seal) returns (r: Ended)
      requires Stands(Resting) && phase == Verified && digest.None? && seal == Some(read)
      modifies this`chain, this`anchor, this`seal, this`trace, this`phase, this`digest
      ensures Stands(Resting) && Grown(old(trace), trace, alone) && (r == Done || r == Crashed)
      ensures r.Done? ==> phase == Sealed && digest == Some(read.digest)
      ensures alone ==> seal == old(seal)
    {
      ghost var before := Now(trace);
      Note(ReadSeal, before, SealRead(read));
      var crash := Seam(SealRead(read));
      if crash { return Crashed; }
      crash := RecordDigest(read);
      return if crash then Crashed else Done;
    }

    method RecordDigest(read: Seal) returns (crash: bool)
      requires Stands(SealRead(read)) && phase == Verified && digest.None?
      modifies this`chain, this`anchor, this`seal, this`trace, this`phase, this`digest
      ensures Stands(Resting) && Grown(old(trace), trace, alone) && phase == Sealed && digest == Some(read.digest)
      ensures alone ==> seal == old(seal)
    {
      ghost var before := Now(trace);
      phase, digest := Sealed, Some(read.digest);
      Note(RecordSeal, before, Resting);
      crash := Seam(Resting);
    }

    // -- the comms half ----------------------------------------------------------------------

    method CheckLineage() returns (ok: bool)
      requires cut.Some?
      ensures ok <==> LineageHolds(State(phase, cut, digest, lineage, chain, anchor, seal, legacyAnchor, sealsMade, authRevoked, Resting))
    {
      if seal.None? || digest != Some(seal.value.digest) || |lineage| != 1 { return false; }
      var row := lineage[0];
      return row.columns == Expected(cut.value, seal.value, row.columns.createdAt) && row.digest == row.columns;
    }

    method AdvanceComms() returns (r: Ended)
      requires Stands(Resting)
      modifies this
      ensures Stands(Resting) && Grown(old(trace), trace, alone)
      ensures r.Done? ==> phase == Complete
      ensures r == Refused(LegacyNotAnchored) ==> Rank(phase) < Rank(LegacyAnchored)
      ensures Rank(old(phase)) < Rank(LegacyAnchored) ==> r == Refused(LegacyNotAnchored) && phase == old(phase)
    {
      StoredIsSound(trace);
      if Rank(phase) < Rank(LegacyAnchored) { return Refused(LegacyNotAnchored); }
      r := Done;
      if phase == LegacyAnchored { r := MakeGenesis(); }
      else if phase == Genesis { r := AnchorGenesis(); }
      if r.Done? { r := RevokeAndFinish(); }
    }

    method RevokeAndFinish() returns (r: Ended)
      requires Stands(Resting) && cut.Some? && Rank(phase) >= Rank(CommsAnchored)
      modifies this
      ensures Stands(Resting) && Grown(old(trace), trace, alone)
      ensures r.Done? ==> phase == Complete
      ensures r != Refused(LegacyNotAnchored)
    {
      r := Done;
      if phase == CommsAnchored { r := Revoke(); }
      if r.Done? && phase == AuthRevoked {
        StoredIsSound(trace);
        r := Move(Complete, Finish, Resting);
      }
    }

    method MakeGenesis() returns (r: Ended)
      requires Stands(Resting) && phase == LegacyAnchored && cut.Some?
      modifies this
      ensures Stands(Resting) && Grown(old(trace), trace, alone)
      ensures r.Done? ==> phase == CommsAnchored && cut.Some?
      ensures r != Refused(LegacyNotAnchored)
      ensures r == Refused(ChainNotEmpty) ==> chain == old(chain) && phase == LegacyAnchored && (chain != [] || lineage != [])
    {
      if seal.None? || digest != Some(seal.value.digest) { return Refused(LineageConflict); }
      if chain != [] || lineage != [] { return Refused(ChainNotEmpty); }
      var read := seal.value;
      ghost var before := Now(trace);
      Note(CheckEmpty, before, EmptyChecked(read));
      var crash := Seam(EmptyChecked(read));
      if crash { return Crashed; }
      var anchored := CommitLineage(read);
      if !anchored { return Refused(AnchorFailed); }
      r := ContinueFromAnchor();
    }

    /** The genesis head is anchored: the phase may follow. */
    method ContinueFromAnchor() returns (r: Ended)
      requires Stands(AfterGenesis) && phase == Genesis && cut.Some?
      modifies this
      ensures Stands(Resting) && Grown(old(trace), trace, alone) && (r == Done || r == Crashed)
      ensures r.Done? ==> phase == CommsAnchored && cut.Some?
    {
      var crash := Seam(AfterGenesis);
      if crash { return Crashed; }
      r := Move(CommsAnchored, ContinueAnchored, AfterGenesis);
    }

    /** Lineage of the seal that was read, cutover event and phase in one audited transaction; the writer then
        anchors that head.  The chain is not looked at again. */
    method CommitLineage(read: Seal) returns (anchored: bool)
      requires Stands(EmptyChecked(read)) && phase == LegacyAnchored && cut.Some?
      modifies this
      ensures Stands(if anchored then AfterGenesis else Resting) && Grown(old(trace), trace, alone) && phase == Genesis && cut == old(cut)
      ensures |lineage| == 1 && lineage[0].columns == Expected(cut.value, read, lineage[0].columns.createdAt)
      ensures chain == old(chain) + [CutoverEvent(cut.value, lineage[0].columns, lineage[0].columns)]
    {
      var createdAt: nat := *;
      anchored := *;
      var row := Expected(cut.value, read, createdAt);
      ghost var before := Now(trace);
      lineage, chain, phase := [LineageRow(row, row)], chain + [CutoverEvent(cut.value, row, row)], Genesis;
      if anchored { anchor := |chain|; }
      Note(CommitGenesis(createdAt, anchored), before, if anchored then AfterGenesis else Resting);
    }

    method AnchorGenesis() returns (r: Ended)
      requires Stands(Resting) && phase == Genesis && cut.Some?
      modifies this
      ensures Stands(Resting) && Grown(old(trace), trace, alone)
      ensures r.Done? ==> phase == CommsAnchored && cut.Some?
      ensures r != Refused(LegacyNotAnchored)
    {
      var ok := CheckLineage();
      if !ok { return Refused(LineageConflict); }
      ghost var before := Now(trace);
      Note(CheckGenesis, before, LineageChecked);
      var crash := Seam(LineageChecked);
      if crash { return Crashed; }
      r := RefreshGenesis();
    }

    method RefreshGenesis() returns (r: Ended)
      requires Stands(LineageChecked) && phase == Genesis && cut.Some?
      modifies this
      ensures Stands(Resting) && Grown(old(trace), trace, alone) && (r == Done || r == Crashed || r == Refused(AnchorFailed))
      ensures r.Done? ==> phase == CommsAnchored && cut.Some?
    {
      ghost var before := Now(trace);
      var anchored: bool := *;
      if !anchored {
        Note(Reanchor(false), before, Resting);
        return Refused(AnchorFailed);
      }
      anchor := |chain|;
      Note(Reanchor(true), before, AfterGenesis);
      r := ContinueFromAnchor();
    }

    method Revoke() returns (r: Ended)
      requires Stands(Resting) && phase == CommsAnchored && cut.Some?
      modifies this
      ensures Stands(Resting) && Grown(old(trace), trace, alone)
      ensures r.Done? ==> phase == AuthRevoked
      ensures r != Refused(LegacyNotAnchored)
    {
      var ok := CheckLineage();
      if !ok { return Refused(LineageConflict); }
      ghost var before := Now(trace);
      Note(CheckAuth, before, AuthChecked);
      var crash := Seam(AuthChecked);
      if crash { return Crashed; }
      r := RevokeClients();
    }

    method RevokeClients() returns (r: Ended)
      requires Stands(AuthChecked) && phase == CommsAnchored && cut.Some?
      modifies this
      ensures Stands(Resting) && Grown(old(trace), trace, alone) && authRevoked
      ensures r.Done? ==> phase == AuthRevoked
      ensures r == Done || r == Crashed || r == Refused(AnchorFailed)
    {
      var count: nat := *;
      var securityEpoch: nat := *;
      ghost var before := Now(trace);
      authRevoked := true;
      Note(RevokeAuth(count, securityEpoch), before, AfterRevoke(count, securityEpoch));
      var crash := Seam(AfterRevoke(count, securityEpoch));
      if crash { return Crashed; }
      r := RecordRevoked(count, securityEpoch);
    }

    method RecordRevoked(count: nat, securityEpoch: nat) returns (r: Ended)
      requires Stands(AfterRevoke(count, securityEpoch)) && phase == CommsAnchored && cut.Some?
      modifies this
      ensures Stands(Resting) && Grown(old(trace), trace, alone) && phase == AuthRevoked && authRevoked == old(authRevoked)
      ensures r == Done || r == Crashed || r == Refused(AnchorFailed)
    {
      var anchored: bool := *;
      ghost var before := Now(trace);
      chain, phase := chain + [RevokedEvent(cut.value, count, securityEpoch)], AuthRevoked;
      if anchored { anchor := |chain|; }
      Note(RecordRevocation(anchored), before, Resting);
      if !anchored { return Refused(AnchorFailed); }
      var crash := Seam(Resting);
      return if crash then Crashed else Done;
    }

    /** Both halves in turn, from wherever the last run stopped. */
    method RunCutover(drained: bool, verified: bool) returns (r: Ended)
      requires Stands(Resting)
      modifies this
      ensures Stands(Resting) && Grown(old(trace), trace, alone)
      ensures r.Done? ==> phase == Complete
      ensures Rank(old(phase)) <= Rank(phase)
    {
      ghost var start := trace;
      r := AdvanceLegacy(drained, verified);
      if r.Done? { r := AdvanceComms(); }
      NeverBack(start, trace);
    }
  }

  lemma {:induction false} NeverBack(before: seq<Event>, after: seq<Event>)
    requires before <= after
    ensures Rank(Now(before).phase) <= Rank(Now(after).phase)
    decreases |after|
  {
    if before == after {
    } else {
      var last := after[|after| - 1];
      NeverBack(before, after[..|after| - 1]);
      StoredIsSound(after[..|after| - 1]);
      StepKeeps(Now(after[..|after| - 1]), last);
      OneMore(after[..|after| - 1], last);
      assert after == after[..|after| - 1] + [last];
    }
  }
}
