/** What every sequence of rotations, revocations and crashes keeps. */
module CredentialSafety {
  import opened CredentialMachine

  /** At most one ACTIVE version, and its material is stored and has the registered id. */
  ghost predicate OneActive(s: State) {
    && (forall v, w :: v in s.slots && w in s.slots && s.slots[v].state == Active && s.slots[w].state == Active ==> v == w)
    && (forall v :: v in s.slots && s.slots[v].state == Active ==> v in s.secrets && s.secrets[v] == s.slots[v].keyId)
  }

  predicate Stored(s: State, v: nat) { v in s.slots && v in s.secrets && s.secrets[v] == s.slots[v].keyId }

  predicate HasState(s: State, v: nat, state: SlotState) { v in s.slots && s.slots[v].state == state }

  ghost predicate OldKept(s: State, version: nat, prior: Option<nat>) {
    prior.Some? ==> prior.value != version && HasState(s, prior.value, Retired) && Stored(s, prior.value)
  }

  ghost predicate Candidate(s: State, v: nat) {
    && v !in s.slots && v in s.secrets && v in s.owner && IsNext(Used(s) - {v}, v) && s.dropped == {}
    && s.owner[v] !in s.failedProof && s.owner[v] !in s.failedRecheck
  }

  ghost predicate PcInv(s: State) {
    match s.pc
    case Idle => true
    case Staged(v, secret, prior) => Candidate(s, v) && s.secrets[v] == secret && OldIs(s, prior)
    case Unproven(v) => v !in s.slots && v in s.secrets && IsNext(Used(s) - {v}, v) && s.dropped == {}
    case Proven(v, secret, prior) => Candidate(s, v) && s.secrets[v] == secret && OldIs(s, prior)
    case Registered(v, prior) => IsActive(s, v) && OldKept(s, v, prior) && v in s.owner && s.owner[v] !in s.failedRecheck
    case Doubted(v, prior) => IsActive(s, v) && OldKept(s, v, prior) && v in s.owner && s.owner[v] in s.failedRecheck
    case Confirmed(v, prior) => IsActive(s, v) && OldKept(s, v, prior) && v in s.owner && s.owner[v] in s.passed
    case Released(prior) => prior.Some? && HasState(s, prior.value, Retired)
    case Revoking(v) => HasState(s, v, Revoked)
    case Gone(v) => HasState(s, v, Revoked)
  }

  /** Every number handed out is in a table, or was dropped with its candidate and comes next again. */
  ghost predicate Numbers(s: State) {
    && s.issued == Used(s) + s.dropped
    && forall d :: d in s.dropped ==> IsNext(Used(s), d)
  }

  ghost predicate Owners(s: State) {
    && (forall v :: v in Used(s) ==> v in s.owner)
    && (forall v :: v in s.owner ==> s.owner[v] < s.attempts)
    && (forall v, w :: v in s.owner && w in s.owner && s.owner[v] == s.owner[w] ==> v == w)
    && (forall a :: a in s.failedProof ==> a < s.attempts) && (forall a :: a in s.failedRecheck ==> a < s.attempts)
    && (forall a :: a in s.passed ==> a < s.attempts) && (forall a :: a in s.stranded ==> a in s.failedRecheck)
  }

  /** A registered version passed its proof; one that failed its re-check is ORPHAN, unless the roll-back
      is still due or was lost to a crash. */
  ghost predicate Judged(s: State) {
    forall v :: v in s.slots && v in s.owner ==>
      && s.owner[v] !in s.failedProof
      && (s.owner[v] in s.failedRecheck ==> s.slots[v].state == Orphan || IsDoubted(s, v) || s.owner[v] in s.stranded)
  }

  predicate IsDoubted(s: State, v: nat) { s.pc.Doubted? && s.pc.version == v }

  ghost predicate Inv(s: State) { Owners(s) && Numbers(s) && OneActive(s) && PcInv(s) && Judged(s) }

  lemma StageNumbers(s: State, e: Event)
    requires Numbers(s) && e.Stage? && Enabled(s, e)
    ensures var s' := Apply(s, e);
      && e.version !in Used(s) && Used(s') == Used(s) + {e.version} && Used(s') - {e.version} == Used(s)
      && s'.dropped == {} && Numbers(s')
  {
    var s' := Apply(s, e);
    assert e.version !in Used(s) && Used(s') - {e.version} == Used(s) && Used(s') == Used(s) + {e.version};
    forall d | d in s.dropped ensures d == e.version { assert IsNext(Used(s), d) && IsNext(Used(s), e.version); }
    assert s'.dropped == {};
  }

  lemma StageOwners(s: State, e: Event)
    requires Owners(s) && e.Stage? && Enabled(s, e) && Used(Apply(s, e)) == Used(s) + {e.version}
    ensures Owners(Apply(s, e))
  {
  }

  lemma StageKeeps(s: State, e: Event)
    requires Inv(s) && e.Stage? && Enabled(s, e)
    ensures Inv(Apply(s, e))
  {
    StageNumbers(s, e);
    StageOwners(s, e);
    StageRest(s, e);
  }

  lemma StageRest(s: State, e: Event)
    requires Owners(s) && OneActive(s) && Judged(s) && e.Stage? && Enabled(s, e)
    requires e.version !in Used(s) && Used(Apply(s, e)) - {e.version} == Used(s) && Apply(s, e).dropped == {}
    ensures OneActive(Apply(s, e)) && PcInv(Apply(s, e)) && Judged(Apply(s, e))
  {
    assert Apply(s, e).slots == s.slots;
  }

  lemma DropKeeps(s: State, e: Event)
    requires Inv(s) && e.DropCandidate? && Enabled(s, e)
    ensures Inv(Apply(s, e))
  {
    assert Used(Apply(s, e)) == Used(s) - {s.pc.version};
  }

  // -- the events between staging and dropping, one conjunct at a time --------------------------

  predicate Moves(e: Event) { !e.Stage? && !e.DropCandidate? }

  lemma UsedKept(s: State, e: Event)
    requires PcInv(s) && Moves(e) && Enabled(s, e)
    ensures Used(Apply(s, e)) == Used(s)
  {
    match e
    case Register(_) => assert Used(Apply(s, e)) == Used(s);
    case RollBack(_) => assert Used(Apply(s, e)) == Used(s);
    case DeleteOld => assert Used(Apply(s, e)) == Used(s);
    case MarkOldDestroyed => assert Used(Apply(s, e)) == Used(s);
    case Revoke(_, _) => assert Used(Apply(s, e)) == Used(s);
    case DeleteRevoked => assert Used(Apply(s, e)) == Used(s);
    case MarkRevokedDestroyed => assert Used(Apply(s, e)) == Used(s);
    case _ =>
  }

  /** The bookkeeping of attempts grows only by attempts that own a version. */
  ghost predicate SameAttempts(s: State, s': State) {
    && s'.owner == s.owner && s'.attempts == s.attempts && s'.issued == s.issued && s'.dropped == s.dropped
    && s'.failedProof <= s.failedProof + s.owner.Values && s'.failedRecheck <= s.failedRecheck + s.owner.Values
    && s'.passed <= s.passed + s.owner.Values && s.failedRecheck <= s'.failedRecheck
  }

  lemma AttemptsKept(s: State, e: Event)
    requires Moves(e) && Enabled(s, e) && PcInv(s)
    ensures SameAttempts(s, Apply(s, e)) && Apply(s, e).stranded <= s.stranded + s.failedRecheck
  {
    match e
    case Prove(ok) => assert SameAttempts(s, DoProve(s, ok));
    case Recheck(ok) => assert SameAttempts(s, DoRecheck(s, ok));
    case _ =>
  }

  lemma LedgerKept(s: State, e: Event)
    requires Owners(s) && Numbers(s) && PcInv(s) && Moves(e) && Enabled(s, e)
    ensures Owners(Apply(s, e)) && Numbers(Apply(s, e))
  {
    UsedKept(s, e);
    AttemptsKept(s, e);
    SameLedger(s, Apply(s, e));
  }

  lemma SameLedger(s: State, s': State)
    requires Owners(s) && Numbers(s) && Used(s') == Used(s) && SameAttempts(s, s') && s'.stranded <= s.stranded + s.failedRecheck
    ensures Owners(s') && Numbers(s')
  {
    assert forall a :: a in s.owner.Values ==> a < s.attempts;
  }

  lemma RegisterKeepsActive(s: State, e: Event)
    requires OneActive(s) && PcInv(s) && e.Register? && Enabled(s, e)
    ensures OneActive(Apply(s, e))
  {
    assert s.pc.prior.None? ==> NoneActive(s);
  }

  lemma RollBackKeepsActive(s: State, e: Event)
    requires OneActive(s) && PcInv(s) && e.RollBack? && Enabled(s, e)
    ensures OneActive(Apply(s, e))
  {
  }

  lemma ActiveKept(s: State, e: Event)
    requires OneActive(s) && PcInv(s) && Moves(e) && Enabled(s, e)
    ensures OneActive(Apply(s, e))
  {
    if e.Register? { RegisterKeepsActive(s, e); }
    else if e.RollBack? { RollBackKeepsActive(s, e); }
  }

  lemma ProvePlaceKept(s: State, e: Event)
    requires PcInv(s) && Owners(s) && e.Prove? && Enabled(s, e)
    ensures PcInv(Apply(s, e))
  {
    assert Used(Apply(s, e)) == Used(s);
  }

  lemma RegisterPlaceKept(s: State, e: Event)
    requires OneActive(s) && PcInv(s) && e.Register? && Enabled(s, e)
    ensures PcInv(Apply(s, e))
  {
  }

  lemma PlaceKept(s: State, e: Event)
    requires OneActive(s) && PcInv(s) && Owners(s) && Moves(e) && Enabled(s, e)
    ensures PcInv(Apply(s, e))
  {
    if e.Prove? { ProvePlaceKept(s, e); }
    else if e.Register? { RegisterPlaceKept(s, e); }
    else if e.SetLatch? { UsedKept(s, e); }
  }

  /** Events that only add to what is known of an attempt. */
  predicate Judges(e: Event) { e.Prove? || e.Recheck? || e.Crash? || e.SetLatch? }

  lemma ProofKeepsJudgement(s: State, e: Event)
    requires Judged(s) && PcInv(s) && Owners(s) && e.Prove? && Enabled(s, e)
    ensures Judged(Apply(s, e))
  {
    assert Apply(s, e).slots == s.slots;
  }

  lemma RecheckKeepsJudgement(s: State, e: Event)
    requires Judged(s) && PcInv(s) && Owners(s) && e.Recheck? && Enabled(s, e)
    ensures Judged(Apply(s, e))
  {
    assert Apply(s, e).slots == s.slots;
  }

  lemma ChecksKeepJudgement(s: State, e: Event)
    requires Judged(s) && PcInv(s) && Owners(s) && Judges(e) && Enabled(s, e)
    ensures Judged(Apply(s, e))
  {
    if e.Prove? { ProofKeepsJudgement(s, e); } else if e.Recheck? { RecheckKeepsJudgement(s, e); } else { assert Apply(s, e).slots == s.slots; }
  }

  lemma TablesKeepJudgement(s: State, e: Event)
    requires Judged(s) && PcInv(s) && Moves(e) && !Judges(e) && Enabled(s, e)
    ensures Judged(Apply(s, e))
  {
    match e
    case Register(_) =>
    case RollBack(_) =>
    case _ =>
  }

  lemma JudgementKept(s: State, e: Event)
    requires Judged(s) && PcInv(s) && Owners(s) && Moves(e) && Enabled(s, e)
    ensures Judged(Apply(s, e))
  {
    if Judges(e) { ChecksKeepJudgement(s, e); } else { TablesKeepJudgement(s, e); }
  }

  lemma StepKeeps(s: State, e: Event)
    requires Inv(s)
    ensures Inv(Apply(s, e))
  {
    if Enabled(s, e) {
      if e.Stage? { StageKeeps(s, e); }
      else if e.DropCandidate? { DropKeeps(s, e); }
      else {
        LedgerKept(s, e);
        ActiveKept(s, e);
        PlaceKept(s, e);
        JudgementKept(s, e);
      }
    }
  }

  lemma {:induction false} RunKeeps(events: seq<Event>)
    ensures Inv(Run(events))
    decreases |events|
  {
    if events != [] {
      var before, e := events[..|events| - 1], events[|events| - 1];
      RunKeeps(before);
      StepKeeps(Run(before), e);
      LastStep(before, e);
      assert events == before + [e];
    }
  }

  // -- main results ----------------------------------------------------------------------------

  /** At most one version is ACTIVE and its material is there, whatever was interrupted. */
  lemma ActiveIsUniqueAndStored(events: seq<Event>, v: nat, w: nat)
    requires IsActive(Run(events), v) && IsActive(Run(events), w)
    ensures v == w && Stored(Run(events), v)
  {
    RunKeeps(events);
  }

  /** What registration fixes stays fixed. */
  lemma SlotStays(s: State, e: Event, v: nat)
    requires PcInv(s) && v in s.slots
    ensures v in Apply(s, e).slots && Apply(s, e).slots[v].keyId == s.slots[v].keyId
  {
  }

  /** A registered version number is never handed out again, and never names another credential. */
  lemma {:induction false} RegisteredIsForGood(events: seq<Event>, more: seq<Event>, v: nat, secret: nat)
    requires v in Run(events).slots
    ensures v in Run(events + more).slots && Run(events + more).slots[v].keyId == Run(events).slots[v].keyId
    ensures !Enabled(Run(events + more), Stage(v, secret))
    decreases |more|
  {
    if more == [] {
      assert events + more == events;
    } else {
      var before, e := more[..|more| - 1], more[|more| - 1];
      RegisteredIsForGood(events, before, v, secret);
      RunKeeps(events + before);
      SlotStays(Run(events + before), e, v);
      LastStep(events + before, e);
      assert events + more == events + before + [e];
    }
    assert v in Used(Run(events + more));
  }

  /** The last attempt ended by destroying a candidate that did not prove itself. */
  ghost predicate LastWasDropped(events: seq<Event>)
    decreases |events|
  {
    if events == [] then false else
      var before, e := events[..|events| - 1], events[|events| - 1];
      if !Enabled(Run(before), e) then LastWasDropped(before)
      else e.DropCandidate? || (!e.Stage? && LastWasDropped(before))
  }

  lemma {:induction false} DroppedIsTheLast(events: seq<Event>)
    ensures Run(events).dropped != {} <==> LastWasDropped(events)
    decreases |events|
  {
    if events != [] {
      var before, e := events[..|events| - 1], events[|events| - 1];
      DroppedIsTheLast(before);
      LastStep(before, e);
      assert events == before + [e];
      RunKeeps(before);
      RunKeeps(events);
      if Enabled(Run(before), e) {
        if Moves(e) { AttemptsKept(Run(before), e); }
        else if e.DropCandidate? { assert Run(before).pc.version in Run(events).dropped; }
      }
    }
  }

  /** The next rotation takes a number already handed out exactly when the last attempt failed its proof and
      its candidate was deleted; after a crash between the two the number stays used. */
  lemma NumberIsReusedExactlyAfterADroppedCandidate(events: seq<Event>, version: nat, secret: nat)
    requires Enabled(Run(events), Stage(version, secret))
    ensures version in Run(events).issued <==> LastWasDropped(events)
    ensures version !in Run(events).slots
  {
    RunKeeps(events);
    DroppedIsTheLast(events);
    var s := Run(events);
    assert version !in Used(s);
    if d :| d in s.dropped { assert IsNext(Used(s), d) && IsNext(Used(s), version) && d == version; }
  }

  /** So version numbers are reused: one number for two candidates. */
  lemma NumberReused() returns (events: seq<Event>)
    ensures Enabled(Run(events), Stage(1, 8)) && 1 in Run(events).issued
  {
    events := [] + [Stage(1, 7)];
    LastStep([], Stage(1, 7));
    LastStep(events, Prove(false));
    events := events + [Prove(false)];
    LastStep(events, DropCandidate);
    events := events + [DropCandidate];
  }

  /** The ACTIVE version passed its proof, and it failed its re-check exactly when the roll-back is still due
      or was lost to a crash. */
  lemma FailedCandidatesAreNotActive(events: seq<Event>, v: nat)
    requires IsActive(Run(events), v)
    ensures var s := Run(events);
      && v in s.owner && s.owner[v] !in s.failedProof
      && (s.owner[v] in s.failedRecheck <==> IsDoubted(s, v) || s.owner[v] in s.stranded)
  {
    RunKeeps(events);
    assert v in Used(Run(events));
  }

  /** A crash between the failed re-check and the roll-back leaves the failed candidate ACTIVE. */
  lemma CrashLeavesFailedCandidateActive(events: seq<Event>, v: nat)
    requires IsDoubted(Run(events), v)
    ensures var s' := Run(events + [Crash]);
      s'.pc == Idle && IsActive(s', v) && v in s'.owner && s'.owner[v] in s'.stranded && s'.owner[v] in s'.failedRecheck
  {
    RunKeeps(events);
    LastStep(events, Crash);
    assert v in Used(Run(events));
  }

  /** Such a run from the empty tables: one rotation, its re-check refused, and a crash. */
  lemma FailedCandidateLeftActive() returns (events: seq<Event>)
    ensures var s := Run(events); s.pc == Idle && IsActive(s, 1) && 1 in s.owner && s.owner[1] in s.failedRecheck
  {
    events := [] + [Stage(1, 7)];
    LastStep([], Stage(1, 7));
    LastStep(events, Prove(true));
    events := events + [Prove(true)];
    LastStep(events, Register(true));
    events := events + [Register(true)];
    LastStep(events, Recheck(false));
    events := events + [Recheck(false)];
    assert IsDoubted(Run(events), 1);
    CrashLeavesFailedCandidateActive(events, 1);
    events := events + [Crash];
  }

  /** Registered material is deleted only by a revocation, or as the predecessor of an ACTIVE version whose
      own material is stored and whose re-check passed. */
  lemma DeletedOnlyAfterTheRecheck(events: seq<Event>, e: Event, v: nat)
    requires var s := Run(events); v in s.slots && v in s.secrets && v !in Apply(s, e).secrets
    ensures var s := Run(events);
      if e.DeleteRevoked? then HasState(s, v, Revoked)
      else
        && e.DeleteOld? && s.pc.Confirmed? && s.pc.prior == Some(v) && HasState(s, v, Retired)
        && IsActive(s, s.pc.version) && Stored(s, s.pc.version)
        && s.pc.version in s.owner && s.owner[s.pc.version] in s.passed
  {
    RunKeeps(events);
  }
}
