/** What a rotation and a revocation come to, for each answer of the checks and each anchor refresh. */
module CredentialOutcomes {
  import opened CredentialMachine
  import opened CredentialSafety

  /** There is always a next version. */
  lemma {:induction false} NextExists(used: set<nat>) returns (version: nat)
    ensures IsNext(used, version) && version !in used
    decreases |used|
  {
    if used == {} {
      version := 1;
    } else {
      var v :| v in used;
      version := NextExists(used - {v});
      if v >= version { version := v + 1; }
      assert used == used - {v} + {v};
    }
  }

  /** A rotation may start: nothing is going on and the audit trail is healthy. */
  predicate Ready(s: State, version: nat) { s.pc == Idle && !s.latch && IsNext(Used(s), version) }

  /** The rows of other versions. */
  predicate OthersSame(s: State, s': State, version: nat, prior: Option<nat>) {
    && (forall v :: v in s.slots && v != version && Some(v) != prior ==> v in s'.slots && s'.slots[v] == s.slots[v])
    && (forall v :: v in s'.slots && v != version ==> v in s.slots)
    && (forall v :: v in s.secrets && v != version && Some(v) != prior ==> v in s'.secrets && s'.secrets[v] == s.secrets[v])
    && (forall v :: v in s'.secrets && v != version ==> v in s.secrets)
  }

  /** The candidate is stored, proved and about to be registered. */
  ghost function ProvenState(s: State, version: nat, secret: nat): State {
    Apply(Apply(s, Stage(version, secret)), Prove(true))
  }

  lemma ProvenIs(s: State, version: nat, secret: nat)
    requires Ready(s, version)
    ensures var s' := ProvenState(s, version, secret);
      && s'.pc == Proven(version, secret, ActiveOf(s)) && s'.secrets == s.secrets[version := secret] && s'.slots == s.slots && !s'.latch
      && s'.owner == s.owner[version := s.attempts] && s'.failedProof == s.failedProof && s'.passed == s.passed && s'.failedRecheck == s.failedRecheck
  {
  }

  lemma RegisteredIs(s: State, version: nat, secret: nat, anchored: bool)
    requires Ready(s, version)
    ensures var s' := Apply(ProvenState(s, version, secret), Register(anchored));
      && s'.slots == SetOld(s.slots, ActiveOf(s), Retired)[version := Slot(Active, secret)] && s'.secrets == s.secrets[version := secret]
      && s'.latch == !anchored && s'.pc == (if anchored then Registered(version, ActiveOf(s)) else Idle)
      && s'.owner == s.owner[version := s.attempts] && s'.passed == s.passed && s'.failedRecheck == s.failedRecheck
  {
    ProvenIs(s, version, secret);
  }

  /** Both checks pass: the candidate is the active credential, its predecessor is destroyed and its material gone. */
  lemma RotationReplaces(s: State, version: nat, secret: nat)
    requires Ready(s, version)
    ensures var prior := ActiveOf(s);
      var s4 := Apply(Apply(ProvenState(s, version, secret), Register(true)), Recheck(true));
      var s' := Apply(Apply(s4, DeleteOld), MarkOldDestroyed);
      && s'.pc == Idle && !s'.latch
      && version in s'.slots && s'.slots[version] == Slot(Active, secret) && version in s'.secrets && s'.secrets[version] == secret
      && (prior.Some? ==> prior.value !in s'.secrets && s'.slots[prior.value] == s.slots[prior.value].(state := Destroyed))
      && OthersSame(s, s', version, prior) && s.attempts in s'.passed
  {
    RegisteredIs(s, version, secret, true);
    assert version !in Used(s);
  }

  /** The proof fails: the candidate is gone, nothing else changed, and the attempt is known to have failed. */
  lemma FailedProofLeavesNothing(s: State, version: nat, secret: nat)
    requires Ready(s, version)
    ensures var s2 := Apply(Apply(s, Stage(version, secret)), Prove(false));
      var s' := Apply(s2, DropCandidate);
      && s2.secrets == s.secrets[version := secret] && s.attempts in s2.failedProof
      && s'.pc == Idle && s'.slots == s.slots && s'.secrets == s.secrets && !s'.latch
  {
    assert version !in Used(s);
    assert s.secrets[version := secret] - {version} == s.secrets;
  }

  /** The re-check fails: the predecessor is active again with its material, the candidate an orphan. */
  lemma FailedRecheckRollsBack(s: State, version: nat, secret: nat, anchored: bool)
    requires Ready(s, version)
    ensures var prior := ActiveOf(s);
      var s4 := Apply(Apply(ProvenState(s, version, secret), Register(true)), Recheck(false));
      var s' := Apply(s4, RollBack(anchored));
      && s'.pc == Idle && s'.latch == !anchored && s.attempts in s'.failedRecheck
      && version in s'.slots && s'.slots[version] == Slot(Orphan, secret)
      && (prior.Some? ==> s'.slots[prior.value] == s.slots[prior.value])
      && OthersSame(s, s', version, None)
  {
    RegisteredIs(s, version, secret, true);
    assert version !in Used(s);
  }

  /** The registration is not anchored: the candidate is active, its predecessor retired with its material, and
      the latch stops the next rotation. */
  lemma UnanchoredRotationLatches(s: State, version: nat, secret: nat, next: nat, other: nat)
    requires Ready(s, version)
    ensures var prior, s' := ActiveOf(s), Apply(ProvenState(s, version, secret), Register(false));
      && s'.latch && s'.pc == Idle && s'.slots[version] == Slot(Active, secret) && s'.secrets == s.secrets[version := secret]
      && (prior.Some? ==> s'.slots[prior.value] == s.slots[prior.value].(state := Retired))
      && Apply(s', Stage(next, other)) == s'
  {
    RegisteredIs(s, version, secret, false);
    assert version !in Used(s);
  }

  /** Revocation: the active version is revoked, its material deleted, its slot destroyed, and nothing else. */
  lemma RevocationDestroys(s: State, v: nat)
    requires s.pc == Idle && IsActive(s, v)
    ensures var s' := Apply(Apply(Apply(s, Revoke(v, true)), DeleteRevoked), MarkRevokedDestroyed);
      && s'.pc == Idle && s'.latch == s.latch
      && s'.slots == s.slots[v := s.slots[v].(state := Destroyed)] && s'.secrets == s.secrets - {v}
  {
    var s1 := Apply(s, Revoke(v, true));
    assert s1.slots == s.slots[v := s.slots[v].(state := Revoked)] && s1.pc == Revoking(v);
  }

  /** Without its anchor the revocation stands, the latch is set and the material is still there. */
  lemma UnanchoredRevocationLatches(s: State, v: nat)
    requires s.pc == Idle && IsActive(s, v)
    ensures var s' := Apply(s, Revoke(v, false));
      s'.pc == Idle && s'.latch && s'.slots == s.slots[v := s.slots[v].(state := Revoked)] && s'.secrets == s.secrets
  {
  }

  /** A crash changes nothing that is stored, and the latch is only what others make it. */
  lemma CrashKeepsTheTables(s: State, on: bool)
    ensures var s' := Apply(s, Crash); s'.slots == s.slots && s'.secrets == s.secrets && s'.latch == s.latch && s'.pc == Idle
    ensures Apply(s, SetLatch(on)) == s.(latch := on)
  {
  }
}
