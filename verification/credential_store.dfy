/**
Rotation and revocation as they run: secrets put and deleted, slots updated across several transactions,
a crash possible after each.  The tables are always what the state machine makes of `trace`.
*/
module CredentialStore {
  import opened CredentialMachine
  import opened CredentialSafety

  datatype Outcome = Rotated(version: nat) | CheckFailed | AuditDegraded | NoActive | Done | Broken

  /** The active credential is there and is the registered one. */
  predicate Works(slots: map<nat, Slot>, secrets: map<nat, nat>, v: nat) {
    v in slots && slots[v].state == Active && v in secrets && secrets[v] == slots[v].keyId
  }

  /** The active version's slot is DESTROYED and its material gone; no other slot and no other material changed. */
  ghost predicate DiscardedActive(s: State, slots: map<nat, Slot>, secrets: map<nat, nat>) {
    exists v :: v in s.slots && s.slots[v].state == Active && slots == SetState(s.slots, v, Destroyed) && secrets == s.secrets - {v}
  }

  /** The new version is the active one and its predecessor is destroyed. */
  predicate Replaced(slots: map<nat, Slot>, secrets: map<nat, nat>, version: nat, secret: nat, prior: Option<nat>) {
    && version in slots && slots[version] == Slot(Active, secret) && version in secrets && secrets[version] == secret
    && (prior.Some? ==> prior.value !in secrets && prior.value in slots && slots[prior.value].state == Destroyed)
  }

  class Credentials {
    var slots: map<nat, Slot>
    var secrets: map<nat, nat>
    var latch: bool
    ghost var trace: seq<Event>

    ghost predicate Stands(pc: Pc)
      reads this
    {
      var s := Run(trace);
      s.slots == slots && s.secrets == secrets && s.latch == latch && s.pc == pc
    }

    constructor ()
      ensures Stands(Idle) && trace == []
    {
      slots, secrets, latch, trace := map[], map[], false, [];
    }

    /** One more step happened. */
    ghost method Note(e: Event, pc: Pc)
      requires var s := Apply(Run(trace), e); s.slots == slots && s.secrets == secrets && s.latch == latch && s.pc == pc
      modifies this`trace
      ensures Stands(pc) && trace == old(trace) + [e] && Run(trace) == Apply(old(Run(trace)), e)
    {
      LastStep(trace, e);
      trace := trace + [e];
    }

    /** SELECT ... WHERE state = 'ACTIVE' */
    method ActiveVersion() returns (prior: Option<nat>)
      requires Stands(Idle)
      ensures prior == ActiveOf(Run(trace))
    {
      RunKeeps(trace);
      var rest := slots.Keys;
      while rest != {}
        invariant rest <= slots.Keys
        invariant forall v :: v in slots && v !in rest ==> slots[v].state != Active
      {
        var v :| v in rest;
        if slots[v].state == Active {
          assert IsActive(Run(trace), v);
          return Some(v);
        }
        rest := rest - {v};
      }
      assert NoneActive(Run(trace));
      return None;
    }

    /** The active credential, or none; its id always recomputes. */
    method ActiveCredential() returns (secret: Option<nat>)
      requires Stands(Idle)
      ensures secret.None? <==> NoneActive(Run(trace))
      ensures secret.Some? ==> exists v :: v in slots && slots[v] == Slot(Active, secret.value) && v in secrets && secrets[v] == secret.value
    {
      RunKeeps(trace);
      var prior := ActiveVersion();
      if prior.None? { return None; }
      var v := prior.value;
      assert IsActive(Run(trace), v);
      return Some(secrets[v]);
    }

    /** One more than the greatest version number in either table. */
    method NextVersion() returns (version: nat)
      ensures IsNext(slots.Keys + secrets.Keys, version)
    {
      version := 1;
      var rest := slots.Keys + secrets.Keys;
      while rest != {}
        invariant rest <= slots.Keys + secrets.Keys
        invariant version >= 1 && (version == 1 || version - 1 in slots.Keys + secrets.Keys)
        invariant forall v :: v in slots.Keys + secrets.Keys && v !in rest ==> v < version
      {
        var v :| v in rest;
        if v >= version { version := v + 1; }
        rest := rest - {v};
      }
    }

    method StageCandidate(secret: nat) returns (version: nat, prior: Option<nat>)
      requires Stands(Idle) && !latch
      modifies this
      ensures Stands(Staged(version, secret, prior)) && prior == ActiveOf(old(Run(trace))) && old(trace) < trace
      ensures slots == old(slots) && version !in slots && secrets == old(secrets)[version := secret]
    {
      prior := ActiveVersion();
      version := NextVersion();
      assert Used(Run(trace)) == slots.Keys + secrets.Keys;
      assert Enabled(Run(trace), Stage(version, secret)) && version !in Used(Run(trace));
      secrets := secrets[version := secret];
      Note(Stage(version, secret), Staged(version, secret, prior));
    }

    method ProveCandidate(version: nat, secret: nat, prior: Option<nat>) returns (proven: bool, gone: bool)
      requires Stands(Staged(version, secret, prior))
      modifies this
      ensures old(trace) < trace && slots == old(slots) && latch == old(latch)
      ensures proven ==> Stands(Proven(version, secret, prior)) && secrets == old(secrets)
      ensures !proven ==> Stands(Idle) && (gone ==> secrets == old(secrets) - {version})
    {
      gone := false;
      proven := *;
      if proven {
        Note(Prove(true), Proven(version, secret, prior));
        return;
      }
      Note(Prove(false), Unproven(version));
      var crash: bool := *;
      if crash {
        Note(Crash, Idle);
        return;
      }
      secrets := secrets - {version};
      Note(DropCandidate, Idle);
      gone := true;
    }

    method Activate(version: nat, secret: nat, prior: Option<nat>) returns (anchored: bool)
      requires Stands(Proven(version, secret, prior))
      modifies this
      ensures old(trace) < trace && secrets == old(secrets)
      ensures slots == SetOld(old(slots), prior, Retired)[version := Slot(Active, secret)]
      ensures Stands(if anchored then Registered(version, prior) else Idle) && latch == (old(latch) || !anchored)
    {
      anchored := *;
      slots := SetOld(slots, prior, Retired)[version := Slot(Active, secret)];
      if !anchored { latch := true; }
      Note(Register(anchored), if anchored then Registered(version, prior) else Idle);
    }

    /** The re-check, and the roll-back when it fails; false when a crash came first. */
    method RecheckActive(version: nat, prior: Option<nat>) returns (ok: bool, settled: bool)
      requires Stands(Registered(version, prior))
      modifies this
      ensures old(trace) < trace && secrets == old(secrets)
      ensures ok ==> Stands(Confirmed(version, prior)) && slots == old(slots) && settled
      ensures !ok ==> Stands(Idle)
      ensures !ok && settled ==> slots == SetOld(SetState(old(slots), version, Orphan), prior, Active)
    {
      settled := true;
      ok := *;
      if ok {
        Note(Recheck(true), Confirmed(version, prior));
        return;
      }
      Note(Recheck(false), Doubted(version, prior));
      var crash: bool := *;
      if crash {
        Note(Crash, Idle);
        settled := false;
        return;
      }
      var anchored: bool := *;
      slots := SetOld(SetState(slots, version, Orphan), prior, Active);
      if !anchored { latch := true; }
      Note(RollBack(anchored), Idle);
    }

    /** Only now is the predecessor destroyed. */
    method Release(version: nat, prior: Option<nat>) returns (finished: bool)
      requires Stands(Confirmed(version, prior))
      modifies this
      ensures old(trace) < trace && Stands(Idle)
      ensures finished ==> secrets == (if prior.Some? then old(secrets) - {prior.value} else old(secrets))
      ensures finished ==> slots == SetOld(old(slots), prior, Destroyed)
    {
      if prior.None? {
        Note(DeleteOld, Idle);
        return true;
      }
      var crash: bool := *;
      if crash {
        Note(Crash, Idle);
        return false;
      }
      secrets := secrets - {prior.value};
      Note(DeleteOld, Released(prior));
      crash := *;
      if crash {
        Note(Crash, Idle);
        return false;
      }
      slots := SetOld(slots, prior, Destroyed);
      Note(MarkOldDestroyed, Idle);
      return true;
    }

    /** One rotation from end to end.  After success the new credential is the active one; after a
        failed check that ran to its end the working credential is still the active one, with its material. */
    method Rotate(secret: nat) returns (r: Outcome)
      requires Stands(Idle)
      modifies this
      ensures Stands(Idle) && old(trace) <= trace
      ensures r.Rotated? ==> r.version !in old(slots) && Replaced(slots, secrets, r.version, secret, ActiveOf(old(Run(trace))))
      ensures r == CheckFailed ==> forall v: nat :: Works(old(slots), old(secrets), v) ==> Works(slots, secrets, v)
      ensures r == AuditDegraded <==> old(latch)
    {
      if latch { return AuditDegraded; }
      WorkingIsActive(trace);
      var version, prior := StageCandidate(secret);
      var crash: bool := *;
      if crash { Note(Crash, Idle); return Broken; }
      var proven, gone := ProveCandidate(version, secret, prior);
      if !proven { return if gone then CheckFailed else Broken; }
      r := ActivateAndCheck(version, secret, prior);
    }

    method ActivateAndCheck(version: nat, secret: nat, prior: Option<nat>) returns (r: Outcome)
      requires Stands(Proven(version, secret, prior))
      modifies this
      ensures Stands(Idle) && old(trace) <= trace && (r.Rotated? || r == CheckFailed || r == Broken)
      ensures r.Rotated? ==> r.version == version && Replaced(slots, secrets, version, secret, prior)
      ensures r == CheckFailed && prior.Some? && Works(old(slots), old(secrets), prior.value) ==> Works(slots, secrets, prior.value)
    {
      StagedIsStored(trace, version, secret, prior);
      var crash: bool := *;
      if crash { Note(Crash, Idle); return Broken; }
      var anchored := Activate(version, secret, prior);
      if !anchored { return Broken; }
      crash := *;
      if crash { Note(Crash, Idle); return Broken; }
      var ok, settled := RecheckActive(version, prior);
      if !ok { return if settled then CheckFailed else Broken; }
      var finished := Release(version, prior);
      return if finished then Rotated(version) else Broken;
    }

    /** Afterwards nothing is active, and exactly the active credential is gone. */
    method RevokeActive() returns (r: Outcome)
      requires Stands(Idle)
      modifies this
      ensures Stands(Idle) && old(trace) <= trace
      ensures r == NoActive <==> NoneActive(old(Run(trace)))
      ensures r == Done ==> NoneActive(Run(trace)) && DiscardedActive(old(Run(trace)), slots, secrets)
    {
      RunKeeps(trace);
      var prior := ActiveVersion();
      if prior.None? { return NoActive; }
      var v := prior.value;
      var anchored := MarkRevoked(v);
      if !anchored { return Broken; }
      r := DestroyRevoked(v);
    }

    method MarkRevoked(v: nat) returns (anchored: bool)
      requires Stands(Idle) && IsActive(Run(trace), v)
      modifies this
      ensures old(trace) <= trace && Stands(if anchored then Revoking(v) else Idle) && NoneActive(Run(trace))
      ensures slots == SetState(old(slots), v, Revoked) && secrets == old(secrets)
    {
      RunKeeps(trace);
      LastRevoked(Run(trace), v);
      anchored := *;
      slots := SetState(slots, v, Revoked);
      if !anchored { latch := true; }
      Note(Revoke(v, anchored), if anchored then Revoking(v) else Idle);
    }

    method DestroyRevoked(v: nat) returns (r: Outcome)
      requires Stands(Revoking(v)) && NoneActive(Run(trace))
      modifies this
      ensures Stands(Idle) && old(trace) <= trace && (r == Done || r == Broken)
      ensures r == Done ==> NoneActive(Run(trace)) && slots == SetState(old(slots), v, Destroyed) && secrets == old(secrets) - {v}
    {
      var crash: bool := *;
      if crash { Note(Crash, Idle); return Broken; }
      secrets := secrets - {v};
      Note(DeleteRevoked, Gone(v));
      crash := *;
      if crash { Note(Crash, Idle); return Broken; }
      slots := SetState(slots, v, Destroyed);
      Note(MarkRevokedDestroyed, Idle);
      return Done;
    }
  }

  lemma StagedIsStored(trace: seq<Event>, version: nat, secret: nat, prior: Option<nat>)
    requires Run(trace).pc == Proven(version, secret, prior)
    ensures var s := Run(trace);
      && version !in s.slots && version in s.secrets && s.secrets[version] == secret
      && (prior.Some? ==> prior.value != version && Works(s.slots, s.secrets, prior.value))
  {
    RunKeeps(trace);
    assert prior.Some? ==> IsActive(Run(trace), prior.value);
  }

  lemma WorkingIsActive(trace: seq<Event>)
    ensures var s := Run(trace); forall v: nat :: Works(s.slots, s.secrets, v) ==> ActiveOf(s) == Some(v)
  {
    RunKeeps(trace);
    var s := Run(trace);
    forall v: nat | Works(s.slots, s.secrets, v) ensures ActiveOf(s) == Some(v) {
      assert IsActive(s, v) && OldIs(s, ActiveOf(s));
    }
  }

  lemma LastRevoked(s: State, v: nat)
    requires OneActive(s) && IsActive(s, v)
    ensures forall w :: w in SetState(s.slots, v, Revoked) ==> SetState(s.slots, v, Revoked)[w].state != Active
  {
  }
}
