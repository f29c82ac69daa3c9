/**
The audit chain engine: events linked by MACs, epochs sealed by signed checkpoints, and the loop
that verifies what is stored.  HMAC-SHA256 and Ed25519 are ideal: a MAC is the term it covers and
a signature names its signer and what it signs.
*/
module AuditChain {
  datatype Option<+T> = None | Some(value: T)

  type Key = nat
  type KeyId = nat

  /** The profile's event columns: the id and the rest of the canonical form. */
  datatype Event = Event(id: nat, columns: seq<nat>)

  datatype Mac =
    | GenesisMac(epoch: nat)
    | EventMac(key: Key, epoch: nat, seqNo: nat, prev: Mac, event: Event)
    | ForeignMac(n: nat)

  datatype Row = Row(event: Event, epoch: nat, seqNo: nat, prev: Mac, mac: Mac)

  datatype Reason = EpochSeal | Other(n: nat)

  datatype SignedFields = SignedFields(epoch: nat, seqNo: nat, lastId: nat, lastMac: Mac, createdAt: int, reason: Reason)

  datatype Signature = Signed(signedBy: KeyId, fields: SignedFields) | ForeignSignature(n: nat)

  datatype Checkpoint = Checkpoint(ref: nat, fields: SignedFields, signer: KeyId, signature: Signature)

  datatype ChainError =
    | RootEventMissing | EpochsNotContiguous | NotFromEpochOne | SealsNeedPublicKeys | TwoSeals
    | NotTheRootEvent | RootNotStored | UnknownSigner | BadSignature | SequenceBroken | LinkBroken
    | NoKey | BadMac | EpochNotSealed | LastEpochSealed

  // -- positions -----------------------------------------------------------------------------

  predicate Before(e1: nat, s1: nat, e2: nat, s2: nat) { e1 < e2 || (e1 == e2 && s1 < s2) }

  predicate RowBefore(a: Row, b: Row) { Before(a.epoch, a.seqNo, b.epoch, b.seqNo) }

  /** ORDER BY chain_epoch, chain_seq over a table where that pair is unique. */
  ghost predicate Sorted(rows: seq<Row>) {
    forall i, j :: 0 <= i < j < |rows| ==> RowBefore(rows[i], rows[j])
  }

  predicate Names(c: Checkpoint, r: Row) {
    (c.fields.epoch, c.fields.seqNo, c.fields.lastId, c.fields.lastMac) == (r.epoch, r.seqNo, r.event.id, r.mac)
  }

  predicate MacOk(r: Row, key: Key) { r.mac == EventMac(key, r.epoch, r.seqNo, r.prev, r.event) }

  predicate SignatureOk(c: Checkpoint, publics: set<KeyId>) {
    c.signer in publics && c.signature == Signed(c.signer, c.fields)
  }

  // -- what the verifier accepts -------------------------------------------------------------

  predicate IsSeal(c: Checkpoint, epoch: nat) { c.fields.reason == EpochSeal && c.fields.epoch == epoch }

  ghost predicate OneSealPerEpoch(cps: seq<Checkpoint>) {
    forall i, j :: 0 <= i < j < |cps| && cps[i].fields.reason == EpochSeal && cps[j].fields.reason == EpochSeal ==>
      cps[i].fields.epoch != cps[j].fields.epoch
  }

  ghost predicate SealedAt(cps: seq<Checkpoint>, publics: set<KeyId>, r: Row) {
    exists c :: c in cps && IsSeal(c, r.epoch) && Names(c, r) && SignatureOk(c, publics)
  }

  predicate OpensEpoch(r: Row) { r.seqNo == 1 && r.prev == GenesisMac(r.epoch) }

  /** Row `i` continues row `i - 1` or opens its epoch; the first row is judged by the root. */
  ghost predicate Continues(rows: seq<Row>, i: nat)
    requires i < |rows|
  {
    i > 0 ==>
      if rows[i - 1].epoch == rows[i].epoch then rows[i].seqNo == rows[i - 1].seqNo + 1 && rows[i].prev == rows[i - 1].mac
      else OpensEpoch(rows[i])
  }

  predicate SamePlace(a: Checkpoint, b: Checkpoint) {
    (a.fields.epoch, a.fields.seqNo, a.fields.lastId) == (b.fields.epoch, b.fields.seqNo, b.fields.lastId)
  }

  /** The root names the first row, is stored, and every checkpoint stored at its place is signed. */
  ghost predicate RootVouched(root: Checkpoint, first: Row, cps: seq<Checkpoint>, publics: set<KeyId>) {
    && Names(root, first)
    && (exists c :: c in cps && SamePlace(c, root))
    && (forall c :: c in cps && SamePlace(c, root) ==> SignatureOk(c, publics))
  }

  ghost predicate RowOk(rows: seq<Row>, i: nat, keys: map<nat, Key>)
    requires i < |rows|
  {
    Continues(rows, i) && rows[i].epoch in keys && MacOk(rows[i], keys[rows[i].epoch])
  }

  /** Row `i` ends its epoch only where a seal signs it. */
  ghost predicate EndOk(rows: seq<Row>, i: nat, cps: seq<Checkpoint>, publics: set<KeyId>)
    requires i < |rows|
  {
    i + 1 < |rows| && rows[i].epoch != rows[i + 1].epoch ==> SealedAt(cps, publics, rows[i])
  }

  ghost predicate NoEpochSkipped(rows: seq<Row>) {
    forall i :: NoSkipAt(rows, i)
  }

  predicate NoSkipAt(rows: seq<Row>, i: int) {
    0 <= i < |rows| - 1 ==> rows[i + 1].epoch <= rows[i].epoch + 1
  }

  /** The accepted tables, for a profile whose checkpoints carry a reason and known public keys. */
  ghost predicate Accepts(rows: seq<Row>, cps: seq<Checkpoint>, keys: map<nat, Key>, publics: set<KeyId>,
                          root: Option<Checkpoint>) {
    if rows == [] then root.None? else
      && NoEpochSkipped(rows)
      && (root.None? ==> rows[0].epoch == 1 && OpensEpoch(rows[0]))
      && OneSealPerEpoch(cps)
      && (root.Some? ==> RootVouched(root.value, rows[0], cps, publics))
      && (forall i :: 0 <= i < |rows| ==> RowOk(rows, i, keys) && EndOk(rows, i, cps, publics))
      && (forall c :: c in cps ==> !IsSeal(c, rows[|rows| - 1].epoch))
  }

  /** The same for any caller and profile: without public keys a root's signature is taken on trust and only
      one epoch can be verified; a profile whose checkpoints carry no reason has no seals. */
  ghost predicate AcceptsUnder(hasReason: bool, rows: seq<Row>, cps: seq<Checkpoint>, keys: map<nat, Key>,
                               publics: Option<set<KeyId>>, root: Option<Checkpoint>) {
    if rows == [] then root.None? else
      && NoEpochSkipped(rows)
      && (root.None? ==> rows[0].epoch == 1 && OpensEpoch(rows[0]))
      && (rows[0].epoch != rows[|rows| - 1].epoch ==> publics.Some? && hasReason)
      && (hasReason ==> OneSealPerEpoch(cps) && forall c :: c in cps ==> !IsSeal(c, rows[|rows| - 1].epoch))
      && (root.Some? ==> Names(root.value, rows[0]) && (publics.Some? ==> RootVouched(root.value, rows[0], cps, publics.value)))
      && (forall i :: 0 <= i < |rows| ==> RowOk(rows, i, keys))
      && (publics.Some? && hasReason ==> forall i :: 0 <= i < |rows| ==> EndOk(rows, i, cps, publics.value))
  }

  /** In one epoch no row ends an epoch. */
  lemma OneEpoch(rows: seq<Row>, i: nat)
    requires Sorted(rows) && i < |rows| && rows[0].epoch == rows[|rows| - 1].epoch
    ensures rows[i].epoch == rows[0].epoch
  {
    assert 0 < i ==> RowBefore(rows[0], rows[i]);
    assert i < |rows| - 1 ==> RowBefore(rows[i], rows[|rows| - 1]);
  }

  // -- the loop ------------------------------------------------------------------------------

  method Contiguous(rows: seq<Row>) returns (ok: bool)
    requires Sorted(rows)
    ensures ok <==> NoEpochSkipped(rows)
  {
    var i := 1;
    while i < |rows|
      invariant forall j :: j + 1 < i ==> NoSkipAt(rows, j)
    {
      if rows[i].epoch > rows[i - 1].epoch + 1 {
        assert !NoSkipAt(rows, i - 1);
        return false;
      }
      i := i + 1;
    }
    return true;
  }

  /** The EPOCH_SEAL checkpoints by epoch; None when an epoch has two. */
  method Seals(cps: seq<Checkpoint>) returns (seals: Option<map<nat, Checkpoint>>)
    ensures seals.Some? <==> OneSealPerEpoch(cps)
    ensures seals.Some? ==> forall c :: c in cps && c.fields.reason == EpochSeal ==>
              c.fields.epoch in seals.value && seals.value[c.fields.epoch] == c
    ensures seals.Some? ==> forall e :: e in seals.value ==> seals.value[e] in cps && IsSeal(seals.value[e], e)
  {
    var found: map<nat, Checkpoint> := map[];
    for i := 0 to |cps|
      invariant OneSealPerEpoch(cps[..i])
      invariant forall c :: c in cps[..i] && c.fields.reason == EpochSeal ==>
                  c.fields.epoch in found && found[c.fields.epoch] == c
      invariant forall e :: e in found ==> found[e] in cps[..i] && IsSeal(found[e], e)
    {
      var c := cps[i];
      assert cps[..i + 1] == cps[..i] + [c];
      if c.fields.reason == EpochSeal {
        if c.fields.epoch in found {
          var j :| 0 <= j < i && cps[..i][j] == found[c.fields.epoch];
          assert cps[j].fields.reason == EpochSeal && cps[j].fields.epoch == c.fields.epoch;
          return None;
        }
        found := found[c.fields.epoch := c];
      }
    }
    assert cps[..|cps|] == cps;
    return Some(found);
  }

  method CheckSignature(c: Checkpoint, publics: set<KeyId>) returns (error: Option<ChainError>)
    ensures error.None? <==> SignatureOk(c, publics)
  {
    if c.signer !in publics { return Some(UnknownSigner); }
    if c.signature != Signed(c.signer, c.fields) { return Some(BadSignature); }
    return None;
  }

  method CheckRoot(root: Checkpoint, first: Row, cps: seq<Checkpoint>, publics: set<KeyId>)
    returns (error: Option<ChainError>)
    ensures error.None? <==> RootVouched(root, first, cps, publics)
  {
    if !Names(root, first) { return Some(NotTheRootEvent); }
    var found := false;
    for i := 0 to |cps|
      invariant found <==> exists c :: c in cps[..i] && SamePlace(c, root)
      invariant forall c :: c in cps[..i] && SamePlace(c, root) ==> SignatureOk(c, publics)
    {
      var c := cps[i];
      assert cps[..i + 1] == cps[..i] + [c];
      if SamePlace(c, root) {
        found := true;
        error := CheckSignature(c, publics);
        if error.Some? {
          assert c in cps && SamePlace(c, root);
          return;
        }
      }
    }
    assert cps[..|cps|] == cps;
    if !found { return Some(RootNotStored); }
    return None;
  }

  /** One row of the loop: its seq, its link and its MAC. */
  method CheckRow(r: Row, expectedPrev: Mac, expectedSeq: nat, keys: map<nat, Key>) returns (error: Option<ChainError>)
    ensures error.None? <==>
      r.seqNo == expectedSeq && r.prev == expectedPrev && r.epoch in keys && MacOk(r, keys[r.epoch])
  {
    if r.seqNo != expectedSeq { return Some(SequenceBroken); }
    if r.prev != expectedPrev { return Some(LinkBroken); }
    if r.epoch !in keys { return Some(NoKey); }
    if EventMac(keys[r.epoch], r.epoch, r.seqNo, r.prev, r.event) != r.mac { return Some(BadMac); }
    return None;
  }

  /** Where rows leave an epoch, the row they leave at is the one the epoch's seal names. */
  method CheckSeal(r: Row, seals: map<nat, Checkpoint>, publics: set<KeyId>, ghost cps: seq<Checkpoint>)
    returns (error: Option<ChainError>)
    requires forall c :: c in cps && c.fields.reason == EpochSeal ==> c.fields.epoch in seals && seals[c.fields.epoch] == c
    requires forall e :: e in seals ==> seals[e] in cps && IsSeal(seals[e], e)
    ensures error.None? <==> SealedAt(cps, publics, r)
  {
    if r.epoch !in seals || !Names(seals[r.epoch], r) { return Some(EpochNotSealed); }
    error := CheckSignature(seals[r.epoch], publics);
  }

  /** The loop over the retained rows. */
  method CheckRows(rows: seq<Row>, seals: map<nat, Checkpoint>, keys: map<nat, Key>, publics: set<KeyId>,
                   rooted: bool, ghost cps: seq<Checkpoint>) returns (error: Option<ChainError>)
    requires forall c :: c in cps && c.fields.reason == EpochSeal ==> c.fields.epoch in seals && seals[c.fields.epoch] == c
    requires forall e :: e in seals ==> seals[e] in cps && IsSeal(seals[e], e)
    ensures error.None? <==>
      && (rows != [] && !rooted ==> OpensEpoch(rows[0]))
      && forall i :: 0 <= i < |rows| ==> RowOk(rows, i, keys) && EndOk(rows, i, cps, publics)
  {
    var expectedPrev, expectedSeq := GenesisMac(0), 0;
    var previousEpoch := None;
    var index := 0;
    while index < |rows|
      invariant 0 <= index <= |rows|
      invariant previousEpoch == if index == 0 then None else Some(rows[index - 1].epoch)
      invariant index > 0 ==> expectedPrev == rows[index - 1].mac && expectedSeq == rows[index - 1].seqNo + 1
      invariant index > 0 && !rooted ==> OpensEpoch(rows[0])
      invariant forall i :: 0 <= i < index ==> RowOk(rows, i, keys) && EndOk(rows, i, cps, publics)
    {
      var r := rows[index];
      if previousEpoch != Some(r.epoch) {
        previousEpoch := Some(r.epoch);
        if index == 0 && rooted {
          expectedPrev, expectedSeq := r.prev, r.seqNo;
        } else {
          expectedPrev, expectedSeq := GenesisMac(r.epoch), 1;
        }
      }
      error := CheckRow(r, expectedPrev, expectedSeq, keys);
      if error.Some? {
        assert !RowOk(rows, index, keys) || (index == 0 && !rooted && !OpensEpoch(r));
        return;
      }
      expectedPrev, expectedSeq := r.mac, r.seqNo + 1;
      if index + 1 < |rows| && rows[index + 1].epoch != r.epoch {
        error := CheckSeal(r, seals, publics, cps);
        if error.Some? {
          assert !EndOk(rows, index, cps, publics);
          return;
        }
      }
      index := index + 1;
    }
    return None;
  }

  /** The whole check, for the comms profile with its registered public keys. */
  method VerifyChain(rows: seq<Row>, cps: seq<Checkpoint>, keys: map<nat, Key>, publics: set<KeyId>,
                     root: Option<Checkpoint>) returns (error: Option<ChainError>)
    requires Sorted(rows)
    ensures error.None? <==> Accepts(rows, cps, keys, publics, root)
  {
    error := VerifyUnder(true, rows, cps, keys, Some(publics), root);
  }

  /** The whole check: every stored link is computed anew, epoch by epoch. */
  method VerifyUnder(hasReason: bool, rows: seq<Row>, cps: seq<Checkpoint>, keys: map<nat, Key>,
                     publics: Option<set<KeyId>>, root: Option<Checkpoint>) returns (error: Option<ChainError>)
    requires Sorted(rows)
    ensures error.None? <==> AcceptsUnder(hasReason, rows, cps, keys, publics, root)
  {
    if rows == [] {
      return if root.Some? then Some(RootEventMissing) else None;
    }
    var contiguous := Contiguous(rows);
    if !contiguous { return Some(EpochsNotContiguous); }
    if root.None? && rows[0].epoch != 1 { return Some(NotFromEpochOne); }
    if rows[0].epoch != rows[|rows| - 1].epoch && (publics.None? || !hasReason) { return Some(SealsNeedPublicKeys); }
    var seals: map<nat, Checkpoint> := map[];
    if hasReason {
      var found := Seals(cps);
      if found.None? { return Some(TwoSeals); }
      seals := found.value;
    }
    if root.Some? {
      if !Names(root.value, rows[0]) { return Some(NotTheRootEvent); }
      if publics.Some? {
        error := CheckRoot(root.value, rows[0], cps, publics.value);
        if error.Some? { return; }
      }
    }
    error := CheckUnder(hasReason, rows, seals, keys, publics, root.Some?, cps);
    if error.Some? { return; }
    if rows[|rows| - 1].epoch in seals { return Some(LastEpochSealed); }
    return None;
  }

  /** The loop, where it may find no seal because a single epoch needs none. */
  method CheckUnder(hasReason: bool, rows: seq<Row>, seals: map<nat, Checkpoint>, keys: map<nat, Key>,
                    publics: Option<set<KeyId>>, rooted: bool, ghost cps: seq<Checkpoint>) returns (error: Option<ChainError>)
    requires Sorted(rows) && rows != []
    requires rows[0].epoch != rows[|rows| - 1].epoch ==> publics.Some? && hasReason
    requires hasReason ==> forall c :: c in cps && c.fields.reason == EpochSeal ==> c.fields.epoch in seals && seals[c.fields.epoch] == c
    requires hasReason ==> forall e :: e in seals ==> seals[e] in cps && IsSeal(seals[e], e)
    ensures error.None? <==>
      && (!rooted ==> OpensEpoch(rows[0]))
      && (forall i :: 0 <= i < |rows| ==> RowOk(rows, i, keys))
      && (publics.Some? && hasReason ==> forall i :: 0 <= i < |rows| ==> EndOk(rows, i, cps, publics.value))
  {
    if publics.Some? && hasReason {
      error := CheckRows(rows, seals, keys, publics.value, rooted, cps);
    } else {
      forall i | 0 <= i < |rows| ensures rows[i].epoch == rows[0].epoch { OneEpoch(rows, i); }
      error := CheckRows(rows, map[], keys, {}, rooted, []);
      assert forall i :: 0 <= i < |rows| ==> EndOk(rows, i, [], {});
    }
  }
}
