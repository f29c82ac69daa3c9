/** The tables as the engine updates them in place, and the checks that compare them with the anchor. */
module AuditIntegrity {
  import opened AuditChain
  import opened AuditHistory
  import opened AuditExact

  /** The checkpoint names the row and carries this signer's signature over the row, the time and the reason. */
  predicate IsSigned(c: Checkpoint, r: Row, signer: KeyId, now: int, reason: Reason) {
    Names(c, r) && c.fields.createdAt == now && c.fields.reason == reason && c.signer == signer && c.signature == Signed(signer, c.fields)
  }

  /** What truncation answers: the root it cut at and how many rows went. */
  datatype Truncation = NothingToDo | RootMismatch | Truncated(ref: nat, deleted: nat)

  /** The event and checkpoint tables with the key registry; `issued` records everything ever made. */
  class AuditTables {
    var rows: seq<Row>
    var cps: seq<Checkpoint>
    var keys: map<nat, Key>
    var publics: set<KeyId>
    ghost var issued: seq<Row>

    constructor (key: Key)
      ensures State() == Init(key)
    {
      rows, cps, keys, publics, issued := [], [], map[1 := key], {}, [];
    }

    ghost function State(): Log
      reads this
    {
      Log(issued, rows, cps, keys, publics)
    }

    method Put(event: Event, key: Key, epoch: nat, seqNo: nat, prev: Mac)
      modifies this`rows, this`issued
      ensures State() == Issue(old(State()), Make(key, epoch, seqNo, prev, event))
    {
      var row := Row(event, epoch, seqNo, prev, EventMac(key, epoch, seqNo, prev, event));
      rows := rows + [row];
      issued := issued + [row];
    }

    /** Appends one event to the head's epoch, or the first event of epoch 1. */
    method AppendEvent(event: Event) returns (ok: bool)
      modifies this
      ensures State() == Apply(old(State()), Append(event))
      ensures ok <==> (if old(rows) == [] then 1 else Last(old(rows)).epoch) in keys
      ensures !ok ==> State() == old(State())
      ensures ok ==> |rows| == |old(rows)| + 1 && old(rows) <= rows && cps == old(cps) && keys == old(keys) && publics == old(publics)
      ensures ok ==> Last(rows).event == event && Authentic(Last(rows), keys)
      ensures ok ==> if old(rows) == [] then Last(rows).epoch == 1 && OpensEpoch(Last(rows))
                     else Last(rows).epoch == Last(old(rows)).epoch && Follows(Last(old(rows)), Last(rows))
    {
      var epoch := if rows == [] then 1 else rows[|rows| - 1].epoch;
      if epoch !in keys { return false; }
      if rows == [] {
        Put(event, keys[1], 1, 1, GenesisMac(1));
      } else {
        var head := rows[|rows| - 1];
        Put(event, keys[epoch], epoch, head.seqNo + 1, head.mac);
      }
      return true;
    }

    /** Signs the head; an empty chain has nothing to sign and is refused. */
    method InsertCheckpoint(signer: KeyId, ref: nat, now: int, reason: Reason) returns (ok: bool)
      modifies this`cps, this`publics
      ensures ok <==> rows != []
      ensures ok ==> cps == old(cps) + [Sign(signer, ref, Last(rows), now, reason)] && publics == old(publics) + {signer}
      ensures ok ==> IsSigned(cps[|cps| - 1], Last(rows), signer, now, reason) && cps[|cps| - 1].ref == ref && SignatureOk(cps[|cps| - 1], publics)
      ensures !ok ==> cps == old(cps) && publics == old(publics)
    {
      if rows == [] { return false; }
      var head := rows[|rows| - 1];
      var fields := SignedFields(head.epoch, head.seqNo, head.event.id, head.mac, now, reason);
      cps := cps + [Checkpoint(ref, fields, signer, Signed(signer, fields))];
      publics := publics + {signer};
      return true;
    }

    /** Seals the current epoch at its head and opens the next one under a new key. */
    method SealAndOpenEpoch(first: Event, newKey: Key, signer: KeyId, ref: nat, now: int) returns (ok: bool)
      modifies this
      ensures State() == Apply(old(State()), SealAndOpen(first, newKey, signer, ref, now))
      ensures ok <==> old(rows) != [] && Authentic(Last(old(rows)), old(keys)) && old(keys)[Last(old(rows)).epoch] != newKey
      ensures !ok ==> State() == old(State())
      ensures ok ==> |rows| == |old(rows)| + 1 && old(rows) <= rows && |cps| == |old(cps)| + 1 && old(cps) <= cps
      ensures ok ==> IsSigned(cps[|cps| - 1], Last(old(rows)), signer, now, EpochSeal) && SignatureOk(cps[|cps| - 1], publics)
      ensures ok ==> Last(rows).event == first && Last(rows).epoch == Last(old(rows)).epoch + 1 && OpensEpoch(Last(rows))
      ensures ok ==> Authentic(Last(rows), keys) && keys == old(keys)[Last(rows).epoch := newKey]
    {
      if rows == [] { return false; }
      var head := rows[|rows| - 1];
      if head.epoch !in keys || keys[head.epoch] == newKey { return false; }
      if head.mac != EventMac(keys[head.epoch], head.epoch, head.seqNo, head.prev, head.event) { return false; }
      ok := InsertCheckpoint(signer, ref, now, EpochSeal);
      keys := keys[head.epoch + 1 := newKey];
      Put(first, newKey, head.epoch + 1, 1, GenesisMac(head.epoch + 1));
      return true;
    }

    /** Deletes the events strictly before the latest verified root, if there is one. */
    method TruncateBefore(cutoff: int) returns (r: Truncation)
      modifies this`rows
      ensures State() == Apply(old(State()), Truncate(cutoff))
      ensures r.NothingToDo? <==> forall c :: !Eligible(old(State()), cutoff, c)
      ensures r.NothingToDo? || r.RootMismatch? ==> rows == old(rows)
      ensures r.Truncated? ==> exists best ::
        && IsRoot(old(State()), cutoff, best) && best.ref == r.ref && Recomputes(old(State()), best)
        && (Sorted(old(rows)) ==> CutBelow(old(rows), best, rows) && |rows| + r.deleted == |old(rows)|)
      ensures r.RootMismatch? ==> exists best :: IsRoot(old(State()), cutoff, best) && !Recomputes(old(State()), best)
    {
      var root, skipped := ChooseRoot(Log([], rows, cps, keys, publics), cutoff);
      assert Chosen(State(), cutoff) == root;
      ChosenIsGreatestEligible(State(), cutoff);
      if root.None? { return NothingToDo; }
      assert IsRoot(State(), cutoff, root.value);
      if !exists r :: r in rows && Names(root.value, r) && r.epoch in keys && MacOk(r, keys[r.epoch]) { return RootMismatch; }
      var before := |rows|;
      if Sorted(rows) { CutIsExact(rows, root.value); }
      FromShortens(rows, root.value.fields.epoch, root.value.fields.seqNo);
      rows := From(rows, root.value.fields.epoch, root.value.fields.seqNo);
      return Truncated(root.value.ref, before - |rows|);
    }
  }

  // -- verify_all: the comms chain -----------------------------------------------------------

  datatype Problem = ChainInvalid | ChainEmpty | AnchorMismatch

  /** The comms section of `audit verify --all`. */
  method CheckComms(rows: seq<Row>, cps: seq<Checkpoint>, keys: map<nat, Key>, publics: set<KeyId>, anchor: Option<Anchor>)
    returns (problems: seq<Problem>)
    requires Sorted(rows)
    ensures problems == [] <==> Verifies(rows, cps, keys, publics) && Anchored(rows, keys, anchor)
  {
    problems := [];
    var ok := Verify(rows, cps, keys, publics);
    if !ok { problems := problems + [ChainInvalid]; }
    if rows == [] { return problems + [ChainEmpty]; }
    var head := rows[|rows| - 1];
    if anchor.None? || head.epoch !in keys || anchor.value.key != keys[head.epoch] || !Anchors(anchor.value, head) {
      problems := problems + [AnchorMismatch];
    }
  }

  // -- the integrity verdict -----------------------------------------------------------------

  datatype Verdict = Clean | RecoveryRequired | FailClosed

  function AnchorEpoch(rows: seq<Row>): nat { if rows == [] then 1 else Last(rows).epoch }

  /** read_anchor succeeds: the file authenticates under the key of the head's epoch. */
  predicate AnchorReads(rows: seq<Row>, keys: map<nat, Key>, anchor: Option<Anchor>) {
    anchor.Some? && AnchorEpoch(rows) in keys && anchor.value.key == keys[AnchorEpoch(rows)]
  }

  /** The verdict on the stored rows and the anchor file; no root is passed, so rows must begin at genesis. */
  method DeriveIntegrity(rows: seq<Row>, cps: seq<Checkpoint>, keys: map<nat, Key>, publics: set<KeyId>,
                         anchor: Option<Anchor>) returns (verdict: Verdict)
    requires Sorted(rows)
    ensures rows == [] ==> (verdict == Clean <==> AnchorReads(rows, keys, anchor) && anchor.value.seqNo == 0)
    ensures rows != [] ==> (verdict == Clean <==>
      AnchorReads(rows, keys, anchor) && Accepts(rows, cps, keys, publics, None) &&
      (anchor.value.epoch, anchor.value.seqNo, anchor.value.mac) == (Last(rows).epoch, Last(rows).seqNo, Last(rows).mac))
    ensures verdict == RecoveryRequired <==>
      rows != [] && AnchorReads(rows, keys, anchor) && Accepts(rows, cps, keys, publics, None) &&
      anchor.value.epoch == Last(rows).epoch && anchor.value.seqNo + 1 == Last(rows).seqNo
  {
    var epoch := if rows == [] then 1 else rows[|rows| - 1].epoch;
    if anchor.None? || epoch !in keys || anchor.value.key != keys[epoch] { return FailClosed; }
    var a := anchor.value;
    if rows == [] { return if a.seqNo > 0 then FailClosed else Clean; }
    var head := rows[|rows| - 1];
    if Before(head.epoch, head.seqNo, a.epoch, a.seqNo) { return FailClosed; } // the database lost history
    var error := VerifyChain(rows, cps, keys, publics, None);
    if error.Some? { return FailClosed; }
    if a.epoch != head.epoch { return FailClosed; }
    if head.seqNo == a.seqNo { return if a.mac == head.mac then Clean else FailClosed; }
    return if head.seqNo - a.seqNo == 1 then RecoveryRequired else FailClosed;
  }

  lemma GenesisAcceptedVerifies(rows: seq<Row>, cps: seq<Checkpoint>, keys: map<nat, Key>, publics: set<KeyId>)
    requires rows != [] && Accepts(rows, cps, keys, publics, None)
    ensures rows[0].epoch == 1 && rows[0].seqNo == 1 && Verifies(rows, cps, keys, publics)
  {
  }

  lemma AcceptedFromGenesis(log: Log, rows: seq<Row>)
    requires Inv(log) && Sorted(rows) && Unforged(log, rows, log.cps) && rows != []
    requires Accepts(rows, log.cps, log.keys, log.publics, None)
    ensures |rows| <= |log.issued| && rows == log.issued[..|rows|]
  {
    GenesisAcceptedVerifies(rows, log.cps, log.keys, log.publics);
    var a := AcceptedIsABlock(log, rows, log.cps);
    assert log.issued[a] == rows[0];
    OnePlace(log.issued, log.keys, a, 0);
  }

  /**
  With the latest head anchored, the verdict on a chain that starts at genesis is CLEAN exactly when
  nothing was deleted or edited, and FAIL_CLOSED otherwise.
  */
  method VerdictIsExact(key: Key, ops: seq<Op>, rows: seq<Row>, anchor: Option<Anchor>) returns (verdict: Verdict)
    requires var log := Run(key, ops); Sorted(rows) && Unforged(log, rows, log.cps) && AnchorsLatest(log, anchor)
    ensures var log := Run(key, ops); verdict == if rows == log.issued then Clean else FailClosed
  {
    var log := Run(key, ops);
    RunKeeps(key, ops);
    verdict := DeriveIntegrity(rows, log.cps, log.keys, log.publics, anchor);
    SeqPositive(log, |log.issued| - 1);
    if rows == log.issued {
      WholeIsAccepted(log);
    } else if rows != [] && Accepts(rows, log.cps, log.keys, log.publics, None) {
      PrefixIsBehind(log, rows);
    }
  }

  lemma WholeIsAccepted(log: Log)
    requires Inv(log) && log.issued != []
    ensures Accepts(log.issued, log.cps, log.keys, log.publics, None)
  {
    assert Suffix(log.issued, log.cps, log.issued, 0);
    SuffixVerifies(log, log.issued, 0);
    RootFound(log, log.issued, 0);
  }

  lemma PrefixIsBehind(log: Log, rows: seq<Row>)
    requires Inv(log) && Sorted(rows) && Unforged(log, rows, log.cps) && rows != [] && rows != log.issued
    requires Accepts(rows, log.cps, log.keys, log.publics, None)
    ensures |rows| < |log.issued| && RowBefore(Last(rows), Last(log.issued))
  {
    AcceptedFromGenesis(log, rows);
    assert |rows| == |log.issued| ==> rows == log.issued;
    assert Last(rows) == log.issued[|rows| - 1];
    Climbs(log.issued, log.keys, |rows| - 1, |log.issued| - 1);
  }

  lemma {:induction false} SeqPositive(log: Log, i: int)
    requires IssuedInv(log.issued, log.keys) && 0 <= i < |log.issued|
    ensures log.issued[i].seqNo > 0
    decreases i
  {
    assert LinkAt(log.issued, i);
    if i > 0 { SeqPositive(log, i - 1); }
  }

  /** The writer wrote this anchor when it committed issued row `j`. */
  ghost predicate AnchorOf(log: Log, anchor: Option<Anchor>, j: int) {
    && 0 <= j < |log.issued| && anchor.Some? && Anchors(anchor.value, log.issued[j])
    && log.issued[j].epoch in log.keys && anchor.value.key == log.keys[log.issued[j].epoch]
  }

  /** RECOVERY_REQUIRED: the rows are the issued chain up to the row after the anchored one, same epoch. */
  method RecoveryIsOneBehind(key: Key, ops: seq<Op>, rows: seq<Row>, anchor: Option<Anchor>, ghost j: int)
    returns (verdict: Verdict)
    requires var log := Run(key, ops); Sorted(rows) && Unforged(log, rows, log.cps) && AnchorOf(log, anchor, j)
    ensures var log := Run(key, ops); verdict == RecoveryRequired ==>
      && j + 2 == |rows| <= |log.issued| && rows == log.issued[..j + 2]
      && log.issued[j + 1].epoch == log.issued[j].epoch
  {
    var log := Run(key, ops);
    RunKeeps(key, ops);
    verdict := DeriveIntegrity(rows, log.cps, log.keys, log.publics, anchor);
    if verdict == RecoveryRequired {
      AcceptedFromGenesis(log, rows);
      assert Last(rows) == log.issued[|rows| - 1];
      OneApart(log.issued, log.keys, j, |rows| - 1);
    }
  }

  /** One number apart in an epoch is one place apart. */
  lemma OneApart(issued: seq<Row>, keys: map<nat, Key>, j: int, n: int)
    requires IssuedInv(issued, keys) && 0 <= j < |issued| && 0 <= n < |issued|
    requires issued[n].epoch == issued[j].epoch && issued[n].seqNo == issued[j].seqNo + 1
    ensures n == j + 1
  {
    if n < j { Climbs(issued, keys, n, j); }
    if j + 1 < n {
      Climbs(issued, keys, j, j + 1);
      Climbs(issued, keys, j + 1, n);
    }
  }

  // -- repair --------------------------------------------------------------------------------

  datatype Repair =
    | Plan(anchorEpoch: nat, anchorSeq: nat, headEpoch: nat, headSeq: nat)
    | AnchorMissing | AnchorUnauthenticated | ChainIsEmpty | AnchorAhead | AnchorNotInChain | ChainBroken | LineageInvalid

  /** The anchor authenticates under its own epoch's key and names a retained row. */
  ghost predicate NamesRetained(rows: seq<Row>, keys: map<nat, Key>, anchor: Option<Anchor>) {
    && anchor.Some? && anchor.value.epoch in keys && anchor.value.key == keys[anchor.value.epoch]
    && exists r :: r in rows && Anchors(anchor.value, r)
  }

  method RowAt(rows: seq<Row>, epoch: nat, seqNo: nat) returns (found: Option<Row>)
    ensures found.Some? ==> found.value in rows && found.value.epoch == epoch && found.value.seqNo == seqNo
    ensures found.None? ==> forall r :: r in rows ==> !(r.epoch == epoch && r.seqNo == seqNo)
  {
    for i := 0 to |rows|
      invariant forall j :: 0 <= j < i ==> !(rows[j].epoch == epoch && rows[j].seqNo == seqNo)
    {
      if rows[i].epoch == epoch && rows[i].seqNo == seqNo { return Some(rows[i]); }
    }
    return None;
  }

  /** Repair is planned exactly when the anchor names a retained row of a chain that verifies. */
  method VerifyForRepair(rows: seq<Row>, cps: seq<Checkpoint>, keys: map<nat, Key>, publics: set<KeyId>,
                         anchor: Option<Anchor>, lineages: seq<(nat, nat)>) returns (repair: Repair)
    requires Sorted(rows)
    ensures repair.Plan? <==>
      && NamesRetained(rows, keys, anchor) && Verifies(rows, cps, keys, publics)
      && (forall c :: c in cps ==> SignatureOk(c, publics)) && (forall p :: p in lineages ==> p.0 == p.1)
    ensures repair.Plan? ==>
      rows != [] && repair == Plan(anchor.value.epoch, anchor.value.seqNo, Last(rows).epoch, Last(rows).seqNo)
  {
    if anchor.None? { return AnchorMissing; }
    var a := anchor.value;
    if a.epoch !in keys || a.key != keys[a.epoch] { return AnchorUnauthenticated; }
    if rows == [] { return ChainIsEmpty; }
    var head := rows[|rows| - 1];
    if Before(head.epoch, head.seqNo, a.epoch, a.seqNo) {
      assert forall r :: r in rows ==> r == head || RowBefore(r, head);
      return AnchorAhead;
    }
    var found := RowAt(rows, a.epoch, a.seqNo);
    if found.None? || found.value.event.id != a.id || found.value.mac != a.mac {
      assert forall r :: r in rows ==> !Anchors(a, r);
      return AnchorNotInChain;
    }
    assert found.value in rows && Anchors(a, found.value);
    for i := 0 to |cps|
      invariant forall c :: c in cps[..i] ==> SignatureOk(c, publics)
    {
      var error := CheckSignature(cps[i], publics);
      if error.Some? {
        assert cps[i] in cps;
        return ChainBroken;
      }
      assert cps[..i + 1] == cps[..i] + [cps[i]];
    }
    assert cps[..|cps|] == cps;
    var ok := Verify(rows, cps, keys, publics);
    if !ok { return ChainBroken; }
    for i := 0 to |lineages|
      invariant forall p :: p in lineages[..i] ==> p.0 == p.1
    {
      if lineages[i].0 != lineages[i].1 {
        assert lineages[i] in lineages;
        return LineageInvalid;
      }
      assert lineages[..i + 1] == lineages[..i] + [lineages[i]];
    }
    assert lineages[..|lineages|] == lineages;
    return Plan(a.epoch, a.seqNo, head.epoch, head.seqNo);
  }

  /** The event `audit_repair` appends to the head it found. */
  function RepairRow(rows: seq<Row>, keys: map<nat, Key>, event: Event): Row
    requires rows != [] && Last(rows).epoch in keys
  {
    var head := Last(rows);
    Make(keys[head.epoch], head.epoch, head.seqNo + 1, head.mac, event)
  }

  /** The anchor the writer makes of a row, under its epoch's key. */
  function AnchorTo(r: Row, key: Key): Anchor { Anchor(r.epoch, r.seqNo, r.event.id, r.mac, key) }

  /**
  One repair: the head's epoch has its key, the tables with the repair event still verify, its row is the
  anchored head, and the row the old anchor named lies below it.
  */
  lemma RepairClimbs(rows: seq<Row>, cps: seq<Checkpoint>, keys: map<nat, Key>, publics: set<KeyId>,
                     anchor: Option<Anchor>, event: Event)
    requires Sorted(rows) && rows != [] && Verifies(rows, cps, keys, publics) && NamesRetained(rows, keys, anchor)
    ensures Last(rows).epoch in keys
    ensures var next := RepairRow(rows, keys, event);
      && Sorted(rows + [next]) && Verifies(rows + [next], cps, keys, publics)
      && Anchored(rows + [next], keys, Some(AnchorTo(next, keys[next.epoch])))
      && exists r :: r in rows && Anchors(anchor.value, r) && RowBefore(r, next)
  {
    assert RowOk(rows, |rows| - 1, keys);
    var next := RepairRow(rows, keys, event);
    NextStaysSorted(rows, next);
    NextVerifies(rows, cps, keys, publics, next);
    var r :| r in rows && Anchors(anchor.value, r);
    assert RowBefore(r, next);
  }

  lemma NextStaysSorted(rows: seq<Row>, next: Row)
    requires Sorted(rows) && rows != [] && next.epoch == Last(rows).epoch && next.seqNo == Last(rows).seqNo + 1
    ensures Sorted(rows + [next]) && forall r :: r in rows ==> RowBefore(r, next)
  {
    forall i | 0 <= i < |rows| ensures RowBefore(rows[i], next) {
      assert i == |rows| - 1 || RowBefore(rows[i], Last(rows));
    }
    var all := rows + [next];
    forall i, j | 0 <= i < j < |all| ensures RowBefore(all[i], all[j]) {
      if j < |rows| { assert RowBefore(rows[i], rows[j]); }
    }
  }

  lemma NextVerifies(rows: seq<Row>, cps: seq<Checkpoint>, keys: map<nat, Key>, publics: set<KeyId>, next: Row)
    requires rows != [] && Verifies(rows, cps, keys, publics) && next.epoch in keys && MacOk(next, keys[next.epoch])
    requires next.epoch == Last(rows).epoch && next.seqNo == Last(rows).seqNo + 1 && next.prev == Last(rows).mac
    ensures Verifies(rows + [next], cps, keys, publics)
  {
    var all := rows + [next];
    assert all[0] == rows[0];
    forall i ensures NoSkipAt(all, i) { assert NoSkipAt(rows, i); }
    forall i | 0 <= i < |all| ensures RowOk(all, i, keys) && EndOk(all, i, cps, publics) {
      if i < |rows| { assert RowOk(rows, i, keys) && EndOk(rows, i, cps, publics); }
    }
  }
}

/** The anchor over whole runs: commits whose anchor may fail, truncations, and repairs as they are planned. */
module AuditClimb {
  import opened AuditChain
  import opened AuditHistory
  import opened AuditExact
  import opened AuditIntegrity

  /** `heads` are the places in the issued chain of the rows that were anchored, in the order they were. */
  datatype Desk = Desk(log: Log, heads: seq<nat>)

  datatype Act = Commit(op: Op, anchored: bool) | Repair(event: Event, anchored: bool)

  function AnchorOn(d: Desk): Option<Anchor> {
    if d.heads == [] then None else
      var at := d.heads[|d.heads| - 1];
      if at < |d.log.issued| && d.log.issued[at].epoch in d.log.keys
      then Some(AnchorTo(d.log.issued[at], d.log.keys[d.log.issued[at].epoch])) else None
  }

  /** What `VerifyForRepair` plans a repair on. */
  ghost predicate Planned(d: Desk) {
    && NamesRetained(d.log.rows, d.log.keys, AnchorOn(d)) && Verifies(d.log.rows, d.log.cps, d.log.keys, d.log.publics)
    && forall c :: c in d.log.cps ==> SignatureOk(c, d.log.publics)
  }

  /** A commit anchors exactly the head it made, if the refresh succeeds. */
  function DoCommit(d: Desk, op: Op, anchored: bool): Desk {
    var log' := Apply(d.log, op);
    Desk(log', if anchored && |log'.issued| > |d.log.issued| then d.heads + [|log'.issued| - 1] else d.heads)
  }

  ghost function Do(d: Desk, act: Act): Desk {
    match act
    case Commit(op, anchored) => DoCommit(d, op, anchored)
    case Repair(event, anchored) => if Planned(d) then DoCommit(d, Append(event), anchored) else d
  }

  ghost function After(key: Key, acts: seq<Act>): Desk {
    if acts == [] then Desk(Init(key), []) else Do(After(key, acts[..|acts| - 1]), acts[|acts| - 1])
  }

  ghost predicate Climbing(d: Desk) {
    && (forall i :: 0 <= i < |d.heads| ==> d.heads[i] < |d.log.issued|)
    && (forall i, j :: 0 <= i < j < |d.heads| ==> d.heads[i] < d.heads[j])
  }

  lemma IssuedOnlyGrows(log: Log, op: Op)
    ensures log.issued <= Apply(log, op).issued
  {
  }

  lemma OpKeeps(log: Log, op: Op)
    requires Inv(log)
    ensures Inv(Apply(log, op))
  {
    match op
    case Append(event) => AppendKeeps(log, event);
    case SealAndOpen(_, _, _, _, _) => SealKeeps(log, op);
    case MakeCheckpoint(_, _, _, _) => CheckpointKeeps(log, op);
    case Truncate(cutoff) => TruncateKeeps(log, cutoff);
  }

  lemma CommitKeeps(d: Desk, op: Op, anchored: bool)
    requires Inv(d.log) && Climbing(d)
    ensures var d' := DoCommit(d, op, anchored);
      Inv(d'.log) && Climbing(d') && d.log.issued <= d'.log.issued && d.heads <= d'.heads
  {
    OpKeeps(d.log, op);
    IssuedOnlyGrows(d.log, op);
  }

  lemma {:induction false} RunClimbs(key: Key, acts: seq<Act>)
    ensures Inv(After(key, acts).log) && Climbing(After(key, acts))
  {
    if acts == [] {
      assert Suffix([], [], [], 0);
    } else {
      RunClimbs(key, acts[..|acts| - 1]);
      DoKeeps(After(key, acts[..|acts| - 1]), acts[|acts| - 1]);
    }
  }

  lemma DoKeeps(d: Desk, act: Act)
    requires Inv(d.log) && Climbing(d)
    ensures var d' := Do(d, act);
      Inv(d'.log) && Climbing(d') && d.log.issued <= d'.log.issued && d.heads <= d'.heads
  {
    match act
    case Commit(op, anchored) => CommitKeeps(d, op, anchored);
    case Repair(event, anchored) => CommitKeeps(d, Append(event), anchored);
  }

  /** Every row after `a`, up to `b`, was issued right after the one before it. */
  ghost predicate Descends(issued: seq<Row>, a: int, b: int) {
    forall k :: a < k <= b ==> LinkAt(issued, k)
  }

  /** Over every run of commits, anchor failures, truncations and planned repairs the anchored heads strictly
      climb one chain: each is an ancestor of the next. */
  lemma AnchoredHeadsClimb(key: Key, acts: seq<Act>, i: nat, j: nat)
    requires i < j < |After(key, acts).heads|
    ensures var d := After(key, acts);
      && d.heads[i] < d.heads[j] < |d.log.issued|
      && RowBefore(d.log.issued[d.heads[i]], d.log.issued[d.heads[j]])
      && Descends(d.log.issued, d.heads[i], d.heads[j])
  {
    RunClimbs(key, acts);
    var d := After(key, acts);
    Climbs(d.log.issued, d.log.keys, d.heads[i], d.heads[j]);
  }

  ghost predicate Extends(d: Desk, d': Desk) { d.log.issued <= d'.log.issued && d.heads <= d'.heads }

  lemma ExtendsTwice(a: Desk, b: Desk, c: Desk)
    requires Extends(a, b) && Extends(b, c)
    ensures Extends(a, c)
  {
  }

  lemma OneActExtends(key: Key, acts: seq<Act>, act: Act)
    ensures Extends(After(key, acts), After(key, acts + [act]))
  {
    RunClimbs(key, acts);
    DoKeeps(After(key, acts), act);
    OneMoreAct(key, acts, act);
  }

  /** What was anchored once stays where it was, whatever follows. */
  lemma {:induction false} AnchoredIsForGood(key: Key, acts: seq<Act>, more: seq<Act>)
    ensures Extends(After(key, acts), After(key, acts + more))
    decreases |more|
  {
    if more == [] {
      assert acts + more == acts;
    } else {
      var most, act := more[..|more| - 1], more[|more| - 1];
      AnchoredIsForGood(key, acts, most);
      OneActExtends(key, acts + most, act);
      assert acts + more == acts + most + [act];
      ExtendsTwice(After(key, acts), After(key, acts + most), After(key, acts + more));
    }
  }

  lemma OneMoreAct(key: Key, acts: seq<Act>, act: Act)
    ensures After(key, acts + [act]) == Do(After(key, acts), act)
  {
    assert (acts + [act])[..|acts + [act]| - 1] == acts;
  }

  predicate AnchoredRowKept(d: Desk) {
    d.heads != [] && d.heads[|d.heads| - 1] < |d.log.issued| && d.log.issued[d.heads[|d.heads| - 1]] in d.log.rows
  }

  /** Whether the anchored row is still stored decides whether a repair is planned; nothing else can be wrong
      in such a run. */
  lemma RepairIsPlannedExactly(key: Key, acts: seq<Act>)
    ensures var d := After(key, acts);
      Planned(d) <==> AnchoredRowKept(d)
  {
    RunClimbs(key, acts);
    PlannedIffRetained(After(key, acts));
  }

  lemma TablesVerify(log: Log)
    requires Inv(log)
    ensures Verifies(log.rows, log.cps, log.keys, log.publics)
  {
    var k :| Suffix(log.issued, log.cps, log.rows, k);
    SuffixVerifies(log, log.rows, k);
  }

  lemma CheckpointsAreSigned(log: Log)
    requires SignedInv(log.issued, log.cps, log.publics)
    ensures forall c :: c in log.cps ==> SignatureOk(c, log.publics)
  {
    forall c | c in log.cps ensures SignatureOk(c, log.publics) { assert Vouched(log.issued, log.publics, c); }
  }

  lemma NamedIffKept(d: Desk)
    requires Inv(d.log) && Climbing(d)
    ensures NamesRetained(d.log.rows, d.log.keys, AnchorOn(d)) <==> AnchoredRowKept(d)
  {
    if d.heads != [] {
      var at := d.heads[|d.heads| - 1];
      assert KeyedAt(d.log.issued, d.log.keys, at);
      var k :| Suffix(d.log.issued, d.log.cps, d.log.rows, k);
      AnchoredRowIsThatRow(d.log, k, at);
    }
  }

  lemma PlannedIffRetained(d: Desk)
    requires Inv(d.log) && Climbing(d)
    ensures Planned(d) <==> AnchoredRowKept(d)
  {
    TablesVerify(d.log);
    CheckpointsAreSigned(d.log);
    NamedIffKept(d);
  }

  /** In the stored suffix only the anchored row itself answers to its anchor. */
  lemma AnchoredRowIsThatRow(log: Log, k: int, at: nat)
    requires IssuedInv(log.issued, log.keys) && Suffix(log.issued, log.cps, log.rows, k) && at < |log.issued|
    requires log.issued[at].epoch in log.keys
    ensures var a := AnchorTo(log.issued[at], log.keys[log.issued[at].epoch]);
      (exists r :: r in log.rows && Anchors(a, r)) <==> log.issued[at] in log.rows
  {
    var a := AnchorTo(log.issued[at], log.keys[log.issued[at].epoch]);
    forall i | 0 <= i < |log.rows| && Anchors(a, log.rows[i]) ensures log.rows[i] == log.issued[at] {
      OnePlace(log.issued, log.keys, k + i, at);
    }
    if log.issued[at] in log.rows { assert Anchors(a, log.issued[at]); }
  }

  /** A planned repair whose refresh succeeds anchors the head it made. */
  lemma RepairAnchorsTheHead(key: Key, acts: seq<Act>, event: Event)
    requires Planned(After(key, acts))
    ensures var d, d' := After(key, acts), Do(After(key, acts), Repair(event, true));
      && |d'.heads| == |d.heads| + 1 && d.heads[|d.heads| - 1] < d'.heads[|d.heads|]
      && d'.log.rows != [] && Anchored(d'.log.rows, d'.log.keys, AnchorOn(d'))
  {
    RunClimbs(key, acts);
    PlannedIffRetained(After(key, acts));
    AppendAnchorsTheHead(After(key, acts), event);
  }

  lemma AppendAnchorsTheHead(d: Desk, event: Event)
    requires Inv(d.log) && Climbing(d) && d.log.rows != [] && d.heads != []
    ensures var d' := DoCommit(d, Append(event), true);
      && |d'.heads| == |d.heads| + 1 && d.heads[|d.heads| - 1] < d'.heads[|d.heads|]
      && d'.log.rows != [] && Anchored(d'.log.rows, d'.log.keys, AnchorOn(d'))
  {
    HeadIsLastIssued(d.log.issued, d.log.cps, d.log.rows);
    assert KeyedAt(d.log.issued, d.log.keys, |d.log.issued| - 1);
  }
}
