/**
The writer's side: what append, seal-and-open, checkpoint and truncation do to the tables, and the
history of everything ever issued.
*/
module AuditHistory {
  import opened AuditChain

  /**
  `issued` is every row the writer ever made, `rows` and `cps` are the stored tables, `keys` the chain
  key of each epoch and `publics` the registered checkpoint signers.
  */
  datatype Log = Log(issued: seq<Row>, rows: seq<Row>, cps: seq<Checkpoint>, keys: map<nat, Key>, publics: set<KeyId>)

  datatype Op =
    | Append(event: Event)
    | SealAndOpen(first: Event, newKey: Key, signer: KeyId, ref: nat, now: int)
    | MakeCheckpoint(n: nat, signer: KeyId, ref: nat, now: int)
    | Truncate(cutoff: int)

  function Make(key: Key, epoch: nat, seqNo: nat, prev: Mac, event: Event): Row {
    Row(event, epoch, seqNo, prev, EventMac(key, epoch, seqNo, prev, event))
  }

  function Sign(signer: KeyId, ref: nat, r: Row, now: int, reason: Reason): Checkpoint {
    var fields := SignedFields(r.epoch, r.seqNo, r.event.id, r.mac, now, reason);
    Checkpoint(ref, fields, signer, Signed(signer, fields))
  }

  function Last(rows: seq<Row>): Row
    requires rows != []
  {
    rows[|rows| - 1]
  }

  function Issue(log: Log, r: Row): Log { log.(issued := log.issued + [r], rows := log.rows + [r]) }

  // -- choosing a truncation root ------------------------------------------------------------

  /** At or before the cutoff, signed, and naming a row that is still stored as signed. */
  ghost predicate Eligible(log: Log, cutoff: int, c: Checkpoint) {
    c in log.cps && c.fields.createdAt <= cutoff && SignatureOk(c, log.publics) && exists r :: r in log.rows && Names(c, r)
  }

  predicate KeyLeq(a: Checkpoint, b: Checkpoint) {
    Before(a.fields.epoch, a.fields.seqNo, b.fields.epoch, b.fields.seqNo) ||
    (a.fields.epoch == b.fields.epoch && a.fields.seqNo == b.fields.seqNo && a.fields.createdAt <= b.fields.createdAt)
  }

  /** Newest first, as a stable sort by (epoch, seq, created_at) reversed. */
  function Insert(c: Checkpoint, rest: seq<Checkpoint>): seq<Checkpoint> {
    if rest == [] then [c]
    else if KeyLeq(rest[0], c) then [c] + rest
    else [rest[0]] + Insert(c, rest[1..])
  }

  function NewestFirst(cps: seq<Checkpoint>): seq<Checkpoint> {
    if cps == [] then [] else Insert(cps[0], NewestFirst(cps[1..]))
  }

  ghost predicate Descending(cps: seq<Checkpoint>) {
    forall i, j :: 0 <= i < j < |cps| ==> KeyLeq(cps[j], cps[i])
  }

  lemma {:induction false} InsertHolds(c: Checkpoint, rest: seq<Checkpoint>)
    ensures multiset(Insert(c, rest)) == multiset(rest) + multiset{c}
    ensures forall x :: x in Insert(c, rest) <==> x == c || x in rest
  {
    if rest != [] {
      assert rest == [rest[0]] + rest[1..];
      if !KeyLeq(rest[0], c) { InsertHolds(c, rest[1..]); }
    }
  }

  lemma {:induction false} InsertKeeps(c: Checkpoint, rest: seq<Checkpoint>)
    requires Descending(rest)
    ensures multiset(Insert(c, rest)) == multiset(rest) + multiset{c}
    ensures forall x :: x in Insert(c, rest) <==> x == c || x in rest
    ensures Descending(Insert(c, rest))
  {
    InsertHolds(c, rest);
    if rest != [] {
      if KeyLeq(rest[0], c) {
        forall x | x in rest ensures KeyLeq(x, c) {
          var i :| 0 <= i < |rest| && rest[i] == x;
          assert i == 0 || KeyLeq(rest[i], rest[0]);
        }
        InFront(c, rest);
      } else {
        InsertKeeps(c, rest[1..]);
        InFront(rest[0], Insert(c, rest[1..]));
      }
    }
  }

  lemma InFront(c: Checkpoint, rest: seq<Checkpoint>)
    requires Descending(rest) && forall x :: x in rest ==> KeyLeq(x, c)
    ensures Descending([c] + rest)
  {
    var all := [c] + rest;
    forall i, j | 0 <= i < j < |all| ensures KeyLeq(all[j], all[i]) {
      if i == 0 {
        assert all[j] in rest;
      }
    }
  }

  lemma {:induction false} NewestFirstSorts(cps: seq<Checkpoint>)
    ensures Descending(NewestFirst(cps)) && multiset(NewestFirst(cps)) == multiset(cps)
    ensures forall c :: c in NewestFirst(cps) <==> c in cps
  {
    if cps != [] {
      NewestFirstSorts(cps[1..]);
      InsertKeeps(cps[0], NewestFirst(cps[1..]));
      assert cps == [cps[0]] + cps[1..];
    }
  }

  function Candidates(cps: seq<Checkpoint>, cutoff: int): seq<Checkpoint> {
    if cps == [] then [] else
      var rest := Candidates(cps[..|cps| - 1], cutoff);
      if cps[|cps| - 1].fields.createdAt <= cutoff then rest + [cps[|cps| - 1]] else rest
  }

  lemma {:induction false} CandidatesAre(cps: seq<Checkpoint>, cutoff: int)
    ensures forall c :: c in Candidates(cps, cutoff) <==> c in cps && c.fields.createdAt <= cutoff
  {
    if cps != [] {
      CandidatesAre(cps[..|cps| - 1], cutoff);
      assert cps == cps[..|cps| - 1] + [cps[|cps| - 1]];
    }
  }

  predicate Stored(rows: seq<Row>, c: Checkpoint) { exists r :: r in rows && Names(c, r) }

  /** The first eligible one of a list that is already newest first. */
  function FirstEligible(sorted: seq<Checkpoint>, rows: seq<Row>, publics: set<KeyId>): Option<Checkpoint> {
    if sorted == [] then None
    else if SignatureOk(sorted[0], publics) && Stored(rows, sorted[0]) then Some(sorted[0])
    else FirstEligible(sorted[1..], rows, publics)
  }

  function Chosen(log: Log, cutoff: int): Option<Checkpoint> {
    FirstEligible(NewestFirst(Candidates(log.cps, cutoff)), log.rows, log.publics)
  }

  lemma {:induction false} FirstEligibleIsGreatest(sorted: seq<Checkpoint>, rows: seq<Row>, publics: set<KeyId>)
    requires Descending(sorted)
    ensures match FirstEligible(sorted, rows, publics)
      case None => forall c :: c in sorted ==> !(SignatureOk(c, publics) && Stored(rows, c))
      case Some(best) =>
        && best in sorted && SignatureOk(best, publics) && Stored(rows, best)
        && forall c :: c in sorted && SignatureOk(c, publics) && Stored(rows, c) ==> KeyLeq(c, best)
  {
    if sorted != [] {
      assert sorted == [sorted[0]] + sorted[1..];
      FirstEligibleIsGreatest(sorted[1..], rows, publics);
      forall c | c in sorted ensures KeyLeq(c, sorted[0]) {
        var i :| 0 <= i < |sorted| && sorted[i] == c;
      }
    }
  }

  /** The chosen root is the greatest eligible checkpoint at or before the cutoff, if there is one. */
  lemma ChosenIsGreatestEligible(log: Log, cutoff: int)
    ensures match Chosen(log, cutoff)
      case None => forall c :: !Eligible(log, cutoff, c)
      case Some(best) => Eligible(log, cutoff, best) && forall c :: Eligible(log, cutoff, c) ==> KeyLeq(c, best)
  {
    var sorted := NewestFirst(Candidates(log.cps, cutoff));
    NewestFirstSorts(Candidates(log.cps, cutoff));
    CandidatesAre(log.cps, cutoff);
    FirstEligibleIsGreatest(sorted, log.rows, log.publics);
  }

  /** The refs of the checkpoints whose signature does not verify, in their order. */
  function BadRefs(cps: seq<Checkpoint>, publics: set<KeyId>): seq<nat> {
    if cps == [] then [] else
      var c := cps[|cps| - 1];
      BadRefs(cps[..|cps| - 1], publics) + if SignatureOk(c, publics) then [] else [c.ref]
  }

  predicate BadOne(cps: seq<Checkpoint>, publics: set<KeyId>, ref: nat) {
    exists c :: c in cps && c.ref == ref && !SignatureOk(c, publics)
  }

  lemma {:induction false} BadRefsAre(cps: seq<Checkpoint>, publics: set<KeyId>)
    ensures forall ref: nat :: ref in BadRefs(cps, publics) <==> BadOne(cps, publics, ref)
  {
    if cps != [] {
      var most, c := cps[..|cps| - 1], cps[|cps| - 1];
      BadRefsAre(most, publics);
      assert cps == most + [c];
      forall ref: nat ensures ref in BadRefs(cps, publics) <==> BadOne(cps, publics, ref) {
        assert BadOne(cps, publics, ref) <==> BadOne(most, publics, ref) || (c.ref == ref && !SignatureOk(c, publics));
      }
    }
  }

  /** A candidate whose signature does not verify. */
  predicate Refused(log: Log, cutoff: int, c: Checkpoint) { c.fields.createdAt <= cutoff && !SignatureOk(c, log.publics) }

  /** The loop over candidates already sorted: bad signatures are reported, stale ones passed over. */
  method Scan(sorted: seq<Checkpoint>, rows: seq<Row>, publics: set<KeyId>) returns (root: Option<Checkpoint>, skipped: seq<nat>, ghost n: nat)
    ensures root == FirstEligible(sorted, rows, publics)
    ensures n <= |sorted| && skipped == BadRefs(sorted[..n], publics)
    ensures if root.Some? then n < |sorted| && sorted[n] == root.value else n == |sorted|
  {
    skipped := [];
    var i := 0;
    while i < |sorted|
      invariant 0 <= i <= |sorted|
      invariant FirstEligible(sorted, rows, publics) == FirstEligible(sorted[i..], rows, publics)
      invariant skipped == BadRefs(sorted[..i], publics)
    {
      var c := sorted[i];
      assert sorted[i..] == [c] + sorted[i + 1..];
      assert sorted[..i + 1][..i] == sorted[..i];
      if !SignatureOk(c, publics) {
        skipped := skipped + [c.ref];
      } else if exists r :: r in rows && Names(c, r) {
        return Some(c), skipped, i;
      }
      i := i + 1;
    }
    root, n := None, i;
  }

  /** The greatest eligible checkpoint, and the refs of the bad ones met on the way, newest first. */
  method ChooseRoot(log: Log, cutoff: int) returns (root: Option<Checkpoint>, skipped: seq<nat>)
    ensures root == Chosen(log, cutoff)
    ensures match root
      case None => forall c :: !Eligible(log, cutoff, c)
      case Some(best) => Eligible(log, cutoff, best) && forall c :: Eligible(log, cutoff, c) ==> KeyLeq(c, best)
    ensures forall ref :: ref in skipped ==> BadOne(Candidates(log.cps, cutoff), log.publics, ref)
    ensures forall c :: c in log.cps && Refused(log, cutoff, c) && (root.None? || !KeyLeq(c, root.value)) ==> c.ref in skipped
  {
    ChosenIsGreatestEligible(log, cutoff);
    var sorted := NewestFirst(Candidates(log.cps, cutoff));
    ghost var n;
    root, skipped, n := Scan(sorted, log.rows, log.publics);
    SkippedAre(log, cutoff, n);
  }

  lemma SkippedAre(log: Log, cutoff: int, n: nat)
    requires n <= |NewestFirst(Candidates(log.cps, cutoff))|
    ensures var sorted := NewestFirst(Candidates(log.cps, cutoff));
      var skipped := BadRefs(sorted[..n], log.publics);
      && (forall ref :: ref in skipped ==> BadOne(Candidates(log.cps, cutoff), log.publics, ref))
      && (forall c :: c in log.cps && Refused(log, cutoff, c) && (n == |sorted| || !KeyLeq(c, sorted[n])) ==> c.ref in skipped)
  {
    var candidates := Candidates(log.cps, cutoff);
    var sorted := NewestFirst(candidates);
    CandidatesAre(log.cps, cutoff);
    NewestFirstSorts(candidates);
    BadRefsAre(sorted[..n], log.publics);
    forall c | c in candidates && !SignatureOk(c, log.publics) && (n == |sorted| || !KeyLeq(c, sorted[n]))
      ensures c.ref in BadRefs(sorted[..n], log.publics)
    {
      var i :| 0 <= i < |sorted| && sorted[i] == c;
      KeyLeqReflexive(c);
      assert i < n && sorted[..n][i] == c;
      assert BadOne(sorted[..n], log.publics, c.ref);
    }
    forall ref | ref in BadRefs(sorted[..n], log.publics) ensures BadOne(candidates, log.publics, ref) {
      var c :| c in sorted[..n] && c.ref == ref && !SignatureOk(c, log.publics);
      assert c in sorted;
    }
  }

  lemma KeyLeqReflexive(c: Checkpoint)
    ensures KeyLeq(c, c)
  {
  }

  // -- one operation -------------------------------------------------------------------------

  /** DELETE ... WHERE position < the root's */
  function From(rows: seq<Row>, epoch: nat, seqNo: nat): seq<Row> {
    if rows == [] then [] else
      var rest := From(rows[..|rows| - 1], epoch, seqNo);
      var r := rows[|rows| - 1];
      if Before(r.epoch, r.seqNo, epoch, seqNo) then rest else rest + [r]
  }

  /** The row the root names has the signed MAC by computation too; otherwise nothing is deleted. */
  predicate Recomputes(log: Log, root: Checkpoint) {
    exists r :: r in log.rows && Names(root, r) && r.epoch in log.keys && MacOk(r, log.keys[r.epoch])
  }

  function Apply(log: Log, op: Op): Log {
    match op
    case Append(event) =>
      if log.rows == [] then
        if 1 in log.keys then Issue(log, Make(log.keys[1], 1, 1, GenesisMac(1), event)) else log
      else
        var h := Last(log.rows);
        if h.epoch in log.keys then Issue(log, Make(log.keys[h.epoch], h.epoch, h.seqNo + 1, h.mac, event)) else log
    case SealAndOpen(first, newKey, signer, ref, now) =>
      if log.rows == [] then log else
        var h := Last(log.rows);
        if h.epoch !in log.keys || log.keys[h.epoch] == newKey || !MacOk(h, log.keys[h.epoch]) then log else
          Issue(log.(cps := log.cps + [Sign(signer, ref, h, now, EpochSeal)], publics := log.publics + {signer},
                     keys := log.keys[h.epoch + 1 := newKey]),
                Make(newKey, h.epoch + 1, 1, GenesisMac(h.epoch + 1), first))
    case MakeCheckpoint(n, signer, ref, now) =>
      if log.rows == [] then log
      else log.(cps := log.cps + [Sign(signer, ref, Last(log.rows), now, Other(n))], publics := log.publics + {signer})
    case Truncate(cutoff) =>
      match Chosen(log, cutoff)
      case None => log
      case Some(root) => if !Recomputes(log, root) then log else log.(rows := From(log.rows, root.fields.epoch, root.fields.seqNo))
  }

  function Init(key: Key): Log { Log([], [], [], map[1 := key], {}) }

  function Run(key: Key, ops: seq<Op>): Log {
    if ops == [] then Init(key) else Apply(Run(key, ops[..|ops| - 1]), ops[|ops| - 1])
  }

  // -- the history invariant -----------------------------------------------------------------

  /** `b` was issued right after `a`. */
  ghost predicate Follows(a: Row, b: Row) {
    || (b.epoch == a.epoch && b.seqNo == a.seqNo + 1 && b.prev == a.mac)
    || (b.epoch == a.epoch + 1 && b.seqNo == 1 && b.prev == GenesisMac(b.epoch))
  }

  ghost predicate LinkAt(issued: seq<Row>, j: int) {
    1 <= j < |issued| ==> Follows(issued[j - 1], issued[j])
  }

  ghost predicate KeyedAt(issued: seq<Row>, keys: map<nat, Key>, j: int) {
    0 <= j < |issued| ==> issued[j].epoch in keys && MacOk(issued[j], keys[issued[j].epoch])
  }

  ghost predicate EndsEpoch(issued: seq<Row>, i: int) {
    0 <= i < |issued| - 1 && issued[i + 1].epoch == issued[i].epoch + 1
  }

  ghost predicate IssuedInv(issued: seq<Row>, keys: map<nat, Key>) {
    && (issued != [] ==> issued[0].epoch == 1 && issued[0].seqNo == 1 && issued[0].prev == GenesisMac(1))
    && (forall j :: LinkAt(issued, j))
    && (forall j :: KeyedAt(issued, keys, j))
  }

  ghost predicate NamesAt(issued: seq<Row>, i: int, c: Checkpoint) { 0 <= i < |issued| && Names(c, issued[i]) }

  /** A checkpoint of the writer: signed, naming an issued row, and a seal only where an epoch ends. */
  ghost predicate Vouched(issued: seq<Row>, publics: set<KeyId>, c: Checkpoint) {
    && SignatureOk(c, publics)
    && (exists i :: NamesAt(issued, i, c))
    && (c.fields.reason == EpochSeal ==> exists i :: EndsEpoch(issued, i) && NamesAt(issued, i, c))
  }

  ghost predicate EndSealed(issued: seq<Row>, cps: seq<Checkpoint>, publics: set<KeyId>, i: int) {
    EndsEpoch(issued, i) ==> SealedAt(cps, publics, issued[i])
  }

  ghost predicate SignedInv(issued: seq<Row>, cps: seq<Checkpoint>, publics: set<KeyId>) {
    && (forall c :: c in cps ==> Vouched(issued, publics, c))
    && (forall i :: EndSealed(issued, cps, publics, i))
    && OneSealPerEpoch(cps)
  }

  ghost predicate SignedRow(cps: seq<Checkpoint>, r: Row) { exists c :: c in cps && Names(c, r) }

  /** What is stored is the issued chain from its start or from a signed row. */
  ghost predicate Suffix(issued: seq<Row>, cps: seq<Checkpoint>, rows: seq<Row>, k: int) {
    0 <= k <= |issued| && rows == issued[k..] && (rows != [] && k > 0 ==> SignedRow(cps, rows[0]))
  }

  /** The writer's side: what was issued and what was signed. */
  ghost predicate Written(issued: seq<Row>, cps: seq<Checkpoint>, keys: map<nat, Key>, publics: set<KeyId>) {
    1 in keys && IssuedInv(issued, keys) && SignedInv(issued, cps, publics)
  }

  /** The table's side: what is stored of it. */
  ghost predicate Retained(issued: seq<Row>, cps: seq<Checkpoint>, rows: seq<Row>) {
    (rows == [] <==> issued == []) && exists k :: Suffix(issued, cps, rows, k)
  }

  ghost predicate Inv(log: Log) {
    Written(log.issued, log.cps, log.keys, log.publics) && Retained(log.issued, log.cps, log.rows)
  }

  lemma {:induction false} Climbs(issued: seq<Row>, keys: map<nat, Key>, i: int, j: int)
    requires IssuedInv(issued, keys) && 0 <= i < j < |issued|
    ensures RowBefore(issued[i], issued[j])
    decreases j
  {
    assert LinkAt(issued, j);
    if i < j - 1 { Climbs(issued, keys, i, j - 1); }
  }

  lemma IssuedSorted(issued: seq<Row>, keys: map<nat, Key>)
    requires IssuedInv(issued, keys)
    ensures Sorted(issued)
  {
    forall i, j | 0 <= i < j < |issued| ensures RowBefore(issued[i], issued[j]) { Climbs(issued, keys, i, j); }
  }

  lemma OnePlace(issued: seq<Row>, keys: map<nat, Key>, i: int, j: int)
    requires IssuedInv(issued, keys) && 0 <= i < |issued| && 0 <= j < |issued|
    requires issued[i].epoch == issued[j].epoch && issued[i].seqNo == issued[j].seqNo
    ensures i == j
  {
    if i < j { Climbs(issued, keys, i, j); }
    if j < i { Climbs(issued, keys, j, i); }
  }

  // -- every operation keeps it --------------------------------------------------------------

  lemma IssuedGrows(issued: seq<Row>, keys: map<nat, Key>, more: map<nat, Key>, r: Row)
    requires IssuedInv(issued, keys) && r.epoch in more && MacOk(r, more[r.epoch])
    requires forall j :: 0 <= j < |issued| && issued[j].epoch in keys ==> issued[j].epoch in more && more[issued[j].epoch] == keys[issued[j].epoch]
    requires if issued == [] then r.epoch == 1 && r.seqNo == 1 && r.prev == GenesisMac(1) else Follows(Last(issued), r)
    ensures IssuedInv(issued + [r], more)
  {
    var all := issued + [r];
    forall j ensures LinkAt(all, j) { assert LinkAt(issued, j); }
    forall j ensures KeyedAt(all, more, j) { assert KeyedAt(issued, keys, j); }
  }

  lemma VouchedStays(issued: seq<Row>, publics: set<KeyId>, c: Checkpoint, r: Row, more: set<KeyId>)
    requires Vouched(issued, publics, c) && publics <= more
    ensures Vouched(issued + [r], more, c)
  {
    var all := issued + [r];
    var i :| NamesAt(issued, i, c);
    assert NamesAt(all, i, c);
    if c.fields.reason == EpochSeal {
      var e :| EndsEpoch(issued, e) && NamesAt(issued, e, c);
      assert EndsEpoch(all, e) && NamesAt(all, e, c);
    }
  }

  lemma SealedStays(cps: seq<Checkpoint>, c: Checkpoint, publics: set<KeyId>, more: set<KeyId>, r: Row)
    requires SealedAt(cps, publics, r) && publics <= more
    ensures SealedAt(cps + [c], more, r)
  {
    var s :| s in cps && IsSeal(s, r.epoch) && Names(s, r) && SignatureOk(s, publics);
    assert s in cps + [c];
  }

  lemma SuffixGrows(issued: seq<Row>, cps: seq<Checkpoint>, rows: seq<Row>, k: int, r: seq<Row>, c: seq<Checkpoint>)
    requires Suffix(issued, cps, rows, k) && (rows == [] ==> k == 0)
    ensures Suffix(issued + r, cps + c, rows + r, k)
  {
    if k > 0 {
      var s :| s in cps && Names(s, rows[0]);
      assert s in cps + c;
    }
  }

  lemma AppendIsWritten(log: Log, r: Row)
    requires Written(log.issued, log.cps, log.keys, log.publics) && r.epoch in log.keys && MacOk(r, log.keys[r.epoch])
    requires if log.issued == [] then r.epoch == 1 && OpensEpoch(r) else r.epoch == Last(log.issued).epoch && Follows(Last(log.issued), r)
    ensures Written(log.issued + [r], log.cps, log.keys, log.publics)
  {
    var issued' := log.issued + [r];
    IssuedGrows(log.issued, log.keys, log.keys, r);
    forall c | c in log.cps ensures Vouched(issued', log.publics, c) {
      VouchedStays(log.issued, log.publics, c, r, log.publics);
    }
    forall i ensures EndSealed(issued', log.cps, log.publics, i) {
      assert EndSealed(log.issued, log.cps, log.publics, i);
    }
  }

  lemma AppendKeeps(log: Log, event: Event)
    requires Inv(log)
    ensures Inv(Apply(log, Append(event)))
  {
    if log.rows != [] {
      HeadIsLastIssued(log.issued, log.cps, log.rows);
      assert KeyedAt(log.issued, log.keys, |log.issued| - 1);
    }
    var r := if log.rows == [] then Make(log.keys[1], 1, 1, GenesisMac(1), event)
             else Make(log.keys[Last(log.rows).epoch], Last(log.rows).epoch, Last(log.rows).seqNo + 1, Last(log.rows).mac, event);
    AppendIsWritten(log, r);
    RetainedGrows(log.issued, log.cps, log.rows, [r], []);
    assert log.cps + [] == log.cps;
    assert Apply(log, Append(event)) == Issue(log, r);
  }

  /** The tables after the head `h` was sealed and a new epoch opened with `r`. */
  function Opened(log: Log, op: Op, h: Row): Log
    requires op.SealAndOpen?
  {
    var r := Make(op.newKey, h.epoch + 1, 1, GenesisMac(h.epoch + 1), op.first);
    Log(log.issued + [r], log.rows + [r], log.cps + [Sign(op.signer, op.ref, h, op.now, EpochSeal)],
        log.keys[h.epoch + 1 := op.newKey], log.publics + {op.signer})
  }

  lemma OpenedIsWritten(log: Log, op: Op, h: Row)
    requires Written(log.issued, log.cps, log.keys, log.publics) && log.issued != [] && op.SealAndOpen? && h == Last(log.issued)
    ensures var log' := Opened(log, op, h); Written(log'.issued, log'.cps, log'.keys, log'.publics)
  {
    var r, seal := Make(op.newKey, h.epoch + 1, 1, GenesisMac(h.epoch + 1), op.first), Sign(op.signer, op.ref, h, op.now, EpochSeal);
    NewEpochIssued(log.issued, log.keys, op.newKey, r);
    SealSigned(log, log.publics + {op.signer}, seal, r);
  }

  lemma RetainedGrows(issued: seq<Row>, cps: seq<Checkpoint>, rows: seq<Row>, r: seq<Row>, c: seq<Checkpoint>)
    requires Retained(issued, cps, rows)
    ensures Retained(issued + r, cps + c, rows + r)
  {
    var k :| Suffix(issued, cps, rows, k);
    if rows == [] {
      assert Suffix(issued + r, cps + c, rows + r, 0);
    } else {
      SuffixGrows(issued, cps, rows, k, r, c);
    }
  }

  lemma HeadIsLastIssued(issued: seq<Row>, cps: seq<Checkpoint>, rows: seq<Row>)
    requires Retained(issued, cps, rows) && rows != []
    ensures issued != [] && Last(rows) == Last(issued)
  {
    var k :| Suffix(issued, cps, rows, k);
  }

  /** Sealing either changes nothing or opens the next epoch at the head. */
  lemma SealIs(log: Log, op: Op)
    requires op.SealAndOpen?
    ensures Apply(log, op) == log || (log.rows != [] && Apply(log, op) == Opened(log, op, Last(log.rows)))
  {
  }

  lemma SealKeeps(log: Log, op: Op)
    requires Inv(log) && op.SealAndOpen?
    ensures Inv(Apply(log, op))
  {
    SealIs(log, op);
    if log.rows != [] && Apply(log, op) == Opened(log, op, Last(log.rows)) { OpenedKeeps(log, op); }
  }

  lemma OpenedKeeps(log: Log, op: Op)
    requires Inv(log) && op.SealAndOpen? && log.rows != []
    ensures Inv(Opened(log, op, Last(log.rows)))
  {
    var h, log' := Last(log.rows), Opened(log, op, Last(log.rows));
    HeadIsLastIssued(log.issued, log.cps, log.rows);
    OpenedIsWritten(log, op, h);
    RetainedGrows(log.issued, log.cps, log.rows, [Last(log'.rows)], [log'.cps[|log.cps|]]);
  }

  lemma NewEpochIssued(issued: seq<Row>, keys: map<nat, Key>, newKey: Key, r: Row)
    requires IssuedInv(issued, keys) && issued != [] && r == Make(newKey, Last(issued).epoch + 1, 1, GenesisMac(r.epoch), r.event)
    ensures IssuedInv(issued + [r], keys[Last(issued).epoch + 1 := newKey])
  {
    EpochsBelow(issued, keys);
    IssuedGrows(issued, keys, keys[Last(issued).epoch + 1 := newKey], r);
  }

  lemma EpochsBelow(issued: seq<Row>, keys: map<nat, Key>)
    requires IssuedInv(issued, keys) && issued != []
    ensures forall i :: 0 <= i < |issued| ==> issued[i].epoch <= Last(issued).epoch
  {
    forall i | 0 <= i < |issued| ensures issued[i].epoch <= Last(issued).epoch {
      if i < |issued| - 1 { Climbs(issued, keys, i, |issued| - 1); }
    }
  }

  lemma SealSigned(log: Log, publics: set<KeyId>, seal: Checkpoint, r: Row)
    requires IssuedInv(log.issued, log.keys) && SignedInv(log.issued, log.cps, log.publics)
    requires log.issued != [] && r.epoch == Last(log.issued).epoch + 1 && publics == log.publics + {seal.signer}
    requires IsSeal(seal, Last(log.issued).epoch) && Names(seal, Last(log.issued)) && seal.signature == Signed(seal.signer, seal.fields)
    ensures SignedInv(log.issued + [r], log.cps + [seal], publics)
  {
    var issued', cps' := log.issued + [r], log.cps + [seal];
    var n := |log.issued| - 1;
    assert EndsEpoch(issued', n) && NamesAt(issued', n, seal);
    forall c | c in cps' ensures Vouched(issued', publics, c) {
      if c in log.cps { VouchedStays(log.issued, log.publics, c, r, publics); }
    }
    forall i ensures EndSealed(issued', cps', publics, i) { SealedEnds(log, publics, seal, r, i); }
    SealIsNew(log);
    forall i | 0 <= i < |log.cps| ensures !IsSeal(cps'[i], seal.fields.epoch) {
      assert cps'[i] == log.cps[i] && log.cps[i] in log.cps;
    }
  }

  lemma SealedEnds(log: Log, publics: set<KeyId>, seal: Checkpoint, r: Row, i: int)
    requires EndSealed(log.issued, log.cps, log.publics, i) && log.issued != [] && publics == log.publics + {seal.signer}
    requires IsSeal(seal, Last(log.issued).epoch) && Names(seal, Last(log.issued)) && seal.signature == Signed(seal.signer, seal.fields)
    ensures EndSealed(log.issued + [r], log.cps + [seal], publics, i)
  {
    if EndsEpoch(log.issued, i) {
      SealedStays(log.cps, seal, log.publics, publics, log.issued[i]);
    } else if i == |log.issued| - 1 {
      assert seal in log.cps + [seal] && SignatureOk(seal, publics);
    }
  }

  /** The head's epoch carries no seal yet. */
  lemma SealIsNew(log: Log)
    requires IssuedInv(log.issued, log.keys) && SignedInv(log.issued, log.cps, log.publics) && log.issued != []
    ensures forall c :: c in log.cps ==> !IsSeal(c, Last(log.issued).epoch)
  {
    forall c | c in log.cps && c.fields.reason == EpochSeal ensures c.fields.epoch < Last(log.issued).epoch {
      assert Vouched(log.issued, log.publics, c);
      var i :| EndsEpoch(log.issued, i) && NamesAt(log.issued, i, c);
      EpochsBelow(log.issued, log.keys);
    }
  }

  lemma CheckpointIsWritten(log: Log, made: Checkpoint)
    requires Written(log.issued, log.cps, log.keys, log.publics) && log.issued != [] && Names(made, Last(log.issued))
    requires made.fields.reason != EpochSeal && made.signature == Signed(made.signer, made.fields)
    ensures Written(log.issued, log.cps + [made], log.keys, log.publics + {made.signer})
  {
    var cps', publics' := log.cps + [made], log.publics + {made.signer};
    assert NamesAt(log.issued, |log.issued| - 1, made);
    forall c | c in cps' ensures Vouched(log.issued, publics', c) {
      if c in log.cps { assert Vouched(log.issued, log.publics, c); }
    }
    forall i ensures EndSealed(log.issued, cps', publics', i) {
      assert EndSealed(log.issued, log.cps, log.publics, i);
      if EndsEpoch(log.issued, i) { SealedStays(log.cps, made, log.publics, publics', log.issued[i]); }
    }
  }

  lemma CheckpointKeeps(log: Log, op: Op)
    requires Inv(log) && op.MakeCheckpoint?
    ensures Inv(Apply(log, op))
  {
    if log.rows != [] {
      var made := Sign(op.signer, op.ref, Last(log.rows), op.now, Other(op.n));
      HeadIsLastIssued(log.issued, log.cps, log.rows);
      CheckpointIsWritten(log, made);
      RetainedGrows(log.issued, log.cps, log.rows, [], [made]);
      assert log.issued + [] == log.issued && log.rows + [] == log.rows;
    }
  }

  lemma {:induction false} FromIsASuffix(rows: seq<Row>, epoch: nat, seqNo: nat, at: int)
    requires Sorted(rows) && 0 <= at < |rows| && rows[at].epoch == epoch && rows[at].seqNo == seqNo
    ensures From(rows, epoch, seqNo) == rows[at..]
  {
    var n := |rows| - 1;
    if at < n {
      FromIsASuffix(rows[..n], epoch, seqNo, at);
      assert RowBefore(rows[at], rows[n]);
      assert rows[..n][at..] + [rows[n]] == rows[at..];
    } else {
      FromNothing(rows[..n], epoch, seqNo);
    }
  }

  lemma {:induction false} FromNothing(rows: seq<Row>, epoch: nat, seqNo: nat)
    requires forall r :: r in rows ==> Before(r.epoch, r.seqNo, epoch, seqNo)
    ensures From(rows, epoch, seqNo) == []
  {
    if rows != [] {
      assert rows[|rows| - 1] in rows;
      FromNothing(rows[..|rows| - 1], epoch, seqNo);
    }
  }

  lemma SuffixSorted(log: Log, k: int)
    requires IssuedInv(log.issued, log.keys) && Suffix(log.issued, log.cps, log.rows, k)
    ensures Sorted(log.rows)
  {
    IssuedSorted(log.issued, log.keys);
  }

  lemma CutKeepsSuffix(issued: seq<Row>, cps: seq<Checkpoint>, rows: seq<Row>, k: int, at: int, root: Checkpoint)
    requires Suffix(issued, cps, rows, k) && 0 <= at < |rows| && root in cps && Names(root, rows[at])
    ensures Suffix(issued, cps, rows[at..], k + at) && Last(rows[at..]) == Last(rows)
  {
    assert issued[k..][at..] == issued[k + at..];
    assert rows[at..][0] == rows[at];
  }

  lemma CutAt(rows: seq<Row>, root: Checkpoint) returns (at: int)
    requires Sorted(rows) && Stored(rows, root)
    ensures 0 <= at < |rows| && Names(root, rows[at])
    ensures From(rows, root.fields.epoch, root.fields.seqNo) == rows[at..]
  {
    var r :| r in rows && Names(root, r);
    at :| 0 <= at < |rows| && rows[at] == r;
    FromIsASuffix(rows, root.fields.epoch, root.fields.seqNo, at);
  }

  lemma CutRetains(issued: seq<Row>, cps: seq<Checkpoint>, rows: seq<Row>, at: int, root: Checkpoint)
    requires Retained(issued, cps, rows) && 0 <= at < |rows| && root in cps && Names(root, rows[at])
    ensures Retained(issued, cps, rows[at..]) && Last(rows[at..]) == Last(rows)
  {
    var k :| Suffix(issued, cps, rows, k);
    CutKeepsSuffix(issued, cps, rows, k, at, root);
  }

  /** Truncation either changes nothing or cuts the rows at the chosen, signed and stored root. */
  lemma TruncateIs(log: Log, cutoff: int) returns (at: int)
    requires Sorted(log.rows)
    ensures var log' := Apply(log, Truncate(cutoff));
      log' == log ||
      (0 <= at < |log.rows| && log' == log.(rows := log.rows[at..]) && exists root :: root in log.cps && Names(root, log.rows[at]))
  {
    at := 0;
    if Chosen(log, cutoff).Some? {
      ChosenIsStored(log, cutoff);
      at := CutAt(log.rows, Chosen(log, cutoff).value);
    }
  }

  /** Exactly what a cut at `best` leaves: the rows from its position on, in their order. */
  ghost predicate CutBelow(rows: seq<Row>, best: Checkpoint, left: seq<Row>) {
    exists k :: 0 <= k <= |rows| && left == rows[k..] &&
      forall i :: 0 <= i < |rows| ==> (i < k <==> Before(rows[i].epoch, rows[i].seqNo, best.fields.epoch, best.fields.seqNo))
  }

  /** The latest signed checkpoint at or before the cutoff whose row is stored as signed. */
  ghost predicate IsRoot(log: Log, cutoff: int, best: Checkpoint) {
    Eligible(log, cutoff, best) && forall c :: Eligible(log, cutoff, c) ==> KeyLeq(c, best)
  }

  lemma CutIsExact(rows: seq<Row>, best: Checkpoint)
    requires Sorted(rows) && Stored(rows, best)
    ensures CutBelow(rows, best, From(rows, best.fields.epoch, best.fields.seqNo))
  {
    var at := CutAt(rows, best);
    forall i | 0 <= i < |rows| ensures i < at <==> Before(rows[i].epoch, rows[i].seqNo, best.fields.epoch, best.fields.seqNo) {
      if i < at { assert RowBefore(rows[i], rows[at]); }
      if at < i { assert RowBefore(rows[at], rows[i]); }
    }
  }

  lemma {:induction false} FromShortens(rows: seq<Row>, epoch: nat, seqNo: nat)
    ensures |From(rows, epoch, seqNo)| <= |rows|
  {
    if rows != [] { FromShortens(rows[..|rows| - 1], epoch, seqNo); }
  }

  /** Without a root nothing is deleted.  With one, exactly the rows before its position are, if the row it names
      still recomputes to the signed MAC, and nothing otherwise. */
  lemma TruncationIsExact(log: Log, cutoff: int)
    requires Sorted(log.rows)
    ensures var log' := Apply(log, Truncate(cutoff));
      && log' == log.(rows := log'.rows)
      && ((forall c :: !Eligible(log, cutoff, c)) ==> log'.rows == log.rows)
      && ((exists c :: Eligible(log, cutoff, c)) ==>
            exists best :: IsRoot(log, cutoff, best) && if Recomputes(log, best) then CutBelow(log.rows, best, log'.rows) else log'.rows == log.rows)
  {
    ChosenIsGreatestEligible(log, cutoff);
    if Chosen(log, cutoff).Some? {
      var best := Chosen(log, cutoff).value;
      ChosenIsStored(log, cutoff);
      CutIsExact(log.rows, best);
      assert IsRoot(log, cutoff, best);
    }
  }

  /** Truncation cuts at a signed row and never touches the head. */
  lemma TruncateKeeps(log: Log, cutoff: int)
    requires Inv(log)
    ensures Inv(Apply(log, Truncate(cutoff)))
    ensures log.rows != [] ==>
      Apply(log, Truncate(cutoff)).rows != [] && Last(Apply(log, Truncate(cutoff)).rows) == Last(log.rows)
  {
    RetainedSorted(log);
    var at := TruncateIs(log, cutoff);
    if Apply(log, Truncate(cutoff)) != log {
      var root :| root in log.cps && Names(root, log.rows[at]);
      CutRetains(log.issued, log.cps, log.rows, at, root);
    }
  }

  lemma RetainedSorted(log: Log)
    requires Inv(log)
    ensures Sorted(log.rows)
  {
    var k :| Suffix(log.issued, log.cps, log.rows, k);
    SuffixSorted(log, k);
  }

  lemma ChosenIsStored(log: Log, cutoff: int)
    requires Chosen(log, cutoff).Some?
    ensures Chosen(log, cutoff).value in log.cps && Stored(log.rows, Chosen(log, cutoff).value)
  {
    ChosenIsGreatestEligible(log, cutoff);
    assert Eligible(log, cutoff, Chosen(log, cutoff).value);
  }

  lemma {:induction false} RunKeeps(key: Key, ops: seq<Op>)
    ensures Inv(Run(key, ops))
  {
    if ops == [] {
      assert Suffix([], [], [], 0);
    } else {
      var before, op := Run(key, ops[..|ops| - 1]), ops[|ops| - 1];
      RunKeeps(key, ops[..|ops| - 1]);
      match op
      case Append(event) => AppendKeeps(before, event);
      case SealAndOpen(_, _, _, _, _) => SealKeeps(before, op);
      case MakeCheckpoint(_, _, _, _) => CheckpointKeeps(before, op);
      case Truncate(cutoff) => TruncateKeeps(before, cutoff);
    }
  }
}
