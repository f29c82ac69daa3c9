/**
The verifier is exact: over any stored rows, deleted from or edited at will, it accepts precisely the
suffixes of the issued chain that start at the genesis or at a signed row and end at the anchor.
*/
module AuditExact {
  import opened AuditChain
  import opened AuditHistory

  /** The external anchor file; `key` is the chain key its own MAC was made with. */
  datatype Anchor = Anchor(epoch: nat, seqNo: nat, id: nat, mac: Mac, key: Key)

  predicate Anchors(a: Anchor, r: Row) { (a.epoch, a.seqNo, a.id, a.mac) == (r.epoch, r.seqNo, r.event.id, r.mac) }

  predicate Authentic(r: Row, keys: map<nat, Key>) { r.epoch in keys && MacOk(r, keys[r.epoch]) }

  /** Nobody but the writer makes a MAC that verifies or a signature that verifies. */
  ghost predicate Unforged(log: Log, rows: seq<Row>, cps: seq<Checkpoint>) {
    && (forall r :: r in rows && Authentic(r, log.keys) ==> r in log.issued)
    && (forall c :: c in cps && SignatureOk(c, log.publics) ==> c in log.cps)
  }

  // -- the root of a truncated chain ---------------------------------------------------------

  datatype RootLookup = NoRoot | Rooted(root: Checkpoint) | RootMissing

  function LastAt(cps: seq<Checkpoint>, epoch: nat, seqNo: nat): RootLookup {
    if cps == [] then RootMissing else
      var c := cps[|cps| - 1];
      if c.fields.epoch == epoch && c.fields.seqNo == seqNo then Rooted(c) else LastAt(cps[..|cps| - 1], epoch, seqNo)
  }

  /** Rows that do not begin at the first position need a checkpoint at the position they begin at. */
  function RootOf(rows: seq<Row>, cps: seq<Checkpoint>): RootLookup {
    if rows == [] || (rows[0].epoch == 1 && rows[0].seqNo == 1) then NoRoot
    else LastAt(cps, rows[0].epoch, rows[0].seqNo)
  }

  lemma {:induction false} LastAtIsThere(cps: seq<Checkpoint>, epoch: nat, seqNo: nat)
    ensures match LastAt(cps, epoch, seqNo)
      case NoRoot => false
      case Rooted(c) => c in cps && c.fields.epoch == epoch && c.fields.seqNo == seqNo
      case RootMissing => forall c :: c in cps ==> !(c.fields.epoch == epoch && c.fields.seqNo == seqNo)
  {
    if cps != [] {
      LastAtIsThere(cps[..|cps| - 1], epoch, seqNo);
      assert cps == cps[..|cps| - 1] + [cps[|cps| - 1]];
    }
  }

  /** `_root_of` and `verify_chain` together. */
  ghost predicate Verifies(rows: seq<Row>, cps: seq<Checkpoint>, keys: map<nat, Key>, publics: set<KeyId>) {
    !RootOf(rows, cps).RootMissing? && Accepts(rows, cps, keys, publics, AsRoot(RootOf(rows, cps)))
  }

  function AsRoot(found: RootLookup): Option<Checkpoint> {
    if found.Rooted? then Some(found.root) else None
  }

  method Verify(rows: seq<Row>, cps: seq<Checkpoint>, keys: map<nat, Key>, publics: set<KeyId>) returns (ok: bool)
    requires Sorted(rows)
    ensures ok <==> Verifies(rows, cps, keys, publics)
  {
    var root := RootOf(rows, cps);
    if root.RootMissing? { return false; }
    var error := VerifyChain(rows, cps, keys, publics, AsRoot(root));
    return error.None?;
  }

  // -- acceptance makes a block of the issued chain ------------------------------------------

  /** The positions of the rows run on: next in the epoch, or (epoch + 1, 1) after a sealed end. */
  ghost predicate RunsOn(log: Log, rows: seq<Row>, i: int) {
    0 <= i < |rows| - 1 ==>
      if rows[i + 1].epoch == rows[i].epoch then rows[i + 1].seqNo == rows[i].seqNo + 1
      else rows[i + 1].epoch == rows[i].epoch + 1 && rows[i + 1].seqNo == 1 &&
           exists c :: c in log.cps && IsSeal(c, rows[i].epoch) && Names(c, rows[i])
  }

  lemma SameEpochNeighbours(issued: seq<Row>, keys: map<nat, Key>, a: int, b: int)
    requires IssuedInv(issued, keys) && 0 <= a < |issued| && 0 <= b < |issued|
    requires issued[b].epoch == issued[a].epoch && issued[b].seqNo == issued[a].seqNo + 1
    ensures b == a + 1
  {
    if b < a {
      Climbs(issued, keys, b, a);
    } else if a + 1 < b {
      Climbs(issued, keys, a, a + 1);
      Climbs(issued, keys, a + 1, b);
    }
  }

  lemma SealedNeighbours(issued: seq<Row>, keys: map<nat, Key>, publics: set<KeyId>, c: Checkpoint, a: int, b: int)
    requires IssuedInv(issued, keys) && Vouched(issued, publics, c) && 0 <= a < |issued| && 0 <= b < |issued|
    requires IsSeal(c, issued[a].epoch) && Names(c, issued[a])
    requires issued[b].epoch == issued[a].epoch + 1 && issued[b].seqNo == 1
    ensures b == a + 1
  {
    var e :| EndsEpoch(issued, e) && NamesAt(issued, e, c);
    OnePlace(issued, keys, e, a);
    assert LinkAt(issued, a + 1);
    OnePlace(issued, keys, a + 1, b);
  }

  /** Rows `i` and `i + 1` are neighbours wherever they are in the issued chain. */
  ghost predicate NextTo(issued: seq<Row>, rows: seq<Row>, i: int) {
    0 <= i < |rows| - 1 ==>
      forall a, b :: 0 <= a < |issued| && 0 <= b < |issued| && issued[a] == rows[i] && issued[b] == rows[i + 1] ==> b == a + 1
  }

  /** Two issued rows whose positions run on are neighbours in the issued chain. */
  lemma Neighbours(log: Log, rows: seq<Row>, i: int)
    requires IssuedInv(log.issued, log.keys) && (forall c :: c in log.cps ==> Vouched(log.issued, log.publics, c))
    requires RunsOn(log, rows, i)
    ensures NextTo(log.issued, rows, i)
  {
    if 0 <= i < |rows| - 1 {
      var issued := log.issued;
      forall a, b | 0 <= a < |issued| && 0 <= b < |issued| && issued[a] == rows[i] && issued[b] == rows[i + 1] ensures b == a + 1 {
        if rows[i + 1].epoch == rows[i].epoch {
          SameEpochNeighbours(issued, log.keys, a, b);
        } else {
          var c :| c in log.cps && IsSeal(c, rows[i].epoch) && Names(c, rows[i]);
          SealedNeighbours(issued, log.keys, log.publics, c, a, b);
        }
      }
    }
  }

  lemma {:induction false} BlockFrom(issued: seq<Row>, rows: seq<Row>, a: int)
    requires rows != [] && (forall i :: 0 <= i < |rows| ==> rows[i] in issued)
    requires forall i :: NextTo(issued, rows, i)
    requires 0 <= a < |issued| && issued[a] == rows[0]
    ensures a + |rows| <= |issued| && rows == issued[a..a + |rows|]
    decreases |rows|
  {
    var n := |rows| - 1;
    if n > 0 {
      var most := rows[..n];
      forall i ensures NextTo(issued, most, i) { assert NextTo(issued, rows, i); }
      BlockFrom(issued, most, a);
      assert rows[n] in issued;
      var b :| 0 <= b < |issued| && issued[b] == rows[n];
      assert issued[a..a + n][n - 1] == most[n - 1] == rows[n - 1];
      assert NextTo(issued, rows, n - 1) && issued[a + n - 1] == rows[n - 1];
      assert b == a + n;
      assert rows == most + [rows[n]] && issued[a..a + n + 1] == issued[a..a + n] + [issued[a + n]];
    } else {
      assert rows == [rows[0]];
    }
  }

  /**
  Soundness, even with checkpoints deleted, copied or forged: accepted rows are a block of the issued
  chain that starts at the genesis or at a row the writer signed.
  */
  lemma AcceptedIsABlock(log: Log, rows: seq<Row>, cps: seq<Checkpoint>) returns (a: int)
    requires Written(log.issued, log.cps, log.keys, log.publics) && Sorted(rows) && Unforged(log, rows, cps) && rows != []
    requires Verifies(rows, cps, log.keys, log.publics)
    ensures 0 <= a && a + |rows| <= |log.issued| && rows == log.issued[a..a + |rows|]
    ensures a > 0 ==> SignedRow(log.cps, rows[0])
  {
    AcceptedIsIssued(log, rows, cps);
    AcceptedAreNeighbours(log, rows, cps);
    a := BlockOf(log.issued, rows);
    StartIsSigned(log, rows, cps, a);
  }

  lemma BlockOf(issued: seq<Row>, rows: seq<Row>) returns (a: int)
    requires rows != [] && (forall i :: 0 <= i < |rows| ==> rows[i] in issued) && (forall i :: NextTo(issued, rows, i))
    ensures 0 <= a && a + |rows| <= |issued| && rows == issued[a..a + |rows|] && issued[a] == rows[0]
  {
    assert rows[0] in issued;
    a :| 0 <= a < |issued| && issued[a] == rows[0];
    BlockFrom(issued, rows, a);
  }

  lemma AcceptedAreNeighbours(log: Log, rows: seq<Row>, cps: seq<Checkpoint>)
    requires Written(log.issued, log.cps, log.keys, log.publics) && Sorted(rows) && Unforged(log, rows, cps) && rows != []
    requires Verifies(rows, cps, log.keys, log.publics)
    ensures forall i :: NextTo(log.issued, rows, i)
  {
    forall i ensures NextTo(log.issued, rows, i) {
      AcceptedRunsOn(log, rows, cps, i);
      Neighbours(log, rows, i);
    }
  }

  lemma AcceptedIsIssued(log: Log, rows: seq<Row>, cps: seq<Checkpoint>)
    requires Unforged(log, rows, cps) && rows != [] && Verifies(rows, cps, log.keys, log.publics)
    ensures forall i :: 0 <= i < |rows| ==> rows[i] in log.issued
  {
    forall i | 0 <= i < |rows| ensures rows[i] in log.issued {
      assert RowOk(rows, i, log.keys) && rows[i] in rows && Authentic(rows[i], log.keys);
    }
  }

  lemma StartIsSigned(log: Log, rows: seq<Row>, cps: seq<Checkpoint>, a: int)
    requires Written(log.issued, log.cps, log.keys, log.publics) && Unforged(log, rows, cps) && rows != []
    requires Verifies(rows, cps, log.keys, log.publics) && 0 <= a < |log.issued| && log.issued[a] == rows[0]
    ensures a > 0 ==> SignedRow(log.cps, rows[0])
  {
    if RootOf(rows, cps).Rooted? {
      var root := RootOf(rows, cps).root;
      assert RootVouched(root, rows[0], cps, log.publics);
      var c :| c in cps && SamePlace(c, root);
      assert SignatureOk(c, log.publics) && c in log.cps && Vouched(log.issued, log.publics, c);
      var i :| NamesAt(log.issued, i, c);
      OnePlace(log.issued, log.keys, i, a);
    } else {
      OnePlace(log.issued, log.keys, 0, a);
    }
  }

  lemma AcceptedRunsOn(log: Log, rows: seq<Row>, cps: seq<Checkpoint>, i: int)
    requires Sorted(rows) && Unforged(log, rows, cps) && rows != []
    requires Verifies(rows, cps, log.keys, log.publics)
    ensures RunsOn(log, rows, i)
  {
    if 0 <= i < |rows| - 1 {
      assert RowOk(rows, i + 1, log.keys) && EndOk(rows, i, cps, log.publics);
      if rows[i + 1].epoch != rows[i].epoch {
        var c :| c in cps && IsSeal(c, rows[i].epoch) && Names(c, rows[i]) && SignatureOk(c, log.publics);
        assert c in log.cps;
        assert RowBefore(rows[i], rows[i + 1]) && NoSkipAt(rows, i);
      }
    }
  }

  /** Completeness: the issued chain from its start, or from a signed row, verifies. */
  lemma SuffixVerifies(log: Log, rows: seq<Row>, k: int)
    requires Inv(log) && Suffix(log.issued, log.cps, rows, k)
    ensures Verifies(rows, log.cps, log.keys, log.publics)
  {
    if rows != [] {
      RootFound(log, rows, k);
      if k == 0 { assert rows[0] == log.issued[0]; }
      SealIsNew(log);
      assert Last(rows) == Last(log.issued);
      forall i ensures NoSkipAt(rows, i) { assert LinkAt(log.issued, k + i + 1); }
      forall i | 0 <= i < |rows| ensures RowOk(rows, i, log.keys) && EndOk(rows, i, log.cps, log.publics) {
        assert KeyedAt(log.issued, log.keys, k + i);
        assert LinkAt(log.issued, k + i) && LinkAt(log.issued, k + i + 1) && EndSealed(log.issued, log.cps, log.publics, k + i);
        SuffixRowOk(log, rows, k, i);
      }
    }
  }

  lemma SuffixRowOk(log: Log, rows: seq<Row>, k: int, i: nat)
    requires 0 <= k <= |log.issued| && rows == log.issued[k..] && i < |rows|
    requires LinkAt(log.issued, k + i) && LinkAt(log.issued, k + i + 1) && EndSealed(log.issued, log.cps, log.publics, k + i)
    requires log.issued[k + i].epoch in log.keys && MacOk(log.issued[k + i], log.keys[log.issued[k + i].epoch])
    ensures RowOk(rows, i, log.keys) && EndOk(rows, i, log.cps, log.publics)
  {
    assert rows[i] == log.issued[k + i];
    assert i > 0 ==> rows[i - 1] == log.issued[k + i - 1];
    assert i + 1 < |rows| ==> rows[i + 1] == log.issued[k + i + 1];
  }

  lemma RootFound(log: Log, rows: seq<Row>, k: int)
    requires Inv(log) && Suffix(log.issued, log.cps, rows, k) && rows != []
    ensures k == 0 <==> RootOf(rows, log.cps).NoRoot?
    ensures k > 0 ==> RootOf(rows, log.cps).Rooted? && RootVouched(RootOf(rows, log.cps).root, rows[0], log.cps, log.publics)
  {
    var issued := log.issued;
    LastAtIsThere(log.cps, rows[0].epoch, rows[0].seqNo);
    if k > 0 {
      Climbs(issued, log.keys, 0, k);
      var c :| c in log.cps && Names(c, rows[0]);
      var root := RootOf(rows, log.cps).root;
      assert Vouched(issued, log.publics, root);
      var i :| NamesAt(issued, i, root);
      OnePlace(issued, log.keys, i, k);
      forall x | x in log.cps ensures SignatureOk(x, log.publics) { assert Vouched(issued, log.publics, x); }
    }
  }

  // -- the main results ----------------------------------------------------------------------

  /** The anchor authenticates under the head's chain key and names the head. */
  predicate Anchored(rows: seq<Row>, keys: map<nat, Key>, anchor: Option<Anchor>) {
    && rows != [] && anchor.Some? && Last(rows).epoch in keys
    && anchor.value.key == keys[Last(rows).epoch] && Anchors(anchor.value, Last(rows))
  }

  /** The writer anchored its last issued row, under that row's epoch key. */
  predicate AnchorsLatest(log: Log, anchor: Option<Anchor>) {
    && log.issued != [] && anchor.Some? && Last(log.issued).epoch in log.keys
    && anchor.value.key == log.keys[Last(log.issued).epoch] && Anchors(anchor.value, Last(log.issued))
  }

  /** A suffix of the issued chain, from the genesis or a signed row, to the anchored head. */
  ghost predicate Acceptable(log: Log, rows: seq<Row>) {
    rows != [] && exists k :: Suffix(log.issued, log.cps, rows, k)
  }

  /**
  Verify is exact.  After any run of the writer and any deletion or edit of event rows, with the
  checkpoints intact and the latest head anchored, the check passes iff the rows are acceptable.
  */
  lemma VerifyIsExact(key: Key, ops: seq<Op>, rows: seq<Row>, anchor: Option<Anchor>)
    requires var log := Run(key, ops); Sorted(rows) && Unforged(log, rows, log.cps) && AnchorsLatest(log, anchor)
    ensures var log := Run(key, ops);
      Verifies(rows, log.cps, log.keys, log.publics) && Anchored(rows, log.keys, anchor) <==> Acceptable(log, rows)
  {
    RunKeeps(key, ops);
    VerifyIsExactOn(Run(key, ops), rows, anchor);
  }

  lemma VerifyIsExactOn(log: Log, rows: seq<Row>, anchor: Option<Anchor>)
    requires Inv(log) && Sorted(rows) && Unforged(log, rows, log.cps) && AnchorsLatest(log, anchor)
    ensures Verifies(rows, log.cps, log.keys, log.publics) && Anchored(rows, log.keys, anchor) <==> Acceptable(log, rows)
  {
    if Verifies(rows, log.cps, log.keys, log.publics) && Anchored(rows, log.keys, anchor) {
      AcceptedIsAcceptable(log, rows, anchor);
    }
    if Acceptable(log, rows) {
      var k :| Suffix(log.issued, log.cps, rows, k);
      SuffixVerifies(log, rows, k);
      assert Last(rows) == Last(log.issued);
    }
  }

  lemma AcceptedIsAcceptable(log: Log, rows: seq<Row>, anchor: Option<Anchor>)
    requires Inv(log) && Sorted(rows) && Unforged(log, rows, log.cps) && AnchorsLatest(log, anchor)
    requires Verifies(rows, log.cps, log.keys, log.publics) && Anchored(rows, log.keys, anchor)
    ensures Acceptable(log, rows)
  {
    var a := AcceptedIsABlock(log, rows, log.cps);
    BlockToTheHead(log, rows, a);
  }

  /** A block of the issued chain that ends at its head is a suffix. */
  lemma BlockToTheHead(log: Log, rows: seq<Row>, a: int)
    requires IssuedInv(log.issued, log.keys) && rows != [] && 0 <= a && a + |rows| <= |log.issued| && rows == log.issued[a..a + |rows|]
    requires At(Last(rows)) == At(Last(log.issued)) && (a > 0 ==> SignedRow(log.cps, rows[0]))
    ensures Acceptable(log, rows)
  {
    var top := a + |rows| - 1;
    assert log.issued[top] == Last(rows);
    OnePlace(log.issued, log.keys, top, |log.issued| - 1);
    assert log.issued[a..a + |rows|] == log.issued[a..];
    assert Suffix(log.issued, log.cps, rows, a);
  }

  /** Every sequence of appends, seals, checkpoints and truncations leaves tables that verify. */
  lemma OperationsKeepVerifiability(key: Key, ops: seq<Op>)
    ensures var log := Run(key, ops); Sorted(log.rows) && Verifies(log.rows, log.cps, log.keys, log.publics)
  {
    var log := Run(key, ops);
    RunKeeps(key, ops);
    var k :| Suffix(log.issued, log.cps, log.rows, k);
    SuffixSorted(log, k);
    SuffixVerifies(log, log.rows, k);
  }

  // -- the abstract verifier over positions --------------------------------------------------

  datatype Position = Position(epoch: nat, seqNo: nat)

  function At(r: Row): Position { Position(r.epoch, r.seqNo) }

  function Positions(rows: seq<Row>): seq<Position> { seq(|rows|, i requires 0 <= i < |rows| => At(rows[i])) }

  function SealPositions(cps: seq<Checkpoint>): set<Position> {
    set c | c in cps && c.fields.reason == EpochSeal :: Position(c.fields.epoch, c.fields.seqNo)
  }

  function SignedPositions(cps: seq<Checkpoint>): set<Position> {
    set c | c in cps :: Position(c.fields.epoch, c.fields.seqNo)
  }

  /** The model's `verify`: continuity, seals, a signed root and the anchored head, by position alone. */
  ghost predicate AbstractVerify(events: seq<Position>, anchor: Position, seals: set<Position>, signed: set<Position>) {
    && events != [] && events[|events| - 1] == anchor
    && (events[0] == Position(1, 1) || events[0] in signed)
    && (forall i :: 0 <= i < |events| - 1 ==> StepsOn(events, i, seals))
    && (forall p :: p in seals ==> p.epoch != events[|events| - 1].epoch)
  }

  ghost predicate StepsOn(events: seq<Position>, i: int, seals: set<Position>)
    requires 0 <= i < |events| - 1
  {
    var a, b := events[i], events[i + 1];
    if b.epoch == a.epoch then b.seqNo == a.seqNo + 1 else a in seals && b == Position(a.epoch + 1, 1)
  }

  /**
  The engine refines the model: over every run and every deletion of stored rows, verifying MACs,
  links, seals and signatures gives the verdict that the positions alone give.
  */
  lemma EngineRefinesModel(key: Key, ops: seq<Op>, rows: seq<Row>, anchor: Option<Anchor>)
    requires var log := Run(key, ops); AnchorsLatest(log, anchor) && Sorted(rows) && forall r :: r in rows ==> r in log.issued
    ensures var log := Run(key, ops);
      Verifies(rows, log.cps, log.keys, log.publics) && Anchored(rows, log.keys, anchor) <==>
      AbstractVerify(Positions(rows), At(Last(log.issued)), SealPositions(log.cps), SignedPositions(log.cps))
  {
    var log := Run(key, ops);
    RunKeeps(key, ops);
    VerifyIsExact(key, ops, rows, anchor);
    if AbstractVerify(Positions(rows), At(Last(log.issued)), SealPositions(log.cps), SignedPositions(log.cps)) {
      ModelAcceptsASuffix(log, rows);
    }
    if Acceptable(log, rows) {
      var k :| Suffix(log.issued, log.cps, rows, k);
      ModelAcceptsSuffixes(log, rows, k);
    }
  }

  lemma ModelAcceptsASuffix(log: Log, rows: seq<Row>)
    requires Written(log.issued, log.cps, log.keys, log.publics) && log.issued != [] && forall r :: r in rows ==> r in log.issued
    requires AbstractVerify(Positions(rows), At(Last(log.issued)), SealPositions(log.cps), SignedPositions(log.cps))
    ensures Acceptable(log, rows)
  {
    forall i ensures NextTo(log.issued, rows, i) {
      ModelRunsOn(log, rows, i);
      Neighbours(log, rows, i);
    }
    assert At(rows[0]) == Positions(rows)[0] && At(Last(rows)) == Positions(rows)[|rows| - 1];
    assert forall i :: 0 <= i < |rows| ==> rows[i] in rows;
    var a := BlockOf(log.issued, rows);
    if a > 0 { ModelRootIsSigned(log, rows[0], a); }
    BlockToTheHead(log, rows, a);
  }

  lemma ModelRunsOn(log: Log, rows: seq<Row>, i: int)
    requires Written(log.issued, log.cps, log.keys, log.publics) && forall r :: r in rows ==> r in log.issued
    requires 0 <= i < |rows| - 1 ==> StepsOn(Positions(rows), i, SealPositions(log.cps))
    ensures RunsOn(log, rows, i)
  {
    if 0 <= i < |rows| - 1 && rows[i + 1].epoch != rows[i].epoch {
      assert At(rows[i]) in SealPositions(log.cps);
      var c :| c in log.cps && c.fields.reason == EpochSeal && Position(c.fields.epoch, c.fields.seqNo) == At(rows[i]);
      NamesItsRow(log, c, rows[i]);
    }
  }

  lemma ModelRootIsSigned(log: Log, r: Row, a: int)
    requires Written(log.issued, log.cps, log.keys, log.publics) && 0 < a < |log.issued| && log.issued[a] == r
    requires At(r) == Position(1, 1) || At(r) in SignedPositions(log.cps)
    ensures SignedRow(log.cps, r)
  {
    Climbs(log.issued, log.keys, 0, a);
    var c :| c in log.cps && Position(c.fields.epoch, c.fields.seqNo) == At(r);
    NamesItsRow(log, c, r);
  }

  lemma NamesItsRow(log: Log, c: Checkpoint, r: Row)
    requires Written(log.issued, log.cps, log.keys, log.publics) && c in log.cps && r in log.issued && Position(c.fields.epoch, c.fields.seqNo) == At(r)
    ensures Names(c, r)
  {
    assert Vouched(log.issued, log.publics, c);
    var i :| NamesAt(log.issued, i, c);
    var j :| 0 <= j < |log.issued| && log.issued[j] == r;
    OnePlace(log.issued, log.keys, i, j);
  }

  lemma ModelAcceptsSuffixes(log: Log, rows: seq<Row>, k: int)
    requires Written(log.issued, log.cps, log.keys, log.publics) && log.issued != [] && rows != [] && Suffix(log.issued, log.cps, rows, k)
    ensures AbstractVerify(Positions(rows), At(Last(log.issued)), SealPositions(log.cps), SignedPositions(log.cps))
  {
    var events := Positions(rows);
    AllStepOn(log, rows, k);
    HeadEpochUnsealed(log);
    assert Last(rows) == Last(log.issued) && rows[0] == log.issued[k];
    if k > 0 { SignedPosition(log.cps, rows[0]); }
  }

  lemma AllStepOn(log: Log, rows: seq<Row>, k: int)
    requires Written(log.issued, log.cps, log.keys, log.publics) && 0 <= k <= |log.issued| && rows == log.issued[k..]
    ensures forall i :: 0 <= i < |rows| - 1 ==> StepsOn(Positions(rows), i, SealPositions(log.cps))
  {
    forall i | 0 <= i < |rows| - 1 ensures StepsOn(Positions(rows), i, SealPositions(log.cps)) {
      assert LinkAt(log.issued, k + i + 1) && EndSealed(log.issued, log.cps, log.publics, k + i);
      SuffixStepsOn(log, rows, k, i);
    }
  }

  lemma HeadEpochUnsealed(log: Log)
    requires IssuedInv(log.issued, log.keys) && SignedInv(log.issued, log.cps, log.publics) && log.issued != []
    ensures forall p :: p in SealPositions(log.cps) ==> p.epoch != Last(log.issued).epoch
  {
    SealIsNew(log);
  }

  lemma SignedPosition(cps: seq<Checkpoint>, r: Row)
    requires SignedRow(cps, r)
    ensures At(r) in SignedPositions(cps)
  {
    var c :| c in cps && Names(c, r);
    assert Position(c.fields.epoch, c.fields.seqNo) in SignedPositions(cps);
  }

  lemma SuffixStepsOn(log: Log, rows: seq<Row>, k: int, i: int)
    requires 0 <= k <= |log.issued| && rows == log.issued[k..] && 0 <= i < |rows| - 1
    requires LinkAt(log.issued, k + i + 1) && EndSealed(log.issued, log.cps, log.publics, k + i)
    ensures StepsOn(Positions(rows), i, SealPositions(log.cps))
  {
    assert rows[i] == log.issued[k + i] && rows[i + 1] == log.issued[k + i + 1];
    if rows[i + 1].epoch != rows[i].epoch {
      var c :| c in log.cps && IsSeal(c, rows[i].epoch) && Names(c, rows[i]);
      assert Position(c.fields.epoch, c.fields.seqNo) in SealPositions(log.cps);
    }
  }
}
