/**
Descent among the rows a writer made.  Once stored tables may be rolled back the rows made form a tree:
a row's MAC names the row before it in its epoch, and the row an epoch ended at is the one its seal signs.
*/
module AuditDescent {
  import opened AuditChain
  import opened AuditHistory
  import opened AuditExact

  /** Everything the writer ever made: rows, and signed checkpoints. */
  datatype Made = Made(rows: seq<Row>, signed: set<Checkpoint>)

  /** The row's MAC covers its own columns: then the MAC tells the row. */
  predicate Own(r: Row) { r.mac.EventMac? && MacOk(r, r.mac.key) }

  ghost predicate EndSigned(made: Made, a: Row) {
    exists c :: c in made.signed && IsSeal(c, a.epoch) && Names(c, a)
  }

  /** `b` names `a` as the row before it, or opens the epoch after the one the writer signed as ending at `a`. */
  ghost predicate Next(made: Made, a: Row, b: Row) {
    Follows(a, b) && (b.epoch != a.epoch ==> EndSigned(made, a))
  }

  ghost predicate NextAt(made: Made, path: seq<Row>, i: int) { 0 <= i < |path| - 1 ==> Next(made, path[i], path[i + 1]) }

  ghost predicate MadeAt(made: Made, path: seq<Row>, i: int) { 0 <= i < |path| ==> path[i] in made.rows && Own(path[i]) }

  /** A path of rows the writer made. */
  ghost predicate IsPath(made: Made, path: seq<Row>) {
    path != [] && forall i :: MadeAt(made, path, i) && NextAt(made, path, i)
  }

  ghost predicate Leads(made: Made, a: Row, b: Row) {
    exists path :: IsPath(made, path) && path[0] == a && Last(path) == b
  }

  /** `a` is an ancestor of `b`. */
  ghost predicate Ancestor(made: Made, a: Row, b: Row) { Leads(made, a, b) && RowBefore(a, b) }

  predicate Grown(made: Made, more: Made) { made.rows <= more.rows && made.signed <= more.signed }

  lemma PathStays(made: Made, more: Made, path: seq<Row>)
    requires IsPath(made, path) && Grown(made, more)
    ensures IsPath(more, path)
  {
    forall i ensures MadeAt(more, path, i) && NextAt(more, path, i) { assert MadeAt(made, path, i) && NextAt(made, path, i); }
  }

  lemma LeadsStays(made: Made, more: Made, a: Row, b: Row)
    requires Leads(made, a, b) && Grown(made, more)
    ensures Leads(more, a, b)
  {
    var path :| IsPath(made, path) && path[0] == a && Last(path) == b;
    PathStays(made, more, path);
  }

  lemma LeadsToItself(made: Made, a: Row)
    requires a in made.rows && Own(a)
    ensures Leads(made, a, a)
  {
    assert IsPath(made, [a]) && Last([a]) == a;
  }

  lemma LeadsAreMade(made: Made, a: Row, b: Row)
    requires Leads(made, a, b)
    ensures a in made.rows && Own(a) && b in made.rows && Own(b)
  {
    var path :| IsPath(made, path) && path[0] == a && Last(path) == b;
    assert MadeAt(made, path, 0) && MadeAt(made, path, |path| - 1);
  }

  lemma LeadsOn(made: Made, a: Row, b: Row, c: Row)
    requires Leads(made, a, b) && Next(made, b, c) && c in made.rows && Own(c)
    ensures Leads(made, a, c)
  {
    var path :| IsPath(made, path) && path[0] == a && Last(path) == b;
    var longer := path + [c];
    forall i ensures MadeAt(made, longer, i) && NextAt(made, longer, i) { assert MadeAt(made, path, i) && NextAt(made, path, i); }
    assert IsPath(made, longer) && longer[0] == a && Last(longer) == c;
  }

  lemma ShorterIsPath(made: Made, path: seq<Row>)
    requires IsPath(made, path) && |path| > 1
    ensures IsPath(made, path[..|path| - 1]) && Next(made, path[|path| - 2], Last(path))
  {
    var before := path[..|path| - 1];
    assert NextAt(made, path, |path| - 2);
    forall i ensures MadeAt(made, before, i) && NextAt(made, before, i) { assert MadeAt(made, path, i) && NextAt(made, path, i); }
  }

  lemma {:induction false} PathClimbs(made: Made, path: seq<Row>)
    requires IsPath(made, path)
    ensures |path| > 1 ==> RowBefore(path[0], Last(path))
  {
    if |path| > 1 {
      ShorterIsPath(made, path);
      PathClimbs(made, path[..|path| - 1]);
    }
  }

  lemma LeadsClimbs(made: Made, a: Row, b: Row)
    requires Leads(made, a, b)
    ensures a == b || RowBefore(a, b)
  {
    var path :| IsPath(made, path) && path[0] == a && Last(path) == b;
    PathClimbs(made, path);
  }

  /** A row that leads to another does so through some row that one is next to. */
  lemma LastLink(made: Made, a: Row, b: Row) returns (x: Row)
    requires Leads(made, a, b) && a != b
    ensures Leads(made, a, x) && Next(made, x, b)
  {
    var path :| IsPath(made, path) && path[0] == a && Last(path) == b;
    ShorterIsPath(made, path);
    x := path[|path| - 2];
    assert Last(path[..|path| - 1]) == x;
  }

  lemma LeadsThrough(made: Made, a: Row, b: Row, c: Row)
    requires Leads(made, a, b) && Leads(made, b, c)
    ensures Leads(made, a, c)
  {
    var path :| IsPath(made, path) && path[0] == b && Last(path) == c;
    LeadsAlong(made, a, path);
  }

  lemma {:induction false} LeadsAlong(made: Made, a: Row, path: seq<Row>)
    requires IsPath(made, path) && Leads(made, a, path[0])
    ensures Leads(made, a, Last(path))
  {
    if |path| > 1 {
      ShorterIsPath(made, path);
      LeadsAlong(made, a, path[..|path| - 1]);
      assert MadeAt(made, path, |path| - 1);
      LeadsOn(made, a, path[|path| - 2], Last(path));
    }
  }

  /** A row made later takes no part in what leads to the rows below it. */
  lemma {:induction false} PathWithout(made: Made, later: Row, path: seq<Row>)
    requires IsPath(made.(rows := made.rows + [later]), path) && RowBefore(Last(path), later)
    ensures IsPath(made, path)
  {
    var more := made.(rows := made.rows + [later]);
    assert MadeAt(more, path, |path| - 1);
    if |path| > 1 {
      ShorterIsPath(more, path);
      PathWithout(made, later, path[..|path| - 1]);
      forall i ensures MadeAt(made, path, i) && NextAt(made, path, i) {
        assert MadeAt(made, path[..|path| - 1], i) && NextAt(more, path, i);
      }
    }
  }

  lemma LeadsWithout(made: Made, later: Row, a: Row, b: Row)
    requires Leads(made.(rows := made.rows + [later]), a, b) && RowBefore(b, later)
    ensures Leads(made, a, b)
  {
    var path :| IsPath(made.(rows := made.rows + [later]), path) && path[0] == a && Last(path) == b;
    PathWithout(made, later, path);
  }

  // -- one row at each place -------------------------------------------------------------------

  predicate SamePosition(a: Row, b: Row) { a.epoch == b.epoch && a.seqNo == b.seqNo }

  /** No epoch was ended twice. */
  ghost predicate EndedOnce(made: Made) {
    forall c, c' :: c in made.signed && c' in made.signed && c.fields.reason == EpochSeal && IsSeal(c', c.fields.epoch) ==>
      c.fields.lastMac == c'.fields.lastMac
  }

  lemma OneRowBefore(made: Made, x: Row, y: Row, b: Row)
    requires Next(made, x, b) && Next(made, y, b) && Own(x) && Own(y)
    requires x.epoch == b.epoch || EndedOnce(made)
    ensures x == y
  {
    if x.epoch != b.epoch && y.epoch != b.epoch {
      var c :| c in made.signed && IsSeal(c, x.epoch) && Names(c, x);
      var c' :| c' in made.signed && IsSeal(c', y.epoch) && Names(c', y);
      assert x.mac == y.mac;
    }
  }

  /** At each place of a row's epoch, and of every earlier one if no epoch was ended twice, a single row is its
      ancestor: what a row descends from is no matter of choice. */
  lemma {:induction false} OneAncestorPerPlace(made: Made, a: Row, a': Row, b: Row)
    requires Leads(made, a, b) && Leads(made, a', b) && SamePosition(a, a')
    requires a.epoch == b.epoch || EndedOnce(made)
    ensures a == a'
    decreases b.epoch, b.seqNo
  {
    LeadsClimbs(made, a, b);
    LeadsClimbs(made, a', b);
    if a != b && a' != b {
      var x := LastLink(made, a, b);
      var y := LastLink(made, a', b);
      LeadsAreMade(made, a, x);
      LeadsAreMade(made, a', y);
      LeadsClimbs(made, a, x);
      OneRowBefore(made, x, y, b);
      OneAncestorPerPlace(made, a, a', x);
    }
  }

  // -- stored rows -----------------------------------------------------------------------------

  /** Rows that pass, every one of them and every signature among the checkpoints made by the writer. */
  ghost predicate Traced(made: Made, rows: seq<Row>, cps: seq<Checkpoint>, keys: map<nat, Key>, publics: set<KeyId>) {
    && Sorted(rows) && NoEpochSkipped(rows)
    && (forall i :: 0 <= i < |rows| ==> RowOk(rows, i, keys) && EndOk(rows, i, cps, publics))
    && (forall r :: r in rows ==> r in made.rows && Own(r))
    && (forall c :: c in cps && SignatureOk(c, publics) ==> c in made.signed)
  }

  lemma TracedIsNext(made: Made, rows: seq<Row>, cps: seq<Checkpoint>, keys: map<nat, Key>, publics: set<KeyId>, i: nat)
    requires Traced(made, rows, cps, keys, publics) && i + 1 < |rows|
    ensures Next(made, rows[i], rows[i + 1])
  {
    assert RowOk(rows, i + 1, keys) && EndOk(rows, i, cps, publics) && NoSkipAt(rows, i);
    assert RowBefore(rows[i], rows[i + 1]);
    if rows[i].epoch != rows[i + 1].epoch {
      var c :| c in cps && IsSeal(c, rows[i].epoch) && Names(c, rows[i]) && SignatureOk(c, publics);
      assert EndSigned(made, rows[i]);
    }
  }

  lemma TracedLeads(made: Made, rows: seq<Row>, cps: seq<Checkpoint>, keys: map<nat, Key>, publics: set<KeyId>, i: nat)
    requires Traced(made, rows, cps, keys, publics) && i < |rows|
    ensures Leads(made, rows[i], Last(rows))
  {
    var path := rows[i..];
    forall k ensures MadeAt(made, path, k) && NextAt(made, path, k) {
      if 0 <= k < |path| { assert path[k] == rows[i + k] && rows[i + k] in rows; }
      if 0 <= k < |path| - 1 { TracedIsNext(made, rows, cps, keys, publics, i + k); }
    }
    assert IsPath(made, path) && Last(path) == Last(rows);
  }

  /** Within an epoch stored from its first row on, what leads to a stored row is stored. */
  lemma {:induction false} LeadsFromStored(made: Made, rows: seq<Row>, cps: seq<Checkpoint>, keys: map<nat, Key>,
                                           publics: set<KeyId>, a: Row, i: nat)
    requires Traced(made, rows, cps, keys, publics) && i < |rows| && Leads(made, a, rows[i]) && a.epoch == rows[i].epoch
    requires rows[0].epoch < a.epoch || OpensEpoch(rows[0])
    ensures a in rows
    decreases i
  {
    if a != rows[i] {
      var x := LastLink(made, a, rows[i]);
      LeadsClimbs(made, a, x);
      LeadsAreMade(made, a, x);
      assert rows[i].prev == x.mac;
      assert RowOk(rows, i, keys);
      assert i > 0;
      assert rows[i - 1] in rows && rows[i - 1] == x;
      LeadsFromStored(made, rows, cps, keys, publics, a, i - 1);
    }
  }
}
