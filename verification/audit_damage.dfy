/**
The anchor when the tables are not left to the writer: between two acts rows and checkpoints may be
replaced by anything that can be had without the writer's keys, older tables included.  What keeps the
anchored heads on one branch is what is demanded of the tables before the anchor moves.
*/
module AuditDamage {
  import opened AuditChain
  import opened AuditHistory
  import opened AuditExact
  import opened AuditIntegrity
  import opened AuditDescent

  /** `signed` are the checkpoints ever made and `heads` the rows that were anchored, in that order.  `damaged`:
      the tables were changed by others since the anchored row was last known to lead to the stored head. */
  datatype Desk = Desk(log: Log, signed: set<Checkpoint>, anchor: Option<Anchor>, heads: seq<Row>, damaged: bool)

  datatype Act =
    | Tamper(rows: seq<Row>, cps: seq<Checkpoint>)
    | Commit(op: Op, key: Key, anchored: bool)
    | Restart(anchored: bool)
    | Repair(event: Event, key: Key, anchored: bool)

  /** The keys nobody but the writer has. */
  datatype Secrets = Secrets(keys: set<Key>, signers: set<KeyId>)

  function Past(d: Desk): Made { Made(d.log.issued, d.signed) }

  // -- one act ---------------------------------------------------------------------------------

  /** The anchor moves to the stored head. */
  function Refreshed(d: Desk): Desk {
    if d.log.rows == [] || Last(d.log.rows).epoch !in d.log.keys then d else
      var head := Last(d.log.rows);
      d.(anchor := Some(AnchorTo(head, d.log.keys[head.epoch])), heads := d.heads + [head])
  }

  /** The writer goes on from whatever head it finds, under the key that is active; on damaged tables that
      need not be the key of the head's epoch, nor need the head be intact. */
  function Wrote(log: Log, op: Op, key: Key): Log {
    match op
    case Append(event) =>
      if log.rows == [] then Issue(log, Make(key, 1, 1, GenesisMac(1), event)) else
        var h := Last(log.rows);
        Issue(log, Make(key, h.epoch, h.seqNo + 1, h.mac, event))
    case SealAndOpen(first, newKey, signer, ref, now) =>
      if log.rows == [] then log else
        var h := Last(log.rows);
        Issue(log.(cps := log.cps + [Sign(signer, ref, h, now, EpochSeal)], publics := log.publics + {signer},
                   keys := log.keys[h.epoch + 1 := newKey]),
              Make(newKey, h.epoch + 1, 1, GenesisMac(h.epoch + 1), first))
    case _ => Apply(log, op)
  }

  /** On tables left alone this is the writer's step. */
  lemma WroteIsApply(log: Log, op: Op)
    requires op.Append? ==> (if log.rows == [] then 1 else Last(log.rows).epoch) in log.keys
    requires op.SealAndOpen? && log.rows != [] ==>
      var h := Last(log.rows); h.epoch in log.keys && log.keys[h.epoch] != op.newKey && MacOk(h, log.keys[h.epoch])
    ensures exists key :: Wrote(log, op, key) == Apply(log, op)
  {
    var key := if op.Append? then log.keys[if log.rows == [] then 1 else Last(log.rows).epoch] else 0;
    assert Wrote(log, op, key) == Apply(log, op);
  }

  /** The checkpoint an operation signs. */
  function Signs(log: Log, op: Op): set<Checkpoint> {
    if log.rows == [] then {} else
      match op
      case SealAndOpen(_, _, signer, ref, now) => {Sign(signer, ref, Last(log.rows), now, EpochSeal)}
      case MakeCheckpoint(n, signer, ref, now) => {Sign(signer, ref, Last(log.rows), now, Other(n))}
      case _ => {}
  }

  /** A commit that issued a row may anchor it. */
  function DoCommit(d: Desk, op: Op, key: Key, anchored: bool): Desk {
    var d' := d.(log := Wrote(d.log, op, key), signed := d.signed + Signs(d.log, op));
    if anchored && |d'.log.issued| > |d.log.issued| then Refreshed(d') else d'
  }

  ghost predicate IsClean(d: Desk) {
    && d.log.rows != [] && AnchorReads(d.log.rows, d.log.keys, d.anchor)
    && Accepts(d.log.rows, d.log.cps, d.log.keys, d.log.publics, None)
    && var a, head := d.anchor.value, Last(d.log.rows);
       (a.epoch, a.seqNo, a.mac) == (head.epoch, head.seqNo, head.mac)
  }

  /** The verdict on which a restart refreshes the anchor; the anchored row itself is not compared. */
  ghost predicate IsBehind(d: Desk) {
    && d.log.rows != [] && AnchorReads(d.log.rows, d.log.keys, d.anchor)
    && Accepts(d.log.rows, d.log.cps, d.log.keys, d.log.publics, None)
    && d.anchor.value.epoch == Last(d.log.rows).epoch && d.anchor.value.seqNo + 1 == Last(d.log.rows).seqNo
  }

  ghost predicate Planned(d: Desk) {
    && NamesRetained(d.log.rows, d.log.keys, d.anchor) && Verifies(d.log.rows, d.log.cps, d.log.keys, d.log.publics)
    && forall c :: c in d.log.cps ==> SignatureOk(c, d.log.publics)
  }

  function Replaced(d: Desk, rows: seq<Row>, cps: seq<Checkpoint>): Desk {
    d.(log := d.log.(rows := rows, cps := cps), damaged := true)
  }

  ghost function Do(d: Desk, act: Act): Desk {
    match act
    case Tamper(rows, cps) => if Sorted(rows) then Replaced(d, rows, cps) else d
    case Commit(op, key, anchored) => DoCommit(d, op, key, anchored)
    case Restart(anchored) =>
      if IsClean(d) then d.(damaged := false) else if IsBehind(d) && anchored then Refreshed(d).(damaged := false) else d
    case Repair(event, key, anchored) => if Planned(d) then DoCommit(d, Append(event), key, anchored).(damaged := false) else d
  }

  ghost function After(key: Key, acts: seq<Act>): Desk {
    if acts == [] then Desk(Init(key), {}, None, [], false) else Do(After(key, acts[..|acts| - 1]), acts[|acts| - 1])
  }

  // -- the runs considered -----------------------------------------------------------------------

  /** Only the writer makes a MAC or a signature under its keys. */
  ghost predicate Genuine(x: Secrets, made: Made, rows: seq<Row>, cps: seq<Checkpoint>) {
    && (forall r :: r in rows && Own(r) && r.mac.key in x.keys ==> r in made.rows)
    && (forall c :: c in cps && c.signature == Signed(c.signer, c.fields) && c.signer in x.signers ==> c in made.signed)
  }

  predicate UsesSecrets(x: Secrets, op: Op) {
    match op
    case SealAndOpen(_, newKey, signer, _, _) => newKey in x.keys && signer in x.signers
    case MakeCheckpoint(_, signer, _, _) => signer in x.signers
    case _ => true
  }

  /** No commit on damaged tables, and no restart that finds the anchor one event behind and its row gone. */
  ghost predicate Guarded(x: Secrets, d: Desk, act: Act) {
    match act
    case Tamper(rows, cps) => Genuine(x, Past(d), rows, cps)
    case Commit(op, _, _) => !d.damaged && UsesSecrets(x, op)
    case Restart(_) => d.damaged && IsBehind(d) && d.heads != [] ==> Last(d.heads) in d.log.rows
    case Repair(_, _, _) => true
  }

  ghost predicate AllGuarded(x: Secrets, key: Key, acts: seq<Act>) {
    if acts == [] then key in x.keys else
      var before := acts[..|acts| - 1];
      AllGuarded(x, key, before) && Guarded(x, After(key, before), acts[|acts| - 1])
  }

  // -- the invariant ---------------------------------------------------------------------------

  ghost predicate HeadAt(made: Made, heads: seq<Row>, i: int) {
    && (0 <= i < |heads| ==> heads[i] in made.rows && Own(heads[i]) && heads[i].epoch >= 1 && heads[i].seqNo >= 1)
    && (0 <= i < |heads| - 1 ==> Ancestor(made, heads[i], heads[i + 1]))
  }

  /** The tables and keys. */
  ghost predicate Held(x: Secrets, log: Log, made: Made) {
    && Sorted(log.rows) && 1 in log.keys && 0 !in log.keys
    && log.keys.Values <= x.keys && log.publics <= x.signers
    && Genuine(x, made, log.rows, log.cps)
  }

  /** The anchor and the heads. */
  ghost predicate HeadsHold(d: Desk) {
    && (forall i :: HeadAt(Past(d), d.heads, i))
    && (if d.heads == [] then d.anchor.None? else d.anchor.Some? && Anchors(d.anchor.value, Last(d.heads)))
  }

  /** The anchored row leads to the stored head. */
  ghost predicate Led(d: Desk) {
    d.heads != [] ==> d.log.rows != [] && Leads(Past(d), Last(d.heads), Last(d.log.rows))
  }

  ghost predicate Sound(x: Secrets, d: Desk) {
    Held(x, d.log, Past(d)) && HeadsHold(d) && (!d.damaged ==> Led(d))
  }

  lemma HeadsStay(d: Desk, log: Log, signed: set<Checkpoint>)
    requires HeadsHold(d) && d.log.issued <= log.issued && d.signed <= signed
    ensures HeadsHold(d.(log := log, signed := signed))
  {
    var d' := d.(log := log, signed := signed);
    forall i ensures HeadAt(Past(d'), d'.heads, i) {
      assert HeadAt(Past(d), d.heads, i);
      if 0 <= i < |d.heads| - 1 { LeadsStays(Past(d), Past(d'), d.heads[i], d.heads[i + 1]); }
    }
  }

  /** Anchoring a stored head that the last anchored row leads to, from below. */
  lemma RefreshStays(d: Desk)
    requires HeadsHold(d) && d.log.rows != [] && Led(d) && 0 !in d.log.keys && Last(d.log.rows).epoch in d.log.keys
    requires var head := Last(d.log.rows);
      head.seqNo >= 1 && Own(head) && head in d.log.issued && (d.heads != [] ==> RowBefore(Last(d.heads), head))
    ensures HeadsHold(Refreshed(d)) && Led(Refreshed(d)) && Refreshed(d).heads == d.heads + [Last(d.log.rows)]
  {
    var d' := Refreshed(d);
    var head := Last(d.log.rows);
    forall i ensures HeadAt(Past(d'), d'.heads, i) { assert HeadAt(Past(d), d.heads, i); }
    LeadsToItself(Past(d), head);
  }

  lemma SortedOn(rows: seq<Row>, next: Row)
    requires Sorted(rows) && (rows != [] ==> RowBefore(Last(rows), next))
    ensures Sorted(rows + [next])
  {
    var all := rows + [next];
    forall i, j | 0 <= i < j < |all| ensures RowBefore(all[i], all[j]) {
      if j < |rows| { assert RowBefore(rows[i], rows[j]); }
      else if i < |rows| - 1 { assert RowBefore(rows[i], Last(rows)); }
    }
  }

  /** A new row next to the stored head leads on from the anchored one; anchored or not. */
  lemma GrowStays(d: Desk, log: Log, signed: set<Checkpoint>, next: Row, anchored: bool)
    requires HeadsHold(d) && Led(d) && log.rows == d.log.rows + [next] && log.issued == d.log.issued + [next] && d.signed <= signed
    requires d.heads != [] ==> Next(Made(log.issued, signed), Last(d.log.rows), next)
    requires 0 !in log.keys && Own(next) && next.seqNo >= 1
    ensures var d' := d.(log := log, signed := signed);
      var d'' := if anchored then Refreshed(d') else d';
      HeadsHold(d'') && Led(d'')
  {
    var d' := d.(log := log, signed := signed);
    HeadsStay(d, log, signed);
    if d.heads != [] {
      LeadsStays(Past(d), Past(d'), Last(d.heads), Last(d.log.rows));
      LeadsClimbs(Past(d'), Last(d.heads), Last(d.log.rows));
      LeadsOn(Past(d'), Last(d.heads), Last(d.log.rows), next);
    }
    if anchored && next.epoch in log.keys { RefreshStays(d'); }
  }

  lemma HeldOn(x: Secrets, log: Log, made: Made, log': Log, made': Made, next: Row, more: seq<Checkpoint>)
    requires Held(x, log, made) && Grown(made, made') && log'.rows == log.rows + [next] && log'.cps == log.cps + more
    requires next in made'.rows && (forall c :: c in more ==> c in made'.signed)
    requires log.rows != [] ==> RowBefore(Last(log.rows), next)
    requires 1 in log'.keys && 0 !in log'.keys && log'.keys.Values <= x.keys && log'.publics <= x.signers
    ensures Held(x, log', made')
  {
    SortedOn(log.rows, next);
  }

  lemma AppendStays(x: Secrets, d: Desk, event: Event, key: Key, anchored: bool)
    requires Sound(x, d) && Led(d)
    ensures Sound(x, DoCommit(d, Append(event), key, anchored).(damaged := false))
  {
    var log := Wrote(d.log, Append(event), key);
    var next := Last(log.rows);
    HeldOn(x, d.log, Past(d), log, Made(log.issued, d.signed), next, []);
    GrowStays(d, log, d.signed + {}, next, anchored);
  }

  lemma SealStays(x: Secrets, d: Desk, op: Op, key: Key, anchored: bool)
    requires Sound(x, d) && Led(d) && op.SealAndOpen? && UsesSecrets(x, op) && d.log.rows != []
    ensures Sound(x, DoCommit(d, op, key, anchored).(damaged := false))
  {
    var log := Wrote(d.log, op, key);
    var head, next := Last(d.log.rows), Last(log.rows);
    var c := Sign(op.signer, op.ref, head, op.now, EpochSeal);
    var signed := d.signed + {c};
    assert c in signed && IsSeal(c, head.epoch) && Names(c, head);
    assert EndSigned(Made(log.issued, signed), head);
    HeldOn(x, d.log, Past(d), log, Made(log.issued, signed), next, [c]);
    GrowStays(d, log, signed, next, anchored);
  }

  /** Deleting what lies before a place keeps the order of the rest. */
  lemma {:induction false} FromStays(rows: seq<Row>, epoch: nat, seqNo: nat)
    requires Sorted(rows)
    ensures Sorted(From(rows, epoch, seqNo)) && forall r :: r in From(rows, epoch, seqNo) ==> r in rows
    ensures rows != [] && !Before(Last(rows).epoch, Last(rows).seqNo, epoch, seqNo) ==>
      From(rows, epoch, seqNo) != [] && Last(From(rows, epoch, seqNo)) == Last(rows)
  {
    if rows != [] {
      var before, r := rows[..|rows| - 1], Last(rows);
      FromStays(before, epoch, seqNo);
      var rest := From(before, epoch, seqNo);
      forall y | y in rest ensures RowBefore(y, r) {
        var i :| 0 <= i < |before| && before[i] == y;
        assert rows[i] == y && RowBefore(rows[i], rows[|rows| - 1]);
      }
      SortedOn(rest, r);
    }
  }

  lemma TruncatedTables(log: Log, cutoff: int)
    requires Sorted(log.rows)
    ensures var log' := Apply(log, Truncate(cutoff));
      && log' == log.(rows := log'.rows) && Sorted(log'.rows) && (forall r :: r in log'.rows ==> r in log.rows)
      && (log.rows != [] ==> log'.rows != [] && Last(log'.rows) == Last(log.rows))
  {
    ChosenIsGreatestEligible(log, cutoff);
    if Chosen(log, cutoff).Some? {
      var root := Chosen(log, cutoff).value;
      var r :| r in log.rows && Names(root, r);
      var i :| 0 <= i < |log.rows| && log.rows[i] == r;
      assert i < |log.rows| - 1 ==> RowBefore(log.rows[i], Last(log.rows));
      FromStays(log.rows, root.fields.epoch, root.fields.seqNo);
    }
  }

  /** Fewer rows and the same head. */
  lemma FewerStays(x: Secrets, d: Desk, rows: seq<Row>)
    requires Sound(x, d) && Led(d) && Sorted(rows) && (forall r :: r in rows ==> r in d.log.rows)
    requires d.log.rows != [] ==> rows != [] && Last(rows) == Last(d.log.rows)
    ensures Sound(x, d.(log := d.log.(rows := rows), damaged := false))
  {
    HeadsStay(d, d.log.(rows := rows), d.signed);
  }

  lemma CheckpointStays(x: Secrets, d: Desk, c: Checkpoint)
    requires Sound(x, d) && Led(d) && c.signer in x.signers
    ensures Sound(x, d.(log := d.log.(cps := d.log.cps + [c], publics := d.log.publics + {c.signer}), signed := d.signed + {c}, damaged := false))
  {
    var d' := d.(log := d.log.(cps := d.log.cps + [c], publics := d.log.publics + {c.signer}), signed := d.signed + {c});
    HeadsStay(d, d'.log, d'.signed);
    if d.heads != [] { LeadsStays(Past(d), Past(d'), Last(d.heads), Last(d.log.rows)); }
    assert Held(x, d'.log, Past(d'));
  }

  lemma CommitStays(x: Secrets, d: Desk, op: Op, key: Key, anchored: bool)
    requires Sound(x, d) && Led(d) && UsesSecrets(x, op)
    ensures Sound(x, DoCommit(d, op, key, anchored).(damaged := false))
  {
    match op
    case Append(event) => AppendStays(x, d, event, key, anchored);
    case SealAndOpen(_, _, _, _, _) => if d.log.rows != [] { SealStays(x, d, op, key, anchored); } else { Nothing(d, op, key, anchored); }
    case MakeCheckpoint(n, signer, ref, now) =>
      if d.log.rows != [] { CheckpointStays(x, d, Sign(signer, ref, Last(d.log.rows), now, Other(n))); } else { Nothing(d, op, key, anchored); }
    case Truncate(cutoff) =>
      TruncatedTables(d.log, cutoff);
      FewerStays(x, d, Apply(d.log, op).rows);
      assert d.signed + {} == d.signed;
  }

  lemma Nothing(d: Desk, op: Op, key: Key, anchored: bool)
    requires d.log.rows == [] && (op.SealAndOpen? || op.MakeCheckpoint?)
    ensures DoCommit(d, op, key, anchored) == d
  {
    assert d.signed + {} == d.signed;
  }

  // -- what repair and restart find ------------------------------------------------------------

  /** Rows that pass under the writer's keys were made by the writer. */
  lemma PassedIsTraced(x: Secrets, d: Desk)
    requires Sound(x, d) && NoEpochSkipped(d.log.rows)
    requires forall i :: 0 <= i < |d.log.rows| ==> RowOk(d.log.rows, i, d.log.keys) && EndOk(d.log.rows, i, d.log.cps, d.log.publics)
    ensures Traced(Past(d), d.log.rows, d.log.cps, d.log.keys, d.log.publics)
  {
    forall r | r in d.log.rows ensures r in d.log.issued && Own(r) {
      var i :| 0 <= i < |d.log.rows| && d.log.rows[i] == r;
      assert RowOk(d.log.rows, i, d.log.keys) && d.log.keys[r.epoch] in d.log.keys.Values;
    }
  }

  /** A repair is planned only where the row last anchored is stored and leads to the stored head. */
  lemma PlannedIsLed(x: Secrets, d: Desk)
    requires Sound(x, d) && Planned(d)
    ensures Led(d) && d.heads != [] && Last(d.heads) in d.log.rows
  {
    var r :| r in d.log.rows && Anchors(d.anchor.value, r);
    var i: nat :| i < |d.log.rows| && d.log.rows[i] == r;
    assert HeadAt(Past(d), d.heads, |d.heads| - 1);
    PassedIsTraced(x, d);
    assert r == Last(d.heads);
    TracedLeads(Past(d), d.log.rows, d.log.cps, d.log.keys, d.log.publics, i);
  }

  lemma CleanIsLed(x: Secrets, d: Desk)
    requires Sound(x, d) && IsClean(d)
    ensures Led(d)
  {
    if d.heads != [] {
      assert HeadAt(Past(d), d.heads, |d.heads| - 1);
      PassedIsTraced(x, d);
      assert Last(d.log.rows) in d.log.rows && Last(d.log.rows) == Last(d.heads);
      LeadsToItself(Past(d), Last(d.heads));
    }
  }

  /** In tables that pass from their genesis on, the anchored row leads to a head of its epoch exactly when it
      is stored. */
  lemma LedExactlyIfStored(x: Secrets, d: Desk)
    requires Sound(x, d) && d.heads != [] && d.log.rows != [] && Last(d.heads).epoch == Last(d.log.rows).epoch
    requires Accepts(d.log.rows, d.log.cps, d.log.keys, d.log.publics, None)
    ensures Led(d) <==> Last(d.heads) in d.log.rows
  {
    PassedIsTraced(x, d);
    if Last(d.heads) in d.log.rows {
      var i: nat :| i < |d.log.rows| && d.log.rows[i] == Last(d.heads);
      TracedLeads(Past(d), d.log.rows, d.log.cps, d.log.keys, d.log.publics, i);
    }
    if Led(d) {
      LeadsFromStored(Past(d), d.log.rows, d.log.cps, d.log.keys, d.log.publics, Last(d.heads), |d.log.rows| - 1);
    }
  }

  lemma RestartStays(x: Secrets, d: Desk, anchored: bool)
    requires Sound(x, d) && Guarded(x, d, Restart(anchored))
    ensures Sound(x, Do(d, Restart(anchored)))
  {
    if IsClean(d) {
      CleanIsLed(x, d);
    } else if IsBehind(d) && anchored && d.heads != [] {
      LedExactlyIfStored(x, d);
      PassedIsTraced(x, d);
      assert Last(d.log.rows) in d.log.rows;
      RefreshStays(d);
      assert Held(x, Refreshed(d).log, Past(Refreshed(d)));
    }
  }

  lemma TamperStays(x: Secrets, d: Desk, rows: seq<Row>, cps: seq<Checkpoint>)
    requires Sound(x, d) && Sorted(rows) && Genuine(x, Past(d), rows, cps)
    ensures Sound(x, Replaced(d, rows, cps))
  {
    HeadsStay(d, d.log.(rows := rows, cps := cps), d.signed);
    assert Held(x, Replaced(d, rows, cps).log, Past(d));
  }

  lemma ActStays(x: Secrets, d: Desk, act: Act)
    requires Sound(x, d) && Guarded(x, d, act)
    ensures Sound(x, Do(d, act))
  {
    match act
    case Tamper(rows, cps) => if Sorted(rows) { TamperStays(x, d, rows, cps); }
    case Commit(op, key, anchored) => CommitStays(x, d, op, key, anchored);
    case Restart(anchored) => RestartStays(x, d, anchored);
    case Repair(event, key, anchored) =>
      if Planned(d) {
        PlannedIsLed(x, d);
        AppendStays(x, d, event, key, anchored);
      }
  }

  lemma {:induction false} RunStays(x: Secrets, key: Key, acts: seq<Act>)
    requires AllGuarded(x, key, acts)
    ensures Sound(x, After(key, acts))
  {
    if acts != [] {
      RunStays(x, key, acts[..|acts| - 1]);
      ActStays(x, After(key, acts[..|acts| - 1]), acts[|acts| - 1]);
    }
  }

  // -- main results ----------------------------------------------------------------------------

  lemma {:induction false} HeadsDescend(made: Made, heads: seq<Row>, i: nat, j: nat)
    requires (forall k :: HeadAt(made, heads, k)) && i < j < |heads|
    ensures Ancestor(made, heads[i], heads[j])
    decreases j
  {
    assert HeadAt(made, heads, j - 1);
    if i < j - 1 {
      HeadsDescend(made, heads, i, j - 1);
      LeadsThrough(made, heads[i], heads[j - 1], heads[j]);
    }
  }

  /** However often the tables were replaced or rolled back meanwhile, each anchored head is an ancestor of
      every later one. */
  lemma HeadsStayOnOneBranch(x: Secrets, key: Key, acts: seq<Act>, i: nat, j: nat)
    requires AllGuarded(x, key, acts) && i < j < |After(key, acts).heads|
    ensures var d := After(key, acts); Ancestor(Past(d), d.heads[i], d.heads[j])
  {
    RunStays(x, key, acts);
    HeadsDescend(Past(After(key, acts)), After(key, acts).heads, i, j);
  }

  /** And at its place within that epoch it is the only one. */
  lemma NoOtherAncestor(x: Secrets, key: Key, acts: seq<Act>, i: nat, j: nat, r: Row)
    requires AllGuarded(x, key, acts) && i < j < |After(key, acts).heads|
    requires var d := After(key, acts);
      && SamePosition(r, d.heads[i]) && Leads(Past(d), r, d.heads[j])
      && (r.epoch == d.heads[j].epoch || EndedOnce(Past(d)))
    ensures r == After(key, acts).heads[i]
  {
    var d := After(key, acts);
    HeadsStayOnOneBranch(x, key, acts, i, j);
    OneAncestorPerPlace(Past(d), r, d.heads[i], d.heads[j]);
  }

  /** A restart that finds the anchor one event behind moves it to a descendant of the anchored row exactly
      when that row is still stored. */
  lemma RecoveryDescendsExactly(x: Secrets, key: Key, acts: seq<Act>)
    requires AllGuarded(x, key, acts) && IsBehind(After(key, acts))
    ensures var d := After(key, acts);
      d.heads != [] && (Ancestor(Past(d), Last(d.heads), Last(d.log.rows)) <==> Last(d.heads) in d.log.rows)
  {
    RunStays(x, key, acts);
    LedExactlyIfStored(x, After(key, acts));
  }

  /** The stored head has the place and the MAC of a row the anchored one leads to; its columns may be edited. */
  ghost predicate OnBranch(d: Desk)
    requires d.heads != [] && d.log.rows != []
  {
    exists y :: Leads(Past(d), Last(d.heads), y) && SamePosition(y, Last(d.log.rows)) && y.mac == Last(d.log.rows).mac
  }

  lemma OnBranchIfIntact(d: Desk)
    requires d.heads != [] && d.log.rows != [] && Own(Last(d.log.rows))
    ensures OnBranch(d) <==> Led(d)
  {
    if OnBranch(d) {
      var y :| Leads(Past(d), Last(d.heads), y) && SamePosition(y, Last(d.log.rows)) && y.mac == Last(d.log.rows).mac;
      LeadsAreMade(Past(d), Last(d.heads), y);
    }
  }

  /** A commit that anchors what it appends, on any tables, keeps to the branch exactly when the head it found
      is on it. */
  lemma CommitDescendsExactly(d: Desk, event: Event, key: Key)
    requires d.heads != [] && d.log.rows != [] && Last(d.log.rows).seqNo >= 1 && Last(d.log.rows).epoch in d.log.keys
    ensures var d' := DoCommit(d, Append(event), key, true);
      d'.heads == d.heads + [Last(d'.log.rows)] && (Ancestor(Past(d'), Last(d.heads), Last(d'.heads)) <==> OnBranch(d))
  {
    var d' := DoCommit(d, Append(event), key, true);
    var head, found, next := Last(d.heads), Last(d.log.rows), Last(d'.log.rows);
    assert d.signed + {} == d.signed;
    if OnBranch(d) {
      var y :| Leads(Past(d), head, y) && SamePosition(y, found) && y.mac == found.mac;
      LeadsStays(Past(d), Past(d'), head, y);
      LeadsClimbs(Past(d'), head, y);
      LeadsOn(Past(d'), head, y, next);
    }
    if Ancestor(Past(d'), head, next) {
      var y := LastLink(Past(d'), head, next);
      LeadsAreMade(Past(d'), head, y);
      LeadsWithout(Past(d), next, head, y);
    }
  }

  lemma OneMoreAct(key: Key, acts: seq<Act>, act: Act)
    ensures After(key, acts + [act]) == Do(After(key, acts), act)
  {
    assert (acts + [act])[..|acts + [act]| - 1] == acts;
  }

  /** So the guard on commits is needed: on tables replaced by others that pass as well, however long they are, a
      commit in the anchored row's epoch keeps to the branch exactly when they still hold that row. */
  lemma CommitOnReplacedTables(x: Secrets, key: Key, acts: seq<Act>, rows: seq<Row>, cps: seq<Checkpoint>, event: Event, active: Key)
    requires AllGuarded(x, key, acts) && After(key, acts).heads != [] && Guarded(x, After(key, acts), Tamper(rows, cps))
    requires var d := After(key, acts);
      && Sorted(rows) && rows != [] && Last(rows).seqNo >= 1 && Accepts(rows, cps, d.log.keys, d.log.publics, None)
      && Last(rows).epoch == Last(d.heads).epoch
    ensures var d, d' := After(key, acts), After(key, acts + [Tamper(rows, cps)] + [Commit(Append(event), active, true)]);
      && |d'.heads| == |d.heads| + 1 && d.heads <= d'.heads
      && (Ancestor(Past(d'), Last(d.heads), Last(d'.heads)) <==> Last(d.heads) in rows)
  {
    RunStays(x, key, acts);
    var d := After(key, acts);
    TamperStays(x, d, rows, cps);
    var t := Replaced(d, rows, cps);
    LedExactlyIfStored(x, t);
    PassedIsTraced(x, t);
    assert Last(rows) in rows;
    OnBranchIfIntact(t);
    assert HeadAt(Past(d), d.heads, |d.heads| - 1);
    assert RowOk(rows, |rows| - 1, d.log.keys);
    CommitDescendsExactly(t, event, active);
    OneMoreAct(key, acts, Tamper(rows, cps));
    OneMoreAct(key, acts + [Tamper(rows, cps)], Commit(Append(event), active, true));
  }

  lemma EmptiedStartsAnew(x: Secrets, d: Desk, event: Event, key: Key)
    requires Sound(x, d) && d.heads != []
    ensures var d' := DoCommit(Replaced(d, [], []), Append(event), key, true);
      && |d'.heads| == |d.heads| + 1 && d.heads <= d'.heads
      && !RowBefore(Last(d.heads), Last(d'.heads))
  {
    assert HeadAt(Past(d), d.heads, |d.heads| - 1);
  }

  /** And on emptied tables it never does. */
  lemma CommitOnEmptiedTables(x: Secrets, key: Key, acts: seq<Act>, event: Event, active: Key)
    requires AllGuarded(x, key, acts) && After(key, acts).heads != []
    ensures var d, d' := After(key, acts), After(key, acts + [Tamper([], [])] + [Commit(Append(event), active, true)]);
      && |d'.heads| == |d.heads| + 1 && d.heads <= d'.heads
      && !Ancestor(Past(d'), Last(d.heads), Last(d'.heads))
  {
    RunStays(x, key, acts);
    EmptiedStartsAnew(x, After(key, acts), event, active);
    OneMoreAct(key, acts, Tamper([], []));
    OneMoreAct(key, acts + [Tamper([], [])], Commit(Append(event), active, true));
  }

  // -- a restart that leaves the branch ----------------------------------------------------------

  ghost predicate Reached(x: Secrets, key: Key, acts: seq<Act>, d: Desk) { AllGuarded(x, key, acts) && After(key, acts) == d }

  lemma ReachedNext(x: Secrets, key: Key, acts: seq<Act>, d: Desk, act: Act)
    requires Reached(x, key, acts, d) && Guarded(x, d, act)
    ensures Reached(x, key, acts + [act], Do(d, act))
  {
    OneMoreAct(key, acts, act);
    assert (acts + [act])[..|acts + [act]| - 1] == acts;
  }

  /** A row of the first epoch on top of others, or its first. */
  function Onto(k: Key, rows: seq<Row>, e: Event): seq<Row> {
    rows + [if rows == [] then Make(k, 1, 1, GenesisMac(1), e) else Make(k, 1, Last(rows).seqNo + 1, Last(rows).mac, e)]
  }

  /** A desk in its first epoch, with a stored row anchored last. */
  function DeskOf(k: Key, issued: seq<Row>, rows: seq<Row>, heads: seq<Row>, damaged: bool): Desk {
    Desk(Log(issued, rows, [], map[1 := k], {}), {}, if heads == [] then None else Some(AnchorTo(Last(heads), k)), heads, damaged)
  }

  lemma Appended(x: Secrets, k: Key, acts: seq<Act>, d: Desk, e: Event, anchored: bool)
    requires Reached(x, k, acts, d) && d == DeskOf(k, d.log.issued, d.log.rows, d.heads, false)
    requires d.log.rows != [] ==> Last(d.log.rows).epoch == 1
    ensures var rows := Onto(k, d.log.rows, e);
      Reached(x, k, acts + [Commit(Append(e), k, anchored)],
              DeskOf(k, d.log.issued + [Last(rows)], rows, if anchored then d.heads + [Last(rows)] else d.heads, false))
  {
    ReachedNext(x, k, acts, d, Commit(Append(e), k, anchored));
    assert d.signed + {} == d.signed;
  }

  /** The tables are set to rows made before. */
  lemma Rolled(x: Secrets, k: Key, acts: seq<Act>, d: Desk, rows: seq<Row>)
    requires Reached(x, k, acts, d) && d == DeskOf(k, d.log.issued, d.log.rows, d.heads, false)
    requires Sorted(rows) && forall r :: r in rows ==> r in d.log.issued
    ensures Reached(x, k, acts + [Tamper(rows, [])], DeskOf(k, d.log.issued, rows, d.heads, true))
  {
    ReachedNext(x, k, acts, d, Tamper(rows, []));
  }

  function Three(k: Key, e0: Event, e1: Event, e2: Event): seq<Row> { Onto(k, Onto(k, Onto(k, [], e0), e1), e2) }

  lemma ThreePass(k: Key, e0: Event, e1: Event, e2: Event, n: nat)
    requires 1 <= n <= 3
    ensures var rows := Three(k, e0, e1, e2);
      |rows| == 3 && Sorted(rows[..n]) && Accepts(rows[..n], [], map[1 := k], {}, None) && Last(rows[..n]).seqNo == n && Last(rows[..n]).epoch == 1
  {
    var rows := Three(k, e0, e1, e2)[..n];
    forall i | 0 <= i < |rows| ensures RowOk(rows, i, map[1 := k]) && EndOk(rows, i, [], {}) && rows[i].epoch == 1 && rows[i].seqNo == i + 1 {
    }
    forall i ensures NoSkipAt(rows, i) {
      if 0 <= i < |rows| - 1 { assert rows[i].epoch == 1 && rows[i + 1].epoch == 1; }
    }
  }

  /** Three rows, the first anchored; rolled back to that one, which a restart finds clean. */
  lemma RolledBack(x: Secrets, k: Key, e0: Event, e1: Event, e2: Event) returns (acts: seq<Act>)
    requires k in x.keys
    ensures var rows := Three(k, e0, e1, e2); Reached(x, k, acts, DeskOf(k, rows, rows[..1], rows[..1], false))
  {
    var rows := Three(k, e0, e1, e2);
    ThreePass(k, e0, e1, e2, 1);
    acts := [];
    Appended(x, k, acts, DeskOf(k, [], [], [], false), e0, true);
    acts := acts + [Commit(Append(e0), k, true)];
    Appended(x, k, acts, DeskOf(k, rows[..1], rows[..1], rows[..1], false), e1, false);
    acts := acts + [Commit(Append(e1), k, false)];
    Appended(x, k, acts, DeskOf(k, rows[..2], rows[..2], rows[..1], false), e2, false);
    acts := acts + [Commit(Append(e2), k, false)];
    Rolled(x, k, acts, DeskOf(k, rows, rows, rows[..1], false), rows[..1]);
    acts := acts + [Tamper(rows[..1], [])];
    var d := DeskOf(k, rows, rows[..1], rows[..1], true);
    ReachedNext(x, k, acts, d, Restart(true));
    acts := acts + [Restart(true)];
  }

  /** Continued from there with another event, anchored, and rolled forward again. */
  lemma RolledForward(x: Secrets, k: Key, e0: Event, e1: Event, e2: Event, other: Event) returns (acts: seq<Act>)
    requires k in x.keys
    ensures var rows := Three(k, e0, e1, e2);
      var left := Onto(k, rows[..1], other);
      Reached(x, k, acts, DeskOf(k, rows + [Last(left)], rows, left, true))
  {
    var rows := Three(k, e0, e1, e2);
    acts := RolledBack(x, k, e0, e1, e2);
    Appended(x, k, acts, DeskOf(k, rows, rows[..1], rows[..1], false), other, true);
    acts := acts + [Commit(Append(other), k, true)];
    var left := Onto(k, rows[..1], other);
    ThreePass(k, e0, e1, e2, 3);
    assert rows[..3] == rows;
    Rolled(x, k, acts, DeskOf(k, rows + [Last(left)], left, left, false), rows);
    acts := acts + [Tamper(rows, [])];
  }

  /** Such a restart there is: rolled back to the anchored row, found clean and continued with another event,
      then rolled forward again, the tables are one event ahead of the anchor and not on its branch. */
  lemma RestartCanLeaveTheBranch(x: Secrets, k: Key, e0: Event, e1: Event, e2: Event, other: Event) returns (acts: seq<Act>)
    requires k in x.keys && other != e1
    ensures AllGuarded(x, k, acts)
    ensures var d, d' := After(k, acts), After(k, acts + [Restart(true)]);
      && d.heads != [] && |d'.heads| == |d.heads| + 1 && d.heads <= d'.heads
      && !Ancestor(Past(d'), Last(d.heads), Last(d'.heads))
  {
    acts := RolledForward(x, k, e0, e1, e2, other);
    ThreePass(k, e0, e1, e2, 3);
    assert Three(k, e0, e1, e2)[..3] == Three(k, e0, e1, e2);
    assert IsBehind(After(k, acts));
    RecoveryDescendsExactly(x, k, acts);
    OneMoreAct(k, acts, Restart(true));
  }
}
