/**
What arrives: with an honest mailbox every good delivery that no age purge touched is in the inbox once the
collector is past it, and a delivery that is not good is in quarantine for its own reason.
*/
module RelayArrival {
  import opened ByteStrings
  import opened RelayMail
  import opened RelayProtocol
  import opened RelaySafety
  import opened RelayHonest

  /** The delivery that owns the row could not be taken, for this reason. */
  ghost predicate Explained(cfg: Config, ds: seq<Delivery>, k: nat, reason: Reason) {
    exists j :: Owns(ds, j, k) && Obstacle(cfg, ds[j]) == Some(reason)
  }

  /** A row in quarantine was overtaken by a purge, or its delivery could not be taken. */
  ghost predicate QuarantineExplained(cfg: Config, ds: seq<Delivery>, q: map<nat, Held>, purged: nat) {
    forall k :: k in q ==> k <= purged || Explained(cfg, ds, k, q[k].reason)
  }

  /** The batch in memory is broken off only where a purge took its next row. */
  ghost predicate BreakIsAPurge(s: System) {
    InPhase(s, GapChecked) && s.tick.value.page != [] && Breaks(s.tick.value.pending, s.tick.value.page[0]) ==>
      s.tick.value.pending[|s.tick.value.pending| - 1].seqNo <= s.coll.purged
  }

  ghost predicate Explains(cfg: Config, s: System) {
    QuarantineExplained(cfg, s.ds, s.coll.quarantine, s.box.purgedThrough) && BreakIsAPurge(s)
  }

  lemma PurgedQuarantine(cfg: Config, ds: seq<Delivery>, q: map<nat, Held>, purged: nat, rows: seq<Row>, reason: Reason)
    requires QuarantineExplained(cfg, ds, q, purged)
    requires forall r :: r in rows ==> r.seqNo <= purged || Explained(cfg, ds, r.seqNo, reason)
    ensures QuarantineExplained(cfg, ds, Quarantined(q, rows, reason), purged)
  {
    var q' := Quarantined(q, rows, reason);
    forall k | k in q' ensures k <= purged || Explained(cfg, ds, k, q'[k].reason) {
      if k !in q { assert q'[k].row in rows; }
    }
  }

  lemma StoreExplains(cfg: Config, s: System, e: Event)
    requires Inv(cfg, s) && Explains(cfg, s) && e.Store?
    ensures Explains(cfg, Apply(cfg, s, e))
  {
    var s' := Apply(cfg, s, e);
    forall k | k in s.coll.quarantine && Explained(cfg, s.ds, k, s.coll.quarantine[k].reason)
      ensures Explained(cfg, s'.ds, k, s.coll.quarantine[k].reason)
    {
      var j :| Owns(s.ds, j, k) && Obstacle(cfg, s.ds[j]) == Some(s.coll.quarantine[k].reason);
      assert Owns(s'.ds, j, k);
    }
  }

  lemma GapExplains(cfg: Config, s: System)
    requires Inv(cfg, s) && Aligned(s) && Explains(cfg, s) && Enabled(s, RecordGap)
    ensures Explains(cfg, Apply(cfg, s, RecordGap))
  {
    var t := s.tick.value;
    var row := t.page[0];
    NextRowIsNear(s, t);
    if t.pending != [] && row.seqNo - 1 > s.coll.purged {
      var last := t.pending[|t.pending| - 1];
      assert row in t.page && last in t.pending && t.pending[0] in t.pending;
      SameBatchGoesOn(s.ds, last, row);
      OneBatch(s.ds, t.pending, |t.pending| - 1);
      assert !Breaks(t.pending, row);
    }
  }

  /** The rows in memory lie at or below the last of them. */
  lemma PendingBelow(ds: seq<Delivery>, pending: seq<Row>)
    requires Unfinished(ds, pending)
    ensures forall r :: r in pending ==> r.seqNo <= pending[|pending| - 1].seqNo
  {
    forall r | r in pending ensures r.seqNo <= pending[|pending| - 1].seqNo {
      var i :| 0 <= i < |pending| && pending[i] == r;
    }
  }

  lemma ClearExplains(cfg: Config, s: System)
    requires Inv(cfg, s) && Aligned(s) && Explains(cfg, s) && Enabled(s, ClearBroken)
    ensures Explains(cfg, Apply(cfg, s, ClearBroken))
  {
    var t := s.tick.value;
    if Breaks(t.pending, t.page[0]) {
      PendingBelow(s.ds, t.pending);
      PurgedQuarantine(cfg, s.ds, s.coll.quarantine, s.box.purgedThrough, t.pending, BadParts);
    }
  }

  lemma FlushExplains(cfg: Config, s: System)
    requires Inv(cfg, s) && Aligned(s) && Explains(cfg, s) && Enabled(s, FlushPending)
    ensures Explains(cfg, Apply(cfg, s, FlushPending))
  {
    var t := s.tick.value;
    PendingBelow(s.ds, t.pending);
    PurgedQuarantine(cfg, s.ds, s.coll.quarantine, s.box.purgedThrough, t.pending, BadParts);
  }

  lemma TakeExplains(cfg: Config, s: System)
    requires Inv(cfg, s) && Aligned(s) && Explains(cfg, s) && Enabled(s, TakeRow)
    ensures Explains(cfg, Apply(cfg, s, TakeRow))
  {
    var t := s.tick.value;
    var rows := t.pending + [t.page[0]];
    assert t.page[0] in t.page;
    if |rows| >= t.page[0].parts {
      var j := WholeBatch(s.ds, rows);
      DeliveryOpensExactly(cfg, s.ds[j]);
      if Obstacle(cfg, s.ds[j]).Some? {
        var reason := Obstacle(cfg, s.ds[j]).value;
        forall r | r in rows ensures Explained(cfg, s.ds, r.seqNo, reason) { assert Owns(s.ds, j, r.seqNo); }
        PurgedQuarantine(cfg, s.ds, s.coll.quarantine, s.box.purgedThrough, rows, reason);
      }
    }
  }

  lemma StepExplains(cfg: Config, s: System, e: Event)
    requires Inv(cfg, s) && Aligned(s) && Explains(cfg, s) && !e.Lose?
    ensures Explains(cfg, Apply(cfg, s, e))
  {
    if Enabled(s, e) {
      match e
      case Store(_, _, _, _, _, _) => StoreExplains(cfg, s, e);
      case RecordGap => GapExplains(cfg, s);
      case ClearBroken => ClearExplains(cfg, s);
      case TakeRow => TakeExplains(cfg, s);
      case FlushPending => FlushExplains(cfg, s);
      case _ =>
    }
  }

  lemma {:induction false} RunExplains(cfg: Config, events: seq<Event>)
    requires HonestRun(events)
    ensures Explains(cfg, Run(cfg, Init(), events))
  {
    if events != [] {
      var n := |events| - 1;
      assert events[n] in events;
      RunAligned(cfg, events[..n]);
      RunExplains(cfg, events[..n]);
      LastEvent(cfg, Init(), events);
      StepExplains(cfg, Run(cfg, Init(), events[..n]), events[n]);
    }
  }

  // -- the main results ----------------------------------------------------------------------

  /** A delivery no purge has touched, and that the collector is past. */
  predicate Collected(s: System, d: Delivery) {
    s.box.purgedThrough < d.start && d.start + Parts(d.body) - 1 <= s.coll.acked
  }

  /** Every delivery sent to us, within the bound and signed by Meta, arrives: once the collector is past it
      and no purge has taken it, its body is in the inbox and none of its rows is in quarantine. */
  lemma GoodMailArrives(cfg: Config, events: seq<Event>, j: nat)
    requires HonestRun(events) && j < |Run(cfg, Init(), events).ds|
    requires var s := Run(cfg, Init(), events);
      var d := s.ds[j];
      && Collected(s, d)
      && d.to in cfg.identities && AllAscii(d.signature) && |d.body| <= 8 * 1024 * 1024 && cfg.signed(d.body, d.signature)
    ensures var s := Run(cfg, Init(), events);
      && s.ds[j].body in s.coll.inbox
      && forall k :: Owns(s.ds, j, k) ==> k !in s.coll.quarantine
  {
    var s := Run(cfg, Init(), events);
    AsciiIsAll(s.ds[j].signature);
    RunExplains(cfg, events);
    RunAligned(cfg, events);
    forall k | Owns(s.ds, j, k) ensures k !in s.coll.quarantine {
      if k in s.coll.quarantine {
        var i :| Owns(s.ds, i, k) && Obstacle(cfg, s.ds[i]) == Some(s.coll.quarantine[k].reason);
        OwnerUnique(s.ds, i, j, k);
      }
    }
    FirstRowSettled(cfg, events, j);
  }

  /** And one that cannot be taken is refused for its own reason, unless the same body came in another. */
  lemma BadMailIsHeld(cfg: Config, events: seq<Event>, j: nat, k: nat)
    requires HonestRun(events) && Owns(Run(cfg, Init(), events).ds, j, k) && Collected(Run(cfg, Init(), events), Run(cfg, Init(), events).ds[j])
    requires var s := Run(cfg, Init(), events); Obstacle(cfg, s.ds[j]).Some? && s.ds[j].body !in s.coll.inbox
    ensures var s := Run(cfg, Init(), events);
      && k in s.coll.quarantine && s.coll.quarantine[k].reason == Obstacle(cfg, s.ds[j]).value
      && s.coll.quarantine[k].row == RowOf(s.ds[j], k - s.ds[j].start)
  {
    var s := Run(cfg, Init(), events);
    RunExplains(cfg, events);
    RunAligned(cfg, events);
    StartsPositive(s.ds, j);
    AckedIsAccounted(cfg, events, k);
    if exists i :: Owns(s.ds, i, k) && s.ds[i].body in s.coll.inbox {
      var i :| Owns(s.ds, i, k) && s.ds[i].body in s.coll.inbox;
      OwnerUnique(s.ds, i, j, k);
    }
    var i :| Owns(s.ds, i, k) && Obstacle(cfg, s.ds[i]) == Some(s.coll.quarantine[k].reason);
    OwnerUnique(s.ds, i, j, k);
    RowOfOwner(s.ds, j, s.coll.quarantine[k].row);
  }

  lemma FirstRowSettled(cfg: Config, events: seq<Event>, j: nat)
    requires HonestRun(events) && j < |Run(cfg, Init(), events).ds| && Collected(Run(cfg, Init(), events), Run(cfg, Init(), events).ds[j])
    requires var s := Run(cfg, Init(), events); s.ds[j].start !in s.coll.quarantine
    ensures var s := Run(cfg, Init(), events); s.ds[j].body in s.coll.inbox
  {
    var s := Run(cfg, Init(), events);
    RunAligned(cfg, events);
    var k := s.ds[j].start;
    assert Owns(s.ds, j, k);
    StartsPositive(s.ds, j);
    AckedIsAccounted(cfg, events, k);
    var i :| Owns(s.ds, i, k) && s.ds[i].body in s.coll.inbox;
    OwnerUnique(s.ds, i, j, k);
  }
}
