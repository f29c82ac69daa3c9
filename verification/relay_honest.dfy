/**
With an honest mailbox (one that drops rows only by ack and by age): gaps stay empty, purges cut
between deliveries, and an ack cuts inside a delivery only where a purge already went further.
*/
module RelayHonest {
  import opened ByteStrings
  import opened RelayMail
  import opened RelayProtocol
  import opened RelaySafety

  /** The mailbox holds the latest rows, without a hole. */
  ghost predicate Consecutive(mail: seq<Row>, nextSeq: nat) {
    |mail| < nextSeq && forall i :: 0 <= i < |mail| ==> mail[i].seqNo == nextSeq - |mail| + i
  }

  ghost predicate AlignedOr(ds: seq<Delivery>, p: nat, purged: nat) {
    Boundary(ds, p) || p <= purged
  }

  /** The row opens a delivery, or carries on the one in memory. */
  ghost predicate Fits(pending: seq<Row>, row: Row) {
    row.part == 0 || (pending != [] && !Breaks(pending, row))
  }

  ghost predicate TickAligned(s: System, t: Tick) {
    && (forall r :: r in t.page ==> r.seqNo > s.coll.purged)
    && (t.pending != [] && !OnRow(t.phase) ==> t.pending[|t.pending| - 1].seqNo == t.cursor)
    && match t.phase
       case Pulling => t.pending == [] ==> AlignedOr(s.ds, t.cursor, s.box.purgedThrough)
       case AtRow => t.pending == [] ==> AlignedOr(s.ds, t.cursor, s.coll.purged)
       case GapChecked => t.page != [] && Fits(t.pending, t.page[0])
       case Cleared => t.page != [] && Fits(t.pending, t.page[0])
       case RowSettled => Boundary(s.ds, t.cursor)
       case Drained => AlignedOr(s.ds, t.cursor, s.box.purgedThrough) && (t.pending != [] ==> t.cursor <= s.box.purgedThrough)
       case Flushed => t.pending != [] ==> t.cursor <= s.box.purgedThrough
  }

  ghost predicate Aligned(s: System) {
    && s.lost == {} && s.coll.gaps == []
    && Consecutive(s.box.mail, s.box.nextSeq)
    && (forall r :: r in s.box.mail ==> r.seqNo > s.box.purgedThrough)
    && Boundary(s.ds, s.box.purgedThrough) && Boundary(s.ds, s.coll.purged)
    && AlignedOr(s.ds, s.coll.acked, s.box.purgedThrough)
    && (s.tick.Some? ==> TickAligned(s, s.tick.value))
  }

  lemma BoundaryAppend(ds: seq<Delivery>, d: Delivery, p: nat)
    requires Boundary(ds, p)
    ensures Boundary(ds + [d], p)
  {
    if p != 0 {
      var j :| 0 <= j < |ds| && p == ds[j].start + Parts(ds[j].body) - 1;
      assert (ds + [d])[j] == ds[j];
    }
  }

  lemma StoreAligned(cfg: Config, s: System, e: Event)
    requires Inv(cfg, s) && Aligned(s) && e.Store?
    ensures Aligned(Apply(cfg, s, e))
  {
    var s' := Apply(cfg, s, e);
    var d := s'.ds[|s.ds|];
    forall p: nat | Boundary(s.ds, p) ensures Boundary(s'.ds, p) { BoundaryAppend(s.ds, d, p); }
    forall i | 0 <= i < |s'.box.mail| ensures s'.box.mail[i].seqNo == s'.box.nextSeq - |s'.box.mail| + i {
      if i >= |s.box.mail| {
        assert s'.box.mail[i] == RowOf(d, i - |s.box.mail|);
      }
    }
  }

  lemma AboveConsecutive(mail: seq<Row>, nextSeq: nat, through: nat)
    requires Sorted(mail) && Consecutive(mail, nextSeq)
    ensures Consecutive(Above(mail, through), nextSeq)
  {
    var i := AboveIsASuffix(mail, through);
  }

  lemma {:induction false} ExpiredIsLast(mail: seq<Row>, cutoff: int)
    requires Sorted(mail) && Expired(mail, cutoff).Some?
    ensures forall r :: r in mail && r.seqNo > Expired(mail, cutoff).value ==> r.receivedAt >= cutoff
  {
    var n := |mail| - 1;
    assert mail == mail[..n] + [mail[n]];
    if mail[n].receivedAt >= cutoff {
      ExpiredIsLast(mail[..n], cutoff);
    } else {
      forall r | r in mail ensures r.seqNo <= mail[n].seqNo {
        var i :| 0 <= i < |mail| && mail[i] == r;
      }
    }
  }

  lemma NextIsHeld(mail: seq<Row>, nextSeq: nat, r: Row) returns (next: Row)
    requires Consecutive(mail, nextSeq) && r in mail && r.seqNo + 1 < nextSeq
    ensures next in mail && next.seqNo == r.seqNo + 1
  {
    var q :| 0 <= q < |mail| && mail[q] == r;
    next := mail[q + 1];
  }

  lemma OneTimePerDelivery(ds: seq<Delivery>, j: int, a: Row, b: Row)
    requires Tiled(ds) && Genuine(ds, a) && Genuine(ds, b) && Owns(ds, j, a.seqNo) && Owns(ds, j, b.seqNo)
    ensures a.receivedAt == b.receivedAt
  {
    RowOfOwner(ds, j, a);
    RowOfOwner(ds, j, b);
  }

  /** Rows of one batch share their time, so an age purge ends where a delivery ends. */
  lemma PurgeEndsADelivery(s: System, cutoff: int)
    requires BoxInv(s) && Consecutive(s.box.mail, s.box.nextSeq) && Expired(s.box.mail, cutoff).Some?
    ensures Boundary(s.ds, Expired(s.box.mail, cutoff).value)
  {
    var top := Expired(s.box.mail, cutoff).value;
    ExpiredIsHeld(s.box.mail, cutoff);
    ExpiredIsLast(s.box.mail, cutoff);
    var r :| r in s.box.mail && r.seqNo == top && r.receivedAt < cutoff;
    var j := OwnerOfLast(s.ds, r);
    OwnedBelowNext(s.ds, j, top);
    if Owns(s.ds, j, top + 1) {
      OwnedBelowNext(s.ds, j, top + 1);
      var next := NextIsHeld(s.box.mail, s.box.nextSeq, r);
      OneTimePerDelivery(s.ds, j, r, next);
      assert false;
    }
  }

  lemma MailboxAligned(cfg: Config, s: System, e: Event)
    requires Inv(cfg, s) && Aligned(s) && Enabled(s, e) && (e.Purge? || e.RelayAck?)
    ensures Aligned(Apply(cfg, s, e))
  {
    match e
    case Purge(cutoff) =>
      if Expired(s.box.mail, cutoff).Some? {
        var top := Expired(s.box.mail, cutoff).value;
        PurgeEndsADelivery(s, cutoff);
        AboveKeeps(s.box.mail, top);
        AboveConsecutive(s.box.mail, s.box.nextSeq, top);
      }
    case RelayAck(through) =>
      AboveKeeps(s.box.mail, through);
      AboveConsecutive(s.box.mail, s.box.nextSeq, through);
  }

  lemma PullAligned(cfg: Config, s: System, limit: nat)
    requires Inv(cfg, s) && Aligned(s) && Enabled(s, PullPage(limit))
    ensures Aligned(Apply(cfg, s, PullPage(limit)))
  {
    var t, s' := s.tick.value, Apply(cfg, s, PullPage(limit));
    PageIsAPrefix(s.box.mail, t.cursor, limit);
    if s'.tick.value.page == [] && t.pending != [] { DrainedByAPurge(s, t); }
    assert TickAligned(s', s'.tick.value);
  }

  /** A mailbox without the next row of an unfinished batch has purged it. */
  lemma DrainedByAPurge(s: System, t: Tick)
    requires BoxInv(s) && Consecutive(s.box.mail, s.box.nextSeq) && TickInv(s, t) && Located(s) && s.lost == {}
    requires t.pending != [] && t.pending[|t.pending| - 1].seqNo == t.cursor && s.coll.acked <= t.cursor
    requires forall k: nat :: k > t.cursor ==> !Holds(s.box.mail, k)
    ensures t.cursor <= s.box.purgedThrough
  {
    UnfinishedHasNext(s, t);
    assert !Holds(s.box.mail, t.cursor + 1);
  }

  lemma UnfinishedHasNext(s: System, t: Tick)
    requires BoxInv(s) && TickInv(s, t) && t.pending != [] && t.pending[|t.pending| - 1].seqNo == t.cursor
    ensures t.cursor + 1 < s.box.nextSeq
  {
    var last := t.pending[|t.pending| - 1];
    assert last in t.pending;
    var j := OwnerOfLast(s.ds, last);
    assert Owns(s.ds, j, t.cursor + 1);
    OwnedBelowNext(s.ds, j, t.cursor + 1);
  }

  lemma NextRowIsNear(s: System, t: Tick)
    requires BoxInv(s) && TickInv(s, t) && TickAligned(s, t) && s.lost == {} && t.phase == AtRow
    ensures t.page[0].seqNo <= GapLow(t.cursor, s.coll.purged)
  {
    var row := t.page[0];
    assert row in t.page;
    if row.seqNo - 1 > t.cursor {
      assert !Holds(t.page, row.seqNo - 1);
      assert t.page[|t.page| - 1].seqNo >= row.seqNo;
    }
  }

  /** The next row of a page opens a delivery, or follows the one in memory without a gap. */
  lemma NextRowFits(s: System, t: Tick)
    requires BoxInv(s) && TickInv(s, t) && TickAligned(s, t) && s.lost == {} && Boundary(s.ds, s.coll.purged)
    requires t.phase == AtRow
    ensures t.page[0].seqNo <= GapLow(t.cursor, s.coll.purged)
    ensures Fits(t.pending, t.page[0])
  {
    var row := t.page[0];
    assert row in t.page;
    NextRowIsNear(s, t);
    if row.seqNo - 1 <= s.coll.purged {
      AfterBoundary(s.ds, s.coll.purged, row);
    } else if t.pending == [] {
      AfterBoundary(s.ds, t.cursor, row);
    } else {
      var last := t.pending[|t.pending| - 1];
      assert last in t.pending && t.pending[0] in t.pending;
      SameBatchGoesOn(s.ds, last, row);
      OneBatch(s.ds, t.pending, |t.pending| - 1);
    }
  }

  lemma {:induction false} OneBatch(ds: seq<Delivery>, pending: seq<Row>, i: int)
    requires Tiled(ds) && AllGenuine(ds, pending) && InOrder(pending)
    requires 0 <= i < |pending| && i < pending[i].parts
    ensures pending[i].batch == pending[0].batch
  {
    assert pending[i] in pending && pending[0] in pending;
    var j := OwnerOfLast(ds, pending[i]);
    assert Owns(ds, j, pending[0].seqNo);
    RowOfOwner(ds, j, pending[0]);
    RowOfOwner(ds, j, pending[i]);
  }

  lemma WholeEndsADelivery(ds: seq<Delivery>, rows: seq<Row>)
    requires Tiled(ds) && rows != [] && InOrder(rows) && AllGenuine(ds, rows) && |rows| >= rows[|rows| - 1].parts
    ensures Boundary(ds, rows[|rows| - 1].seqNo)
  {
    var j := WholeBatch(ds, rows);
    assert rows[|rows| - 1].seqNo == ds[j].start + Parts(ds[j].body) - 1;
  }

  /** A row that is quarantined alone, or completes its batch, ends a delivery. */
  lemma SettledAtABoundary(cfg: Config, s: System, t: Tick)
    requires BoxInv(s) && TickInv(s, t) && TickAligned(s, t) && t.phase == Cleared
    requires |t.pending| + 1 >= t.page[0].parts
    ensures Boundary(s.ds, t.cursor)
  {
    assert t.page[0] in t.page;
    WholeEndsADelivery(s.ds, t.pending + [t.page[0]]);
  }

  lemma TakeAligned(cfg: Config, s: System)
    requires Inv(cfg, s) && Aligned(s) && Enabled(s, TakeRow)
    ensures Aligned(Apply(cfg, s, TakeRow))
  {
    var t, s' := s.tick.value, Apply(cfg, s, TakeRow);
    if |t.pending| + 1 >= t.page[0].parts { SettledAtABoundary(cfg, s, t); }
    assert TickAligned(s', s'.tick.value);
  }

  lemma StepAligned(cfg: Config, s: System, e: Event)
    requires Inv(cfg, s) && Aligned(s) && !e.Lose?
    ensures Aligned(Apply(cfg, s, e))
  {
    if Enabled(s, e) {
      match e
      case Store(_, _, _, _, _, _) => StoreAligned(cfg, s, e);
      case Purge(_) => MailboxAligned(cfg, s, e);
      case RelayAck(_) => MailboxAligned(cfg, s, e);
      case Begin =>
      case PullPage(limit) => PullAligned(cfg, s, limit);
      case RecordGap => NextRowFits(s, s.tick.value);
      case ClearBroken =>
      case TakeRow => TakeAligned(cfg, s);
      case Advance =>
      case FlushPending =>
      case AdvanceFlushed =>
      case Stop =>
    }
  }

  ghost predicate HonestRun(events: seq<Event>) {
    forall e :: e in events ==> !e.Lose?
  }

  lemma {:induction false} RunAligned(cfg: Config, events: seq<Event>)
    requires HonestRun(events)
    ensures Inv(cfg, Run(cfg, Init(), events)) && Aligned(Run(cfg, Init(), events))
  {
    if events != [] {
      var n := |events| - 1;
      assert events[n] in events;
      RunAligned(cfg, events[..n]);
      LastEvent(cfg, Init(), events);
      StepKeeps(cfg, Run(cfg, Init(), events[..n]), events[n]);
      StepAligned(cfg, Run(cfg, Init(), events[..n]), events[n]);
    } else {
      RunKeeps(cfg, events);
    }
  }

  // -- the main results ----------------------------------------------------------------------

  /**
  The relay loses nothing: with an honest mailbox, in every run, each row of a stored delivery is
  in the mailbox, behind an age purge, or settled, and the collector never records a gap.
  */
  lemma HonestRelayLosesNothing(cfg: Config, events: seq<Event>)
    requires HonestRun(events)
    ensures var s := Run(cfg, Init(), events);
      && s.coll.gaps == []
      && forall k: nat :: 1 <= k < s.box.nextSeq ==>
           Holds(s.box.mail, k) || k <= s.box.purgedThrough || Settled(s.ds, s.coll, k)
  {
    RunAligned(cfg, events);
    var s := Run(cfg, Init(), events);
    forall k: nat | 1 <= k < s.box.nextSeq
      ensures Holds(s.box.mail, k) || k <= s.box.purgedThrough || Settled(s.ds, s.coll, k)
    {
      NothingLost(cfg, events, k);
    }
  }

  // -- exactly when progress stops inside a delivery --------------------------------------------

  /** The last row of an unfinished batch is not the end of a delivery. */
  lemma UnfinishedEndsInside(ds: seq<Delivery>, pending: seq<Row>)
    requires Tiled(ds) && Unfinished(ds, pending) && pending != []
    ensures !Boundary(ds, pending[|pending| - 1].seqNo)
  {
    var last := pending[|pending| - 1];
    assert last in pending;
    var j := OwnerOfLast(ds, last);
    StartsPositive(ds, j);
    forall i | 0 <= i < |ds| ensures last.seqNo != ds[i].start + Parts(ds[i].body) - 1 {
      if i < j { StartsClimb(ds, i, j); }
      if j < i { StartsClimb(ds, j, i); }
    }
  }

  lemma BoundaryAsBefore(ds: seq<Delivery>, d: Delivery, p: nat)
    requires d.start == NextSeq(ds) && p < NextSeq(ds)
    ensures Boundary(ds + [d], p) <==> Boundary(ds, p)
  {
    if Boundary(ds, p) {
      BoundaryAppend(ds, d, p);
    }
    if Boundary(ds + [d], p) && p != 0 {
      var j :| 0 <= j < |ds + [d]| && p == (ds + [d])[j].start + Parts((ds + [d])[j].body) - 1;
      assert (ds + [d])[j] == ds[j];
    }
  }

  /** What a tick holds in memory, and the row in its hand, lie above what is acked. */
  ghost predicate Ahead(s: System) {
    s.tick.Some? ==>
      var t := s.tick.value;
      && (t.pending != [] ==> t.pending[|t.pending| - 1].seqNo > s.coll.acked)
      && (t.phase == GapChecked || t.phase == Cleared ==> t.cursor > s.coll.acked)
  }

  lemma StepAhead(cfg: Config, s: System, e: Event)
    requires Inv(cfg, s) && Ahead(s)
    ensures Ahead(Apply(cfg, s, e))
  {
  }

  /** The branch that gives up on a half-pulled batch once the mailbox is drained. */
  predicate GivesUp(s: System, e: Event) { e == AdvanceFlushed && Enabled(s, e) }

  lemma GivingUpCuts(cfg: Config, s: System)
    requires Inv(cfg, s) && Ahead(s) && GivesUp(s, AdvanceFlushed)
    ensures var s' := Apply(cfg, s, AdvanceFlushed); s'.coll.acked > s.coll.acked && !Boundary(s'.ds, s'.coll.acked)
  {
    UnfinishedEndsInside(s.ds, s.tick.value.pending);
  }

  lemma NothingElseCuts(cfg: Config, s: System, e: Event)
    requires Inv(cfg, s) && Aligned(s) && !e.Lose? && !GivesUp(s, e)
    ensures var s' := Apply(cfg, s, e);
      Boundary(s'.ds, s'.coll.acked) <==> Boundary(s.ds, s.coll.acked) || s'.coll.acked != s.coll.acked
  {
    if e.Store? { BoundaryAsBefore(s.ds, Apply(cfg, s, e).ds[|s.ds|], s.coll.acked); }
  }

  /** The event that last moved progress was that branch. */
  ghost predicate GaveUpLast(cfg: Config, events: seq<Event>) {
    events != [] &&
    var before, e := events[..|events| - 1], events[|events| - 1];
    var s := Run(cfg, Init(), before);
    GivesUp(s, e) || (Apply(cfg, s, e).coll.acked == s.coll.acked && GaveUpLast(cfg, before))
  }

  lemma {:induction false} CutsAreGivingUp(cfg: Config, events: seq<Event>)
    requires HonestRun(events)
    ensures Ahead(Run(cfg, Init(), events))
    ensures !Boundary(Run(cfg, Init(), events).ds, Run(cfg, Init(), events).coll.acked) <==> GaveUpLast(cfg, events)
  {
    if events != [] {
      var n := |events| - 1;
      assert events[n] in events;
      CutsAreGivingUp(cfg, events[..n]);
      LastEvent(cfg, Init(), events);
      RunAligned(cfg, events[..n]);
      var s := Run(cfg, Init(), events[..n]);
      StepAhead(cfg, s, events[n]);
      if GivesUp(s, events[n]) { GivingUpCuts(cfg, s); } else { NothingElseCuts(cfg, s, events[n]); }
    }
  }

  /** Purges end where a delivery ends.  Progress stands inside one exactly when the collector last moved it
      by giving up on a half-pulled batch, which it does only after a purge took the rest of that batch. */
  lemma CutsFallBetweenDeliveries(cfg: Config, events: seq<Event>)
    requires HonestRun(events)
    ensures var s := Run(cfg, Init(), events);
      && Boundary(s.ds, s.box.purgedThrough)
      && (!Boundary(s.ds, s.coll.acked) <==> GaveUpLast(cfg, events))
      && (!Boundary(s.ds, s.coll.acked) ==> s.coll.acked < s.box.purgedThrough)
      && (GivesUp(s, AdvanceFlushed) ==> Apply(cfg, s, AdvanceFlushed).coll.acked <= s.box.purgedThrough)
  {
    CutsAreGivingUp(cfg, events);
    RunAligned(cfg, events);
    if GivesUp(Run(cfg, Init(), events), AdvanceFlushed) { GivingUpIsBehindAPurge(cfg, Run(cfg, Init(), events)); }
  }

  lemma GivingUpIsBehindAPurge(cfg: Config, s: System)
    requires Inv(cfg, s) && Aligned(s) && GivesUp(s, AdvanceFlushed)
    ensures Apply(cfg, s, AdvanceFlushed).coll.acked <= s.box.purgedThrough
  {
  }

  /** A delivery of two parts, pulled one row at a time, its first row in memory. */
  function TwoParts(): Delivery { Delivery(1, 0, 0, seq(PART_BYTES + 1, i => 0), "", 0, []) }

  function HalfPulled(): System {
    var d := TwoParts();
    System([d], {}, Box([RowOf(d, 0), RowOf(d, 1)], 3, 0), Durable(0, 0, {}, map[], []),
           Some(Tick(1, [RowOf(d, 0)], [], Pulling)))
  }

  function FirstPart(): seq<Event> {
    [] + [Store(TwoParts().body, "", 0, 0, 0, [])] + [Begin] + [PullPage(1)] + [RecordGap] + [ClearBroken] + [TakeRow]
  }

  lemma StoresTwoParts(cfg: Config)
    ensures Run(cfg, Init(), [] + [Store(TwoParts().body, "", 0, 0, 0, [])]) == HalfPulled().(tick := None)
  {
    var d := TwoParts();
    assert Parts(d.body) == 2;
    RunOne(cfg, Init(), [], Store(d.body, "", 0, 0, 0, []));
    assert RowsOf(d) == [RowOf(d, 0), RowOf(d, 1)];
  }

  lemma PullsHalf(cfg: Config)
    ensures Run(cfg, Init(), FirstPart()) == HalfPulled()
  {
    StoresTwoParts(cfg);
    var s1, r0, r1 := HalfPulled().(tick := None), RowOf(TwoParts(), 0), RowOf(TwoParts(), 1);
    assert Parts(TwoParts().body) == 2;
    var e1 := [] + [Store(TwoParts().body, "", 0, 0, 0, [])];
    RunOne(cfg, Init(), e1, Begin);
    RunOne(cfg, Init(), e1 + [Begin], PullPage(1));
    FirstPage(r0, r1);
    var s3 := s1.(tick := Some(Tick(0, [], [r0], AtRow)));
    var e3 := e1 + [Begin] + [PullPage(1)];
    assert Run(cfg, Init(), e3) == s3;
    RunOne(cfg, Init(), e3, RecordGap);
    RunOne(cfg, Init(), e3 + [RecordGap], ClearBroken);
    RunOne(cfg, Init(), e3 + [RecordGap] + [ClearBroken], TakeRow);
    assert [] + [r0] == [r0] && [r0][1..] == [];
  }

  lemma PurgeOvertakes(cfg: Config)
    ensures var s := Apply(cfg, Apply(cfg, HalfPulled(), Purge(1)), PullPage(1));
      s.tick == Some(Tick(1, [RowOf(TwoParts(), 0)], [], Drained)) && s.ds == [TwoParts()] && s.coll.acked == 0
  {
    var r0, r1 := RowOf(TwoParts(), 0), RowOf(TwoParts(), 1);
    assert Parts(TwoParts().body) == 2;
    assert Expired([r0, r1], 1) == Some(2);
    AboveTwo(r0, r1, 2);
  }

  lemma HonestSnoc(events: seq<Event>, e: Event)
    requires HonestRun(events) && !e.Lose?
    ensures HonestRun(events + [e])
  {
  }

  lemma FlushAdvances(cfg: Config, events: seq<Event>, row: Row)
    requires var s := Run(cfg, Init(), events); s.tick == Some(Tick(1, [row], [], Drained)) && s.coll.acked == 0
    requires row.seqNo == 1
    ensures var s' := Run(cfg, Init(), events + [FlushPending] + [AdvanceFlushed]);
      s'.coll.acked == 1 && s'.ds == Run(cfg, Init(), events).ds
  {
    RunOne(cfg, Init(), events, FlushPending);
    RunOne(cfg, Init(), events + [FlushPending], AdvanceFlushed);
  }

  lemma OneOfTwoIsInside()
    ensures !Boundary([TwoParts()], 1)
  {
    assert Parts(TwoParts().body) == 2;
  }

  lemma HalfPulledAndPurged(cfg: Config) returns (events: seq<Event>)
    ensures HonestRun(events)
    ensures var s := Run(cfg, Init(), events);
      s.tick == Some(Tick(1, [RowOf(TwoParts(), 0)], [], Drained)) && s.ds == [TwoParts()] && s.coll.acked == 0
  {
    PullsHalf(cfg);
    PurgeOvertakes(cfg);
    events := FirstPart();
    assert HonestRun(events);
    RunOne(cfg, Init(), events, Purge(1));
    RunOne(cfg, Init(), events + [Purge(1)], PullPage(1));
    HonestSnoc(events, Purge(1));
    HonestSnoc(events + [Purge(1)], PullPage(1));
    events := events + [Purge(1)] + [PullPage(1)];
  }

  /** Progress can stop inside a delivery: a purge takes the rest of a half-pulled batch. */
  lemma ProgressInsideAPurgedBatch(cfg: Config) returns (events: seq<Event>)
    ensures HonestRun(events)
    ensures var s := Run(cfg, Init(), events); !Boundary(s.ds, s.coll.acked) && s.coll.acked > 0
  {
    var first := HalfPulledAndPurged(cfg);
    FlushAdvances(cfg, first, RowOf(TwoParts(), 0));
    HonestSnoc(first, FlushPending);
    HonestSnoc(first + [FlushPending], AdvanceFlushed);
    OneOfTwoIsInside();
    events := first + [FlushPending] + [AdvanceFlushed];
  }

  lemma AboveTwo(a: Row, b: Row, through: nat)
    ensures Above([a, b], through) ==
      (if a.seqNo > through then [a] else []) + (if b.seqNo > through then [b] else [])
  {
    assert [a, b][..1] == [a] && [a][..0] == [];
    assert Above([a], through) == if a.seqNo > through then [a] else [];
  }

  lemma FirstPage(a: Row, b: Row)
    requires a.seqNo == 1 && b.seqNo == 2
    ensures PageOf([a, b], 0, 1) == [a]
  {
    AboveTwo(a, b, 0);
    assert Above([a, b], 0) == [a, b];
  }
}
