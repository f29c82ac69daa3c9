/**
What every run of the relay keeps, whatever the interleaving, the crashes and the rows a faulty
mailbox loses: no delivery disappears unaccounted, and the inbox holds only whole, signed bodies.
*/
module RelaySafety {
  import opened ByteStrings
  import opened RelayMail
  import opened RelayProtocol

  /** The row was dealt with: quarantined, or its delivery's body is in the inbox. */
  ghost predicate Settled(ds: seq<Delivery>, coll: Durable, k: nat) {
    k in coll.quarantine || exists j :: Owns(ds, j, k) && ds[j].body in coll.inbox
  }

  ghost predicate InGap(gaps: seq<(nat, nat)>, k: nat) {
    exists g :: g in gaps && g.0 <= k <= g.1
  }

  ghost predicate Accounted(ds: seq<Delivery>, coll: Durable, k: nat) {
    Settled(ds, coll, k) || k <= coll.purged || InGap(coll.gaps, k)
  }

  ghost predicate AllGenuine(ds: seq<Delivery>, rows: seq<Row>) {
    forall r :: r in rows ==> Genuine(ds, r)
  }

  ghost predicate AccountedThrough(ds: seq<Delivery>, coll: Durable, top: int, pending: seq<Row>) {
    forall k: nat :: 1 <= k <= top ==> Accounted(ds, coll, k) || Holds(pending, k)
  }

  /** Where each stored row is: in the mailbox, behind an ack, behind a purge, or lost. */
  ghost predicate Located(s: System) {
    forall k: nat :: 1 <= k < s.box.nextSeq ==>
      Holds(s.box.mail, k) || k <= s.coll.acked || k <= s.box.purgedThrough || k in s.lost
  }

  ghost predicate BoxInv(s: System) {
    && Tiled(s.ds) && s.box.nextSeq == NextSeq(s.ds)
    && Sorted(s.box.mail) && AllGenuine(s.ds, s.box.mail)
    && s.coll.purged <= s.box.purgedThrough < s.box.nextSeq
    && s.coll.acked < s.box.nextSeq
    && Located(s)
  }

  ghost predicate CollInv(cfg: Config, ds: seq<Delivery>, coll: Durable) {
    && AccountedThrough(ds, coll, coll.acked, [])
    && (forall k :: k in coll.quarantine ==>
          coll.quarantine[k].row.seqNo == k && Genuine(ds, coll.quarantine[k].row))
    && (forall b :: b in coll.inbox ==> WasStored(cfg, ds, b))
  }

  /** `b` is the body of one stored delivery, and Meta signed it. */
  ghost predicate WasStored(cfg: Config, ds: seq<Delivery>, b: Bytes) {
    exists j :: 0 <= j < |ds| && ds[j].body == b && cfg.signed(b, ds[j].signature)
  }

  /** Genuine rows with parts 0, 1, 2, ... that stop short of their count. */
  ghost predicate Unfinished(ds: seq<Delivery>, pending: seq<Row>) {
    && AllGenuine(ds, pending) && InOrder(pending)
    && (pending != [] ==> |pending| < pending[|pending| - 1].parts)
  }

  /** Every seq up to the page's end is on the page, known to be purged, or lost. */
  ghost predicate PageComplete(s: System, after: nat, page: seq<Row>) {
    page != [] ==> forall k: nat :: after < k <= page[|page| - 1].seqNo ==>
      Holds(page, k) || k <= s.coll.purged || k in s.lost
  }

  predicate OnRow(p: Phase) { p == GapChecked || p == Cleared || p == RowSettled }

  /** The last seq the tick has dealt with, and the rows it still holds in memory only. */
  function Behind(t: Tick): int {
    if t.phase == GapChecked || t.phase == Cleared then t.cursor - 1 else t.cursor
  }

  function Waiting(t: Tick): seq<Row> { if t.phase == Flushed then [] else t.pending }

  ghost predicate TickInv(s: System, t: Tick) {
    && s.coll.acked <= t.cursor < s.box.nextSeq
    && Sorted(t.page) && AllGenuine(s.ds, t.page) && Unfinished(s.ds, t.pending)
    && (t.page == [] <==> t.phase == Pulling || t.phase == Drained || t.phase == Flushed)
    && (t.page != [] ==> if OnRow(t.phase) then t.page[0].seqNo == t.cursor else t.page[0].seqNo > t.cursor)
    && PageComplete(s, t.cursor, t.page)
    && (t.pending != [] ==> t.pending[|t.pending| - 1].seqNo <= t.cursor)
    && (t.phase == RowSettled ==> t.pending == [])
    && (t.phase == Cleared ==> !Breaks(t.pending, t.page[0]))
    && AccountedThrough(s.ds, s.coll, Behind(t), Waiting(t))
  }

  ghost predicate Inv(cfg: Config, s: System) {
    BoxInv(s) && CollInv(cfg, s.ds, s.coll) && (s.tick.Some? ==> TickInv(s, s.tick.value))
  }

  // -- monotonicity --------------------------------------------------------------------------

  /** The collector's durable rows only grow. */
  ghost predicate Grows(a: Durable, b: Durable) {
    && a.purged <= b.purged && a.inbox <= b.inbox && a.quarantine.Keys <= b.quarantine.Keys
    && (forall g :: g in a.gaps ==> g in b.gaps)
  }

  lemma AccountedStays(ds: seq<Delivery>, more: seq<Delivery>, a: Durable, b: Durable, k: nat)
    requires Accounted(ds, a, k) && ds <= more && Grows(a, b)
    ensures Accounted(more, b, k)
  {
    if !(k in b.quarantine) && !(k <= b.purged) {
      if Settled(ds, a, k) {
        var j :| Owns(ds, j, k) && ds[j].body in a.inbox;
        assert Owns(more, j, k);
      }
    }
  }

  lemma ThroughStays(ds: seq<Delivery>, more: seq<Delivery>, a: Durable, b: Durable, top: int, pending: seq<Row>)
    requires AccountedThrough(ds, a, top, pending) && ds <= more && Grows(a, b)
    ensures AccountedThrough(more, b, top, pending)
  {
    forall k: nat | 1 <= k <= top && Accounted(ds, a, k) ensures Accounted(more, b, k) {
      AccountedStays(ds, more, a, b, k);
    }
  }

  // -- mailbox events ------------------------------------------------------------------------

  lemma StoreKeeps(cfg: Config, s: System, e: Event)
    requires Inv(cfg, s) && e.Store?
    ensures Inv(cfg, Apply(cfg, s, e))
  {
    var s' := Apply(cfg, s, e);
    var d := s'.ds[|s.ds|];
    TiledAppend(s.ds, d);
    StoredRows(s, s', d);
    ThroughStays(s.ds, s'.ds, s.coll, s.coll, s.coll.acked, []);
    forall r | Genuine(s.ds, r) ensures Genuine(s'.ds, r) { GenuineAppend(s.ds, d, r); }
    forall b | b in s.coll.inbox ensures WasStored(cfg, s'.ds, b) {
      var j :| 0 <= j < |s.ds| && s.ds[j].body == b && cfg.signed(b, s.ds[j].signature);
      assert s'.ds[j] == s.ds[j];
    }
    if s.tick.Some? {
      var t := s.tick.value;
      ThroughStays(s.ds, s'.ds, s.coll, s.coll, Behind(t), Waiting(t));
    }
  }

  lemma StoredRows(s: System, s': System, d: Delivery)
    requires BoxInv(s) && d.start == s.box.nextSeq
    requires s' == s.(ds := s.ds + [d],
                      box := s.box.(mail := s.box.mail + RowsOf(d), nextSeq := s.box.nextSeq + Parts(d.body)))
    ensures Sorted(s'.box.mail) && AllGenuine(s'.ds, s'.box.mail) && Located(s')
  {
    var n := |s.box.mail|;
    forall r | r in s.box.mail ensures r.seqNo < d.start && Genuine(s'.ds, r) {
      GenuineAppend(s.ds, d, r);
      var j :| Owns(s.ds, j, r.seqNo);
      OwnedBelowNext(s.ds, j, r.seqNo);
    }
    forall r | r in RowsOf(d) ensures Genuine(s'.ds, r) {
      assert Owns(s'.ds, |s.ds|, r.seqNo);
    }
    forall k: nat | 1 <= k < s'.box.nextSeq && (Holds(s.box.mail, k) || k >= s.box.nextSeq)
      ensures Holds(s'.box.mail, k)
    {
      if k >= s.box.nextSeq {
        assert s'.box.mail[n + (k - d.start)].seqNo == k;
      } else {
        var i :| 0 <= i < n && s.box.mail[i].seqNo == k;
        assert s'.box.mail[i].seqNo == k;
      }
    }
    forall i, j | 0 <= i < j < |s'.box.mail| ensures s'.box.mail[i].seqNo < s'.box.mail[j].seqNo {
      if i < n { assert s'.box.mail[i] in s.box.mail; }
    }
  }

  lemma {:induction false} ExpiredIsHeld(mail: seq<Row>, cutoff: int)
    ensures Expired(mail, cutoff).Some? ==>
      exists r :: r in mail && r.seqNo == Expired(mail, cutoff).value && r.receivedAt < cutoff
  {
    if mail != [] {
      ExpiredIsHeld(mail[..|mail| - 1], cutoff);
      assert mail[|mail| - 1] in mail;
    }
  }

  lemma {:induction false} WithoutKeeps(rows: seq<Row>, k: nat)
    requires Sorted(rows)
    ensures Sorted(Without(rows, k))
    ensures forall r :: r in Without(rows, k) <==> r in rows && r.seqNo != k
    ensures forall i: nat :: Holds(Without(rows, k), i) <==> Holds(rows, i) && i != k
  {
    if rows != [] {
      var n := |rows| - 1;
      WithoutKeeps(rows[..n], k);
      assert rows == rows[..n] + [rows[n]];
      var kept, rest := Without(rows, k), Without(rows[..n], k);
      forall i, j | 0 <= i < j < |kept| ensures kept[i].seqNo < kept[j].seqNo {
        if j == |rest| {
          assert kept[i] in rest;
          assert kept[i] in rows[..n];
        }
      }
      HoldsByMembers(kept);
      HoldsByMembers(rows);
    }
  }

  /** Cutting the mailbox below a purge. */
  lemma CutKeepsBox(s: System, top: nat)
    requires BoxInv(s) && top < s.box.nextSeq
    ensures BoxInv(s.(box := s.box.(mail := Above(s.box.mail, top), purgedThrough := Max(s.box.purgedThrough, top))))
  {
    AboveKeeps(s.box.mail, top);
  }

  lemma ExpiredIsBelowNext(s: System, cutoff: int)
    requires BoxInv(s) && Expired(s.box.mail, cutoff).Some?
    ensures Expired(s.box.mail, cutoff).value < s.box.nextSeq
  {
    ExpiredIsHeld(s.box.mail, cutoff);
    var r :| r in s.box.mail && r.seqNo == Expired(s.box.mail, cutoff).value;
    var j :| Owns(s.ds, j, r.seqNo);
    OwnedBelowNext(s.ds, j, r.seqNo);
  }

  lemma PurgeKeeps(cfg: Config, s: System, cutoff: int)
    requires Inv(cfg, s)
    ensures Inv(cfg, Apply(cfg, s, Purge(cutoff)))
  {
    var top := Expired(s.box.mail, cutoff);
    if top.Some? {
      ExpiredIsBelowNext(s, cutoff);
      CutKeepsBox(s, top.value);
    }
  }

  lemma LoseKeeps(cfg: Config, s: System, k: nat)
    requires Inv(cfg, s)
    ensures Inv(cfg, Apply(cfg, s, Lose(k)))
  {
    WithoutKeeps(s.box.mail, k);
  }

  lemma AckKeeps(cfg: Config, s: System, through: nat)
    requires Inv(cfg, s)
    ensures Inv(cfg, Apply(cfg, s, RelayAck(through)))
  {
    AboveKeeps(s.box.mail, through);
  }

  // -- collector events ----------------------------------------------------------------------

  lemma PulledPage(s: System, s': System, after: nat, limit: nat)
    requires BoxInv(s) && s.coll.acked <= after && limit > 0
    requires s'.lost == s.lost && s'.coll.purged >= s.box.purgedThrough
    ensures var page := PageOf(s.box.mail, after, limit);
      && Sorted(page) && AllGenuine(s.ds, page) && PageComplete(s', after, page)
      && (page != [] ==> page[0].seqNo > after)
  {
    var page := PageOf(s.box.mail, after, limit);
    PageIsAPrefix(s.box.mail, after, limit);
    if page != [] {
      assert page[0] in page && page[|page| - 1] in page;
      var j :| Owns(s.ds, j, page[|page| - 1].seqNo);
      OwnedBelowNext(s.ds, j, page[|page| - 1].seqNo);
      forall k: nat | after < k <= page[|page| - 1].seqNo
        ensures Holds(page, k) || k <= s'.coll.purged || k in s'.lost
      {
      }
    }
  }

  lemma PullKeeps(cfg: Config, s: System, limit: nat)
    requires Inv(cfg, s) && Enabled(s, PullPage(limit))
    ensures Inv(cfg, Apply(cfg, s, PullPage(limit)))
  {
    var t, s' := s.tick.value, Apply(cfg, s, PullPage(limit));
    PulledPage(s, s', t.cursor, limit);
    CollGrows(cfg, s.ds, s.coll, s'.coll);
    ThroughStays(s.ds, s.ds, s.coll, s'.coll, t.cursor, t.pending);
  }

  /** More durable rows, with quarantine and inbox untouched, keep the collector's invariant. */
  lemma CollGrows(cfg: Config, ds: seq<Delivery>, a: Durable, b: Durable)
    requires CollInv(cfg, ds, a) && Grows(a, b)
    requires b.quarantine == a.quarantine && b.inbox == a.inbox && b.acked == a.acked
    ensures CollInv(cfg, ds, b)
  {
    ThroughStays(ds, ds, a, b, a.acked, []);
  }

  lemma GapKeeps(cfg: Config, s: System)
    requires Inv(cfg, s) && Enabled(s, RecordGap)
    ensures Inv(cfg, Apply(cfg, s, RecordGap))
  {
    var t, s' := s.tick.value, Apply(cfg, s, RecordGap);
    var row, low := t.page[0], GapLow(t.cursor, s.coll.purged);
    assert Grows(s.coll, s'.coll);
    ThroughStays(s.ds, s.ds, s.coll, s'.coll, s.coll.acked, []);
    ThroughStays(s.ds, s.ds, s.coll, s'.coll, t.cursor, t.pending);
    forall k: nat | t.cursor < k <= row.seqNo - 1 ensures Accounted(s'.ds, s'.coll, k) {
      if k >= low {
        assert (low, row.seqNo - 1) in s'.coll.gaps;
      }
    }
    assert row in t.page;
    var j :| Owns(s.ds, j, row.seqNo);
    OwnedBelowNext(s.ds, j, row.seqNo);
  }

  lemma QuarantineGrows(cfg: Config, ds: seq<Delivery>, a: Durable, b: Durable, rows: seq<Row>, reason: Reason)
    requires CollInv(cfg, ds, a) && AllGenuine(ds, rows)
    requires b == a.(quarantine := Quarantined(a.quarantine, rows, reason))
    ensures Grows(a, b) && CollInv(cfg, ds, b)
    ensures forall k: nat :: Holds(rows, k) ==> Accounted(ds, b, k)
  {
    ThroughStays(ds, ds, a, b, a.acked, []);
    forall k: nat | Holds(rows, k) ensures k in b.quarantine {
      var i :| 0 <= i < |rows| && rows[i].seqNo == k;
      assert rows[i] in rows;
    }
  }

  lemma ClearKeeps(cfg: Config, s: System)
    requires Inv(cfg, s) && Enabled(s, ClearBroken)
    ensures Inv(cfg, Apply(cfg, s, ClearBroken))
  {
    var t, s' := s.tick.value, Apply(cfg, s, ClearBroken);
    if Breaks(t.pending, t.page[0]) {
      QuarantineGrows(cfg, s.ds, s.coll, s'.coll, t.pending, BadParts);
      ThroughStays(s.ds, s.ds, s.coll, s'.coll, t.cursor - 1, t.pending);
    }
  }

  /** Once the rows read so far are accounted, the row's tick is settled. */
  lemma SettledTick(cfg: Config, s: System, s': System, rows: seq<Row>)
    requires Inv(cfg, s) && Enabled(s, TakeRow)
    requires var t := s.tick.value; rows == t.pending + [t.page[0]]
    requires s' == s.(coll := s'.coll, tick := Some(s.tick.value.(pending := [], phase := RowSettled)))
    requires Grows(s.coll, s'.coll) && s'.coll.acked == s.coll.acked && s'.coll.purged == s.coll.purged
    requires forall k: nat :: Holds(rows, k) ==> Accounted(s.ds, s'.coll, k)
    ensures TickInv(s', s'.tick.value) && BoxInv(s')
  {
    var t := s.tick.value;
    HoldsAppend(t.pending, t.page[0]);
    ThroughStays(s.ds, s.ds, s.coll, s'.coll, t.cursor - 1, t.pending);
  }

  lemma TakeKeeps(cfg: Config, s: System)
    requires Inv(cfg, s) && Enabled(s, TakeRow)
    ensures Inv(cfg, Apply(cfg, s, TakeRow))
  {
    var t, s' := s.tick.value, Apply(cfg, s, TakeRow);
    var row := t.page[0];
    var rows := t.pending + [row];
    assert row in t.page;
    assert AllGenuine(s.ds, rows);
    if t.pending == [] && row.part != 0 {
      assert rows == [row];
      QuarantineGrows(cfg, s.ds, s.coll, s'.coll, rows, BadParts);
      SettledTick(cfg, s, s', rows);
    } else if |rows| < row.parts {
      StillUnfinished(cfg, s);
    } else {
      WholeTaken(cfg, s);
    }
  }

  lemma StillUnfinished(cfg: Config, s: System)
    requires Inv(cfg, s) && Enabled(s, TakeRow)
    requires var t := s.tick.value; !(t.pending == [] && t.page[0].part != 0) && |t.pending| + 1 < t.page[0].parts
    ensures Inv(cfg, Apply(cfg, s, TakeRow))
  {
    var t := s.tick.value;
    assert t.page[0] in t.page;
    HoldsAppend(t.pending, t.page[0]);
    PageMovesOn(s, t);
  }

  lemma WholeTaken(cfg: Config, s: System)
    requires Inv(cfg, s) && Enabled(s, TakeRow)
    requires var t := s.tick.value; !(t.pending == [] && t.page[0].part != 0) && |t.pending| + 1 >= t.page[0].parts
    ensures Inv(cfg, Apply(cfg, s, TakeRow))
  {
    var t, s' := s.tick.value, Apply(cfg, s, TakeRow);
    var rows := t.pending + [t.page[0]];
    assert t.page[0] in t.page;
    assert AllGenuine(s.ds, rows) && InOrder(rows);
    match OpenBatch(cfg, rows)
    case Refused(reason) =>
      QuarantineGrows(cfg, s.ds, s.coll, s'.coll, rows, reason);
      SettledTick(cfg, s, s', rows);
    case Raw(raw, sig) =>
      var j := WholeBatch(s.ds, rows);
      WholeBatchOpens(cfg, s.ds[j]);
      InboxGrows(cfg, s.ds, s.coll, s'.coll, j, rows);
      SettledTick(cfg, s, s', rows);
  }

  lemma InboxGrows(cfg: Config, ds: seq<Delivery>, a: Durable, b: Durable, j: int, rows: seq<Row>)
    requires CollInv(cfg, ds, a) && 0 <= j < |ds| && rows == RowsOf(ds[j])
    requires b == a.(inbox := a.inbox + {ds[j].body}) && cfg.signed(ds[j].body, ds[j].signature)
    ensures Grows(a, b) && CollInv(cfg, ds, b)
    ensures forall k: nat :: Holds(rows, k) ==> Accounted(ds, b, k)
  {
    ThroughStays(ds, ds, a, b, a.acked, []);
    forall k: nat | Holds(rows, k) ensures Settled(ds, b, k) {
      assert Owns(ds, j, k);
    }
  }

  lemma HoldsAppend(rows: seq<Row>, row: Row)
    ensures forall k: nat :: Holds(rows + [row], k) <==> Holds(rows, k) || k == row.seqNo
  {
    forall k: nat ensures Holds(rows + [row], k) <==> Holds(rows, k) || k == row.seqNo {
      assert (rows + [row])[|rows|] == row;
      if Holds(rows, k) {
        var i :| 0 <= i < |rows| && rows[i].seqNo == k;
        assert (rows + [row])[i].seqNo == k;
      }
    }
  }

  lemma PageMovesOn(s: System, t: Tick)
    requires t.page != [] && Sorted(t.page) && t.page[0].seqNo == t.cursor && PageComplete(s, t.cursor, t.page)
    ensures Sorted(t.page[1..]) && PageComplete(s, t.cursor, t.page[1..])
    ensures t.page[1..] != [] ==> t.page[1].seqNo > t.cursor
  {
    var rest := t.page[1..];
    if rest != [] {
      forall k: nat | t.cursor < k <= rest[|rest| - 1].seqNo && Holds(t.page, k) ensures Holds(rest, k) {
        var i :| 0 <= i < |t.page| && t.page[i].seqNo == k;
        assert rest[i - 1].seqNo == k;
      }
    }
  }

  lemma AdvanceKeeps(cfg: Config, s: System)
    requires Inv(cfg, s) && Enabled(s, Advance)
    ensures Inv(cfg, Apply(cfg, s, Advance))
  {
    var t, s' := s.tick.value, Apply(cfg, s, Advance);
    PageMovesOn(s, t);
    ThroughStays(s.ds, s.ds, s.coll, s'.coll, t.cursor, []);
  }

  lemma FlushKeeps(cfg: Config, s: System)
    requires Inv(cfg, s) && Enabled(s, FlushPending)
    ensures Inv(cfg, Apply(cfg, s, FlushPending))
  {
    var t, s' := s.tick.value, Apply(cfg, s, FlushPending);
    QuarantineGrows(cfg, s.ds, s.coll, s'.coll, t.pending, BadParts);
    ThroughStays(s.ds, s.ds, s.coll, s'.coll, t.cursor, t.pending);
  }

  lemma AdvanceFlushedKeeps(cfg: Config, s: System)
    requires Inv(cfg, s) && Enabled(s, AdvanceFlushed)
    ensures Inv(cfg, Apply(cfg, s, AdvanceFlushed))
  {
    var t, s' := s.tick.value, Apply(cfg, s, AdvanceFlushed);
    ThroughStays(s.ds, s.ds, s.coll, s'.coll, t.cursor, []);
  }

  lemma StepKeeps(cfg: Config, s: System, e: Event)
    requires Inv(cfg, s)
    ensures Inv(cfg, Apply(cfg, s, e))
  {
    if Enabled(s, e) {
      match e
      case Store(_, _, _, _, _, _) => StoreKeeps(cfg, s, e);
      case Purge(cutoff) => PurgeKeeps(cfg, s, cutoff);
      case Lose(k) => LoseKeeps(cfg, s, k);
      case RelayAck(through) => AckKeeps(cfg, s, through);
      case Begin =>
      case PullPage(limit) => PullKeeps(cfg, s, limit);
      case RecordGap => GapKeeps(cfg, s);
      case ClearBroken => ClearKeeps(cfg, s);
      case TakeRow => TakeKeeps(cfg, s);
      case Advance => AdvanceKeeps(cfg, s);
      case FlushPending => FlushKeeps(cfg, s);
      case AdvanceFlushed => AdvanceFlushedKeeps(cfg, s);
      case Stop =>
    }
  }

  lemma {:induction false} RunKeeps(cfg: Config, events: seq<Event>)
    ensures Inv(cfg, Run(cfg, Init(), events))
  {
    if events != [] {
      RunKeeps(cfg, events[..|events| - 1]);
      LastEvent(cfg, Init(), events);
      StepKeeps(cfg, Run(cfg, Init(), events[..|events| - 1]), events[|events| - 1]);
    }
  }

  // -- the main results ----------------------------------------------------------------------

  /**
  Nothing is lost unaccounted: in every reachable state each stored row is still in the mailbox,
  behind a purge, settled, dropped by a faulty mailbox, or inside a gap the collector recorded.
  */
  lemma NothingLost(cfg: Config, events: seq<Event>, k: nat)
    requires 1 <= k < Run(cfg, Init(), events).box.nextSeq
    ensures var s := Run(cfg, Init(), events);
      Holds(s.box.mail, k) || k <= s.box.purgedThrough || Settled(s.ds, s.coll, k) ||
      k in s.lost || InGap(s.coll.gaps, k)
  {
    RunKeeps(cfg, events);
    var s := Run(cfg, Init(), events);
    if k <= s.coll.acked {
      assert Accounted(s.ds, s.coll, k) || Holds([], k);
    }
  }

  /** Gap accounting is complete: every seq the collector passed is settled, purged, or in a gap. */
  lemma AckedIsAccounted(cfg: Config, events: seq<Event>, k: nat)
    requires 1 <= k <= Run(cfg, Init(), events).coll.acked
    ensures var s := Run(cfg, Init(), events);
      Settled(s.ds, s.coll, k) || k <= s.box.purgedThrough || InGap(s.coll.gaps, k)
  {
    RunKeeps(cfg, events);
    var s := Run(cfg, Init(), events);
    assert Accounted(s.ds, s.coll, k) || Holds([], k);
  }

  /** An ack deletes no row that is neither settled, purged nor in a recorded gap. */
  lemma AckDeletesOnlyAccounted(cfg: Config, events: seq<Event>, through: nat, r: Row)
    requires var s := Run(cfg, Init(), events);
      r in s.box.mail && r !in Apply(cfg, s, RelayAck(through)).box.mail
    ensures var s := Run(cfg, Init(), events); Accounted(s.ds, s.coll, r.seqNo)
  {
    RunKeeps(cfg, events);
    var s := Run(cfg, Init(), events);
    AboveKeeps(s.box.mail, through);
    var j :| Owns(s.ds, j, r.seqNo);
    OwnedBelowNext(s.ds, j, r.seqNo);
    assert Accounted(s.ds, s.coll, r.seqNo) || Holds([], r.seqNo);
  }

  lemma TakeKeepsBound(cfg: Config, s: System)
    requires KeptBytes(s.coll.quarantine) <= QUARANTINE_KEEP_BYTES && s.tick.Some? && s.tick.value.page != []
    ensures KeptBytes(DoTake(cfg, s, s.tick.value).coll.quarantine) <= QUARANTINE_KEEP_BYTES
  {
    var q, t := s.coll.quarantine, s.tick.value;
    var rows := t.pending + [t.page[0]];
    QuarantineStaysBounded(q, [t.page[0]], BadParts);
    if OpenBatch(cfg, rows).Refused? { QuarantineStaysBounded(q, rows, OpenBatch(cfg, rows).reason); }
  }

  lemma StepKeepsBound(cfg: Config, s: System, e: Event)
    requires KeptBytes(s.coll.quarantine) <= QUARANTINE_KEEP_BYTES
    ensures KeptBytes(Apply(cfg, s, e).coll.quarantine) <= QUARANTINE_KEEP_BYTES
  {
    if Enabled(s, e) {
      if e.TakeRow? { TakeKeepsBound(cfg, s); }
      else if e.ClearBroken? || e.FlushPending? { QuarantineStaysBounded(s.coll.quarantine, s.tick.value.pending, BadParts); }
    }
  }

  /** However much is refused, the quarantine keeps at most its bound of ciphertext. */
  lemma {:induction false} QuarantineIsBounded(cfg: Config, events: seq<Event>)
    ensures KeptBytes(Run(cfg, Init(), events).coll.quarantine) <= 64 * 1024 * 1024
  {
    if events != [] {
      QuarantineIsBounded(cfg, events[..|events| - 1]);
      LastEvent(cfg, Init(), events);
      StepKeepsBound(cfg, Run(cfg, Init(), events[..|events| - 1]), events[|events| - 1]);
    }
  }

  /** Every body in the inbox is one stored body, whole, with Meta's signature; never a mix. */
  lemma InboxIsWholeAndSigned(cfg: Config, events: seq<Event>, b: Bytes)
    requires b in Run(cfg, Init(), events).coll.inbox
    ensures WasStored(cfg, Run(cfg, Init(), events).ds, b)
  {
    RunKeeps(cfg, events);
  }
}
