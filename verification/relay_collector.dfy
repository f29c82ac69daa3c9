/** The collector: one tick pulls, reassembles, verifies, stores or quarantines, advances, acks. */
module RelayCollector {
  import opened ByteStrings
  import opened RelayMail
  import opened RelayProtocol
  import opened RelaySafety
  import opened RelayHonest
  import opened RelayMailbox
  import opened RelayTally

  const PAGES_PER_TICK: nat := 40
  const PAGE_LIMIT: nat := 50

  /** The events of one row, before progress moves. */
  const ROW: seq<Event> := [RecordGap, ClearBroken, TakeRow]

  datatype Report = Report(pulled: nat, stored: nat, quarantined: nat, ackedThrough: nat, failed: bool)

  lemma OneMoreRow(q: map<nat, Held>, start: nat, rows: seq<Row>, i: nat, reason: Reason)
    requires i < |rows|
    ensures var total, size := RunningTotal(start, rows[..i]), rows[i].cipher.size;
      RunningTotal(start, rows[..i + 1]) == if total + size <= QUARANTINE_KEEP_BYTES then total + size else total
    ensures var held, keep := QuarantinedFrom(q, start, rows[..i], reason), RunningTotal(start, rows[..i]) + rows[i].cipher.size <= QUARANTINE_KEEP_BYTES;
      QuarantinedFrom(q, start, rows[..i + 1], reason) ==
        if rows[i].seqNo in held then held else held[rows[i].seqNo := Held(rows[i], reason, keep)]
  {
    assert rows[..i + 1][..i] == rows[..i];
  }

  /** Bodies the Worker lets through: at most 8 MiB each. */
  ghost predicate SmallBodies(ds: seq<Delivery>) {
    forall d :: d in ds ==> |d.body| <= MAX_BODY_BYTES
  }

  /** What other parties may do between two steps of a tick. */
  ghost predicate Outside(e: Event, purges: bool) {
    match e
    case Store(body, _, _, _, _, _) => |body| <= MAX_BODY_BYTES
    case Purge(_) => purges
    case _ => false
  }

  /** Any number of deliveries and, if `purges`, age purges, in any order. */
  method Elsewhere(cfg: Config, box: Mailbox, purges: bool, ghost s: System)
    returns (ghost s': System, ghost events: seq<Event>)
    requires s.box == box.State()
    modifies box
    ensures s' == Run(cfg, s, events) && s'.box == box.State() && s'.coll == s.coll && s'.tick == s.tick
    ensures forall e :: e in events ==> Outside(e, purges)
  {
    s', events := s, [];
    var n: nat := *;
    while n > 0
      invariant s' == Run(cfg, s, events) && s'.box == box.State() && s'.coll == s.coll && s'.tick == s.tick
      invariant forall e :: e in events ==> Outside(e, purges)
    {
      var now: int := *;
      var purge: bool := *;
      if purge && purges {
        box.Alarm(now);
        RunOne(cfg, s, events, Purge(now - RETENTION_MS));
        s' := Apply(cfg, s', Purge(now - RETENTION_MS));
        events := events + [Purge(now - RETENTION_MS)];
      } else {
        var raw: Bytes, signature: string, batch: nat, to: nat, sizes: seq<nat> := *, *, *, *, *;
        if |raw| <= MAX_BODY_BYTES {
          var code := box.Store(raw, signature, batch, to, sizes, now);
          if code == 200 {
            var e := Store(raw, signature, batch, now, to, sizes);
            RunOne(cfg, s, events, e);
            s' := Apply(cfg, s', e);
            events := events + [e];
          }
        }
      }
      n := n - 1;
    }
  }

  class Collector {
    const cfg: Config
    const box: Mailbox
    var acked: nat
    var purged: nat
    var inbox: set<Bytes>
    var quarantine: map<nat, Held>
    var gaps: seq<(nat, nat)>

    constructor (cfg: Config, box: Mailbox)
      ensures this.cfg == cfg && this.box == box && Rows() == Init().coll
    {
      this.cfg, this.box := cfg, box;
      acked, purged, inbox, quarantine, gaps := 0, 0, {}, map[], [];
    }

    function Rows(): Durable
      reads this
    {
      Durable(acked, purged, inbox, quarantine, gaps)
    }

    /** SELECT sum(length(ciphertext)) over the quarantine. */
    method KeptTotal() returns (total: nat)
      ensures total == KeptBytes(quarantine)
    {
      total := 0;
      var rest := quarantine;
      while rest != map[]
        invariant total + KeptBytes(rest) == KeptBytes(quarantine)
        decreases |rest|
      {
        var k :| k in rest;
        KeptWithout(rest, k);
        total := total + KeptSize(rest[k]);
        rest := rest - {k};
      }
    }

    /** Refused rows are kept under their seq, with their ciphertext while it fits the bound. */
    method Quarantine(rows: seq<Row>, reason: Reason)
      modifies this`quarantine
      ensures quarantine == Quarantined(old(quarantine), rows, reason)
    {
      ghost var before := quarantine;
      var kept := KeptTotal();
      ghost var start := kept;
      for i := 0 to |rows|
        invariant quarantine == QuarantinedFrom(before, start, rows[..i], reason) && kept == RunningTotal(start, rows[..i])
      {
        OneMoreRow(before, start, rows, i, reason);
        var keep := kept + rows[i].cipher.size <= QUARANTINE_KEEP_BYTES;
        if keep { kept := kept + rows[i].cipher.size; }
        if rows[i].seqNo !in quarantine {
          quarantine := quarantine[rows[i].seqNo := Held(rows[i], reason, keep)];
        }
      }
      assert rows[..|rows|] == rows;
    }

    /** Opens a completed batch: the first refusal, or the joined body if Meta signed it. */
    method Open(rows: seq<Row>) returns (r: Opened)
      requires rows != []
      ensures r == OpenBatch(cfg, rows)
    {
      r := OpenRow(cfg, rows[0]);
      assert rows[..1] == [rows[0]];
      for i := 1 to |rows|
        invariant r == OpenPrefix(cfg, rows[..i])
      {
        assert rows[..i + 1][..i] == rows[..i];
        if r.Raw? {
          var next := OpenRow(cfg, rows[i]);
          r := if next.Refused? then next else Raw(r.raw + next.raw, r.signature);
        }
      }
      assert rows[..|rows|] == rows;
      if r.Raw? && (|r.raw| > MAX_BODY_BYTES || !cfg.signed(r.raw, r.signature)) {
        r := Refused(Signature);
      }
    }

    /** Rows in memory that the row in hand does not continue go to quarantine first. */
    method Clear(row: Row, waiting: seq<Row>, ghost s: System)
      returns (pending: seq<Row>, quarantined: nat, ghost s': System)
      requires s.coll == Rows() && InPhase(s, GapChecked)
      requires s.tick.value.pending == waiting && s.tick.value.page != [] && s.tick.value.page[0] == row
      modifies this`quarantine
      ensures s' == Apply(cfg, s, ClearBroken) && s'.coll == Rows() && s'.box == s.box && s'.ds == s.ds
      ensures s'.tick == Some(s.tick.value.(pending := pending, phase := Cleared))
      ensures pending == if Breaks(waiting, row) then [] else waiting
      ensures quarantined == if Breaks(waiting, row) then |waiting| else 0
    {
      s', pending, quarantined := Apply(cfg, s, ClearBroken), waiting, 0;
      assert s' == DoClear(s, s.tick.value);
      if Breaks(pending, row) {
        Quarantine(pending, BadParts);
        quarantined, pending := |pending|, [];
      }
    }

    /** One machine step on the row in hand; `done` when nothing is left waiting in memory. */
    method Take(row: Row, waiting: seq<Row>, ghost s: System)
      returns (done: bool, pending: seq<Row>, stored: nat, quarantined: nat, ghost s': System)
      requires s.coll == Rows() && InPhase(s, Cleared)
      requires s.tick.value.pending == waiting && s.tick.value.page != [] && s.tick.value.page[0] == row
      modifies this`quarantine, this`inbox
      ensures s' == Apply(cfg, s, TakeRow) && s'.coll == Rows() && s'.box == s.box && s'.ds == s.ds
      ensures var t := s.tick.value;
        s'.tick == Some(if done then t.(pending := [], phase := RowSettled)
                        else t.(pending := waiting + [row], page := t.page[1..], phase := NextPhase(t.page[1..])))
      ensures pending == if done then [] else waiting + [row]
      ensures stored == 0 ==> inbox == old(inbox)
      ensures Counts(Worth(cfg, s, TakeRow), 1, stored, quarantined)
    {
      s', pending, quarantined, stored, done := Apply(cfg, s, TakeRow), waiting, 0, 0, true;
      if pending == [] && row.part != 0 {
        Quarantine([row], BadParts);
        quarantined := 1;
        return;
      }
      pending := pending + [row];
      if |pending| < row.parts {
        done := false;
        return;
      }
      var rows := pending;
      pending := [];
      var result := Open(rows);
      match result
      case Refused(reason) =>
        Quarantine(rows, reason);
        quarantined := |rows|;
      case Raw(raw, _) =>
        inbox, stored := inbox + {raw}, 1;
    }

    ghost predicate Tracks(s: System)
      reads this, box
    {
      s.box == box.State() && s.coll == Rows()
    }

    /** Records the seqs between what the tick has dealt with and the row, when no purge explains them. */
    method Gap(row: Row, previous: nat, ghost s: System) returns (ghost s': System)
      requires s.coll == Rows() && InPhase(s, AtRow) && s.tick.value.page != [] && s.tick.value.page[0] == row
      requires s.tick.value.cursor == previous
      modifies this`gaps
      ensures s' == Apply(cfg, s, RecordGap) && s'.coll == Rows() && s'.box == s.box && s'.ds == s.ds
      ensures s'.tick == Some(s.tick.value.(cursor := row.seqNo, phase := GapChecked))
    {
      var low := (if previous > purged then previous else purged) + 1;
      if row.seqNo > low { gaps := gaps + [(low, row.seqNo - 1)]; }
      s' := Apply(cfg, s, RecordGap);
    }

    method MoveOn(seqNo: nat, ghost s: System) returns (ghost s': System)
      requires s.coll == Rows() && InPhase(s, RowSettled) && s.tick.value.page != [] && s.tick.value.cursor == seqNo
      modifies this`acked
      ensures s' == Apply(cfg, s, Advance) && s'.coll == Rows() && s'.box == s.box && s'.ds == s.ds
      ensures var t := s.tick.value;
        s'.tick == Some(t.(page := t.page[1..], phase := NextPhase(t.page[1..])))
      ensures acked == Max(old(acked), seqNo)
    {
      acked := if acked > seqNo then acked else seqNo;
      s' := Apply(cfg, s, Advance);
    }

    /** One row of a page: its gap, the row itself, and progress if it settled everything. */
    method Consume(row: Row, waiting: seq<Row>, previous: nat, ghost s: System)
      returns (pending: seq<Row>, stored: nat, quarantined: nat, ghost s': System, ghost events: seq<Event>)
      requires Tracks(s) && InPhase(s, AtRow)
      requires var t := s.tick.value; t.pending == waiting && t.cursor == previous && t.page != [] && t.page[0] == row
      modifies this`gaps, this`quarantine, this`inbox, this`acked
      ensures Tracks(s') && s' == Run(cfg, s, events) && s'.ds == s.ds
      ensures forall e :: e in events ==> Own(e)
      ensures var t := s.tick.value;
        s'.tick == Some(Tick(row.seqNo, pending, t.page[1..], NextPhase(t.page[1..])))
      ensures acked == Max(old(acked), row.seqNo) ||
        (acked == old(acked) && pending == (if Breaks(waiting, row) then [] else waiting) + [row])
      ensures Counts(TallyOf(cfg, s, events), 1, stored, quarantined)
    {
      var done;
      done, pending, stored, quarantined, s' := ReadRow(row, waiting, previous, s);
      events := ROW;
      if done {
        RunOne(cfg, s, ROW, Advance);
        s' := MoveOn(row.seqNo, s');
        events := ROW + [Advance];
      }
    }

    /** The gap before a row, a broken batch before it, and the row itself. */
    method ReadRow(row: Row, waiting: seq<Row>, previous: nat, ghost s: System)
      returns (done: bool, pending: seq<Row>, stored: nat, quarantined: nat, ghost s': System)
      requires Tracks(s) && InPhase(s, AtRow)
      requires var t := s.tick.value; t.pending == waiting && t.cursor == previous && t.page != [] && t.page[0] == row
      modifies this`gaps, this`quarantine, this`inbox
      ensures Tracks(s') && s' == Run(cfg, s, ROW) && s'.ds == s.ds
      ensures pending == if done then [] else (if Breaks(waiting, row) then [] else waiting) + [row]
      ensures var page := s.tick.value.page;
        s'.tick == Some(if done then Tick(row.seqNo, [], page, RowSettled) else Tick(row.seqNo, pending, page[1..], NextPhase(page[1..])))
      ensures Counts(TallyOf(cfg, s, ROW), 1, stored, quarantined) && Counts(TallyOf(cfg, s, ROW + [Advance]), 1, stored, quarantined)
    {
      ghost var s1 := Gap(row, previous, s);
      var kept, n1, s2 := Clear(row, waiting, s1);
      var n2;
      done, pending, stored, n2, s' := Take(row, kept, s2);
      quarantined := n1 + n2;
      RunOfThree(cfg, s, RecordGap, ClearBroken, TakeRow);
      ClearWorth(cfg, s1, n1);
      RowCounts(cfg, s, stored, n1, n2);
    }

    /** Every row of a page, in order. */
    method ConsumePage(rows: seq<Row>, waiting: seq<Row>, previous: nat, ghost s: System, ghost past: seq<Event>)
      returns (cursor: nat, pending: seq<Row>, stored: nat, quarantined: nat, ghost s': System, ghost events: seq<Event>)
      requires Tracks(s) && s.tick == Some(Tick(previous, waiting, rows, AtRow)) && rows != []
      modifies this`gaps, this`quarantine, this`inbox, this`acked
      ensures Tracks(s') && s' == Run(cfg, s, events) && s'.ds == s.ds
      ensures forall e :: e in events ==> Own(e)
      ensures s'.tick == Some(Tick(cursor, pending, [], Pulling))
      ensures acked >= old(acked)
      ensures s'.box == s.box
      ensures Expecting(cfg, s, past, |waiting|) && acked == old(acked) ==> OnTheWay(s', |waiting| + |rows|)
      ensures Counts(TallyOf(cfg, s, events), |rows|, stored, quarantined)
    {
      cursor, pending, stored, quarantined, s', events := previous, waiting, 0, 0, s, [];
      var i := 0;
      while i < |rows|
        invariant 0 <= i <= |rows|
        invariant Tracks(s') && s' == Run(cfg, s, events) && s'.ds == s.ds && s'.box == s.box
        invariant forall e :: e in events ==> Own(e)
        invariant s'.tick == Some(Tick(cursor, pending, rows[i..], NextPhase(rows[i..])))
        invariant acked >= old(acked)
        invariant purged == old(purged)
        invariant Counts(TallyOf(cfg, s, events), i, stored, quarantined)
        invariant Expecting(cfg, s, past, |waiting|) && acked == old(acked) ==>
          |pending| == |waiting| + i && (pending != [] ==> cursor > s.box.purgedThrough)
      {
        ghost var before := s';
        ghost var more: seq<Event>;
        var m, n;
        assert rows[i..][1..] == rows[i + 1..];
        if Expecting(cfg, s, past, |waiting|) && acked == old(acked) { NothingBreaks(cfg, past + events, s, before, past, events); }
        pending, m, n, s', more := Consume(rows[i], pending, cursor, before);
        stored, quarantined := stored + m, quarantined + n;
        RunAppends(cfg, s, events, more);
        TotalAppends(Worths(cfg), cfg, s, events, more);
        events := events + more;
        cursor, i := rows[i].seqNo, i + 1;
      }
    }

    /** The rest of a half-pulled batch is gone once the mailbox is drained: quarantine it. */
    method Flush(pending: seq<Row>, ghost s: System) returns (ghost s': System)
      requires Tracks(s) && InPhase(s, Drained) && s.tick.value.pending == pending && pending != []
      modifies this`quarantine
      ensures Tracks(s') && s' == Apply(cfg, s, FlushPending)
      ensures InPhase(s', Flushed) && s'.tick.value.pending == pending
    {
      Quarantine(pending, BadParts);
      s' := Apply(cfg, s, FlushPending);
    }

    method MovePast(pending: seq<Row>, ghost s: System) returns (ghost s': System)
      requires Tracks(s) && InPhase(s, Flushed) && s.tick.value.pending == pending && pending != []
      modifies this`acked
      ensures Tracks(s') && s' == Apply(cfg, s, AdvanceFlushed) && acked >= old(acked)
    {
      acked := if acked > pending[|pending| - 1].seqNo then acked else pending[|pending| - 1].seqNo;
      s' := Apply(cfg, s, AdvanceFlushed);
    }

    /** Pulls one page after whatever others did meanwhile. */
    method PullOne(cursor: nat, purges: bool, ghost s: System, ghost past: seq<Event>)
      returns (rows: seq<Row>, ghost s': System, ghost outside: seq<Event>, ghost events: seq<Event>)
      requires Tracks(s) && InPhase(s, Pulling) && s.tick.value.cursor == cursor
      modifies this`purged, box
      ensures Tracks(s') && s' == Run(cfg, s, events)
      ensures events == outside + [PullPage(PAGE_LIMIT)] && forall e :: e in outside ==> Outside(e, purges)
      ensures s'.tick == Some(s.tick.value.(page := rows, phase := if rows == [] then Drained else AtRow))
      ensures FairRun(past) && s == Run(cfg, Init(), past) && !purges && OnTheWay(s, |s.tick.value.pending|) ==>
        rows != [] && Expecting(cfg, s', past + events, |s.tick.value.pending|)
    {
      ghost var s1;
      s1, outside := Elsewhere(cfg, box, purges, s);
      if FairRun(past) && s == Run(cfg, Init(), past) && !purges && OnTheWay(s, |s.tick.value.pending|) {
        PageComes(cfg, s, past, outside);
      }
      RunOne(cfg, s, outside, PullPage(PAGE_LIMIT));
      events := outside + [PullPage(PAGE_LIMIT)];
      var known, depth;
      rows, known, depth := box.Pull(cursor, PAGE_LIMIT);
      purged := if purged > known then purged else known;
      s' := Apply(cfg, s1, PullPage(PAGE_LIMIT));
    }

    /** The ack and the end of the tick; an ack that fails is repeated by a later tick. */
    method Finish(noAck: bool, ghost s: System, ghost past: seq<Event>) returns (ghost s': System, ghost run: seq<Event>)
      requires Tracks(s) && s == Run(cfg, Init(), past)
      modifies box
      ensures Tracks(s') && s' == Run(cfg, Init(), run) && s'.tick.None?
      ensures Extends(past, run, false) && Since(cfg, past, run, 0, 0, 0)
    {
      FinishCounts(cfg, past, acked);
      s', run := s, past;
      if acked > 0 && !noAck {
        s' := TellRelay(s);
        RunOne(cfg, Init(), past, RelayAck(acked));
        run := past + [RelayAck(acked)];
      }
      RunOne(cfg, Init(), run, Stop);
      s', run := Apply(cfg, s', Stop), run + [Stop];
    }

    method TellRelay(ghost s: System) returns (ghost s': System)
      requires Tracks(s)
      modifies box
      ensures Tracks(s') && s' == Apply(cfg, s, RelayAck(acked))
    {
      var deleted := box.Ack(acked);
      s' := Apply(cfg, s, RelayAck(acked));
    }

    /** One page, pulled and consumed; no rows means the mailbox is drained. */
    method TakePage(from: nat, waiting: seq<Row>, purges: bool, ghost s: System, ghost past: seq<Event>)
      returns (cursor: nat, pending: seq<Row>, pulled: nat, stored: nat, quarantined: nat, ghost s': System, ghost events: seq<Event>)
      requires Tracks(s) && s == Run(cfg, Init(), past) && s.tick == Some(Tick(from, waiting, [], Pulling))
      modifies this, box
      ensures Tracks(s') && s' == Run(cfg, s, events) && acked >= old(acked)
      ensures forall e :: e in events ==> Own(e) || Outside(e, purges)
      ensures s'.tick == Some(Tick(cursor, pending, [], if pulled == 0 then Drained else Pulling))
      ensures Counts(TallyOf(cfg, s, events), pulled, stored, quarantined)
      ensures FairRun(past) && !purges && OnTheWay(s, |waiting|) && acked == old(acked) ==>
        pulled > 0 && OnTheWay(s', |waiting| + pulled)
    {
      cursor, pending, stored, quarantined := from, waiting, 0, 0;
      var rows;
      ghost var outside;
      rows, s', outside, events := PullOne(cursor, purges, s, past);
      OutsideIsSilent(outside, purges);
      SilentCountsNothing(cfg, s, events);
      pulled := |rows|;
      if rows != [] {
        assert rows[0].seqNo > cursor by { PageGoesForward(cfg, s, s', events, past, cursor); }
        ghost var more;
        RunAppends(cfg, Init(), past, events);
        cursor, pending, stored, quarantined, s', more := ConsumePage(rows, pending, cursor, s', past + events);
        RunAppends(cfg, s, events, more);
        TotalAppends(Worths(cfg), cfg, s, events, more);
        events := events + more;
      }
    }

    /** The page loop of a tick: at most 40 pages, until one comes back empty or a pull fails. */
    method Pages(purges: bool, failures: bool, ghost start: System, ghost past: seq<Event>)
      returns (failed: bool, drained: bool, pending: seq<Row>, counts: Report, ghost s: System, ghost run: seq<Event>)
      requires Tracks(start) && start == Run(cfg, Init(), past) && start.tick == Some(Tick(acked, [], [], Pulling))
      modifies this, box
      ensures Tracks(s) && s == Run(cfg, Init(), run) && Extends(past, run, purges)
      ensures s.tick.Some? && s.tick.value.pending == pending && (drained ==> InPhase(s, Drained))
      ensures acked >= old(acked) && (failed ==> failures)
      ensures FairRun(past) && NewMail(start) && !purges && !failures ==> acked > old(acked)
      ensures Since(cfg, past, run, counts.pulled, counts.stored, counts.quarantined)
    {
      failed, drained, pending, counts, s, run := false, false, [], Report(0, 0, 0, 0, false), start, past;
      ghost var sure := FairRun(past) && NewMail(start) && !purges && !failures;
      var cursor, page := acked, 0;
      ghost var more: seq<Event>;
      while page < PAGES_PER_TICK && !drained
        invariant 0 <= page <= PAGES_PER_TICK
        invariant Tracks(s) && s == Run(cfg, Init(), run) && Extends(past, run, purges)
        invariant s.tick == Some(Tick(cursor, pending, [], if drained then Drained else Pulling))
        invariant acked >= old(acked)
        invariant Since(cfg, past, run, counts.pulled, counts.stored, counts.quarantined)
        invariant sure && acked == old(acked) ==> !drained && |pending| >= page && OnTheWay(s, |pending|)
        decreases PAGES_PER_TICK - page
      {
        var fails: bool := *;
        if failures && fails { failed := true; return; }
        var n, m, q;
        cursor, pending, n, m, q, s, more := TakePage(cursor, pending, purges, s, run);
        PageFoldsIn(cfg, past, run, more, purges, counts, n, m, q);
        run := run + more;
        drained := n == 0;
        counts := counts.(pulled := counts.pulled + n, stored := counts.stored + m, quarantined := counts.quarantined + q);
        page := page + 1;
      }
      if sure && acked == old(acked) { FewParts(cfg, run); }
    }

    /** After the pages: an unfinished batch is flushed, and the relay is told what was acked. */
    method EndTick(failed: bool, failures: bool, drained: bool, pending: seq<Row>, ghost from: System, ghost past: seq<Event>)
      returns (flushed: nat, ghost s: System, ghost run: seq<Event>)
      requires Tracks(from) && from == Run(cfg, Init(), past)
      requires from.tick.Some? && from.tick.value.pending == pending && (drained ==> InPhase(from, Drained))
      modifies this, box
      ensures Tracks(s) && s == Run(cfg, Init(), run) && s.tick.None? && Extends(past, run, false)
      ensures acked >= old(acked) && Since(cfg, past, run, 0, 0, flushed)
    {
      s, run, flushed := from, past, 0;
      if pending != [] && drained && !failed {
        s, run := FlushAll(pending, s, run);
        flushed := |pending|;
      }
      var ackFails: bool := *;
      ghost var before := run;
      s, run := Finish(failed || (failures && ackFails), s, run);
      SinceJoins(cfg, past, before, run, 0, 0, flushed, 0, 0, 0);
    }

    /**
    One tick after the run `past`.  `purges` says whether an age purge may happen meanwhile, `failures`
    whether a pull or the ack may fail.  The tick extends the run; with neither, new mail means
    strict progress.
    */
    method RunOnce(purges: bool, failures: bool, ghost past: seq<Event>)
      returns (report: Report, ghost s: System, ghost run: seq<Event>)
      requires Tracks(Run(cfg, Init(), past)) && Run(cfg, Init(), past).tick.None?
      modifies this, box
      ensures Tracks(s) && s == Run(cfg, Init(), run) && s.tick.None? && Extends(past, run, purges)
      ensures acked >= old(acked) && (!report.failed ==> report.ackedThrough == acked)
      ensures FairRun(past) && NewMail(Run(cfg, Init(), past)) && !purges && !failures ==>
        !report.failed && acked > old(acked)
      ensures !report.failed ==> Since(cfg, past, run, report.pulled, report.stored, report.quarantined)
      ensures report.failed ==> failures && report == Report(0, 0, 0, 0, true)
    {
      TickBegins(cfg, past);
      ghost var before := Run(cfg, Init(), past);
      var failed, drained, pending;
      failed, drained, pending, report, s, run := Pages(purges, failures, Begun(before), past + [Begin]);
      SinceBegin(cfg, past, run, report.pulled, report.stored, report.quarantined);
      ghost var paged := run;
      var flushed;
      flushed, s, run := EndTick(failed, failures, drained, pending, s, run);
      SinceJoins(cfg, past, paged, run, report.pulled, report.stored, report.quarantined, 0, 0, flushed);
      report := if failed then Report(0, 0, 0, 0, true)
                else Report(report.pulled, report.stored, report.quarantined + flushed, acked, false);
    }

    method FlushAll(pending: seq<Row>, ghost s: System, ghost past: seq<Event>) returns (ghost s': System, ghost run: seq<Event>)
      requires Tracks(s) && InPhase(s, Drained) && s.tick.value.pending == pending && pending != []
      requires s == Run(cfg, Init(), past)
      modifies this`quarantine, this`acked
      ensures Tracks(s') && s' == Run(cfg, Init(), run) && acked >= old(acked)
      ensures run == past + [FlushPending] + [AdvanceFlushed] && Since(cfg, past, run, 0, 0, |pending|)
    {
      FlushCounts(cfg, past, s, |pending|);
      RunOne(cfg, Init(), past, FlushPending);
      RunOne(cfg, Init(), past + [FlushPending], AdvanceFlushed);
      s' := Flush(pending, s);
      s' := MovePast(pending, s');
      run := past + [FlushPending] + [AdvanceFlushed];
    }
  }

  function Begun(s: System): System { s.(tick := Some(Tick(s.coll.acked, [], [], Pulling))) }

  lemma TickBegins(cfg: Config, past: seq<Event>)
    requires Run(cfg, Init(), past).tick.None?
    ensures Run(cfg, Init(), past + [Begin]) == Begun(Run(cfg, Init(), past))
  {
    RunOne(cfg, Init(), past, Begin);
  }

  lemma SinceBegin(cfg: Config, past: seq<Event>, run: seq<Event>, p: nat, s: nat, q: nat)
    requires Since(cfg, past + [Begin], run, p, s, q)
    ensures Since(cfg, past, run, p, s, q)
  {
    SilentCountsNothing(cfg, Run(cfg, Init(), past), [Begin]);
    SinceGrows(cfg, past, past, [Begin], 0, 0, 0, 0, 0, 0);
  }

  /** A page's events added to the run. */
  lemma PageFoldsIn(cfg: Config, past: seq<Event>, run: seq<Event>, more: seq<Event>, purges: bool, counts: Report, n: nat, m: nat, q: nat)
    requires Extends(past, run, purges) && forall e :: e in more ==> Own(e) || Outside(e, purges)
    requires Since(cfg, past, run, counts.pulled, counts.stored, counts.quarantined)
    requires Counts(TallyOf(cfg, Run(cfg, Init(), run), more), n, m, q)
    ensures Run(cfg, Init(), run + more) == Run(cfg, Run(cfg, Init(), run), more) && Extends(past, run + more, purges)
    ensures Since(cfg, past, run + more, counts.pulled + n, counts.stored + m, counts.quarantined + q)
  {
    RunAppends(cfg, Init(), run, more);
    SinceGrows(cfg, past, run, more, counts.pulled, counts.stored, counts.quarantined, n, m, q);
  }

  lemma OutsideIsSilent(outside: seq<Event>, purges: bool)
    requires forall e :: e in outside ==> Outside(e, purges)
    ensures forall e :: e in outside + [PullPage(PAGE_LIMIT)] ==> (Own(e) || Outside(e, purges)) && Silent(e)
  {
  }

  lemma SinceSilent(cfg: Config, past: seq<Event>, run: seq<Event>, e: Event, n: nat)
    requires Since(cfg, past, run, 0, 0, n) && Silent(e)
    ensures Since(cfg, past, run + [e], 0, 0, n)
  {
    SilentIsWorthNothing(cfg, Run(cfg, Init(), run), e);
    ApartOne(Worths(cfg), cfg, TallyOf(cfg, Init(), past), run, e, 0, 0, n, 0, 0, 0);
  }

  lemma FinishCounts(cfg: Config, past: seq<Event>, through: nat)
    ensures Since(cfg, past, past + [Stop], 0, 0, 0) && Since(cfg, past, past + [RelayAck(through)] + [Stop], 0, 0, 0)
  {
    SinceSilent(cfg, past, past, Stop, 0);
    SinceSilent(cfg, past, past, RelayAck(through), 0);
    SinceSilent(cfg, past, past + [RelayAck(through)], Stop, 0);
  }

  lemma FlushCounts(cfg: Config, past: seq<Event>, s: System, n: nat)
    requires s == Run(cfg, Init(), past) && InPhase(s, Drained) && |s.tick.value.pending| == n && n > 0
    ensures Since(cfg, past, past + [FlushPending] + [AdvanceFlushed], 0, 0, n)
  {
    FlushWorth(cfg, s, n);
    ApartOne(Worths(cfg), cfg, TallyOf(cfg, Init(), past), past, FlushPending, 0, 0, 0, 0, 0, n);
    SinceSilent(cfg, past, past + [FlushPending], AdvanceFlushed, n);
  }

  /** This mailbox never serves a page from behind the cursor, so the collector's refusal of one is not reached. */
  lemma PageGoesForward(cfg: Config, s: System, s': System, events: seq<Event>, past: seq<Event>, cursor: nat)
    requires s == Run(cfg, Init(), past) && s' == Run(cfg, s, events) && InPhase(s', AtRow)
    requires s'.tick.value.cursor == cursor && s'.tick.value.page != []
    ensures s'.tick.value.page[0].seqNo > cursor
  {
    RunAppends(cfg, Init(), past, events);
    RunKeeps(cfg, past + events);
  }

  /** `run` continues `past` with the collector's own events and what others may do. */
  ghost predicate Extends(past: seq<Event>, run: seq<Event>, purges: bool) {
    past <= run && forall i :: |past| <= i < |run| ==> Own(run[i]) || Outside(run[i], purges)
  }

  /** An honest mailbox behind the Worker's body bound. */
  predicate Fair(e: Event) { !e.Lose? && (e.Store? ==> |e.body| <= MAX_BODY_BYTES) }

  ghost predicate FairRun(events: seq<Event>) { forall e :: e in events ==> Fair(e) }

  /** There is mail the collector has not passed yet. */
  ghost predicate NewMail(s: System) {
    exists k: nat :: k > s.coll.acked && Holds(s.box.mail, k)
  }

  /** A tick that settled nothing yet and holds `held` parts of one batch that no purge touched. */
  ghost predicate OnTheWay(s: System, held: nat) {
    && s.tick.Some? && s.tick.value.phase == Pulling && |s.tick.value.pending| == held
    && (if held == 0 then s.tick.value.cursor == s.coll.acked && NewMail(s)
        else s.tick.value.cursor > s.box.purgedThrough)
  }

  /** The same tick with its next page in hand, knowing the latest purge. */
  ghost predicate Expecting(cfg: Config, s: System, past: seq<Event>, held: nat) {
    && FairRun(past) && s == Run(cfg, Init(), past)
    && s.coll.purged == s.box.purgedThrough
    && s.tick.Some? && |s.tick.value.pending| == held
    && (held > 0 ==> s.tick.value.cursor > s.box.purgedThrough)
  }

  lemma {:induction false} SmallFromRun(cfg: Config, past: seq<Event>)
    requires FairRun(past)
    ensures SmallBodies(Run(cfg, Init(), past).ds)
  {
    if past != [] {
      var n := |past| - 1;
      assert past[n] in past;
      SmallFromRun(cfg, past[..n]);
      LastEvent(cfg, Init(), past);
    }
  }

  lemma {:induction false} StoresKeepTheWay(cfg: Config, s: System, events: seq<Event>, held: nat)
    requires OnTheWay(s, held) && forall e :: e in events ==> Outside(e, false)
    ensures OnTheWay(Run(cfg, s, events), held)
  {
    if events != [] {
      var n := |events| - 1;
      assert events[n] in events;
      StoresKeepTheWay(cfg, s, events[..n], held);
      LastEvent(cfg, s, events);
      var a := Run(cfg, s, events[..n]);
      var b := Apply(cfg, a, events[n]);
      if held == 0 {
        var k: nat :| k > a.coll.acked && Holds(a.box.mail, k);
        var i :| 0 <= i < |a.box.mail| && a.box.mail[i].seqNo == k;
        assert b.box.mail[i].seqNo == k;
        assert Holds(b.box.mail, k);
      }
    }
  }

  lemma PageComes(cfg: Config, s: System, past: seq<Event>, events: seq<Event>)
    requires FairRun(past) && s == Run(cfg, Init(), past) && s.tick.Some? && OnTheWay(s, |s.tick.value.pending|)
    requires forall e :: e in events ==> Outside(e, false)
    requires Run(cfg, s, events).tick == s.tick
    ensures var s1 := Run(cfg, s, events);
      && PageOf(s1.box.mail, s.tick.value.cursor, PAGE_LIMIT) != []
      && Expecting(cfg, Apply(cfg, s1, PullPage(PAGE_LIMIT)), past + (events + [PullPage(PAGE_LIMIT)]), |s.tick.value.pending|)
  {
    var s1 := Run(cfg, s, events);
    StoresKeepTheWay(cfg, s, events, |s.tick.value.pending|);
    RunAppends(cfg, Init(), past, events);
    RunAligned(cfg, past + events);
    RunOne(cfg, Init(), past + events, PullPage(PAGE_LIMIT));
    assert past + events + [PullPage(PAGE_LIMIT)] == past + (events + [PullPage(PAGE_LIMIT)]);
    if s1.tick.value.pending == [] {
      NewMailFillsAPage(s1);
    } else {
      RestOfBatchFillsAPage(s1);
    }
  }

  lemma NewMailFillsAPage(s: System)
    requires Sorted(s.box.mail) && s.tick.Some? && s.tick.value.cursor == s.coll.acked && NewMail(s)
    ensures PageOf(s.box.mail, s.tick.value.cursor, PAGE_LIMIT) != []
  {
    PageIsAPrefix(s.box.mail, s.tick.value.cursor, PAGE_LIMIT);
  }

  lemma RestOfBatchFillsAPage(s: System)
    requires BoxInv(s) && Aligned(s) && s.tick.Some? && TickInv(s, s.tick.value) && s.tick.value.phase == Pulling
    requires s.tick.value.pending != [] && s.tick.value.cursor > s.box.purgedThrough
    ensures PageOf(s.box.mail, s.tick.value.cursor, PAGE_LIMIT) != []
  {
    UnfinishedHasNext(s, s.tick.value);
    PageIsAPrefix(s.box.mail, s.tick.value.cursor, PAGE_LIMIT);
    assert Holds(s.box.mail, s.tick.value.cursor + 1);
  }

  /** A body of at most 8 MiB makes at most 8 parts, fewer than the pages of a tick. */
  lemma FewParts(cfg: Config, past: seq<Event>)
    requires FairRun(past) && Run(cfg, Init(), past).tick.Some?
    ensures |Run(cfg, Init(), past).tick.value.pending| < 8
  {
    RunKeeps(cfg, past);
    SmallFromRun(cfg, past);
    var s := Run(cfg, Init(), past);
    var pending := s.tick.value.pending;
    if pending != [] {
      var last := pending[|pending| - 1];
      assert last in pending;
      var j := OwnerOfLast(s.ds, last);
      assert s.ds[j] in s.ds;
    }
  }

  /** With no purge under way, the next row of a page continues the batch in memory. */
  lemma NothingBreaks(cfg: Config, whole: seq<Event>, s: System, now: System, past: seq<Event>, events: seq<Event>)
    requires FairRun(past) && s == Run(cfg, Init(), past) && whole == past + events
    requires now == Run(cfg, s, events) && forall e :: e in events ==> Own(e)
    requires now.coll.purged == now.box.purgedThrough && InPhase(now, AtRow) && now.tick.value.page != []
    ensures now.tick.value.page[0].seqNo > now.coll.acked && now.tick.value.page[0].seqNo > now.coll.purged
    ensures now.tick.value.pending != [] && now.tick.value.cursor > now.box.purgedThrough ==>
      !Breaks(now.tick.value.pending, now.tick.value.page[0])
  {
    RunAppends(cfg, Init(), past, events);
    RunAligned(cfg, whole);
    NextRowGoesOn(cfg, now);
  }

  lemma NextRowGoesOn(cfg: Config, now: System)
    requires Inv(cfg, now) && Aligned(now) && InPhase(now, AtRow) && now.tick.value.page != []
    requires now.coll.purged == now.box.purgedThrough
    ensures now.tick.value.page[0].seqNo > now.coll.acked && now.tick.value.page[0].seqNo > now.coll.purged
    ensures now.tick.value.pending != [] && now.tick.value.cursor > now.box.purgedThrough ==>
      !Breaks(now.tick.value.pending, now.tick.value.page[0])
  {
    var t := now.tick.value;
    NextRowFits(now, t);
    assert t.page[0] in t.page;
    if t.pending != [] && t.cursor > now.box.purgedThrough {
      var last := t.pending[|t.pending| - 1];
      assert last in t.pending;
      SameBatchGoesOn(now.ds, last, t.page[0]);
    }
  }

  /** The collector's own events: everything but what the Worker, age and faults do. */
  predicate Own(e: Event) { !e.Store? && !e.Purge? && !e.Lose? }

  lemma RunOfThree(cfg: Config, s: System, a: Event, b: Event, c: Event)
    ensures Run(cfg, s, [a]) == Apply(cfg, s, a) && Run(cfg, s, [a, b]) == Apply(cfg, Apply(cfg, s, a), b)
    ensures Run(cfg, s, [a, b, c]) == Apply(cfg, Apply(cfg, Apply(cfg, s, a), b), c)
  {
    RunOne(cfg, s, [], a);
    RunOne(cfg, s, [a], b);
    RunOne(cfg, s, [a, b], c);
    assert [] + [a] == [a] && [a] + [b] == [a, b] && [a, b] + [c] == [a, b, c];
  }
}
