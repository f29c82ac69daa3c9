/**
The relay protocol as a state machine: the mailbox (a Durable Object), the collector's durable
rows, and the volatile state of one tick.  Every event is one atomic transaction or one volatile
move, so a crash is possible between any two events.  An event that is not enabled changes
nothing; a run is therefore any sequence of events.
*/
module RelayProtocol {
  import opened ByteStrings
  import opened RelayMail

  datatype Option<+T> = None | Some(value: T)

  datatype Reason = Decrypt | BadEnvelope | Signature | BadParts

  /** The collector's identities and Meta's signature rule under the app secret. */
  datatype Config = Config(identities: set<nat>, signed: (Bytes, string) -> bool)

  datatype Box = Box(mail: seq<Row>, nextSeq: nat, purgedThrough: nat)

  /** A quarantined row; beyond the bound on kept ciphertext only its digest stays (`kept` is false). */
  datatype Held = Held(row: Row, reason: Reason, kept: bool)

  datatype Durable = Durable(acked: nat, purged: nat, inbox: set<Bytes>, quarantine: map<nat, Held>,
                             gaps: seq<(nat, nat)>)

  /**
  Where a tick stands: about to pull, about to read the first row of its page, with that row's gap
  recorded, with a broken batch cleared, with everything up to the row settled, or past the last page.
  */
  datatype Phase = Pulling | AtRow | GapChecked | Cleared | RowSettled | Drained | Flushed

  datatype Tick = Tick(cursor: nat, pending: seq<Row>, page: seq<Row>, phase: Phase)

  /** `ds` is the history of stored deliveries and `lost` the rows a faulty mailbox dropped. */
  datatype System = System(ds: seq<Delivery>, lost: set<nat>, box: Box, coll: Durable, tick: Option<Tick>)

  datatype Event =
    | Store(body: Bytes, signature: string, batch: nat, receivedAt: int, to: nat, sizes: seq<nat>)
    | Purge(cutoff: int)
    | Lose(seqNo: nat)
    | RelayAck(through: nat)
    | Begin
    | PullPage(limit: nat)
    | RecordGap
    | ClearBroken
    | TakeRow
    | Advance
    | FlushPending
    | AdvanceFlushed
    | Stop // the tick ends: it finished, a pull failed, or the process died

  // -- opening rows --------------------------------------------------------------------------

  datatype Opened = Refused(reason: Reason) | Raw(raw: Bytes, signature: string)

  predicate Ascii(s: string) { forall i :: 0 <= i < |s| ==> s[i] < 128 as char }

  function OpenRow(cfg: Config, row: Row): Opened {
    if row.cipher.to !in cfg.identities then Refused(Decrypt) else
      match row.cipher.plain
      case Scrap => Refused(BadEnvelope)
      case Letter(e) =>
        if (e.batch, e.part, e.parts) != (row.batch, row.part, row.parts) || !Ascii(e.signature)
        then Refused(BadEnvelope)
        else Raw(e.raw, e.signature)
  }

  /** Opens the rows of a batch in order and checks the body they join to. */
  function OpenBatch(cfg: Config, rows: seq<Row>): Opened
    requires rows != []
  {
    var joined := OpenPrefix(cfg, rows);
    if joined.Refused? then joined
    else if |joined.raw| > MAX_BODY_BYTES || !cfg.signed(joined.raw, joined.signature) then Refused(Signature)
    else joined
  }

  /** The joined slices and the first row's signature header, or the first refusal. */
  function OpenPrefix(cfg: Config, rows: seq<Row>): Opened
    requires rows != []
  {
    var n := |rows| - 1;
    if n == 0 then OpenRow(cfg, rows[0]) else
      var before := OpenPrefix(cfg, rows[..n]);
      if before.Refused? then before else
        var last := OpenRow(cfg, rows[n]);
        if last.Refused? then last else Raw(before.raw + last.raw, before.signature)
  }

  lemma {:induction false} OpensToJoin(cfg: Config, d: Delivery, rows: seq<Row>)
    requires rows != [] && rows <= RowsOf(d) && OpenPrefix(cfg, rows).Raw?
    ensures OpenPrefix(cfg, rows) == Raw(Join(seq(|rows|, i requires 0 <= i => Slice(d.body, i))), d.signature)
    decreases |rows|
  {
    var n := |rows| - 1;
    var slices := seq(n + 1, i requires 0 <= i => Slice(d.body, i));
    assert slices[..n] == seq(n, i requires 0 <= i => Slice(d.body, i));
    assert rows[n] == RowOf(d, n);
    if n > 0 {
      assert rows[..n] <= RowsOf(d);
      OpensToJoin(cfg, d, rows[..n]);
    } else {
      assert Join(slices[..0]) == [];
    }
  }

  /** A whole batch that opens and verifies is exactly the body that was stored. */
  lemma WholeBatchOpens(cfg: Config, d: Delivery)
    requires OpenBatch(cfg, RowsOf(d)).Raw?
    ensures OpenBatch(cfg, RowsOf(d)).raw == d.body
    ensures cfg.signed(d.body, d.signature)
  {
    OpensToJoin(cfg, d, RowsOf(d));
    SplitThenJoin(d.body);
  }

  /** The row can be decrypted here, and what it decrypts to is an envelope made for this row. */
  predicate OpensHere(cfg: Config, row: Row) { row.cipher.to in cfg.identities }

  predicate CarriesItsEnvelope(row: Row) {
    && row.cipher.plain.Letter? && Ascii(row.cipher.plain.envelope.signature)
    && row.cipher.plain.envelope.batch == row.batch
    && row.cipher.plain.envelope.part == row.part
    && row.cipher.plain.envelope.parts == row.parts
  }

  predicate GoodRow(cfg: Config, row: Row) { OpensHere(cfg, row) && CarriesItsEnvelope(row) }

  /** The body the envelopes of the rows make together. */
  function BodyOf(rows: seq<Row>): Bytes
    requires forall r :: r in rows ==> r.cipher.plain.Letter?
  {
    Join(seq(|rows|, i requires 0 <= i < |rows| => rows[i].cipher.plain.envelope.raw))
  }

  lemma BodyOfOneMore(rows: seq<Row>, n: nat)
    requires n < |rows| && forall r :: r in rows ==> r.cipher.plain.Letter?
    ensures BodyOf(rows[..n + 1]) == BodyOf(rows[..n]) + rows[n].cipher.plain.envelope.raw
  {
    var all := seq(n + 1, i requires 0 <= i < n + 1 => rows[..n + 1][i].cipher.plain.envelope.raw);
    assert all[..n] == seq(n, i requires 0 <= i < n => rows[..n][i].cipher.plain.envelope.raw);
  }

  /** The rows before row `i` are good and row `i` is not: it is the one the batch is refused for. */
  ghost predicate FirstBad(cfg: Config, rows: seq<Row>, i: int) {
    0 <= i < |rows| && !GoodRow(cfg, rows[i]) && forall k :: 0 <= k < i ==> GoodRow(cfg, rows[k])
  }

  ghost predicate AllGood(cfg: Config, rows: seq<Row>) { forall r :: r in rows ==> GoodRow(cfg, r) }

  lemma {:induction false} OpensToBody(cfg: Config, rows: seq<Row>)
    requires rows != [] && AllGood(cfg, rows)
    ensures OpenPrefix(cfg, rows) == Raw(BodyOf(rows), rows[0].cipher.plain.envelope.signature)
  {
    var n := |rows| - 1;
    BodyOfOneMore(rows, n);
    assert rows[..n + 1] == rows && rows[n] in rows;
    if n > 0 {
      OpensToBody(cfg, rows[..n]);
    } else {
      assert BodyOf(rows[..0]) == [];
    }
  }

  lemma {:induction false} RefusedForTheFirst(cfg: Config, rows: seq<Row>, i: int)
    requires FirstBad(cfg, rows, i)
    ensures OpenPrefix(cfg, rows) == Refused(if OpensHere(cfg, rows[i]) then BadEnvelope else Decrypt)
    decreases |rows|
  {
    var n := |rows| - 1;
    if i < n {
      assert FirstBad(cfg, rows[..n], i);
      RefusedForTheFirst(cfg, rows[..n], i);
    } else if n > 0 {
      forall r | r in rows[..n] ensures GoodRow(cfg, r) { var k :| 0 <= k < n && rows[..n][k] == r; }
      OpensToBody(cfg, rows[..n]);
    }
  }

  /** Any batch, row by row: what it opens to, and what it is refused for. */
  lemma BatchOpensExactly(cfg: Config, rows: seq<Row>)
    requires rows != []
    ensures AllGood(cfg, rows) ==>
      var body, signature := BodyOf(rows), rows[0].cipher.plain.envelope.signature;
      OpenBatch(cfg, rows) == if |body| <= MAX_BODY_BYTES && cfg.signed(body, signature) then Raw(body, signature) else Refused(Signature)
    ensures forall i :: FirstBad(cfg, rows, i) ==> OpenBatch(cfg, rows) == Refused(if OpensHere(cfg, rows[i]) then BadEnvelope else Decrypt)
    ensures AllGood(cfg, rows) || exists i :: FirstBad(cfg, rows, i)
  {
    if AllGood(cfg, rows) { OpensToBody(cfg, rows); }
    forall i | FirstBad(cfg, rows, i) ensures OpenBatch(cfg, rows) == Refused(if OpensHere(cfg, rows[i]) then BadEnvelope else Decrypt) {
      RefusedForTheFirst(cfg, rows, i);
    }
    SomeFirstBad(cfg, rows, |rows|);
    assert rows[..|rows|] == rows;
  }

  lemma {:induction false} SomeFirstBad(cfg: Config, rows: seq<Row>, n: nat)
    requires n <= |rows|
    ensures AllGood(cfg, rows[..n]) || exists i :: FirstBad(cfg, rows, i)
  {
    if n > 0 {
      SomeFirstBad(cfg, rows, n - 1);
      assert rows[..n] == rows[..n - 1] + [rows[n - 1]];
      if AllGood(cfg, rows[..n - 1]) && !GoodRow(cfg, rows[n - 1]) {
        forall k | 0 <= k < n - 1 ensures GoodRow(cfg, rows[k]) { assert rows[..n - 1][k] == rows[k]; }
        assert FirstBad(cfg, rows, n - 1);
      }
    }
  }

  /** Why a stored delivery cannot be taken, if it cannot. */
  function Obstacle(cfg: Config, d: Delivery): Option<Reason> {
    if d.to !in cfg.identities then Some(Decrypt)
    else if !Ascii(d.signature) then Some(BadEnvelope)
    else if |d.body| > MAX_BODY_BYTES || !cfg.signed(d.body, d.signature) then Some(Signature)
    else None
  }

  lemma BodyOfDelivery(d: Delivery)
    ensures BodyOf(RowsOf(d)) == d.body
  {
    var rows := RowsOf(d);
    assert seq(|rows|, i requires 0 <= i < |rows| => rows[i].cipher.plain.envelope.raw) == seq(Parts(d.body), i requires 0 <= i => Slice(d.body, i));
    SplitThenJoin(d.body);
  }

  predicate AllAscii(s: string) { forall c :: c in s ==> c as int < 128 }

  lemma AsciiIsAll(s: string)
    ensures Ascii(s) <==> AllAscii(s)
  {
    if !Ascii(s) { var i :| 0 <= i < |s| && s[i] >= 128 as char; assert s[i] in s; }
  }

  /** The rows of a delivery open to its body with its signature exactly when it was sent to us, its signature
      header is ASCII, it is within the bound and Meta signed it; otherwise they are refused for the first of
      these that fails. */
  lemma DeliveryOpensExactly(cfg: Config, d: Delivery)
    ensures OpenBatch(cfg, RowsOf(d)) == Raw(d.body, d.signature) <==>
      d.to in cfg.identities && AllAscii(d.signature) && |d.body| <= 8 * 1024 * 1024 && cfg.signed(d.body, d.signature)
    ensures OpenBatch(cfg, RowsOf(d)) == Refused(Decrypt) <==> d.to !in cfg.identities
    ensures OpenBatch(cfg, RowsOf(d)) == Refused(BadEnvelope) <==> d.to in cfg.identities && !AllAscii(d.signature)
    ensures OpenBatch(cfg, RowsOf(d)) == match Obstacle(cfg, d) case None => Raw(d.body, d.signature) case Some(reason) => Refused(reason)
  {
    var rows := RowsOf(d);
    AsciiIsAll(d.signature);
    BatchOpensExactly(cfg, rows);
    if Obstacle(cfg, d) in {Some(Decrypt), Some(BadEnvelope)} {
      assert FirstBad(cfg, rows, 0);
    } else {
      assert AllGood(cfg, rows);
      BodyOfDelivery(d);
    }
  }

  // -- durable writes ------------------------------------------------------------------------

  const QUARANTINE_KEEP_BYTES: nat := 64 * 1024 * 1024

  function KeptSize(h: Held): nat { if h.kept then h.row.cipher.size else 0 }

  /** The ciphertext bytes the quarantine holds. */
  ghost function KeptBytes(q: map<nat, Held>): nat {
    if q == map[] then 0 else
      var k :| k in q;
      KeptSize(q[k]) + KeptBytes(q - {k})
  }

  lemma {:induction false} KeptWithout(q: map<nat, Held>, k: nat)
    requires k in q
    ensures KeptBytes(q) == KeptSize(q[k]) + KeptBytes(q - {k})
    decreases |q|
  {
    var j :| j in q && KeptBytes(q) == KeptSize(q[j]) + KeptBytes(q - {j});
    if j != k {
      KeptWithout(q - {j}, k);
      KeptWithout(q - {k}, j);
      assert q - {j} - {k} == q - {k} - {j};
    }
  }

  /** The running total while rows are quarantined: a row counts if it still fits. */
  function RunningTotal(start: nat, rows: seq<Row>): (total: nat)
    ensures total >= start && (start <= QUARANTINE_KEEP_BYTES ==> total <= QUARANTINE_KEEP_BYTES)
  {
    if rows == [] then start else
      var before := RunningTotal(start, rows[..|rows| - 1]);
      var size := rows[|rows| - 1].cipher.size;
      if before + size <= QUARANTINE_KEEP_BYTES then before + size else before
  }

  /** INSERT ... ON CONFLICT (seq) DO NOTHING, row by row. */
  function QuarantinedFrom(q: map<nat, Held>, start: nat, rows: seq<Row>, reason: Reason): (r: map<nat, Held>)
    ensures r.Keys == q.Keys + set row <- rows :: row.seqNo
    ensures forall k :: k in q ==> r[k] == q[k]
    ensures forall k :: k in r && k !in q ==> r[k].row in rows && r[k].row.seqNo == k && r[k].reason == reason
  {
    if rows == [] then q else
      var n := |rows| - 1;
      var before := QuarantinedFrom(q, start, rows[..n], reason);
      assert rows == rows[..n] + [rows[n]];
      var keep := RunningTotal(start, rows[..n]) + rows[n].cipher.size <= QUARANTINE_KEEP_BYTES;
      if rows[n].seqNo in before then before else before[rows[n].seqNo := Held(rows[n], reason, keep)]
  }

  ghost function Quarantined(q: map<nat, Held>, rows: seq<Row>, reason: Reason): (r: map<nat, Held>)
    ensures r.Keys == q.Keys + set row <- rows :: row.seqNo
    ensures forall k :: k in q ==> r[k] == q[k]
    ensures forall k :: k in r && k !in q ==> r[k].row in rows && r[k].row.seqNo == k && r[k].reason == reason
  {
    QuarantinedFrom(q, KeptBytes(q), rows, reason)
  }

  /** What is kept never exceeds the running total, even where a row was already there. */
  lemma {:induction false} KeptIsCounted(q: map<nat, Held>, start: nat, rows: seq<Row>, reason: Reason)
    requires KeptBytes(q) <= start
    ensures KeptBytes(QuarantinedFrom(q, start, rows, reason)) <= RunningTotal(start, rows)
  {
    if rows != [] {
      var n := |rows| - 1;
      KeptIsCounted(q, start, rows[..n], reason);
      var before, after := QuarantinedFrom(q, start, rows[..n], reason), QuarantinedFrom(q, start, rows, reason);
      if rows[n].seqNo !in before {
        KeptWithout(after, rows[n].seqNo);
        assert after - {rows[n].seqNo} == before;
      }
    }
  }

  lemma QuarantineStaysBounded(q: map<nat, Held>, rows: seq<Row>, reason: Reason)
    requires KeptBytes(q) <= QUARANTINE_KEEP_BYTES
    ensures KeptBytes(Quarantined(q, rows, reason)) <= QUARANTINE_KEEP_BYTES
  {
    KeptIsCounted(q, KeptBytes(q), rows, reason);
  }

  lemma {:induction false} TotalWhileItFits(start: nat, rows: seq<Row>)
    requires start + SizeOf(rows) <= QUARANTINE_KEEP_BYTES
    ensures RunningTotal(start, rows) == start + SizeOf(rows)
  {
    if rows != [] { TotalWhileItFits(start, rows[..|rows| - 1]); }
  }

  lemma {:induction false} KeptFrom(q: map<nat, Held>, start: nat, rows: seq<Row>, reason: Reason, k: nat)
    requires start + SizeOf(rows) <= QUARANTINE_KEEP_BYTES && k !in q && k in QuarantinedFrom(q, start, rows, reason)
    ensures QuarantinedFrom(q, start, rows, reason)[k].kept
  {
    if rows != [] {
      var most := rows[..|rows| - 1];
      TotalWhileItFits(start, most);
      if k in QuarantinedFrom(q, start, most, reason) { KeptFrom(q, start, most, reason, k); }
    }
  }

  /** While everything fits the bound, refused rows are kept with their ciphertext. */
  lemma KeptWhileItFits(q: map<nat, Held>, rows: seq<Row>, reason: Reason, k: nat)
    requires KeptBytes(q) + SizeOf(rows) <= 64 * 1024 * 1024 && k !in q && k in Quarantined(q, rows, reason)
    ensures Quarantined(q, rows, reason)[k].kept
  {
    KeptFrom(q, KeptBytes(q), rows, reason, k);
  }

  /** A single row is kept with its ciphertext exactly if it fits. */
  lemma OneRowIsKept(q: map<nat, Held>, row: Row, reason: Reason)
    requires row.seqNo !in q
    ensures row.seqNo in Quarantined(q, [row], reason)
    ensures Quarantined(q, [row], reason)[row.seqNo] == Held(row, reason, KeptBytes(q) + row.cipher.size <= 64 * 1024 * 1024)
  {
    assert [row][..0] == [];
    assert QuarantinedFrom(q, KeptBytes(q), [], reason) == q && RunningTotal(KeptBytes(q), []) == KeptBytes(q);
  }

  function GapLow(cursor: nat, purged: nat): nat { Max(cursor, purged) + 1 }

  predicate Breaks(pending: seq<Row>, row: Row) {
    pending != [] &&
    (row.batch != pending[0].batch || row.part != |pending| || row.seqNo != pending[|pending| - 1].seqNo + 1)
  }

  /** max seq of the rows received before the cutoff, or None */
  function Expired(mail: seq<Row>, cutoff: int): Option<nat> {
    if mail == [] then None else
      var last := mail[|mail| - 1];
      if last.receivedAt < cutoff then Some(last.seqNo) else Expired(mail[..|mail| - 1], cutoff)
  }

  // -- one event -----------------------------------------------------------------------------

  function DoStore(s: System, e: Event): System
    requires e.Store?
  {
    var d := Delivery(s.box.nextSeq, e.batch, e.receivedAt, e.body, e.signature, e.to, e.sizes);
    s.(ds := s.ds + [d],
       box := s.box.(mail := s.box.mail + RowsOf(d), nextSeq := s.box.nextSeq + Parts(e.body)))
  }

  function DoPurge(s: System, cutoff: int): System {
    match Expired(s.box.mail, cutoff)
    case None => s
    case Some(top) =>
      s.(box := s.box.(mail := Above(s.box.mail, top), purgedThrough := Max(s.box.purgedThrough, top)))
  }

  function Without(rows: seq<Row>, k: nat): seq<Row> {
    if rows == [] then [] else
      var rest := Without(rows[..|rows| - 1], k);
      if rows[|rows| - 1].seqNo == k then rest else rest + [rows[|rows| - 1]]
  }

  function NextPhase(page: seq<Row>): Phase { if page == [] then Pulling else AtRow }

  function DoPull(s: System, t: Tick, limit: nat): System {
    var page := PageOf(s.box.mail, t.cursor, limit);
    s.(coll := s.coll.(purged := Max(s.coll.purged, s.box.purgedThrough)),
       tick := Some(t.(page := page, phase := if page == [] then Drained else AtRow)))
  }

  function DoGap(s: System, t: Tick): System
    requires t.page != []
  {
    var row, low := t.page[0], GapLow(t.cursor, s.coll.purged);
    s.(coll := if row.seqNo > low then s.coll.(gaps := s.coll.gaps + [(low, row.seqNo - 1)]) else s.coll,
       tick := Some(t.(cursor := row.seqNo, phase := GapChecked)))
  }

  ghost function DoClear(s: System, t: Tick): System
    requires t.page != []
  {
    if Breaks(t.pending, t.page[0]) then
      s.(coll := s.coll.(quarantine := Quarantined(s.coll.quarantine, t.pending, BadParts)),
         tick := Some(t.(pending := [], phase := Cleared)))
    else
      s.(tick := Some(t.(phase := Cleared)))
  }

  ghost function DoTake(cfg: Config, s: System, t: Tick): System
    requires t.page != []
  {
    var row := t.page[0];
    var rows := t.pending + [row];
    if t.pending == [] && row.part != 0 then
      s.(coll := s.coll.(quarantine := Quarantined(s.coll.quarantine, [row], BadParts)),
         tick := Some(t.(phase := RowSettled)))
    else if |rows| < row.parts then
      s.(tick := Some(t.(pending := rows, page := t.page[1..], phase := NextPhase(t.page[1..]))))
    else
      var settled := t.(pending := [], phase := RowSettled);
      match OpenBatch(cfg, rows)
      case Refused(reason) =>
        s.(coll := s.coll.(quarantine := Quarantined(s.coll.quarantine, rows, reason)), tick := Some(settled))
      case Raw(raw, _) =>
        s.(coll := s.coll.(inbox := s.coll.inbox + {raw}), tick := Some(settled))
  }

  function Advanced(coll: Durable, k: nat): Durable { coll.(acked := Max(coll.acked, k)) }

  predicate InPhase(s: System, p: Phase) { s.tick.Some? && s.tick.value.phase == p }

  predicate Enabled(s: System, e: Event) {
    match e
    case Store(_, _, _, _, _, _) => true
    case Purge(_) => true
    case Lose(_) => true
    case RelayAck(through) => through <= s.coll.acked
    case Begin => s.tick.None?
    case PullPage(limit) => InPhase(s, Pulling) && limit > 0
    case RecordGap => InPhase(s, AtRow) && s.tick.value.page != []
    case ClearBroken => InPhase(s, GapChecked) && s.tick.value.page != []
    case TakeRow => InPhase(s, Cleared) && s.tick.value.page != []
    case Advance => InPhase(s, RowSettled) && s.tick.value.page != []
    case FlushPending => InPhase(s, Drained) && s.tick.value.pending != []
    case AdvanceFlushed => InPhase(s, Flushed) && s.tick.value.pending != []
    case Stop => true
  }

  ghost function Apply(cfg: Config, s: System, e: Event): System {
    if !Enabled(s, e) then s else
      match e
      case Store(_, _, _, _, _, _) => DoStore(s, e)
      case Purge(cutoff) => DoPurge(s, cutoff)
      case Lose(k) => s.(box := s.box.(mail := Without(s.box.mail, k)), lost := s.lost + {k})
      case RelayAck(through) => s.(box := s.box.(mail := Above(s.box.mail, through)))
      case Begin => s.(tick := Some(Tick(s.coll.acked, [], [], Pulling)))
      case PullPage(limit) => DoPull(s, s.tick.value, limit)
      case RecordGap => DoGap(s, s.tick.value)
      case ClearBroken => DoClear(s, s.tick.value)
      case TakeRow => DoTake(cfg, s, s.tick.value)
      case Advance =>
        var t := s.tick.value;
        s.(coll := Advanced(s.coll, t.cursor),
           tick := Some(t.(page := t.page[1..], phase := NextPhase(t.page[1..]))))
      case FlushPending =>
        var t := s.tick.value;
        s.(coll := s.coll.(quarantine := Quarantined(s.coll.quarantine, t.pending, BadParts)),
           tick := Some(t.(phase := Flushed)))
      case AdvanceFlushed =>
        var t := s.tick.value;
        s.(coll := Advanced(s.coll, t.pending[|t.pending| - 1].seqNo),
           tick := Some(t.(pending := [], phase := Drained)))
      case Stop => s.(tick := None)
  }

  function Init(): System {
    System([], {}, Box([], 1, 0), Durable(0, 0, {}, map[], []), None)
  }

  /** The state after a run, event by event. */
  ghost function Run(cfg: Config, s: System, events: seq<Event>): System
    decreases |events|, 1
  {
    if events == [] then s else RunOn(cfg, s, events)
  }

  ghost function RunOn(cfg: Config, s: System, events: seq<Event>): System
    requires events != []
    decreases |events|, 0
  {
    Apply(cfg, Run(cfg, s, events[..|events| - 1]), events[|events| - 1])
  }

  lemma LastEvent(cfg: Config, s: System, events: seq<Event>)
    requires events != []
    ensures Run(cfg, s, events) == Apply(cfg, Run(cfg, s, events[..|events| - 1]), events[|events| - 1])
  {
    assert Run(cfg, s, events) == RunOn(cfg, s, events);
  }

  lemma RunOne(cfg: Config, s: System, events: seq<Event>, e: Event)
    ensures Run(cfg, s, events + [e]) == Apply(cfg, Run(cfg, s, events), e)
  {
    LastEvent(cfg, s, events + [e]);
    assert (events + [e])[..|events + [e]| - 1] == events;
  }

  lemma {:induction false} RunAppends(cfg: Config, s: System, a: seq<Event>, b: seq<Event>)
    ensures Run(cfg, s, a + b) == Run(cfg, Run(cfg, s, a), b)
    decreases |b|
  {
    if b == [] {
      assert a + b == a;
    } else {
      var n := |b| - 1;
      assert (a + b)[..|a + b| - 1] == a + b[..n];
      RunAppends(cfg, s, a, b[..n]);
      LastEvent(cfg, s, a + b);
      LastEvent(cfg, Run(cfg, s, a), b);
    }
  }
}
