/** What a run did with the rows it took: every row is counted once. */
module RelayTally {
  import opened ByteStrings
  import opened RelayMail
  import opened RelayProtocol
  import opened RelaySafety

  /** Rows taken from pages, bodies stored and the rows they came in, rows quarantined, and rows a tick
      that ended early left to be pulled again. */
  datatype Tally = Tally(pulled: nat, stored: nat, storedRows: nat, quarantined: nat, abandoned: nat)

  function Plus(a: Tally, b: Tally): Tally {
    Tally(a.pulled + b.pulled, a.stored + b.stored, a.storedRows + b.storedRows, a.quarantined + b.quarantined, a.abandoned + b.abandoned)
  }

  const NOTHING: Tally := Tally(0, 0, 0, 0, 0)

  ghost function WorthOfTake(cfg: Config, t: Tick): Tally
    requires t.page != []
  {
    var rows := t.pending + [t.page[0]];
    if t.pending == [] && t.page[0].part != 0 then Tally(1, 0, 0, 1, 0)
    else if |rows| < t.page[0].parts then Tally(1, 0, 0, 0, 0)
    else if OpenBatch(cfg, rows).Raw? then Tally(1, 1, |rows|, 0, 0)
    else Tally(1, 0, 0, |rows|, 0)
  }

  ghost function Worth(cfg: Config, s: System, e: Event): Tally {
    if !Enabled(s, e) || s.tick.None? then NOTHING else
      var t := s.tick.value;
      match e
      case ClearBroken => if Breaks(t.pending, t.page[0]) then Tally(0, 0, 0, |t.pending|, 0) else NOTHING
      case TakeRow => WorthOfTake(cfg, t)
      case FlushPending => Tally(0, 0, 0, |t.pending|, 0)
      case Stop => Tally(0, 0, 0, 0, |Waiting(t)|)
      case _ => NOTHING
  }

  /** The sum over a run of what each event is worth in the state it meets. */
  ghost function Total(worth: (System, Event) -> Tally, cfg: Config, s: System, events: seq<Event>): Tally
    decreases |events|, 1
  {
    if events == [] then NOTHING else TotalOn(worth, cfg, s, events)
  }

  ghost function TotalOn(worth: (System, Event) -> Tally, cfg: Config, s: System, events: seq<Event>): Tally
    requires events != []
    decreases |events|, 0
  {
    var n := |events| - 1;
    Plus(Total(worth, cfg, s, events[..n]), worth(Run(cfg, s, events[..n]), events[n]))
  }

  lemma TotalOne(worth: (System, Event) -> Tally, cfg: Config, s: System, events: seq<Event>, e: Event)
    ensures Total(worth, cfg, s, events + [e]) == Plus(Total(worth, cfg, s, events), worth(Run(cfg, s, events), e))
  {
    assert (events + [e])[..|events + [e]| - 1] == events;
    assert Total(worth, cfg, s, events + [e]) == TotalOn(worth, cfg, s, events + [e]);
  }

  /** The totals of two runs, one after the other, add up. */
  lemma {:induction false} TotalAppends(worth: (System, Event) -> Tally, cfg: Config, s: System, a: seq<Event>, b: seq<Event>)
    ensures Total(worth, cfg, s, a + b) == Plus(Total(worth, cfg, s, a), Total(worth, cfg, Run(cfg, s, a), b))
    decreases |b|
  {
    if b == [] {
      assert a + b == a;
    } else {
      var most, e := b[..|b| - 1], b[|b| - 1];
      assert b == most + [e] && a + b == (a + most) + [e];
      TotalAppends(worth, cfg, s, a, most);
      RunAppends(cfg, s, a, most);
      TotalOne(worth, cfg, s, a + most, e);
      TotalOne(worth, cfg, Run(cfg, s, a), most, e);
    }
  }

  ghost function Worths(cfg: Config): (System, Event) -> Tally { (s: System, e: Event) => Worth(cfg, s, e) }

  ghost function TallyOf(cfg: Config, s: System, events: seq<Event>): Tally { Total(Worths(cfg), cfg, s, events) }

  /** Events that take nothing, store nothing and quarantine nothing. */
  predicate Silent(e: Event) { !e.ClearBroken? && !e.TakeRow? && !e.FlushPending? }

  predicate Counts(c: Tally, pulled: nat, stored: nat, quarantined: nat) {
    c.pulled == pulled && c.stored == stored && c.quarantined == quarantined
  }

  lemma {:induction false} SilentCountsNothing(cfg: Config, s: System, events: seq<Event>)
    requires forall e :: e in events ==> Silent(e)
    ensures Counts(TallyOf(cfg, s, events), 0, 0, 0)
  {
    if events != [] {
      var before, e := events[..|events| - 1], events[|events| - 1];
      assert e in events;
      SilentCountsNothing(cfg, s, before);
      SilentIsWorthNothing(cfg, Run(cfg, s, before), e);
      TotalOne(Worths(cfg), cfg, s, before, e);
      assert events == before + [e];
    }
  }

  lemma SilentIsWorthNothing(cfg: Config, s: System, e: Event)
    requires Silent(e)
    ensures Counts(Worths(cfg)(s, e), 0, 0, 0)
  {
  }

  lemma ThreeTotal(worth: (System, Event) -> Tally, cfg: Config, s: System, a: Event, b: Event, c: Event)
    ensures Total(worth, cfg, s, [a, b, c]) ==
      Plus(Plus(worth(s, a), worth(Run(cfg, s, [a]), b)), worth(Run(cfg, s, [a, b]), c))
  {
    TotalOne(worth, cfg, s, [], a);
    TotalOne(worth, cfg, s, [a], b);
    TotalOne(worth, cfg, s, [a, b], c);
    assert [] + [a] == [a] && [a] + [b] == [a, b] && [a, b] + [c] == [a, b, c];
  }

  lemma FourCounts(worth: (System, Event) -> Tally, cfg: Config, s: System, a: Event, b: Event, c: Event, d: Event, stored: nat, broken: nat, refused: nat)
    requires Counts(worth(s, a), 0, 0, 0) && Counts(worth(Run(cfg, s, [a]), b), 0, 0, broken)
    requires Counts(worth(Run(cfg, s, [a, b]), c), 1, stored, refused) && Counts(worth(Run(cfg, s, [a, b, c]), d), 0, 0, 0)
    ensures Counts(Total(worth, cfg, s, [a, b, c]), 1, stored, broken + refused)
    ensures Counts(Total(worth, cfg, s, [a, b, c] + [d]), 1, stored, broken + refused)
  {
    ThreeTotal(worth, cfg, s, a, b, c);
    TotalOne(worth, cfg, s, [a, b, c], d);
  }

  /** One row: its gap and its progress are silent, so the clearing and the taking are all that counts. */
  lemma RowCounts(cfg: Config, s: System, stored: nat, broken: nat, refused: nat)
    requires Counts(Worths(cfg)(Run(cfg, s, [RecordGap]), ClearBroken), 0, 0, broken)
    requires Counts(Worths(cfg)(Run(cfg, s, [RecordGap, ClearBroken]), TakeRow), 1, stored, refused)
    ensures Counts(TallyOf(cfg, s, [RecordGap, ClearBroken, TakeRow]), 1, stored, broken + refused)
    ensures Counts(TallyOf(cfg, s, [RecordGap, ClearBroken, TakeRow] + [Advance]), 1, stored, broken + refused)
  {
    SilentIsWorthNothing(cfg, s, RecordGap);
    SilentIsWorthNothing(cfg, Run(cfg, s, [RecordGap, ClearBroken, TakeRow]), Advance);
    FourCounts(Worths(cfg), cfg, s, RecordGap, ClearBroken, TakeRow, Advance, stored, broken, refused);
  }

  lemma ClearWorth(cfg: Config, s: System, n: nat)
    requires InPhase(s, GapChecked) && s.tick.value.page != []
    requires n == if Breaks(s.tick.value.pending, s.tick.value.page[0]) then |s.tick.value.pending| else 0
    ensures Counts(Worths(cfg)(s, ClearBroken), 0, 0, n)
  {
  }

  /** What a report may claim of the events between two moments. */
  ghost predicate Since(cfg: Config, past: seq<Event>, run: seq<Event>, pulled: nat, stored: nat, quarantined: nat) {
    Apart(TallyOf(cfg, Init(), past), TallyOf(cfg, Init(), run), pulled, stored, quarantined)
  }

  lemma SinceGrows(cfg: Config, past: seq<Event>, run: seq<Event>, more: seq<Event>, p: nat, s: nat, q: nat, p': nat, s': nat, q': nat)
    requires Since(cfg, past, run, p, s, q) && Counts(TallyOf(cfg, Run(cfg, Init(), run), more), p', s', q')
    ensures Since(cfg, past, run + more, p + p', s + s', q + q')
  {
    TotalAppends(Worths(cfg), cfg, Init(), run, more);
  }

  predicate Apart(a: Tally, b: Tally, pulled: nat, stored: nat, quarantined: nat) {
    b.pulled == a.pulled + pulled && b.stored == a.stored + stored && b.quarantined == a.quarantined + quarantined
  }

  lemma ApartOne(worth: (System, Event) -> Tally, cfg: Config, a: Tally, run: seq<Event>, e: Event, p: nat, s: nat, q: nat, p': nat, s': nat, q': nat)
    requires Apart(a, Total(worth, cfg, Init(), run), p, s, q) && Counts(worth(Run(cfg, Init(), run), e), p', s', q')
    ensures Apart(a, Total(worth, cfg, Init(), run + [e]), p + p', s + s', q + q')
  {
    TotalOne(worth, cfg, Init(), run, e);
  }

  lemma FlushWorth(cfg: Config, s: System, n: nat)
    requires InPhase(s, Drained) && |s.tick.value.pending| == n && n > 0
    ensures Counts(Worths(cfg)(s, FlushPending), 0, 0, n)
  {
  }

  lemma SinceJoins(cfg: Config, a: seq<Event>, b: seq<Event>, c: seq<Event>, p: nat, s: nat, q: nat, p': nat, s': nat, q': nat)
    requires Since(cfg, a, b, p, s, q) && Since(cfg, b, c, p', s', q')
    ensures Since(cfg, a, c, p + p', s + s', q + q')
  {
  }

  /** The rows a tick holds in memory. */
  function InHand(s: System): nat { if s.tick.None? then 0 else |Waiting(s.tick.value)| }

  lemma StepCounts(cfg: Config, s: System, e: Event)
    requires s.tick.Some? && s.tick.value.phase == RowSettled ==> s.tick.value.pending == []
    ensures Worth(cfg, s, e).pulled + InHand(s) ==
      Worth(cfg, s, e).storedRows + Worth(cfg, s, e).quarantined + Worth(cfg, s, e).abandoned + InHand(Apply(cfg, s, e))
  {
  }

  ghost predicate Balances(cfg: Config, events: seq<Event>) {
    var c := TallyOf(cfg, Init(), events);
    c.pulled == c.storedRows + c.quarantined + c.abandoned + InHand(Run(cfg, Init(), events))
  }

  lemma OneMoreCounted(cfg: Config, events: seq<Event>, e: Event)
    requires Balances(cfg, events) && Inv(cfg, Run(cfg, Init(), events))
    ensures Balances(cfg, events + [e])
  {
    StepCounts(cfg, Run(cfg, Init(), events), e);
    TotalOne(Worths(cfg), cfg, Init(), events, e);
    RunOne(cfg, Init(), events, e);
  }

  /** Conservation: in every run the rows taken are those of stored bodies, those quarantined, those a tick
      that ended early gave back, and those still in memory. */
  lemma {:induction false} EveryRowIsCountedOnce(cfg: Config, events: seq<Event>)
    ensures Balances(cfg, events)
  {
    if events != [] {
      var before, e := events[..|events| - 1], events[|events| - 1];
      EveryRowIsCountedOnce(cfg, before);
      RunKeeps(cfg, before);
      OneMoreCounted(cfg, before, e);
      assert events == before + [e];
    }
  }

  /** The batch that taking the next row completes, if it does. */
  predicate Completes(t: Tick) { t.page != [] && !(t.pending == [] && t.page[0].part != 0) && |t.pending| + 1 >= t.page[0].parts }

  /** A body is counted as stored exactly when a completed batch opens, and put in the inbox then and only then. */
  lemma StoredIsShown(cfg: Config, s: System, e: Event)
    requires Inv(cfg, s)
    ensures var w, a, b := Worth(cfg, s, e), s.coll, Apply(cfg, s, e).coll;
      && (w.pulled == if e.TakeRow? && Enabled(s, e) then 1 else 0)
      && (w.stored == 0 || w.stored == 1)
      && (w.stored == 1 <==> e.TakeRow? && Enabled(s, e) && Completes(s.tick.value) &&
                             OpenBatch(cfg, s.tick.value.pending + [s.tick.value.page[0]]).Raw?)
      && (w.stored == 1 ==> b.inbox == a.inbox + {OpenBatch(cfg, s.tick.value.pending + [s.tick.value.page[0]]).raw})
      && (w.stored == 0 ==> b.inbox == a.inbox)
  {
  }

  /** The rows an event puts to the quarantine. */
  ghost function Refuses(cfg: Config, s: System, e: Event): seq<Row>
    requires Inv(cfg, s)
  {
    if !Enabled(s, e) then [] else
      match e
      case FlushPending => s.tick.value.pending
      case ClearBroken => if Breaks(s.tick.value.pending, s.tick.value.page[0]) then s.tick.value.pending else []
      case TakeRow =>
        var t := s.tick.value;
        if t.pending == [] && t.page[0].part != 0 then [t.page[0]]
        else if Completes(t) && OpenBatch(cfg, t.pending + [t.page[0]]).Refused? then t.pending + [t.page[0]]
        else []
      case _ => []
  }

  /** The rows counted as quarantined are those added to it, each under its seq. */
  lemma QuarantinedIsShown(cfg: Config, s: System, e: Event)
    requires Inv(cfg, s)
    ensures |Refuses(cfg, s, e)| == Worth(cfg, s, e).quarantined
    ensures Apply(cfg, s, e).coll.quarantine.Keys == s.coll.quarantine.Keys + set row <- Refuses(cfg, s, e) :: row.seqNo
  {
    if Enabled(s, e) && e.TakeRow? { TakeIsShown(cfg, s); }
  }

  lemma TakeIsShown(cfg: Config, s: System)
    requires Inv(cfg, s) && Enabled(s, TakeRow)
    ensures |Refuses(cfg, s, TakeRow)| == Worth(cfg, s, TakeRow).quarantined
    ensures Apply(cfg, s, TakeRow).coll.quarantine.Keys == s.coll.quarantine.Keys + set row <- Refuses(cfg, s, TakeRow) :: row.seqNo
  {
  }
}
