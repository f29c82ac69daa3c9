/** What every schedule of crashes and reruns keeps, and where it can end. */
module CutoverSafety {
  import opened CutoverMachine

  function Count(chain: seq<CommsEvent>, genesis: bool): nat {
    if chain == [] then 0 else
      var last := chain[|chain| - 1];
      Count(chain[..|chain| - 1], genesis) + if (if genesis then last.CutoverEvent? else last.RevokedEvent?) then 1 else 0
  }

  lemma CountOneMore(chain: seq<CommsEvent>, e: CommsEvent, genesis: bool)
    ensures Count(chain + [e], genesis) == Count(chain, genesis) + if (if genesis then e.CutoverEvent? else e.RevokedEvent?) then 1 else 0
  {
    assert (chain + [e])[..|chain|] == chain;
  }

  /** Whatever happens on the legacy side. */
  ghost predicate Inv(s: State) { RowsHold(s) && AnchorHolds(s) && PlaceHolds(s) }

  /** The phase says what is stored. */
  ghost predicate RowsHold(s: State) {
    && (s.cut.Some? <==> Rank(s.phase) >= Rank(Entered))
    && (s.digest.Some? <==> Rank(s.phase) >= Rank(Sealed))
    && Count(s.chain, true) == (if Rank(s.phase) >= Rank(Genesis) then 1 else 0)
    && Count(s.chain, false) == (if Rank(s.phase) >= Rank(AuthRevoked) then 1 else 0)
    && (Rank(s.phase) < Rank(Genesis) ==> s.lineage == [])
    && (Rank(s.phase) >= Rank(Genesis) ==> GenesisHolds(s))
  }

  /** One lineage row, of the recorded ref and digest, bound to an event of the comms chain. */
  ghost predicate GenesisHolds(s: State) {
    && |s.lineage| == 1 && s.cut.Some?
    && var row := s.lineage[0];
       && row.digest == row.columns && row.columns.cut == s.cut.value && s.digest == Some(row.columns.checkpointDigest)
       && GenesisOf(s) in s.chain
  }

  function GenesisOf(s: State): CommsEvent
    requires |s.lineage| == 1 && s.cut.Some?
  {
    CutoverEvent(s.cut.value, s.lineage[0].columns, s.lineage[0].columns)
  }

  ghost predicate AnchorHolds(s: State) {
    && s.anchor <= |s.chain|
    && (Rank(s.phase) >= Rank(CommsAnchored) || s.place == AfterGenesis ==> Covered(s.chain, s.anchor))
  }

  /** The cutover event is among the first `n`. */
  ghost predicate Covered(chain: seq<CommsEvent>, n: nat) { n <= |chain| && exists i :: 0 <= i < n && chain[i].CutoverEvent? }

  lemma CoveredLater(chain: seq<CommsEvent>, n: nat, longer: seq<CommsEvent>, n': nat)
    requires Covered(chain, n) && chain <= longer && n <= n' <= |longer|
    ensures Covered(longer, n')
  {
    var i :| 0 <= i < n && chain[i].CutoverEvent?;
    assert longer[i].CutoverEvent?;
  }

  /** The phase in which a run can be at its place, and what it has seen there. */
  ghost predicate PlaceHolds(s: State) {
    && (Rank(s.phase) >= Rank(AuthRevoked) ==> s.authRevoked)
    && match s.place
       case Resting => true
       case SealRead(_) => s.phase == Verified
       case SealChecked => s.phase == Sealed
       case AfterRefresh => s.phase == Sealed
       case EmptyChecked(read) => s.phase == LegacyAnchored && s.digest == Some(read.digest)
       case LineageChecked => s.phase == Genesis
       case AfterGenesis => s.phase == Genesis
       case AuthChecked => s.phase == CommsAnchored
       case AfterRevoke(_, _) => s.phase == CommsAnchored && s.authRevoked
  }

  /** What an event puts on the comms chain. */
  function Added(s: State, e: Event): seq<CommsEvent> {
    if !Enabled(s, e) then [] else
      match e
      case CommitGenesis(createdAt, _) => var row := Expected(s.cut.value, s.place.read, createdAt); [CutoverEvent(s.cut.value, row, row)]
      case RecordRevocation(_) => [RevokedEvent(s.cut.value, s.place.count, s.place.securityEpoch)]
      case AppendOther(_) => [OtherEvent]
      case _ => []
  }

  lemma ChainGrows(s: State, e: Event)
    ensures Apply(s, e).chain == s.chain + Added(s, e)
  {
  }

  lemma CountAdded(chain: seq<CommsEvent>, added: seq<CommsEvent>, genesis: bool)
    requires |added| <= 1
    ensures Count(chain + added, genesis) == Count(chain, genesis) + Count(added, genesis)
  {
    if added == [] {
      assert chain + added == chain;
    } else {
      CountOneMore(chain, added[0], genesis);
      CountOneMore([], added[0], genesis);
      assert added == [] + [added[0]];
    }
  }

  lemma CountOfOne(e: CommsEvent)
    ensures Count([e], true) == (if e.CutoverEvent? then 1 else 0) && Count([e], false) == (if e.RevokedEvent? then 1 else 0)
  {
    CountOneMore([], e, true);
    CountOneMore([], e, false);
    assert [] + [e] == [e];
  }

  /** An event adds a genesis or a revocation exactly when the phase enters that step. */
  lemma AddedWithThePhase(s: State, e: Event)
    ensures Count(Added(s, e), true) == (if s.phase == LegacyAnchored && Apply(s, e).phase == Genesis then 1 else 0)
    ensures Count(Added(s, e), false) == (if s.phase == CommsAnchored && Apply(s, e).phase == AuthRevoked then 1 else 0)
  {
    if Added(s, e) != [] { CountOfOne(Added(s, e)[0]); }
  }

  lemma GenesisStepHolds(s: State, e: Event)
    requires RowsHold(s) && PlaceHolds(s) && Rank(Apply(s, e).phase) >= Rank(Genesis)
    ensures GenesisHolds(Apply(s, e))
  {
    var s' := Apply(s, e);
    ChainGrows(s, e);
    if e.CommitGenesis? && Enabled(s, e) {
      assert Added(s, e)[0] == GenesisOf(s');
    } else {
      assert s'.lineage == s.lineage && s'.cut == s.cut && s'.digest == s.digest;
    }
  }

  lemma StepKeepsCounts(s: State, e: Event)
    requires RowsHold(s)
    ensures var s' := Apply(s, e);
      && Count(s'.chain, true) == (if Rank(s'.phase) >= Rank(Genesis) then 1 else 0)
      && Count(s'.chain, false) == (if Rank(s'.phase) >= Rank(AuthRevoked) then 1 else 0)
  {
    ChainGrows(s, e);
    AddedWithThePhase(s, e);
    CountAdded(s.chain, Added(s, e), true);
    CountAdded(s.chain, Added(s, e), false);
    RankMoves(s, e);
  }

  /** Crossing into a phase is leaving the one before it. */
  lemma RankMoves(s: State, e: Event)
    ensures Rank(Apply(s, e).phase) >= Rank(Genesis) <==>
      Rank(s.phase) >= Rank(Genesis) || (s.phase == LegacyAnchored && Apply(s, e).phase == Genesis)
    ensures Rank(Apply(s, e).phase) >= Rank(AuthRevoked) <==>
      Rank(s.phase) >= Rank(AuthRevoked) || (s.phase == CommsAnchored && Apply(s, e).phase == AuthRevoked)
  {
    OneStepForward(s, e);
  }

  lemma StepKeepsIdentity(s: State, e: Event)
    requires RowsHold(s) && PlaceHolds(s)
    ensures var s' := Apply(s, e);
      && (s'.cut.Some? <==> Rank(s'.phase) >= Rank(Entered)) && (s'.digest.Some? <==> Rank(s'.phase) >= Rank(Sealed))
      && (Rank(s'.phase) < Rank(Genesis) ==> s'.lineage == [])
  {
  }

  lemma StepKeepsRows(s: State, e: Event)
    requires RowsHold(s) && PlaceHolds(s)
    ensures RowsHold(Apply(s, e))
  {
    StepKeepsCounts(s, e);
    StepKeepsIdentity(s, e);
    if Rank(Apply(s, e).phase) >= Rank(Genesis) { GenesisStepHolds(s, e); }
  }

  lemma CommitKeepsAnchor(s: State, e: Event)
    requires AnchorHolds(s) && PlaceHolds(s) && e.CommitGenesis? && Enabled(s, e)
    ensures AnchorHolds(Apply(s, e))
  {
    var s' := Apply(s, e);
    ChainGrows(s, e);
    assert s'.chain[|s.chain|].CutoverEvent?;
  }

  lemma ReanchorKeepsAnchor(s: State, e: Event)
    requires Inv(s) && e.Reanchor? && Enabled(s, e)
    ensures AnchorHolds(Apply(s, e))
  {
    var i :| 0 <= i < |s.chain| && s.chain[i] == GenesisOf(s);
    assert Apply(s, e).chain[i].CutoverEvent?;
  }

  lemma RestKeepsAnchor(s: State, e: Event)
    requires AnchorHolds(s) && PlaceHolds(s) && !(e.CommitGenesis? && Enabled(s, e)) && !(e.Reanchor? && Enabled(s, e))
    ensures AnchorHolds(Apply(s, e))
  {
    var s' := Apply(s, e);
    ChainGrows(s, e);
    assert s.anchor <= s'.anchor <= |s'.chain|;
    if Covered(s.chain, s.anchor) { CoveredLater(s.chain, s.anchor, s'.chain, s'.anchor); }
  }

  lemma StepKeepsAnchor(s: State, e: Event)
    requires Inv(s)
    ensures AnchorHolds(Apply(s, e))
  {
    if e.CommitGenesis? && Enabled(s, e) { CommitKeepsAnchor(s, e); }
    else if e.Reanchor? && Enabled(s, e) { ReanchorKeepsAnchor(s, e); }
    else { RestKeepsAnchor(s, e); }
  }

  lemma StepKeepsPlace(s: State, e: Event)
    requires Inv(s)
    ensures PlaceHolds(Apply(s, e))
  {
  }

  /** A single event takes the phase one step along the table at most. */
  lemma OneStepForward(s: State, e: Event)
    ensures Rank(s.phase) <= Rank(Apply(s, e).phase) <= Rank(s.phase) + 1
  {
  }

  lemma StepKeeps(s: State, e: Event)
    requires Inv(s)
    ensures Inv(Apply(s, e)) && Rank(s.phase) <= Rank(Apply(s, e).phase) <= Rank(s.phase) + 1
  {
    OneStepForward(s, e);
    StepKeepsRows(s, e);
    StepKeepsAnchor(s, e);
    StepKeepsPlace(s, e);
  }

  lemma {:induction false} RunKeeps(s: State, events: seq<Event>)
    requires Inv(s)
    ensures Inv(Run(s, events)) && Rank(s.phase) <= Rank(Run(s, events).phase)
  {
    if events != [] {
      LastEvent(s, events);
      RunKeeps(s, events[..|events| - 1]);
      StepKeeps(Run(s, events[..|events| - 1]), events[|events| - 1]);
    }
  }

  // -- the legacy side left alone ----------------------------------------------------------------

  predicate Untampered(events: seq<Event>) { forall e :: e in events ==> !e.Tamper? }

  /** The one seal made is the one reported, recorded, anchored and copied into the lineage. */
  ghost predicate OneSeal(s: State) {
    && s.sealsMade == (if s.seal.Some? then 1 else 0)
    && (s.seal.Some? ==> Rank(s.phase) >= Rank(Verified))
    && (Rank(s.phase) >= Rank(Sealed) ==> SealIsRecorded(s))
    && (Rank(s.phase) >= Rank(LegacyAnchored) || s.place == AfterRefresh ==> s.legacyAnchor == s.seal)
    && (s.place.SealRead? || s.place.EmptyChecked? ==> s.seal == Some(s.place.read))
    && (Rank(s.phase) >= Rank(Genesis) ==> LineageHolds(s))
  }

  lemma StepKeepsLineage(s: State, e: Event)
    requires Inv(s) && OneSeal(s) && !e.Tamper? && Rank(Apply(s, e).phase) >= Rank(Genesis)
    ensures LineageHolds(Apply(s, e))
  {
  }

  lemma StepKeepsSeal(s: State, e: Event)
    requires Inv(s) && OneSeal(s) && !e.Tamper?
    ensures OneSeal(Apply(s, e))
  {
    if Rank(Apply(s, e).phase) >= Rank(Genesis) { StepKeepsLineage(s, e); }
  }

  lemma {:induction false} RunKeepsSeal(events: seq<Event>)
    requires Untampered(events)
    ensures OneSeal(Run(Init(), events))
  {
    if events != [] {
      LastEvent(Init(), events);
      var before := events[..|events| - 1];
      RunKeepsSeal(before);
      RunKeeps(Init(), before);
      StepKeepsSeal(Run(Init(), before), events[|events| - 1]);
    }
  }

  // -- main results --------------------------------------------------------------------------------

  /** Over any later schedule the phase only moves forward, and the cut ref and the seal digest, once set,
      never change; a single event takes it one step along the table at most (`OneStepForward`). */
  lemma {:induction false} PhaseMovesForward(events: seq<Event>, more: seq<Event>)
    ensures var s, s' := Run(Init(), events), Run(Run(Init(), events), more);
      && Rank(s.phase) <= Rank(s'.phase)
      && (s.cut.Some? ==> s'.cut == s.cut) && (s.digest.Some? ==> s'.digest == s.digest)
    decreases |more|
  {
    RunKeeps(Init(), events);
    if more != [] {
      LastEvent(Run(Init(), events), more);
      var before, e := more[..|more| - 1], more[|more| - 1];
      PhaseMovesForward(events, before);
      RunKeeps(Run(Init(), events), before);
      IdentityStays(Run(Run(Init(), events), before), e);
    }
  }

  lemma IdentityStays(s: State, e: Event)
    requires Inv(s)
    ensures var s' := Apply(s, e);
      Rank(s.phase) <= Rank(s'.phase) && (s.cut.Some? ==> s'.cut == s.cut) && (s.digest.Some? ==> s'.digest == s.digest)
  {
    OneStepForward(s, e);
  }

  /** Completion, whatever was done to the legacy side meanwhile: one genesis, one revocation, one lineage
      row bound to the recorded seal digest and to the genesis, which is anchored. */
  lemma CompleteOnce(events: seq<Event>)
    requires Run(Init(), events).phase == Complete
    ensures var s := Run(Init(), events);
      Count(s.chain, true) == 1 && Count(s.chain, false) == 1 && GenesisHolds(s) && s.authRevoked && Covered(s.chain, s.anchor)
  {
    RunKeeps(Init(), events);
  }

  /** With the legacy side left alone there is exactly one seal, and the lineage row equals it. */
  lemma CompleteMatchesTheSeal(events: seq<Event>)
    requires Untampered(events) && Run(Init(), events).phase == Complete
    ensures var s := Run(Init(), events);
      && s.sealsMade == 1 && s.legacyAnchor == s.seal && LineageHolds(s)
      && var row, seal := s.lineage[0].columns, s.seal.value;
         && row.cut == s.cut.value && row.epoch == seal.epoch && row.head == seal.head
         && row.checkpointDigest == seal.digest && row.keyId == seal.keyId && s.digest == Some(seal.digest)
  {
    RunKeepsSeal(events);
  }

  /** A seal that is not the recorded one, or none at all, after a digest was recorded. */
  predicate SealDiffers(s: State) { s.digest.Some? && !SealIsRecorded(s) }

  /** The last check of the seal is behind: it passed in the run still going, or the revocation is recorded. */
  predicate PastTheChecks(s: State) { Rank(s.phase) >= Rank(AuthRevoked) || s.place == AuthChecked || s.place.AfterRevoke? }

  lemma StepFailsClosed(s: State, e: Event)
    requires Inv(s) && SealDiffers(s) && !PastTheChecks(s) && !e.Tamper?
    ensures var s' := Apply(s, e); SealDiffers(s') && !PastTheChecks(s')
  {
  }

  lemma {:induction false} RunFailsClosed(s: State, more: seq<Event>)
    requires Inv(s) && SealDiffers(s) && !PastTheChecks(s) && Untampered(more)
    ensures var s' := Run(s, more); SealDiffers(s') && !PastTheChecks(s')
  {
    if more != [] {
      LastEvent(s, more);
      var before := more[..|more| - 1];
      RunFailsClosed(s, before);
      RunKeeps(s, before);
      StepFailsClosed(Run(s, before), more[|more| - 1]);
    }
  }

  lemma RevokedNext(s: State)
    requires PlaceHolds(s) && PastTheChecks(s)
    ensures var s' := Apply(s, RevokeAuth(0, 0)); (Rank(s'.phase) >= Rank(AuthRevoked) || s'.place.AfterRevoke?) && s'.cut == s.cut
  {
  }

  lemma CompleteNext(s: State)
    requires PlaceHolds(s) && s.cut.Some? && (Rank(s.phase) >= Rank(AuthRevoked) || s.place.AfterRevoke?)
    ensures Apply(Apply(s, RecordRevocation(true)), Finish).phase == Complete
  {
    assert Rank(Apply(s, RecordRevocation(true)).phase) >= Rank(AuthRevoked);
  }

  lemma PastTheChecksCompletes(s: State) returns (more: seq<Event>)
    requires Inv(s) && PastTheChecks(s)
    ensures Untampered(more) && Run(s, more).phase == Complete
  {
    more := [RevokeAuth(0, 0), RecordRevocation(true), Finish];
    StepKeeps(s, RevokeAuth(0, 0));
    RevokedNext(s);
    CompleteNext(Apply(s, RevokeAuth(0, 0)));
    RunThree(s, RevokeAuth(0, 0), RecordRevocation(true), Finish);
  }

  /** Once the reported seal differs from the recorded one, and nothing restores it, the cutover can still
      complete exactly when its last check of the seal is behind. */
  lemma DifferingSealCompletesOnlyPastTheChecks(events: seq<Event>)
    requires SealDiffers(Run(Init(), events))
    ensures var s := Run(Init(), events);
      (exists more :: Untampered(more) && Run(s, more).phase == Complete) <==> PastTheChecks(s)
  {
    RunKeeps(Init(), events);
    var s := Run(Init(), events);
    if PastTheChecks(s) {
      var more := PastTheChecksCompletes(s);
    } else {
      forall more | Untampered(more) ensures Run(s, more).phase != Complete { RunFailsClosed(s, more); }
    }
  }

  /** A process at rest before its last check, with a seal that is not the recorded one. */
  ghost predicate Stuck(s: State) { SealDiffers(s) && s.place == Resting && !PastTheChecks(s) }

  lemma StuckStays(s: State, e: Event)
    requires Inv(s) && Stuck(s) && !e.Tamper?
    ensures var s' := Apply(s, e); Stuck(s') && s' == s.(chain := s'.chain, anchor := s'.anchor)
  {
  }

  /** And a process at rest does not move at all: not even the phase changes. */
  lemma {:induction false} DifferingSealNeverCompletes(s: State, more: seq<Event>)
    requires Inv(s) && SealDiffers(s) && s.place == Resting && !PastTheChecks(s) && Untampered(more)
    ensures var s' := Run(s, more); Stuck(s') && s' == s.(chain := s'.chain, anchor := s'.anchor)
  {
    if more != [] {
      LastEvent(s, more);
      var before := more[..|more| - 1];
      DifferingSealNeverCompletes(s, before);
      RunKeeps(s, before);
      StuckStays(Run(s, before), more[|more| - 1]);
    }
  }

  // -- crash transparency ----------------------------------------------------------------------------

  /** What one run of the cutover is free to choose. */
  datatype Choice = Choice(cut: nat, seal: Seal, createdAt: nat, count: nat, securityEpoch: nat)

  /** The cutover without interruption. */
  function Straight(c: Choice): seq<Event> { LegacyPart(c) + CommsPart(c, true) }

  function LegacyPart(c: Choice): seq<Event> {
    [Enter(c.cut), CloseAndDrain, VerifyLegacy] + [SealLegacy(c.seal), ReadSeal, RecordSeal] + [CheckSeal, RefreshLegacy, AnchorLegacy]
  }

  /** `anchored` says whether the last refresh of the anchor succeeds. */
  function CommsPart(c: Choice, anchored: bool): seq<Event> {
    GenesisPart(c) + RevocationPart(c, anchored) + [Finish]
  }

  function GenesisPart(c: Choice): seq<Event> { [CheckEmpty, CommitGenesis(c.createdAt, true), ContinueAnchored] }

  function RevocationPart(c: Choice, anchored: bool): seq<Event> {
    [CheckAuth, RevokeAuth(c.count, c.securityEpoch), RecordRevocation(anchored)]
  }

  function CutEvents(chain: seq<CommsEvent>): seq<CommsEvent> {
    if chain == [] then [] else
      var last := chain[|chain| - 1];
      CutEvents(chain[..|chain| - 1]) + if last == OtherEvent then [] else [last]
  }

  lemma CutEventsOneMore(chain: seq<CommsEvent>, e: CommsEvent)
    ensures CutEvents(chain + [e]) == CutEvents(chain) + if e == OtherEvent then [] else [e]
  {
    assert (chain + [e])[..|chain|] == chain;
  }

  /** All that a cutover leaves behind, apart from the anchor and what others appended. */
  datatype Remains = Remains(phase: Phase, cut: Option<nat>, digest: Option<nat>, lineage: seq<LineageRow>,
                             events: seq<CommsEvent>, seal: Option<Seal>, legacyAnchor: Option<Seal>, sealsMade: nat, authRevoked: bool)

  function Left(s: State): Remains {
    Remains(s.phase, s.cut, s.digest, s.lineage, CutEvents(s.chain), s.seal, s.legacyAnchor, s.sealsMade, s.authRevoked)
  }

  ghost predicate EventsAre(s: State) {
    && (Rank(s.phase) < Rank(Genesis) ==> CutEvents(s.chain) == [])
    && (Rank(s.phase) >= Rank(Genesis) ==> |s.lineage| == 1 && s.cut.Some?)
    && (Rank(Genesis) <= Rank(s.phase) < Rank(AuthRevoked) ==> CutEvents(s.chain) == [GenesisOf(s)])
    && (Rank(s.phase) >= Rank(AuthRevoked) ==> exists n, k :: CutEvents(s.chain) == [GenesisOf(s), RevokedEvent(s.cut.value, n, k)])
  }

  lemma GenesisKeepsEvents(s: State, e: Event)
    requires Inv(s) && EventsAre(s) && e.CommitGenesis? && Enabled(s, e)
    ensures EventsAre(Apply(s, e))
  {
    ChainGrows(s, e);
    CutEventsOneMore(s.chain, Added(s, e)[0]);
  }

  lemma RevocationKeepsEvents(s: State, e: Event)
    requires Inv(s) && EventsAre(s) && e.RecordRevocation? && Enabled(s, e)
    ensures EventsAre(Apply(s, e))
  {
    var s' := Apply(s, e);
    var added := RevokedEvent(s.cut.value, s.place.count, s.place.securityEpoch);
    assert s'.chain == s.chain + [added] && s'.phase == AuthRevoked && s'.lineage == s.lineage && s'.cut == s.cut;
    CutEventsOneMore(s.chain, added);
    assert CutEvents(s'.chain) == [GenesisOf(s'), added];
  }

  lemma OtherKeepsEvents(s: State, e: Event)
    requires Inv(s) && EventsAre(s) && e.AppendOther?
    ensures EventsAre(Apply(s, e))
  {
    CutEventsOneMore(s.chain, OtherEvent);
    assert CutEvents(Apply(s, e).chain) == CutEvents(s.chain);
  }

  lemma StepKeepsEvents(s: State, e: Event)
    requires Inv(s) && EventsAre(s)
    ensures EventsAre(Apply(s, e))
  {
    if Enabled(s, e) {
      if e.CommitGenesis? { GenesisKeepsEvents(s, e); }
      else if e.RecordRevocation? { RevocationKeepsEvents(s, e); }
      else if e.AppendOther? { OtherKeepsEvents(s, e); }
    }
  }

  lemma {:induction false} RunKeepsEvents(events: seq<Event>)
    ensures EventsAre(Run(Init(), events))
  {
    if events != [] {
      LastEvent(Init(), events);
      var before := events[..|events| - 1];
      RunKeepsEvents(before);
      RunKeeps(Init(), before);
      StepKeepsEvents(Run(Init(), before), events[|events| - 1]);
    }
  }

  function StraightEnd(c: Choice): Remains {
    var row := Expected(c.cut, c.seal, c.createdAt);
    Remains(Complete, Some(c.cut), Some(c.seal.digest), [LineageRow(row, row)],
            [CutoverEvent(c.cut, row, row), RevokedEvent(c.cut, c.count, c.securityEpoch)], Some(c.seal), Some(c.seal), 1, true)
  }

  lemma {:induction false} RunFirst(s: State, e: Event, rest: seq<Event>)
    ensures Run(s, [e] + rest) == Run(Apply(s, e), rest)
    decreases |rest|
  {
    if rest == [] {
      assert [e] + rest == [e] && Run(s, []) == s && [e][..0] == [];
      LastEvent(s, [e]);
    } else {
      assert ([e] + rest)[..|rest|] == [e] + rest[..|rest| - 1];
      RunFirst(s, e, rest[..|rest| - 1]);
      LastEvent(s, [e] + rest);
      LastEvent(Apply(s, e), rest);
    }
  }

  lemma {:induction false} RunJoins(s: State, a: seq<Event>, b: seq<Event>)
    ensures Run(s, a + b) == Run(Run(s, a), b)
    decreases |b|
  {
    if b == [] {
      assert a + b == a;
    } else {
      assert (a + b)[..|a + b| - 1] == a + b[..|b| - 1];
      RunJoins(s, a, b[..|b| - 1]);
      LastEvent(s, a + b);
      LastEvent(Run(s, a), b);
    }
  }

  function Handed(c: Choice): State {
    Init().(phase := LegacyAnchored, cut := Some(c.cut), digest := Some(c.seal.digest), seal := Some(c.seal), sealsMade := 1,
            legacyAnchor := Some(c.seal))
  }

  lemma RunThree(s: State, a: Event, b: Event, c: Event)
    ensures Run(s, [a, b, c]) == Apply(Apply(Apply(s, a), b), c)
  {
    RunFirst(s, a, [b, c]);
    RunFirst(Apply(s, a), b, [c]);
    RunFirst(Apply(Apply(s, a), b), c, []);
    assert [a, b, c] == [a] + [b, c] && [b, c] == [b] + [c] && [c] == [c] + [];
  }

  lemma LegacyPartRuns(c: Choice)
    ensures Run(Init(), LegacyPart(c)) == Handed(c)
  {
    var first, second := [Enter(c.cut), CloseAndDrain, VerifyLegacy], [SealLegacy(c.seal), ReadSeal, RecordSeal];
    RunThree(Init(), Enter(c.cut), CloseAndDrain, VerifyLegacy);
    RunThree(Init().(phase := Verified, cut := Some(c.cut)), SealLegacy(c.seal), ReadSeal, RecordSeal);
    RunJoins(Init(), first, second);
    RunThree(Handed(c).(phase := Sealed, legacyAnchor := None), CheckSeal, RefreshLegacy, AnchorLegacy);
    RunJoins(Init(), first + second, [CheckSeal, RefreshLegacy, AnchorLegacy]);
  }

  function Completed(c: Choice, anchored: bool): State {
    var row := Expected(c.cut, c.seal, c.createdAt);
    Handed(c).(phase := Complete, lineage := [LineageRow(row, row)],
               chain := [CutoverEvent(c.cut, row, row), RevokedEvent(c.cut, c.count, c.securityEpoch)],
               anchor := if anchored then 2 else 1, authRevoked := true)
  }

  /** The genesis is committed, after `others`, and anchored. */
  function Begun(c: Choice, others: seq<CommsEvent>): State {
    var row := Expected(c.cut, c.seal, c.createdAt);
    Handed(c).(phase := CommsAnchored, lineage := [LineageRow(row, row)], chain := others + [CutoverEvent(c.cut, row, row)],
               anchor := |others| + 1)
  }

  lemma GenesisPartRuns(c: Choice)
    ensures Run(Handed(c), GenesisPart(c)) == Begun(c, [])
  {
    RunThree(Handed(c), CheckEmpty, CommitGenesis(c.createdAt, true), ContinueAnchored);
    assert Handed(c).chain == [];
  }

  lemma RevocationRuns(c: Choice, anchored: bool)
    ensures Run(Begun(c, []), RevocationPart(c, anchored)) == Completed(c, anchored).(phase := AuthRevoked)
  {
    RunThree(Begun(c, []), CheckAuth, RevokeAuth(c.count, c.securityEpoch), RecordRevocation(anchored));
    assert Begun(c, []).chain + [RevokedEvent(c.cut, c.count, c.securityEpoch)] == Completed(c, anchored).chain;
  }

  lemma CommsPartRuns(c: Choice, anchored: bool)
    ensures Run(Handed(c), CommsPart(c, anchored)) == Completed(c, anchored)
  {
    GenesisPartRuns(c);
    RevocationRuns(c, anchored);
    RunJoins(Handed(c), GenesisPart(c), RevocationPart(c, anchored));
    RunFirst(Completed(c, anchored).(phase := AuthRevoked), Finish, []);
    assert [Finish] + [] == [Finish];
    RunJoins(Handed(c), GenesisPart(c) + RevocationPart(c, anchored), [Finish]);
  }

  lemma StraightCompletes(c: Choice)
    ensures Left(Run(Init(), Straight(c))) == StraightEnd(c)
  {
    LegacyPartRuns(c);
    CommsPartRuns(c, true);
    RunJoins(Init(), LegacyPart(c), CommsPart(c, true));
    var chain := Completed(c, true).chain;
    CutEventsOneMore([], chain[0]);
    CutEventsOneMore([chain[0]], chain[1]);
    assert chain == [chain[0]] + [chain[1]] && [chain[0]] == [] + [chain[0]];
  }

  /** Under any schedule of crashes and reruns, a cutover that completes leaves what some uninterrupted
      one leaves: they differ in the minted ref, the time, the counts reported and the seal's content only. */
  lemma CrashesLeaveNoTrace(events: seq<Event>) returns (c: Choice)
    requires Untampered(events) && Run(Init(), events).phase == Complete
    ensures Left(Run(Init(), events)) == Left(Run(Init(), Straight(c)))
  {
    var s := Run(Init(), events);
    RunKeeps(Init(), events);
    RunKeepsSeal(events);
    RunKeepsEvents(events);
    var n, k :| CutEvents(s.chain) == [GenesisOf(s), RevokedEvent(s.cut.value, n, k)];
    c := Choice(s.cut.value, s.seal.value, s.lineage[0].columns.createdAt, n, k);
    StraightCompletes(c);
    assert s.lineage == [s.lineage[0]];
  }

  // -- resuming ----------------------------------------------------------------------------------------

  /** The event the next run performs from a stored state, when the legacy side cooperates. */
  function Next(s: State, c: Choice): Event {
    match s.phase
    case NotStarted => Enter(c.cut)
    case Entered => CloseAndDrain
    case Drained => VerifyLegacy
    case Verified => if s.place.SealRead? then RecordSeal else if s.seal.None? then SealLegacy(c.seal) else ReadSeal
    case Sealed => if s.place == AfterRefresh then AnchorLegacy else if s.place == SealChecked then RefreshLegacy else CheckSeal
    case LegacyAnchored => if s.place.EmptyChecked? then CommitGenesis(c.createdAt, true) else CheckEmpty
    case Genesis => if s.place == AfterGenesis then ContinueAnchored else if s.place == LineageChecked then Reanchor(true) else CheckGenesis
    case CommsAnchored =>
      if s.place.AfterRevoke? then RecordRevocation(true)
      else if s.place == AuthChecked then RevokeAuth(c.count, c.securityEpoch) else CheckAuth
    case AuthRevoked => Finish
    case Complete => Finish
  }

  /** The steps left: three at most in each phase. */
  function Distance(s: State): nat {
    3 * (9 - Rank(s.phase)) +
    match s.place
    case Resting => if s.phase == Verified && s.seal.Some? then 1 else 2
    case SealRead(_) => 0
    case SealChecked => 1
    case EmptyChecked(_) => 1
    case LineageChecked => 1
    case AuthChecked => 1
    case _ => 0
  }

  ghost predicate CanResume(s: State) {
    Inv(s) && OneSeal(s) && (Rank(s.phase) < Rank(Genesis) ==> s.chain == [] || s.place.EmptyChecked?)
  }

  lemma NextShortens(s: State, c: Choice)
    requires CanResume(s) && s.phase != Complete
    ensures Enabled(s, Next(s, c)) && Distance(Apply(s, Next(s, c))) < Distance(s)
  {
  }

  lemma NextAppendsNothingElse(s: State, c: Choice)
    requires CanResume(s)
    ensures var s' := Apply(s, Next(s, c)); Rank(s'.phase) < Rank(Genesis) ==> s'.chain == [] || s'.place.EmptyChecked?
  {
  }

  lemma NextAdvances(s: State, c: Choice)
    requires CanResume(s) && s.phase != Complete
    ensures CanResume(Apply(s, Next(s, c))) && Distance(Apply(s, Next(s, c))) < Distance(s)
  {
    StepKeeps(s, Next(s, c));
    StepKeepsSeal(s, Next(s, c));
    NextShortens(s, c);
    NextAppendsNothingElse(s, c);
  }

  lemma {:induction false} FinishFrom(s: State, c: Choice) returns (more: seq<Event>)
    requires CanResume(s)
    ensures Untampered(more) && Run(s, more).phase == Complete
    decreases Distance(s)
  {
    if s.phase == Complete {
      more := [];
    } else {
      NextAdvances(s, c);
      var rest := FinishFrom(Apply(s, Next(s, c)), c);
      RunFirst(s, Next(s, c), rest);
      more := [Next(s, c)] + rest;
    }
  }

  /** However it was interrupted, the cutover can be completed, as long as the run still going found the
      comms chain empty or the next one will. */
  lemma AlwaysResumable(events: seq<Event>, c: Choice) returns (more: seq<Event>)
    requires Untampered(events)
    requires var s := Run(Init(), events); Rank(s.phase) < Rank(Genesis) ==> s.chain == [] || s.place.EmptyChecked?
    ensures Untampered(more) && Run(Run(Init(), events), more).phase == Complete
  {
    RunKeeps(Init(), events);
    RunKeepsSeal(events);
    more := FinishFrom(Run(Init(), events), c);
  }

  lemma StillBlocked(s: State, e: Event)
    requires s.chain != [] && Rank(s.phase) <= Rank(LegacyAnchored) && !s.place.EmptyChecked?
    ensures var s' := Apply(s, e); s'.chain != [] && Rank(s'.phase) <= Rank(LegacyAnchored) && !s'.place.EmptyChecked?
  {
  }

  /** Otherwise it never gets past LEGACY_ANCHORED. */
  lemma {:induction false} OccupiedChainBlocks(s: State, more: seq<Event>)
    requires s.chain != [] && Rank(s.phase) <= Rank(LegacyAnchored) && !s.place.EmptyChecked?
    ensures var s' := Run(s, more); s'.chain != [] && Rank(s'.phase) <= Rank(LegacyAnchored) && !s'.place.EmptyChecked?
  {
    if more != [] {
      OccupiedChainBlocks(s, more[..|more| - 1]);
      LastEvent(s, more);
      StillBlocked(Run(s, more[..|more| - 1]), more[|more| - 1]);
    }
  }

  // -- the first event -----------------------------------------------------------------------------------

  /** Something was appended to the comms chain by others after a run had found it empty and before that
      run committed its genesis. */
  ghost predicate Intruded(s: State, events: seq<Event>) {
    events != [] &&
    var before, last := events[..|events| - 1], events[|events| - 1];
    Intruded(s, before) || (last.AppendOther? && Run(s, before).place.EmptyChecked?)
  }

  ghost predicate FirstHolds(s: State, intruded: bool) {
    && (Rank(s.phase) < Rank(Genesis) && intruded ==> s.chain != [])
    && (s.place.EmptyChecked? && !intruded ==> s.chain == [])
    && (Rank(s.phase) >= Rank(Genesis) ==> s.chain != [] && (s.chain[0].CutoverEvent? <==> !intruded))
  }

  lemma StepKeepsFirst(s: State, e: Event, intruded: bool)
    requires Inv(s) && FirstHolds(s, intruded) && (s.chain != [] && Rank(s.phase) < Rank(Genesis) ==> !s.chain[0].CutoverEvent?)
    ensures FirstHolds(Apply(s, e), intruded || (e.AppendOther? && s.place.EmptyChecked?))
  {
    ChainGrows(s, e);
  }

  lemma {:induction false} CountedIsThere(chain: seq<CommsEvent>, i: nat)
    requires i < |chain| && chain[i].CutoverEvent?
    ensures Count(chain, true) > 0
  {
    if i < |chain| - 1 { CountedIsThere(chain[..|chain| - 1], i); }
  }

  lemma {:induction false} RunKeepsFirst(events: seq<Event>)
    ensures FirstHolds(Run(Init(), events), Intruded(Init(), events))
  {
    if events != [] {
      LastEvent(Init(), events);
      var before := events[..|events| - 1];
      var s := Run(Init(), before);
      RunKeepsFirst(before);
      RunKeeps(Init(), before);
      if s.chain != [] && s.chain[0].CutoverEvent? { CountedIsThere(s.chain, 0); }
      StepKeepsFirst(s, events[|events| - 1], Intruded(Init(), before));
    }
  }

  /** Once committed, the cutover event is the comms chain's first exactly when nobody appended between the
      emptiness test and the commit. */
  lemma GenesisIsFirst(events: seq<Event>)
    requires Rank(Run(Init(), events).phase) >= Rank(Genesis)
    ensures var s := Run(Init(), events);
      GenesisHolds(s) && (s.chain[0] == GenesisOf(s) <==> !Intruded(Init(), events))
  {
    var s := Run(Init(), events);
    RunKeepsFirst(events);
    RunKeeps(Init(), events);
    if s.chain[0].CutoverEvent? { OneGenesis(s.chain, 0, GenesisOf(s)); }
  }

  lemma {:induction false} OneGenesis(chain: seq<CommsEvent>, i: nat, genesis: CommsEvent)
    requires i < |chain| && chain[i].CutoverEvent? && genesis.CutoverEvent? && genesis in chain && Count(chain, true) == 1
    ensures chain[i] == genesis
  {
    var j :| 0 <= j < |chain| && chain[j] == genesis;
    var last := |chain| - 1;
    if i < last && j < last {
      CountedIsThere(chain[..last], i);
      OneGenesis(chain[..last], i, genesis);
    } else if i < last {
      CountedIsThere(chain[..last], i);
    } else if j < last {
      CountedIsThere(chain[..last], j);
    }
  }

  lemma IntrudedGenesis(c: Choice) returns (events: seq<Event>)
    ensures Untampered(events) && Run(Handed(c), events) == Begun(c, [OtherEvent]).(phase := Genesis, place := AfterGenesis)
  {
    events := [CheckEmpty, AppendOther(true), CommitGenesis(c.createdAt, true)];
    RunThree(Handed(c), CheckEmpty, AppendOther(true), CommitGenesis(c.createdAt, true));
    assert [] + [OtherEvent] == [OtherEvent];
  }

  /** It does happen, and the cutover completes all the same. */
  lemma IntrudedCompletes() returns (events: seq<Event>)
    ensures var s := Run(Init(), events); Untampered(events) && s.phase == Complete && s.chain != [] && s.chain[0] == OtherEvent
  {
    var c := Choice(0, Seal(0, 0, 0, 0), 0, 0, 0);
    LegacyPartRuns(c);
    var second := IntrudedGenesis(c);
    RunJoins(Init(), LegacyPart(c), second);
    events := LegacyPart(c) + second;
    var more := AlwaysResumable(events, c);
    FirstStays(Run(Init(), events), more);
    RunJoins(Init(), events, more);
    events := events + more;
  }

  lemma {:induction false} FirstStays(s: State, more: seq<Event>)
    requires s.chain != []
    ensures Run(s, more).chain != [] && Run(s, more).chain[0] == s.chain[0]
  {
    if more != [] {
      LastEvent(s, more);
      FirstStays(s, more[..|more| - 1]);
      ChainGrows(Run(s, more[..|more| - 1]), more[|more| - 1]);
    }
  }

  // -- a seal replaced after the last check ----------------------------------------------------------------

  lemma SealReplaced(c: Choice, other: Seal) returns (events: seq<Event>)
    ensures Run(Init(), events) == Begun(c, []).(place := AuthChecked, seal := Some(other))
  {
    LegacyPartRuns(c);
    GenesisPartRuns(c);
    RunJoins(Init(), LegacyPart(c), GenesisPart(c));
    var last := [CheckAuth] + ([Tamper(Some(other))] + []);
    RunFirst(Begun(c, []), CheckAuth, [Tamper(Some(other))] + []);
    RunFirst(Apply(Begun(c, []), CheckAuth), Tamper(Some(other)), []);
    events := LegacyPart(c) + GenesisPart(c) + last;
    RunJoins(Init(), LegacyPart(c) + GenesisPart(c), last);
  }

  /** It does happen: the seal is replaced after it was checked last and before the clients are revoked. */
  lemma CompletesWithADifferingSeal() returns (events: seq<Event>)
    ensures var s := Run(Init(), events); s.phase == Complete && SealDiffers(s)
  {
    events := SealReplaced(Choice(0, Seal(0, 0, 0, 0), 0, 0, 0), Seal(0, 0, 1, 0));
    RunKeeps(Init(), events);
    var more := PastTheChecksCompletes(Run(Init(), events));
    RunJoins(Init(), events, more);
    DifferingStays(Run(Init(), events), more);
    events := events + more;
  }

  lemma StepDiffers(s: State, e: Event)
    requires Inv(s) && SealDiffers(s) && !e.Tamper?
    ensures SealDiffers(Apply(s, e))
  {
    IdentityStays(s, e);
  }

  /** Nothing the cutover does makes the seals agree again. */
  lemma {:induction false} DifferingStays(s: State, more: seq<Event>)
    requires Inv(s) && SealDiffers(s) && Untampered(more)
    ensures SealDiffers(Run(s, more))
  {
    if more != [] {
      LastEvent(s, more);
      DifferingStays(s, more[..|more| - 1]);
      RunKeeps(s, more[..|more| - 1]);
      StepDiffers(Run(s, more[..|more| - 1]), more[|more| - 1]);
    }
  }

  // -- what was revoked ----------------------------------------------------------------------------------

  /** The numbers the last revocation of the legacy clients reported. */
  function LastRevoked(s: State, events: seq<Event>): Option<(nat, nat)> {
    if events == [] then None else
      var before, e := events[..|events| - 1], events[|events| - 1];
      if e.RevokeAuth? && Enabled(Run(s, before), e) then Some((e.count, e.securityEpoch)) else LastRevoked(s, before)
  }

  ghost predicate RevokedHolds(s: State, last: Option<(nat, nat)>) {
    && (s.place.AfterRevoke? ==> last == Some((s.place.count, s.place.securityEpoch)))
    && (Rank(s.phase) >= Rank(AuthRevoked) ==> s.cut.Some? && last.Some? && RevokedEvent(s.cut.value, last.value.0, last.value.1) in s.chain)
  }

  lemma StepKeepsRevoked(s: State, e: Event, last: Option<(nat, nat)>)
    requires Inv(s) && RevokedHolds(s, last)
    ensures RevokedHolds(Apply(s, e), if e.RevokeAuth? && Enabled(s, e) then Some((e.count, e.securityEpoch)) else last)
  {
    ChainGrows(s, e);
    if e.RecordRevocation? && Enabled(s, e) { assert Added(s, e)[0] in Apply(s, e).chain; }
  }

  lemma {:induction false} RunKeepsRevoked(events: seq<Event>)
    ensures RevokedHolds(Run(Init(), events), LastRevoked(Init(), events))
  {
    if events != [] {
      LastEvent(Init(), events);
      var before := events[..|events| - 1];
      RunKeepsRevoked(before);
      RunKeeps(Init(), before);
      StepKeepsRevoked(Run(Init(), before), events[|events| - 1], LastRevoked(Init(), before));
    }
  }

  /** The one revocation event carries the cut's ref and the numbers the last revocation reported. */
  lemma RevocationIsRecorded(events: seq<Event>)
    requires Rank(Run(Init(), events).phase) >= Rank(AuthRevoked)
    ensures var s, last := Run(Init(), events), LastRevoked(Init(), events);
      && Count(s.chain, false) == 1 && s.cut.Some? && last.Some?
      && RevokedEvent(s.cut.value, last.value.0, last.value.1) in s.chain
  {
    RunKeepsRevoked(events);
    RunKeeps(Init(), events);
  }

  // -- the anchor at the end ---------------------------------------------------------------------------

  predicate NoOthers(events: seq<Event>) { forall e :: e in events ==> !e.AppendOther? }

  lemma AnchorStays(s: State, e: Event)
    requires Rank(s.phase) >= Rank(AuthRevoked) && !e.AppendOther?
    ensures var s' := Apply(s, e); Rank(s'.phase) >= Rank(AuthRevoked) && s'.chain == s.chain && s'.anchor == s.anchor
  {
  }

  /** Once the revocation is committed only its own anchor refresh decides whether the head stays anchored. */
  lemma {:induction false} RevocationDecidesTheAnchor(s: State, e: Event, more: seq<Event>)
    requires Inv(s) && e.RecordRevocation? && Enabled(s, e) && NoOthers(more)
    ensures var s' := Run(Apply(s, e), more);
      Rank(s'.phase) >= Rank(AuthRevoked) && s'.chain == Apply(s, e).chain && (s'.anchor == |s'.chain| <==> e.anchored)
  {
    if more != [] {
      LastEvent(Apply(s, e), more);
      RevocationDecidesTheAnchor(s, e, more[..|more| - 1]);
      AnchorStays(Run(Apply(s, e), more[..|more| - 1]), more[|more| - 1]);
    }
  }

  /** So COMPLETE does not imply an anchored head. */
  lemma CompleteUnanchored() returns (events: seq<Event>)
    ensures Untampered(events) && NoOthers(events)
    ensures var s := Run(Init(), events); s.phase == Complete && s.anchor < |s.chain|
  {
    var c := Choice(0, Seal(0, 0, 0, 0), 0, 0, 0);
    LegacyPartRuns(c);
    CommsPartRuns(c, false);
    RunJoins(Init(), LegacyPart(c), CommsPart(c, false));
    events := LegacyPart(c) + CommsPart(c, false);
  }
}
