/** What every sequence of calls keeps. */
module StagedMediaSafety {
  import opened Base64
  import opened StagedMediaModel

  /** The pieces of one upload: never more than declared, never two from one request. */
  ghost predicate PiecesSound(s: State, ref: Ref) {
    && ref in s.pieces && ref in s.declared && ref in s.obtained
    && |Joined(s.pieces[ref])| <= s.declared[ref].size
    && (forall i, j :: 0 <= i < j < |s.pieces[ref]| ==> s.pieces[ref][i].from != s.pieces[ref][j].from)
    && (forall a, b :: a in s.obtained[ref] && b in s.obtained[ref] ==> a == b)
  }

  predicate Covered(replies: map<Caller, StoredReply>, c: Caller, until: real) {
    c in replies && replies[c].expires >= until
  }

  /** A live upload holds the concatenation of its pieces, and the reply to each piece outlives it. */
  ghost predicate UploadSound(s: State, ref: Ref) {
    && ref in s.uploads && ref in s.declared && ref in s.pieces && ref in s.obtained && ref !in s.taken
    && s.uploads[ref] == s.declared[ref].(data := Joined(s.pieces[ref]), nextSeq := |s.pieces[ref]|)
    && s.uploads[ref].expires <= s.clock + Ttl && s.obtained[ref] == {}
    && forall i :: 0 <= i < |s.pieces[ref]| ==> Covered(s.replies, s.pieces[ref][i].from, s.uploads[ref].expires)
  }

  /** What was given out is the whole declared file. */
  ghost predicate Whole(s: State, ref: Ref, data: Bytes) {
    && ref in s.declared && ref in s.pieces && data == Joined(s.pieces[ref])
    && |data| == s.declared[ref].size && s.declared[ref].sha == DigestOf(data)
  }

  /** A taken file is whole and one caller has it. */
  ghost predicate TakenSound(s: State, ref: Ref) {
    && ref in s.taken && ref !in s.uploads && ref in s.obtained
    && var t := s.taken[ref];
       && Whole(s, ref, t.data) && t.client == s.declared[ref].client && t.mime == s.declared[ref].mime
       && s.obtained[ref] == {Caller(t.client, t.request)}
  }

  ghost predicate Inv(s: State) {
    && (forall ref :: ref in s.declared <==> ref in s.pieces)
    && (forall ref :: ref in s.declared ==> PiecesSound(s, ref))
    && (forall ref :: ref in s.uploads ==> UploadSound(s, ref))
    && (forall ref :: ref in s.taken ==> TakenSound(s, ref))
  }

  lemma SweptKeeps(s: State, now: real)
    requires Inv(s) && s.clock <= now
    ensures Inv(Swept(s, now))
  {
    var s' := Swept(s, now);
    forall ref | ref in s'.declared ensures PiecesSound(s', ref) { assert PiecesSound(s, ref); }
    forall ref | ref in s'.uploads ensures UploadSound(s', ref) {
      assert UploadSound(s, ref);
      forall i | 0 <= i < |s'.pieces[ref]| ensures Covered(s'.replies, s'.pieces[ref][i].from, s'.uploads[ref].expires) {
        assert Covered(s.replies, s.pieces[ref][i].from, s.uploads[ref].expires);
      }
    }
    forall ref | ref in s'.taken ensures TakenSound(s', ref) { assert TakenSound(s, ref); }
  }

  /** Time passes, or a reply is stored that lives at least as long as every upload begun before. */
  lemma ReplyKeeps(s: State, now: real, caller: Caller, reply: Reply)
    requires Inv(s) && s.clock <= now
    ensures Inv(Answered(s, caller, now, reply))
  {
    var s' := Answered(s, caller, now, reply);
    forall ref | ref in s'.declared ensures PiecesSound(s', ref) { assert PiecesSound(s, ref); }
    forall ref | ref in s'.uploads ensures UploadSound(s', ref) {
      assert UploadSound(s, ref);
      forall i | 0 <= i < |s'.pieces[ref]| ensures Covered(s'.replies, s'.pieces[ref][i].from, s'.uploads[ref].expires) {
        assert Covered(s.replies, s.pieces[ref][i].from, s.uploads[ref].expires);
      }
    }
    forall ref | ref in s'.taken ensures TakenSound(s', ref) { assert TakenSound(s, ref); }
  }

  lemma BeginKeeps(s: State, client: nat, call: Call, now: real, ref: Ref)
    requires Inv(s) && call.BeginCall? && s.clock <= now && ref !in s.declared
    ensures Inv(DoBegin(s, client, call, now, ref).0)
  {
    var s' := DoBegin(s, client, call, now, ref).0;
    if call.sha.Some? && s' != s {
      forall r | r in s'.declared ensures PiecesSound(s', r) { if r != ref { assert PiecesSound(s, r); } }
      forall r | r in s'.uploads ensures UploadSound(s', r) {
        if r != ref { assert UploadSound(s, r); } else { assert r in s.taken ==> TakenSound(s, r); }
      }
      forall r | r in s'.taken ensures TakenSound(s', r) { assert TakenSound(s, r); }
    } else {
      LaterKeeps(s, s'.clock);
    }
  }

  lemma LaterKeeps(s: State, now: real)
    requires Inv(s) && s.clock <= now
    ensures Inv(s.(clock := now))
  {
    var s' := s.(clock := now);
    forall r | r in s'.declared ensures PiecesSound(s', r) { assert PiecesSound(s, r); }
    forall r | r in s'.uploads ensures UploadSound(s', r) { assert UploadSound(s, r); }
    forall r | r in s'.taken ensures TakenSound(s', r) { assert TakenSound(s, r); }
  }

  /** The accepted chunk together with its stored reply; before the reply is stored the caller had none. */
  lemma ChunkKeeps(s: State, caller: Caller, call: Call, now: real)
    requires Inv(s) && call.ChunkCall? && s.clock <= now && caller !in s.replies && DoChunk(s, caller, call).1.Ok?
    ensures Inv(Answered(DoChunk(s, caller, call).0, caller, now, DoChunk(s, caller, call).1.value))
  {
    var s' := Answered(DoChunk(s, caller, call).0, caller, now, DoChunk(s, caller, call).1.value);
    var ref := call.ref;
    assert UploadSound(s, ref) && PiecesSound(s, ref);
    var piece := Piece(caller, DecodeB64(call.encoded, ChunkMax).value);
    JoinedOneMore(s.pieces[ref], piece);
    assert s'.pieces[ref] == s.pieces[ref] + [piece];
    ChunkOnItsUpload(s, s', ref, piece);
    ChunkElsewhere(s, s', ref);
  }

  lemma ChunkElsewhere(s: State, s': State, ref: Ref)
    requires Inv(s) && UploadSound(s', ref) && PiecesSound(s', ref) && ref in s.uploads
    requires s'.declared == s.declared && s'.obtained == s.obtained && s'.taken == s.taken && s.clock <= s'.clock
    requires s'.pieces == s.pieces[ref := s'.pieces[ref]] && s'.uploads == s.uploads[ref := s'.uploads[ref]]
    requires forall c :: c in s.replies ==> c in s'.replies && s'.replies[c] == s.replies[c]
    ensures Inv(s')
  {
    assert UploadSound(s, ref);
    forall q | q in s'.declared ensures PiecesSound(s', q) { if q != ref { assert PiecesSound(s, q); } }
    forall q | q in s'.uploads && q != ref ensures UploadSound(s', q) { SameUpload(s, s', q); }
    forall q | q in s'.taken ensures TakenSound(s', q) { assert TakenSound(s, q); }
  }

  lemma SameUpload(s: State, s': State, q: Ref)
    requires UploadSound(s, q) && q in s'.uploads && s'.uploads[q] == s.uploads[q] && q in s'.pieces && s'.pieces[q] == s.pieces[q]
    requires s'.declared == s.declared && s'.obtained == s.obtained && s'.taken == s.taken && s.clock <= s'.clock
    requires forall c :: c in s.replies ==> c in s'.replies && s'.replies[c] == s.replies[c]
    ensures UploadSound(s', q)
  {
    forall i | 0 <= i < |s'.pieces[q]| ensures Covered(s'.replies, s'.pieces[q][i].from, s'.uploads[q].expires) {
      assert Covered(s.replies, s.pieces[q][i].from, s.uploads[q].expires);
    }
  }

  lemma ChunkOnItsUpload(s: State, s': State, ref: Ref, piece: Piece)
    requires UploadSound(s, ref) && PiecesSound(s, ref) && piece.from !in s.replies
    requires ref in s'.uploads && ref in s'.pieces && s'.pieces[ref] == s.pieces[ref] + [piece]
    requires s'.declared == s.declared && s'.obtained == s.obtained && s'.taken == s.taken && s.clock <= s'.clock
    requires Joined(s.pieces[ref] + [piece]) == Joined(s.pieces[ref]) + piece.data
    requires |s.uploads[ref].data + piece.data| <= s.uploads[ref].size
    requires s'.uploads[ref] == s.uploads[ref].(data := s.uploads[ref].data + piece.data, nextSeq := s.uploads[ref].nextSeq + 1)
    requires piece.from in s'.replies && s'.replies[piece.from].expires == s'.clock + Ttl
    requires forall c :: c in s.replies ==> c in s'.replies && s'.replies[c] == s.replies[c]
    ensures UploadSound(s', ref) && PiecesSound(s', ref)
  {
    forall i | 0 <= i < |s'.pieces[ref]| ensures Covered(s'.replies, s'.pieces[ref][i].from, s'.uploads[ref].expires) {
      if i < |s.pieces[ref]| { assert Covered(s.replies, s.pieces[ref][i].from, s.uploads[ref].expires); }
    }
    forall i | 0 <= i < |s.pieces[ref]| ensures s.pieces[ref][i].from != piece.from {
      assert Covered(s.replies, s.pieces[ref][i].from, s.uploads[ref].expires);
    }
  }

  lemma BegunKeeps(s: State, e: Event)
    requires Inv(s) && e.Stage? && e.call.BeginCall? && s.clock <= e.times.third <= e.times.fourth && e.minted !in s.declared
    ensures Inv(Replied(DoBegin(s, e.caller.client, e.call, e.times.third, e.minted), e.caller, e.times.fourth).0)
  {
    var done := DoBegin(s, e.caller.client, e.call, e.times.third, e.minted);
    BeginKeeps(s, e.caller.client, e.call, e.times.third, e.minted);
    assert done.0.clock <= e.times.fourth;
    if done.1.Ok? { ReplyKeeps(done.0, e.times.fourth, e.caller, done.1.value); }
  }

  lemma ChunkedKeeps(s: State, e: Event)
    requires Inv(s) && e.Stage? && e.call.ChunkCall? && s.clock <= e.times.fourth && e.caller !in s.replies
    ensures Inv(Replied(DoChunk(s, e.caller, e.call), e.caller, e.times.fourth).0)
  {
    if DoChunk(s, e.caller, e.call).1.Ok? {
      ChunkKeeps(s, e.caller, e.call, e.times.fourth);
    } else {
      assert DoChunk(s, e.caller, e.call).0 == s;
    }
  }

  lemma StageAnewKeeps(s: State, e: Event)
    requires Inv(s) && e.Stage? && s.clock <= e.times.third <= e.times.fourth && e.minted !in s.declared && e.caller !in s.replies
    ensures Inv(StageAnew(s, e).0)
  {
    if e.call.BeginCall? { BegunKeeps(s, e); } else { ChunkedKeeps(s, e); }
  }

  lemma StageKeeps(s: State, e: Event)
    requires Inv(s) && e.Stage? && Enabled(s, e)
    ensures Inv(DoStage(s, e).0)
  {
    var s1 := Swept(s, e.times.first);
    SweptKeeps(s, e.times.first);
    SweptKeeps(s1, e.times.second);
    if e.caller !in s1.replies { StageAnewKeeps(Swept(s1, e.times.second), e); }
  }

  lemma RemoveKeeps(s: State, ref: Ref)
    requires Inv(s) && ref in s.uploads
    ensures Inv(s.(uploads := s.uploads - {ref}))
  {
    var s1 := s.(uploads := s.uploads - {ref});
    forall q | q in s1.declared ensures PiecesSound(s1, q) { assert PiecesSound(s, q); }
    forall q | q in s1.uploads ensures UploadSound(s1, q) { assert UploadSound(s, q); }
    forall q | q in s1.taken ensures TakenSound(s1, q) { assert TakenSound(s, q); }
  }

  /** A whole file goes to the request that asked first. */
  lemma HandOverKeeps(s: State, ref: Ref, t: Taken)
    requires Inv(s) && ref in s.declared && ref !in s.uploads && ref !in s.taken
    requires ref in s.obtained && s.obtained[ref] == {} && Whole(s, ref, t.data)
    requires t.client == s.declared[ref].client && t.mime == s.declared[ref].mime
    ensures Inv(Give(s.(taken := s.taken[ref := t]), ref, Caller(t.client, t.request)))
  {
    var s' := Give(s.(taken := s.taken[ref := t]), ref, Caller(t.client, t.request));
    forall q | q in s'.declared ensures PiecesSound(s', q) { assert PiecesSound(s, q); }
    forall q | q in s'.uploads ensures UploadSound(s', q) { assert UploadSound(s, q) && q != ref; }
    assert TakenSound(s', ref);
    forall q | q in s'.taken && q != ref ensures TakenSound(s', q) { OtherTaken(s, s', q); }
  }

  lemma OtherTaken(s: State, s': State, q: Ref)
    requires TakenSound(s, q) && q in s'.taken && s'.taken[q] == s.taken[q] && s'.uploads == s.uploads && s'.declared == s.declared
    requires s'.pieces == s.pieces && q in s'.obtained && s'.obtained[q] == s.obtained[q]
    ensures TakenSound(s', q)
  {
  }

  lemma TakeAgainKeeps(s: State, e: Event)
    requires Inv(s) && e.Take? && e.ref in s.taken
    ensures TakeAgain(s, e).0 == s
  {
    assert TakenSound(s, e.ref);
    if Caller(s.taken[e.ref].client, s.taken[e.ref].request) == e.caller {
      assert s.obtained[e.ref] + {e.caller} == s.obtained[e.ref];
      assert Give(s, e.ref, e.caller) == s;
    }
  }

  lemma TakeFirstKeeps(s: State, e: Event)
    requires Inv(s) && e.Take?
    ensures Inv(TakeFirst(s, e).0)
  {
    if Owns(s, e.caller.client, e.ref) {
      var file := s.uploads[e.ref];
      assert UploadSound(s, e.ref);
      RemoveKeeps(s, e.ref);
      if |file.data| == file.size && file.sha == DigestOf(file.data) {
        HandOverKeeps(s.(uploads := s.uploads - {e.ref}), e.ref,
                      Taken(e.caller.client, e.caller.request, file.data, file.mime, file.expires));
      }
    }
  }

  lemma TakeKeeps(s: State, e: Event)
    requires Inv(s) && e.Take? && Enabled(s, e)
    ensures Inv(DoTake(s, e).0)
  {
    var s1 := Swept(s, e.times.first);
    SweptKeeps(s, e.times.first);
    if e.ref in s1.taken {
      TakeAgainKeeps(s1, e);
    } else {
      SweptKeeps(s1, e.times.second);
      TakeFirstKeeps(Swept(s1, e.times.second), e);
    }
  }

  /** Downloads are apart from everything staged. */
  lemma DownloadsApart(s: State, downloads: map<(nat, nat), Download>)
    requires Inv(s)
    ensures Inv(s.(downloads := downloads))
  {
    var s' := s.(downloads := downloads);
    forall q | q in s'.declared ensures PiecesSound(s', q) { assert PiecesSound(s, q); }
    forall q | q in s'.uploads ensures UploadSound(s', q) { assert UploadSound(s, q); }
    forall q | q in s'.taken ensures TakenSound(s', q) { assert TakenSound(s, q); }
  }

  lemma EventKeeps(s: State, e: Event)
    requires Inv(s)
    ensures Inv(Apply(s, e))
  {
    if Enabled(s, e) {
      match e
      case Stage(_, _, _, _) => StageKeeps(s, e);
      case Take(_, _, _) => TakeKeeps(s, e);
      case Hold(_, _, _, _, _) =>
        SweptKeeps(s, e.times.first);
        LaterKeeps(Swept(s, e.times.first), e.times.second);
        DownloadsApart(Swept(s, e.times.first).(clock := e.times.second), DoHold(s, e).downloads);
      case Look(_, _, _) => SweptKeeps(s, e.times.first);
    }
  }

  lemma {:induction false} RunKeeps(events: seq<Event>)
    ensures Inv(Run(Init(), events))
  {
    if events != [] {
      var before, e := events[..|events| - 1], events[|events| - 1];
      RunKeeps(before);
      EventKeeps(Run(Init(), before), e);
    }
  }

  // -- the history only grows --------------------------------------------------------------------

  /** Declarations stay, pieces are only appended, nobody who got the file is forgotten, and an upload
      that is gone stays gone and gets no further piece. */
  ghost predicate Grows(s: State, s': State, ref: Ref)
    requires ref in s.declared && ref in s.pieces && ref in s.obtained
  {
    && ref in s'.declared && ref in s'.pieces && ref in s'.obtained
    && s'.declared[ref] == s.declared[ref] && s.pieces[ref] <= s'.pieces[ref] && s.obtained[ref] <= s'.obtained[ref]
    && (ref !in s.uploads ==> ref !in s'.uploads && s'.pieces[ref] == s.pieces[ref])
  }

  predicate Known(s: State, ref: Ref) { ref in s.declared && ref in s.pieces && ref in s.obtained }

  lemma BeginGrows(s: State, client: nat, call: Call, now: real, minted: Ref, ref: Ref)
    requires call.BeginCall? && Known(s, ref) && ref != minted
    ensures Grows(s, DoBegin(s, client, call, now, minted).0, ref)
  {
  }

  lemma ChunkGrows(s: State, caller: Caller, call: Call, ref: Ref)
    requires call.ChunkCall? && Known(s, ref)
    ensures Grows(s, DoChunk(s, caller, call).0, ref)
  {
  }

  lemma GrowsTwice(s: State, m: State, s': State, ref: Ref)
    requires Known(s, ref) && Known(m, ref) && Grows(s, m, ref) && Grows(m, s', ref)
    ensures Grows(s, s', ref)
  {
  }

  lemma SweptGrows(s: State, now: real, ref: Ref)
    requires Known(s, ref)
    ensures Known(Swept(s, now), ref) && Grows(s, Swept(s, now), ref)
  {
  }

  lemma StageAnewGrows(s: State, e: Event, ref: Ref)
    requires e.Stage? && e.minted != ref && Known(s, ref)
    ensures Grows(s, StageAnew(s, e).0, ref)
  {
    if e.call.BeginCall? {
      BeginGrows(s, e.caller.client, e.call, e.times.third, e.minted, ref);
    } else {
      ChunkGrows(s, e.caller, e.call, ref);
    }
  }

  lemma StageGrows(s: State, e: Event, ref: Ref)
    requires e.Stage? && Enabled(s, e) && Known(s, ref)
    ensures Grows(s, DoStage(s, e).0, ref)
  {
    var s1 := Swept(s, e.times.first);
    SweptGrows(s, e.times.first, ref);
    if e.caller !in s1.replies {
      var s2 := Swept(s1, e.times.second);
      SweptGrows(s1, e.times.second, ref);
      StageAnewGrows(s2, e, ref);
      GrowsTwice(s, s1, s2, ref);
      GrowsTwice(s, s2, StageAnew(s2, e).0, ref);
    }
  }

  lemma TakeAgainGrows(s: State, e: Event, ref: Ref)
    requires e.Take? && e.ref in s.taken && Known(s, ref)
    ensures Grows(s, TakeAgain(s, e).0, ref)
  {
  }

  lemma TakeFirstGrows(s: State, e: Event, ref: Ref)
    requires e.Take? && Known(s, ref)
    ensures Grows(s, TakeFirst(s, e).0, ref)
  {
  }

  lemma TakeGrows(s: State, e: Event, ref: Ref)
    requires e.Take? && Known(s, ref)
    ensures Grows(s, DoTake(s, e).0, ref)
  {
    var s1 := Swept(s, e.times.first);
    SweptGrows(s, e.times.first, ref);
    if e.ref in s1.taken {
      TakeAgainGrows(s1, e, ref);
      GrowsTwice(s, s1, TakeAgain(s1, e).0, ref);
    } else {
      var s2 := Swept(s1, e.times.second);
      SweptGrows(s1, e.times.second, ref);
      TakeFirstGrows(s2, e, ref);
      GrowsTwice(s, s1, s2, ref);
      GrowsTwice(s, s2, TakeFirst(s2, e).0, ref);
    }
  }

  lemma OneMore(events: seq<Event>, e: Event)
    ensures Run(Init(), events + [e]) == Apply(Run(Init(), events), e)
  {
    assert (events + [e])[..|events|] == events;
  }

  lemma StepGrows(events: seq<Event>, e: Event, ref: Ref)
    requires Known(Run(Init(), events), ref)
    ensures Known(Run(Init(), events + [e]), ref) && Grows(Run(Init(), events), Run(Init(), events + [e]), ref)
  {
    OneMore(events, e);
    var s := Run(Init(), events);
    if Enabled(s, e) {
      if e.Stage? { StageGrows(s, e, ref); } else if e.Take? { TakeGrows(s, e, ref); }
    }
  }

  lemma {:induction false} RunGrows(events: seq<Event>, more: seq<Event>, ref: Ref)
    requires Known(Run(Init(), events), ref)
    ensures Known(Run(Init(), events + more), ref) && Grows(Run(Init(), events), Run(Init(), events + more), ref)
    decreases |more|
  {
    if more == [] {
      assert events + more == events;
    } else {
      var before, e := more[..|more| - 1], more[|more| - 1];
      RunGrows(events, before, ref);
      StepGrows(events + before, e, ref);
      assert events + more == events + before + [e];
      GrowsTwice(Run(Init(), events), Run(Init(), events + before), Run(Init(), events + more), ref);
    }
  }

  // -- main results --------------------------------------------------------------------------------

  /** The bytes received are the accepted pieces in order, never more than declared, and no request has
      two pieces in one upload however often and however late it is replayed. */
  lemma PiecesAreTheUpload(events: seq<Event>, ref: Ref)
    requires ref in Run(Init(), events).declared
    ensures var s := Run(Init(), events);
      && ref in s.pieces && |Joined(s.pieces[ref])| <= s.declared[ref].size
      && (ref in s.uploads ==> s.uploads[ref].data == Joined(s.pieces[ref]) && s.uploads[ref].nextSeq == |s.pieces[ref]|)
      && forall i, j :: 0 <= i < j < |s.pieces[ref]| ==> s.pieces[ref][i].from != s.pieces[ref][j].from
  {
    RunKeeps(events);
    var s := Run(Init(), events);
    assert PiecesSound(s, ref) && (ref in s.uploads ==> UploadSound(s, ref));
  }

  /** A replayed request appends nothing as long as the upload it wrote to is alive. */
  lemma ReplayAppendsNothing(events: seq<Event>, e: Event, ref: Ref, i: nat)
    requires var s := Run(Init(), events);
      Enabled(s, e) && e.Stage? && ref in s.uploads && ref in s.pieces && i < |s.pieces[ref]| && s.pieces[ref][i].from == e.caller
    requires Run(Init(), events).uploads[ref].expires > e.times.first
    ensures var s := Run(Init(), events);
      && e.caller in s.replies && DoStage(s, e).1 == Ok(s.replies[e.caller].reply)
      && DoStage(s, e).0 == Swept(s, e.times.first)
  {
    RunKeeps(events);
    var s := Run(Init(), events);
    assert UploadSound(s, ref);
    assert Covered(s.replies, s.pieces[ref][i].from, s.uploads[ref].expires);
  }

  /** Whatever is handed over is the declared file, and its declaring client gets it. */
  lemma TakenIsTheFile(events: seq<Event>, e: Event)
    requires var s := Run(Init(), events); e.Take? && Enabled(s, e) && DoTake(s, e).1.Ok?
    ensures var s := Run(Init(), events);
      && Whole(s, e.ref, DoTake(s, e).1.value.0) && s.declared[e.ref].client == e.caller.client
      && s.declared[e.ref].mime == DoTake(s, e).1.value.1
      && e.ref in DoTake(s, e).0.obtained && e.caller in DoTake(s, e).0.obtained[e.ref] && e.ref !in DoTake(s, e).0.uploads
  {
    RunKeeps(events);
    var s := Run(Init(), events);
    SweptKeeps(s, e.times.first);
    var s1 := Swept(s, e.times.first);
    if e.ref in s1.taken {
      assert TakenSound(s1, e.ref);
    } else {
      SweptKeeps(s1, e.times.second);
      assert UploadSound(Swept(s1, e.times.second), e.ref);
    }
  }

  /** At most one (client, request id) ever obtains a staged file, and it always gets the same bytes. */
  lemma OneTakerEver(events: seq<Event>, e: Event, more: seq<Event>, f: Event)
    requires var s := Run(Init(), events); e.Take? && Enabled(s, e) && DoTake(s, e).1.Ok?
    requires var s := Run(Init(), events + [e] + more); f.Take? && f.ref == e.ref && Enabled(s, f) && DoTake(s, f).1.Ok?
    ensures f.caller == e.caller
    ensures DoTake(Run(Init(), events + [e] + more), f).1 == DoTake(Run(Init(), events), e).1
  {
    TakenIsTheFile(events, e);
    OneMore(events, e);
    RunKeeps(events);
    var s := Run(Init(), events);
    assert PiecesSound(s, e.ref);
    StepGrows(events, e, e.ref);
    TakePiecesSame(s, e);
    RunGrows(events + [e], more, e.ref);
    LaterTakeIsTheSame(events + [e] + more, e.ref, e.caller, f);
  }

  lemma LaterTakeIsTheSame(events: seq<Event>, ref: Ref, first: Caller, f: Event)
    requires var s := Run(Init(), events); f.Take? && f.ref == ref && Enabled(s, f) && DoTake(s, f).1.Ok?
    requires var s := Run(Init(), events); Known(s, ref) && first in s.obtained[ref]
    ensures f.caller == first
    ensures var s := Run(Init(), events); DoTake(s, f).1.value == (Joined(s.pieces[ref]), s.declared[ref].mime)
  {
    var s := Run(Init(), events);
    TakenIsTheFile(events, f);
    RunKeeps(events);
    TakeGrows(s, f, ref);
    TakeKeeps(s, f);
    assert PiecesSound(DoTake(s, f).0, ref);
  }

  lemma TakePiecesSame(s: State, e: Event)
    requires e.Take?
    ensures DoTake(s, e).0.pieces == s.pieces
  {
  }

  // -- downloads -----------------------------------------------------------------------------------

  /** The last file the client put there under that name. */
  ghost function LastHeld(events: seq<Event>, client: nat, media: nat): Option<Download> {
    if events == [] then None else
      var before, e := events[..|events| - 1], events[|events| - 1];
      if e.Hold? && e.client == client && e.media == media && Enabled(Run(Init(), before), e)
      then Some(Download(e.times.second + Ttl, e.data, e.mime))
      else LastHeld(before, client, media)
  }

  /** Nothing was added to the downloads, and what is left is as it was. */
  ghost predicate Fewer(a: map<(nat, nat), Download>, b: map<(nat, nat), Download>) {
    forall k :: k in b ==> k in a && b[k] == a[k]
  }

  lemma SweptFewer(s: State, now: real)
    ensures Fewer(s.downloads, Swept(s, now).downloads)
  {
  }

  lemma ChunkSame(s: State, caller: Caller, call: Call)
    requires call.ChunkCall?
    ensures DoChunk(s, caller, call).0.downloads == s.downloads
  {
  }

  lemma StageAnewSame(s: State, e: Event)
    requires e.Stage?
    ensures StageAnew(s, e).0.downloads == s.downloads
  {
    if e.call.ChunkCall? { ChunkSame(s, e.caller, e.call); }
  }

  lemma StageKeepsDownloads(s: State, e: Event)
    requires e.Stage?
    ensures Fewer(s.downloads, DoStage(s, e).0.downloads)
  {
    var s1 := Swept(s, e.times.first);
    SweptFewer(s, e.times.first);
    SweptFewer(s1, e.times.second);
    StageAnewSame(Swept(s1, e.times.second), e);
  }

  lemma TakeFirstSame(s: State, e: Event)
    requires e.Take?
    ensures TakeFirst(s, e).0.downloads == s.downloads
  {
  }

  lemma TakeKeepsDownloads(s: State, e: Event)
    requires e.Take?
    ensures Fewer(s.downloads, DoTake(s, e).0.downloads)
  {
    var s1 := Swept(s, e.times.first);
    SweptFewer(s, e.times.first);
    SweptFewer(s1, e.times.second);
    TakeFirstSame(Swept(s1, e.times.second), e);
  }

  lemma OtherEventsKeepDownloads(s: State, e: Event, k: (nat, nat))
    requires k in Apply(s, e).downloads && !(e.Hold? && Enabled(s, e) && (e.client, e.media) == k)
    ensures k in s.downloads && Apply(s, e).downloads[k] == s.downloads[k]
  {
    if e.Stage? { StageKeepsDownloads(s, e); }
    else if e.Take? { TakeKeepsDownloads(s, e); }
  }

  lemma {:induction false} DownloadsAreLastHeld(events: seq<Event>, client: nat, media: nat)
    ensures var s := Run(Init(), events);
      (client, media) in s.downloads ==> LastHeld(events, client, media) == Some(s.downloads[(client, media)])
  {
    if events != [] {
      var before, e := events[..|events| - 1], events[|events| - 1];
      DownloadsAreLastHeld(before, client, media);
      OneMore(before, e);
      assert events == before + [e];
      if (client, media) in Run(Init(), events).downloads &&
         !(e.Hold? && Enabled(Run(Init(), before), e) && (e.client, e.media) == (client, media)) {
        OtherEventsKeepDownloads(Run(Init(), before), e, (client, media));
      }
    }
  }

  /** Whoever pages through a download gets the file that same client put there last, within its life. */
  lemma HeldIsWhatWasPutThere(events: seq<Event>, e: Event)
    requires var s := Run(Init(), events); e.Look? && Enabled(s, e) && DoLook(s, e).1.Some?
    ensures var s := Run(Init(), events);
      && LastHeld(events, e.client, e.media).Some?
      && var held := LastHeld(events, e.client, e.media).value;
         DoLook(s, e).1 == Some((held.data, held.mime)) && held.expires > e.times.first
  {
    DownloadsAreLastHeld(events, e.client, e.media);
  }
}
