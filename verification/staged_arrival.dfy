/** What is accepted and handed over: exactly the pieces that fit in order, and exactly the whole declared file. */
module StagedMediaArrival {
  import opened Base64
  import opened StagedMediaModel
  import opened StagedMediaSafety

  // -- one call, exactly ---------------------------------------------------------------------------

  /** The request has no stored reply that still lives. */
  predicate Unanswered(s: State, caller: Caller, now: real) { caller in s.replies ==> s.replies[caller].expires <= now }

  /** The client's upload is still there at that time. */
  predicate Lives(s: State, client: nat, ref: Ref, now: real) {
    ref in s.uploads && s.uploads[ref].expires > now && s.uploads[ref].client == client
  }

  lemma SweptTwice(s: State, a: real, b: real)
    requires a <= b
    ensures Swept(Swept(s, a), b) == Swept(s, b)
  {
  }

  lemma NewCall(s: State, e: Event)
    requires Enabled(s, e) && e.Stage? && Unanswered(s, e.caller, e.times.first)
    ensures DoStage(s, e) == StageAnew(Swept(s, e.times.second), e)
  {
    SweptTwice(s, e.times.first, e.times.second);
  }

  /** An upload is begun exactly for a media type, a size within the bound and a digest; it lives five minutes
      from then and nothing of it has arrived. */
  lemma BegunExactly(s: State, e: Event)
    requires Enabled(s, e) && e.Stage? && e.call.BeginCall? && Unanswered(s, e.caller, e.times.first)
    ensures var call, done := e.call, DoStage(s, e);
      && (done.1.Ok? <==> 0 < |call.mime| <= 128 && '/' in call.mime && 0 < call.size <= 16 * 1024 * 1024 && call.sha.Some?)
      && (done.1.Err? ==> done.1 == Err(InvalidArgument) && done.0.uploads == LiveUploads(s.uploads, e.times.second))
      && (done.1.Ok? ==>
            && done.1.value == Begun(e.minted, 32 * 1024, 300)
            && var file := Staged(e.caller.client, call.mime, call.size, call.sha.value, e.times.third + 300.0, [], 0);
               done.0.uploads == LiveUploads(s.uploads, e.times.second)[e.minted := file])
  {
    NewCall(s, e);
  }

  /** The piece a chunk call brings, if it is strict base64 of 1 byte to 32 KiB. */
  function PieceOf(call: Call): Option<Bytes>
    requires call.ChunkCall?
  {
    var data := Decode(call.encoded);
    if data.Some? && 0 < |data.value| <= 32 * 1024 then data else None
  }

  /** Against what was declared and what has been accepted: a chunk is taken exactly if the caller owns the live
      upload, it is the next one, and it fits; the reply says what has arrived by then and whether that is all. */
  lemma ChunkTakenExactly(events: seq<Event>, e: Event)
    requires var s := Run(Init(), events); Enabled(s, e) && e.Stage? && e.call.ChunkCall? && Unanswered(s, e.caller, e.times.first)
    ensures var s, ref, r := Run(Init(), events), e.call.ref, DoStage(Run(Init(), events), e).1;
      var lives := Lives(s, e.caller.client, ref, e.times.second);
      && (r == Err(NotFound) <==> !lives)
      && (lives ==> ref in s.declared && ref in s.pieces)
      && (r.Ok? <==> lives && e.call.seqNo == |s.pieces[ref]| && PieceOf(e.call).Some? &&
                     |Joined(s.pieces[ref])| + |PieceOf(e.call).value| <= s.declared[ref].size)
      && (r.Ok? ==> var now := Joined(s.pieces[ref]) + PieceOf(e.call).value;
            && r.value == Received(ref, |now|, |now| == s.declared[ref].size)
            && ref in DoStage(s, e).0.uploads && DoStage(s, e).0.uploads[ref].data == now)
  {
    RunKeeps(events);
    var s := Run(Init(), events);
    NewCall(s, e);
    assert e.call.ref in s.uploads ==> UploadSound(s, e.call.ref);
    ChunkExactly(Swept(s, e.times.second), e);
  }

  lemma ChunkExactly(s: State, e: Event)
    requires e.Stage? && e.call.ChunkCall? && (e.call.ref in s.uploads ==> UploadSound(s, e.call.ref))
    ensures var ref, done := e.call.ref, StageAnew(s, e);
      && (done.1 == Err(NotFound) <==> !Owns(s, e.caller.client, ref))
      && (done.1.Ok? <==> Owns(s, e.caller.client, ref) && e.call.seqNo == |s.pieces[ref]| && PieceOf(e.call).Some? &&
                          |Joined(s.pieces[ref])| + |PieceOf(e.call).value| <= s.declared[ref].size)
      && (done.1.Ok? ==> var now := Joined(s.pieces[ref]) + PieceOf(e.call).value;
            && done.1.value == Received(ref, |now|, |now| == s.declared[ref].size)
            && ref in done.0.uploads && done.0.uploads[ref].data == now)
  {
  }

  /** A first take hands over exactly a whole upload of that client whose bytes have the declared digest; one
      that is not whole, or differs, is refused and dropped. */
  lemma TakenExactly(events: seq<Event>, e: Event)
    requires var s := Run(Init(), events);
      Enabled(s, e) && e.Take? && (e.ref in s.taken ==> s.taken[e.ref].expires <= e.times.first)
    ensures var s, r := Run(Init(), events), DoTake(Run(Init(), events), e).1;
      var lives := Lives(s, e.caller.client, e.ref, e.times.second);
      && (r == Err(NotFound) <==> !lives)
      && (lives ==> e.ref in s.declared && e.ref in s.pieces)
      && (r.Ok? <==> lives && |Joined(s.pieces[e.ref])| == s.declared[e.ref].size && s.declared[e.ref].sha == DigestOf(Joined(s.pieces[e.ref])))
      && (r.Ok? ==> r.value == (Joined(s.pieces[e.ref]), s.declared[e.ref].mime))
      && (lives ==> e.ref !in DoTake(s, e).0.uploads)
  {
    RunKeeps(events);
    var s := Run(Init(), events);
    SweptTwice(s, e.times.first, e.times.second);
    assert e.ref in s.uploads ==> UploadSound(s, e.ref);
  }

  /** A file that was taken is served again exactly to the request that took it, while it lives. */
  lemma TakenAgainExactly(events: seq<Event>, e: Event)
    requires var s := Run(Init(), events);
      Enabled(s, e) && e.Take? && e.ref in s.taken && s.taken[e.ref].expires > e.times.first
    ensures var s, r := Run(Init(), events), DoTake(Run(Init(), events), e).1;
      && e.ref in s.obtained && e.ref in s.pieces && e.ref in s.declared
      && (r.Ok? <==> e.caller in s.obtained[e.ref]) && (r.Err? ==> r == Err(NotFound))
      && (r.Ok? ==> r.value == (Joined(s.pieces[e.ref]), s.declared[e.ref].mime))
  {
    RunKeeps(events);
    var s := Run(Init(), events);
    assert TakenSound(s, e.ref);
  }

  /** A held download is found again exactly within five minutes of being put there. */
  lemma HeldExactly(s: State, client: nat, media: nat, data: Bytes, mime: string, put: Times, look: Times)
    requires s.clock <= put.first <= put.second <= look.first
    ensures var held := DoHold(s, Hold(client, media, data, mime, put));
      DoLook(held, Look(client, media, look)).1 == if look.first < put.second + 300.0 then Some((data, mime)) else None
  {
  }

  // -- a whole upload --------------------------------------------------------------------------------

  function At(now: real): Times { Times(now, now, now, now) }

  function Concat(pieces: seq<Bytes>): Bytes {
    if pieces == [] then [] else Concat(pieces[..|pieces| - 1]) + pieces[|pieces| - 1]
  }

  /** Nothing stored has expired. */
  predicate Current(s: State, now: real) { s.clock <= now && Swept(s, now) == s.(clock := now) }

  /** The upload `ref` holds these bytes so far. */
  predicate Holds(s: State, ref: Ref, file: Staged, data: Bytes, n: nat) {
    ref in s.uploads && s.uploads[ref] == file.(data := data, nextSeq := n) && ref !in s.taken
  }

  /** The requests of the upload: `begin` under 0, piece `i` under `i + 1`. */
  ghost predicate NewRequests(s: State, client: nat, from: nat) {
    forall r: nat :: r >= from ==> Caller(client, r) !in s.replies
  }

  lemma ChunkRuns(s: State, ref: Ref, file: Staged, data: Bytes, n: nat, piece: Bytes, minted: Ref, now: real)
    requires Current(s, now) && Holds(s, ref, file, data, n) && file.expires > now && NewRequests(s, file.client, n + 1) && minted !in s.declared
    requires 0 < |piece| <= ChunkMax && |data| + |piece| <= file.size
    ensures var s' := Apply(s, Stage(Caller(file.client, n + 1), ChunkCall(ref, n, Encode(piece)), At(now), minted));
      && Current(s', now) && Holds(s', ref, file, data + piece, n + 1) && NewRequests(s', file.client, n + 2) && s'.declared == s.declared
  {
    PieceArrives(piece, ChunkMax);
    var e := Stage(Caller(file.client, n + 1), ChunkCall(ref, n, Encode(piece)), At(now), minted);
    var s1 := s.(clock := now);
    assert Swept(s, now) == s1 && Swept(s1, now) == s1;
    assert DoStage(s, e) == StageAnew(s1, e);
  }

  lemma {:induction false} PiecesRun(s: State, ref: Ref, file: Staged, pieces: seq<Bytes>, minted: Ref, now: real) returns (events: seq<Event>)
    requires Current(s, now) && Holds(s, ref, file, [], 0) && file.expires > now && NewRequests(s, file.client, 1) && minted !in s.declared
    requires (forall i :: 0 <= i < |pieces| ==> 0 < |pieces[i]| <= ChunkMax) && |Concat(pieces)| <= file.size
    ensures var s' := Run(s, events);
      Current(s', now) && Holds(s', ref, file, Concat(pieces), |pieces|) && NewRequests(s', file.client, |pieces| + 1) && s'.declared == s.declared
  {
    if pieces == [] {
      events := [];
    } else {
      var n := |pieces| - 1;
      var before := PiecesRun(s, ref, file, pieces[..n], minted, now);
      ChunkRuns(Run(s, before), ref, file, Concat(pieces[..n]), n, pieces[n], minted, now);
      var e := Stage(Caller(file.client, n + 1), ChunkCall(ref, n, Encode(pieces[n])), At(now), minted);
      events := before + [e];
      RunOneMore(s, before, e);
    }
  }

  lemma RunOneMore(s: State, events: seq<Event>, e: Event)
    ensures Run(s, events + [e]) == Apply(Run(s, events), e)
  {
    assert (events + [e])[..|events + [e]| - 1] == events;
  }

  lemma BeginRuns(s: State, client: nat, mime: string, data: Bytes, ref: Ref, now: real)
    requires Current(s, now) && ref !in s.declared && ref !in s.taken && NewRequests(s, client, 0)
    requires MimeOk(mime) && 0 < |data| <= MaxBytes
    ensures var s' := Apply(s, Stage(Caller(client, 0), BeginCall(mime, |data|, Some(DigestOf(data))), At(now), ref));
      && Current(s', now) && Holds(s', ref, Staged(client, mime, |data|, DigestOf(data), now + Ttl, [], 0), [], 0)
      && NewRequests(s', client, 1) && s'.declared.Keys == s.declared.Keys + {ref}
  {
    var e := Stage(Caller(client, 0), BeginCall(mime, |data|, Some(DigestOf(data))), At(now), ref);
    var s1 := s.(clock := now);
    assert Swept(s, now) == s1 && Swept(s1, now) == s1;
    assert DoStage(s, e) == StageAnew(s1, e);
  }

  /**
  Any file of up to 16 MiB, begun with its length and digest and sent in any pieces of up to 32 KiB in order,
  is handed over byte for byte with its media type to whichever request of that client takes it first.
  */
  lemma WholeUploadArrives(s: State, client: nat, mime: string, pieces: seq<Bytes>, ref: Ref, spare: Ref, request: nat, now: real)
    returns (events: seq<Event>)
    requires Current(s, now) && ref !in s.declared && spare !in s.declared && spare != ref && ref !in s.taken && NewRequests(s, client, 0)
    requires MimeOk(mime) && 0 < |Concat(pieces)| <= MaxBytes && forall i :: 0 <= i < |pieces| ==> 0 < |pieces[i]| <= ChunkMax
    ensures var s' := Run(s, events);
      DoTake(s', Take(Caller(client, request), ref, At(now))).1 == Ok((Concat(pieces), mime))
  {
    var data := Concat(pieces);
    var begin := Stage(Caller(client, 0), BeginCall(mime, |data|, Some(DigestOf(data))), At(now), ref);
    var file := Staged(client, mime, |data|, DigestOf(data), now + Ttl, [], 0);
    BeginRuns(s, client, mime, data, ref, now);
    var begun := Apply(s, begin);
    var chunks := PiecesRun(begun, ref, file, pieces, spare, now);
    RunJoins(s, begin, chunks);
    events := [begin] + chunks;
    var s' := Run(s, events);
    assert Swept(s', now) == s'.(clock := now);
    assert Swept(s'.(clock := now), now) == s'.(clock := now);
  }

  lemma {:induction false} RunJoins(s: State, e: Event, rest: seq<Event>)
    ensures Run(s, [e] + rest) == Run(Apply(s, e), rest)
    decreases |rest|
  {
    if rest == [] {
      assert [e] + rest == [] + [e];
      RunOneMore(s, [], e);
    } else {
      var before := rest[..|rest| - 1];
      RunJoins(s, e, before);
      assert [e] + rest == [e] + before + [rest[|rest| - 1]] && rest == before + [rest[|rest| - 1]];
      RunOneMore(s, [e] + before, rest[|rest| - 1]);
      RunOneMore(Apply(s, e), before, rest[|rest| - 1]);
    }
  }
}
