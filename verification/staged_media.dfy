/**
Staged media: files that arrive in pieces and are taken once, in memory, with a five-minute life.
Clock readings are monotone and otherwise arbitrary; minted refs are new; SHA-256 is ideal.  The ghost
fields are the history: what was declared at `begin`, which pieces were accepted from whom, and who ever
obtained the file.
*/
module StagedMediaModel {
  import opened Base64

  datatype Result<+T> = Ok(value: T) | Err(error: Error)

  datatype Error = InvalidArgument | NotFound

  type Ref = nat

  datatype Digest = DigestOf(data: Bytes) | NoPreimage(n: nat)

  const MaxBytes: nat := 16 * 1024 * 1024
  const ChunkMax: nat := 32 * 1024
  const MimeMax: nat := 128
  const Ttl: real := 300.0

  /** The authenticated client and its request id. */
  datatype Caller = Caller(client: nat, request: nat)

  datatype Staged = Staged(client: nat, mime: string, size: nat, sha: Digest, expires: real, data: Bytes, nextSeq: nat)

  datatype Taken = Taken(client: nat, request: nat, data: Bytes, mime: string, expires: real)

  datatype Reply = Begun(upload: Ref, chunkMax: nat, expiresIn: int) | Received(upload: Ref, received: nat, complete: bool)

  datatype StoredReply = StoredReply(expires: real, reply: Reply)

  /** A staging call as a tool makes it. */
  datatype Call =
    | BeginCall(mime: string, size: int, sha: Option<Digest>)
    | ChunkCall(ref: Ref, seqNo: int, encoded: string)

  datatype Piece = Piece(from: Caller, data: Bytes)

  function Joined(pieces: seq<Piece>): Bytes {
    if pieces == [] then [] else Joined(pieces[..|pieces| - 1]) + pieces[|pieces| - 1].data
  }

  lemma JoinedOneMore(pieces: seq<Piece>, p: Piece)
    ensures Joined(pieces + [p]) == Joined(pieces) + p.data
  {
    assert (pieces + [p])[..|pieces|] == pieces;
  }

  lemma LongTextDecodesLong(text: string, limit: nat)
    ensures |text| > (limit + 2) / 3 * 4 && Decode(text).Some? ==> |Decode(text).value| > limit
  {
    if Decode(text).Some? { DecodedLength(text); }
  }

  /** Refuses an over-long text before decoding it; that refuses nothing that would have fitted. */
  function DecodeB64(text: string, limit: nat): (r: Result<Bytes>)
    ensures r.Ok? <==> Decode(text).Some? && 0 < |Decode(text).value| <= limit
    ensures r.Ok? ==> Decode(text) == Some(r.value)
  {
    LongTextDecodesLong(text, limit);
    if |text| > (limit + 2) / 3 * 4 then Err(InvalidArgument)
    else
      var data := Decode(text);
      if data.None? || data.value == [] || |data.value| > limit then Err(InvalidArgument) else Ok(data.value)
  }

  /** Every piece within the limit can be sent, and arrives as it was. */
  lemma PieceArrives(data: Bytes, limit: nat)
    requires 0 < |data| <= limit
    ensures DecodeB64(Encode(data), limit) == Ok(data)
  {
    RoundTrip(data);
  }

  // -- the state and its operations ------------------------------------------------------------

  /** A file a client is paging through. */
  datatype Download = Download(expires: real, data: Bytes, mime: string)

  /** The last three fields are history: what `begin` declared, which pieces were accepted, who got the file. */
  datatype State = State(clock: real, uploads: map<Ref, Staged>, replies: map<Caller, StoredReply>, taken: map<Ref, Taken>,
                         downloads: map<(nat, nat), Download>, declared: map<Ref, Staged>, pieces: map<Ref, seq<Piece>>, obtained: map<Ref, set<Caller>>)

  /** The clock readings of one call, in order. */
  datatype Times = Times(first: real, second: real, third: real, fourth: real)

  datatype Event =
    | Stage(caller: Caller, call: Call, times: Times, minted: Ref)
    | Take(caller: Caller, ref: Ref, times: Times)
    | Hold(client: nat, media: nat, data: Bytes, mime: string, times: Times)
    | Look(client: nat, media: nat, times: Times)

  function LiveUploads(m: map<Ref, Staged>, now: real): map<Ref, Staged> { map r | r in m && m[r].expires > now :: m[r] }

  function LiveReplies(m: map<Caller, StoredReply>, now: real): map<Caller, StoredReply> {
    map c | c in m && m[c].expires > now :: m[c]
  }

  function LiveTaken(m: map<Ref, Taken>, now: real): map<Ref, Taken> { map r | r in m && m[r].expires > now :: m[r] }

  function LiveDownloads(m: map<(nat, nat), Download>, now: real): map<(nat, nat), Download> {
    map k | k in m && m[k].expires > now :: m[k]
  }

  function Swept(s: State, now: real): State {
    s.(clock := now, uploads := LiveUploads(s.uploads, now), replies := LiveReplies(s.replies, now), taken := LiveTaken(s.taken, now),
       downloads := LiveDownloads(s.downloads, now))
  }

  predicate MimeOk(mime: string) { 0 < |mime| <= MimeMax && '/' in mime }

  function DoBegin(s: State, client: nat, call: Call, now: real, ref: Ref): (State, Result<Reply>)
    requires call.BeginCall?
  {
    if !MimeOk(call.mime) || !(0 < call.size <= MaxBytes) then (s, Err(InvalidArgument))
    else if call.sha.None? then (s.(clock := now), Err(InvalidArgument))
    else
      var file := Staged(client, call.mime, call.size, call.sha.value, now + Ttl, [], 0);
      (s.(clock := now, uploads := s.uploads[ref := file], declared := s.declared[ref := file],
          pieces := s.pieces[ref := []], obtained := s.obtained[ref := {}]),
       Ok(Begun(ref, ChunkMax, 300)))
  }

  predicate Owns(s: State, client: nat, ref: Ref) { ref in s.uploads && s.uploads[ref].client == client }

  function DoChunk(s: State, caller: Caller, call: Call): (State, Result<Reply>)
    requires call.ChunkCall?
  {
    var ref := call.ref;
    if !Owns(s, caller.client, ref) then (s, Err(NotFound))
    else if call.seqNo != s.uploads[ref].nextSeq || DecodeB64(call.encoded, ChunkMax).Err? then (s, Err(InvalidArgument))
    else
      var file, piece := s.uploads[ref], DecodeB64(call.encoded, ChunkMax).value;
      var data := file.data + piece;
      if |data| > file.size then (s, Err(InvalidArgument))
      else
        (s.(uploads := s.uploads[ref := file.(data := data, nextSeq := file.nextSeq + 1)],
            pieces := if ref in s.pieces then s.pieces[ref := s.pieces[ref] + [Piece(caller, piece)]] else s.pieces),
         Ok(Received(ref, |data|, |data| == file.size)))
  }

  /** A staging call under a request id: what a stored reply answers does not reach the staging area. */
  function DoStage(s: State, e: Event): (State, Result<Reply>)
    requires e.Stage?
  {
    var s1 := Swept(s, e.times.first);
    if e.caller in s1.replies then (s1, Ok(s1.replies[e.caller].reply)) else StageAnew(Swept(s1, e.times.second), e)
  }

  function StageAnew(s: State, e: Event): (State, Result<Reply>)
    requires e.Stage?
  {
    Replied(if e.call.BeginCall? then DoBegin(s, e.caller.client, e.call, e.times.third, e.minted) else DoChunk(s, e.caller, e.call),
            e.caller, e.times.fourth)
  }

  function Answered(s: State, caller: Caller, now: real, reply: Reply): State {
    s.(clock := now, replies := s.replies[caller := StoredReply(now + Ttl, reply)])
  }

  /** A result is remembered under its request id; a refusal is not. */
  function Replied(done: (State, Result<Reply>), caller: Caller, now: real): (State, Result<Reply>) {
    if done.1.Err? then done else (Answered(done.0, caller, now, done.1.value), done.1)
  }

  function Give(s: State, ref: Ref, caller: Caller): State {
    s.(obtained := if ref in s.obtained then s.obtained[ref := s.obtained[ref] + {caller}] else s.obtained)
  }

  /** Served again to the request that has it, otherwise handed over to the first that may have it. */
  function DoTake(s: State, e: Event): (State, Result<(Bytes, string)>)
    requires e.Take?
  {
    var s1 := Swept(s, e.times.first);
    if e.ref in s1.taken then TakeAgain(s1, e) else TakeFirst(Swept(s1, e.times.second), e)
  }

  function TakeAgain(s: State, e: Event): (State, Result<(Bytes, string)>)
    requires e.Take? && e.ref in s.taken
  {
    var t := s.taken[e.ref];
    if t.client == e.caller.client && t.request == e.caller.request then (Give(s, e.ref, e.caller), Ok((t.data, t.mime)))
    else (s, Err(NotFound))
  }

  function TakeFirst(s: State, e: Event): (State, Result<(Bytes, string)>)
    requires e.Take?
  {
    if !Owns(s, e.caller.client, e.ref) then (s, Err(NotFound))
    else
      var file := s.uploads[e.ref];
      var s' := s.(uploads := s.uploads - {e.ref});
      if |file.data| != file.size || file.sha != DigestOf(file.data) then (s', Err(InvalidArgument))
      else
        var t := Taken(e.caller.client, e.caller.request, file.data, file.mime, file.expires);
        (Give(s'.(taken := s'.taken[e.ref := t]), e.ref, e.caller), Ok((file.data, file.mime)))
  }

  function DoHold(s: State, e: Event): State
    requires e.Hold?
  {
    var s1 := Swept(s, e.times.first);
    s1.(clock := e.times.second,
        downloads := s1.downloads[(e.client, e.media) := Download(e.times.second + Ttl, e.data, e.mime)])
  }

  /** What the client is still paging through, if it lives. */
  function DoLook(s: State, e: Event): (State, Option<(Bytes, string)>)
    requires e.Look?
  {
    var s1 := Swept(s, e.times.first);
    (s1, if (e.client, e.media) in s1.downloads
         then Some((s1.downloads[(e.client, e.media)].data, s1.downloads[(e.client, e.media)].mime)) else None)
  }

  predicate Enabled(s: State, e: Event) {
    && s.clock <= e.times.first <= e.times.second <= e.times.third <= e.times.fourth
    && (e.Stage? ==> e.minted !in s.declared)
  }

  function Apply(s: State, e: Event): State {
    if !Enabled(s, e) then s else
      match e
      case Stage(_, _, _, _) => DoStage(s, e).0
      case Take(_, _, _) => DoTake(s, e).0
      case Hold(_, _, _, _, _) => DoHold(s, e)
      case Look(_, _, _) => DoLook(s, e).0
  }

  function Init(): State { State(0.0, map[], map[], map[], map[], map[], map[], map[]) }

  function Run(s: State, events: seq<Event>): State {
    if events == [] then s else Apply(Run(s, events[..|events| - 1]), events[|events| - 1])
  }
}
