/**
The staging area as it runs: dictionaries changed in place, a clock read several times in one call.
Each method leaves the fields as the step functions say, for the readings it drew, so the theorems over
every sequence of calls are about this code.  A minted ref is a parameter and has not been minted before.
*/
module StagedStore {
  import opened Base64
  import opened StagedMediaModel
  import opened StagedMediaSafety

  class StagedMedia {
    var clock: real
    var uploads: map<Ref, Staged>
    var replies: map<Caller, StoredReply>
    var taken: map<Ref, Taken>
    var downloads: map<(nat, nat), Download>
    ghost var declared: map<Ref, Staged>
    ghost var pieces: map<Ref, seq<Piece>>
    ghost var obtained: map<Ref, set<Caller>>
    ghost var trace: seq<Event>

    ghost function Here(): State
      reads this
    {
      State(clock, uploads, replies, taken, downloads, declared, pieces, obtained)
    }

    /** Everything that happened so far explains what is stored. */
    ghost predicate Valid()
      reads this
    {
      Here() == Run(Init(), trace)
    }

    constructor ()
      ensures Valid() && trace == []
    {
      clock, uploads, replies, taken, downloads, trace := 0.0, map[], map[], map[], map[], [];
      declared, pieces, obtained := map[], map[], map[];
    }

    method Read() returns (now: real)
      modifies this`clock
      ensures now == clock >= old(clock)
    {
      now := *;
      if now < clock { now := clock; }
      clock := now;
    }

    method Sweep()
      modifies this`clock, this`uploads, this`replies, this`taken, this`downloads
      ensures clock >= old(clock) && Here() == Swept(old(Here()), clock)
    {
      var now := Read();
      uploads := map r | r in uploads && uploads[r].expires > now :: uploads[r];
      replies := map c | c in replies && replies[c].expires > now :: replies[c];
      taken := map r | r in taken && taken[r].expires > now :: taken[r];
      downloads := map k | k in downloads && downloads[k].expires > now :: downloads[k];
    }

    /** `begin`, after its sweep. */
    method Begin(client: nat, call: Call, ref: Ref) returns (r: Result<Reply>)
      requires call.BeginCall? && ref !in declared
      modifies this`clock, this`uploads, this`declared, this`pieces, this`obtained
      ensures clock >= old(clock) && (Here(), r) == DoBegin(old(Here()), client, call, clock, ref)
    {
      if !MimeOk(call.mime) || !(0 < call.size <= MaxBytes) { return Err(InvalidArgument); }
      var now := Read();
      if call.sha.None? { return Err(InvalidArgument); }
      var file := Staged(client, call.mime, call.size, call.sha.value, now + Ttl, [], 0);
      uploads := uploads[ref := file];
      declared, pieces, obtained := declared[ref := file], pieces[ref := []], obtained[ref := {}];
      return Ok(Begun(ref, ChunkMax, 300));
    }

    /** `chunk`, after the sweep of its ownership check. */
    method Chunk(caller: Caller, call: Call) returns (r: Result<Reply>)
      requires call.ChunkCall?
      modifies this`uploads, this`pieces
      ensures (Here(), r) == DoChunk(old(Here()), caller, call)
    {
      var ref := call.ref;
      if ref !in uploads || uploads[ref].client != caller.client { return Err(NotFound); }
      var file := uploads[ref];
      if call.seqNo != file.nextSeq { return Err(InvalidArgument); }
      var piece := DecodeB64(call.encoded, ChunkMax);
      if piece.Err? { return Err(InvalidArgument); }
      var data := file.data + piece.value;
      if |data| > file.size { return Err(InvalidArgument); }
      uploads := uploads[ref := file.(data := data, nextSeq := file.nextSeq + 1)];
      if ref in pieces { pieces := pieces[ref := pieces[ref] + [Piece(caller, piece.value)]]; }
      return Ok(Received(ref, |data|, |data| == file.size));
    }

    /** A staging tool call under its request id. */
    method Replayed(caller: Caller, call: Call, ref: Ref) returns (r: Result<Reply>, replayed: bool, ghost e: Event)
      requires Valid() && ref !in declared
      modifies this
      ensures Valid() && trace == old(trace) + [e]
      ensures e.Stage? && e.caller == caller && e.call == call && Enabled(old(Here()), e) && (Here(), r) == DoStage(old(Here()), e)
      ensures replayed <==> caller in Swept(old(Here()), e.times.first).replies
    {
      ghost var before := Here();
      Sweep();
      ghost var first := clock;
      if caller in replies {
        r, replayed := Ok(replies[caller].reply), true;
        e := Stage(caller, call, Times(first, first, first, first), ref);
      } else {
        replayed := false;
        ghost var second, third;
        r, second, third := StageNew(caller, call, ref);
        e := Stage(caller, call, Times(first, second, third, clock), ref);
      }
      Note(e, before);
    }

    ghost method Note(e: Event, before: State)
      requires before == Run(Init(), trace) && Enabled(before, e)
      requires Here() == Apply(before, e)
      modifies this`trace
      ensures Valid() && trace == old(trace) + [e]
    {
      OneMore(trace, e);
      trace := trace + [e];
    }

    /** The call itself, and its remembered answer. */
    method StageNew(caller: Caller, call: Call, ref: Ref) returns (r: Result<Reply>, ghost second: real, ghost third: real)
      requires ref !in declared
      modifies this`clock, this`uploads, this`replies, this`taken, this`downloads, this`declared, this`pieces, this`obtained
      ensures old(clock) <= second <= third <= clock
      ensures var s2 := Swept(old(Here()), second);
        (Here(), r) == Replied(if call.BeginCall? then DoBegin(s2, caller.client, call, third, ref) else DoChunk(s2, caller, call), caller, clock)
    {
      Sweep();
      second, third := clock, clock;
      if call.BeginCall? {
        r := Begin(caller.client, call, ref);
        third := clock;
      } else {
        r := Chunk(caller, call);
      }
      if r.Ok? {
        var now := Read();
        replies := replies[caller := StoredReply(now + Ttl, r.value)];
      }
    }

    method TakeFile(caller: Caller, ref: Ref) returns (r: Result<(Bytes, string)>, ghost e: Event)
      requires Valid()
      modifies this
      ensures Valid() && trace == old(trace) + [e]
      ensures e.Take? && e.caller == caller && e.ref == ref && Enabled(old(Here()), e) && (Here(), r) == DoTake(old(Here()), e)
    {
      ghost var before := Here();
      Sweep();
      ghost var first := clock;
      if ref in taken {
        var t := taken[ref];
        e := Take(caller, ref, Times(first, first, first, first));
        if t.client == caller.client && t.request == caller.request {
          if ref in obtained { obtained := obtained[ref := obtained[ref] + {caller}]; }
          r := Ok((t.data, t.mime));
        } else {
          r := Err(NotFound);
        }
      } else {
        Sweep();
        e := Take(caller, ref, Times(first, clock, clock, clock));
        r := TakeOut(caller, ref);
      }
      Note(e, before);
    }

    method HoldDownload(client: nat, media: nat, data: Bytes, mime: string) returns (ghost e: Event)
      requires Valid()
      modifies this
      ensures Valid() && trace == old(trace) + [e] && Enabled(old(Here()), e)
      ensures e == Hold(client, media, data, mime, e.times)
      ensures LastHeld(trace, client, media) == Some(Download(e.times.second + Ttl, data, mime))
    {
      ghost var before := Here();
      Sweep();
      ghost var first := clock;
      var now := Read();
      downloads := downloads[(client, media) := Download(now + Ttl, data, mime)];
      e := Hold(client, media, data, mime, Times(first, now, now, now));
      Note(e, before);
      assert trace[..|trace| - 1] == old(trace);
    }

    /** A page of a held file is served only from what this client put there last. */
    method HeldDownload(client: nat, media: nat) returns (held: Option<(Bytes, string)>, ghost e: Event)
      requires Valid()
      modifies this
      ensures Valid() && trace == old(trace) + [e] && Enabled(old(Here()), e)
      ensures e == Look(client, media, e.times) && held == DoLook(old(Here()), e).1
      ensures held.Some? ==> LastHeld(old(trace), client, media).Some? && LastHeld(old(trace), client, media).value.data == held.value.0
    {
      ghost var before := Here();
      Sweep();
      e := Look(client, media, Times(clock, clock, clock, clock));
      held := if (client, media) in downloads then Some((downloads[(client, media)].data, downloads[(client, media)].mime)) else None;
      if held.Some? { HeldIsWhatWasPutThere(trace, e); }
      Note(e, before);
    }

    method TakeOut(caller: Caller, ref: Ref) returns (r: Result<(Bytes, string)>)
      requires ref !in taken
      modifies this`uploads, this`taken, this`obtained
      ensures var s := old(Here());
        if !Owns(s, caller.client, ref) then Here() == s && r == Err(NotFound)
        else
          var file := s.uploads[ref];
          if |file.data| != file.size || file.sha != DigestOf(file.data)
          then Here() == s.(uploads := s.uploads - {ref}) && r == Err(InvalidArgument)
          else
            && Here() == Give(s.(uploads := s.uploads - {ref},
                                 taken := s.taken[ref := Taken(caller.client, caller.request, file.data, file.mime, file.expires)]), ref, caller)
            && r == Ok((file.data, file.mime))
    {
      if ref !in uploads || uploads[ref].client != caller.client { return Err(NotFound); }
      var file := uploads[ref];
      uploads := uploads - {ref};
      if |file.data| != file.size || file.sha != DigestOf(file.data) { return Err(InvalidArgument); }
      taken := taken[ref := Taken(caller.client, caller.request, file.data, file.mime, file.expires)];
      if ref in obtained { obtained := obtained[ref := obtained[ref] + {caller}]; }
      return Ok((file.data, file.mime));
    }
  }
}
