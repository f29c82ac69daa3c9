/** The mailbox object: one Durable Object, its tables and its rate bound. */
module RelayMailbox {
  import opened ByteStrings
  import opened RelayMail
  import opened RelayProtocol

  const BUCKET_CAPACITY: real := 60.0
  const BUCKET_PER_SECOND: real := 0.5
  const RETENTION_MS: int := 30 * 24 * 60 * 60 * 1000

  datatype Bucket = Bucket(tokens: real, refilled: int)

  /** The tokens earned over a span of milliseconds. */
  function Earned(ms: int): real { ms as real / 1000.0 * BUCKET_PER_SECOND }

  /** An attempt spends at most what was there and what was earned since; only the brim loses tokens; and a
      delivery is refused exactly when less than one token is left. */
  ghost predicate Spends(b: Bucket, ok: bool, b': Bucket) {
    var spent, earned := if ok then 1.0 else 0.0, Earned(b'.refilled - b.refilled);
    && b'.tokens + spent <= BUCKET_CAPACITY && b'.tokens + spent <= b.tokens + earned
    && (b'.tokens + spent == b.tokens + earned || b'.tokens + spent == BUCKET_CAPACITY)
    && (if ok then b'.tokens >= 0.0 else b'.tokens < 1.0)
  }

  ghost predicate SpendsAt(levels: seq<Bucket>, oks: seq<bool>, i: int) {
    0 <= i < |oks| && i + 1 < |levels| ==> Spends(levels[i], oks[i], levels[i + 1])
  }

  /** The levels around a sequence of attempts. */
  ghost predicate Attempts(levels: seq<Bucket>, oks: seq<bool>) {
    |levels| == |oks| + 1 && forall i :: SpendsAt(levels, oks, i)
  }

  function Accepted(oks: seq<bool>): nat {
    if oks == [] then 0 else Accepted(oks[..|oks| - 1]) + if oks[|oks| - 1] then 1 else 0
  }

  ghost predicate ClockRises(levels: seq<Bucket>) {
    forall i, j :: 0 <= i < j < |levels| ==> levels[i].refilled <= levels[j].refilled
  }

  lemma {:induction false} SpentIsEarned(levels: seq<Bucket>, oks: seq<bool>)
    requires Attempts(levels, oks)
    ensures Accepted(oks) as real + levels[|oks|].tokens <= levels[0].tokens + Earned(levels[|oks|].refilled - levels[0].refilled)
    decreases |oks|
  {
    if oks != [] {
      var n := |oks| - 1;
      var most, first := levels[..n + 1], oks[..n];
      forall i ensures SpendsAt(most, first, i) { assert SpendsAt(levels, oks, i); }
      SpentIsEarned(most, first);
      assert SpendsAt(levels, oks, n);
    }
  }

  lemma {:induction false} LevelStaysInside(levels: seq<Bucket>, oks: seq<bool>, i: nat)
    requires Attempts(levels, oks) && ClockRises(levels) && i < |levels| && 0.0 <= levels[0].tokens <= BUCKET_CAPACITY
    ensures 0.0 <= levels[i].tokens <= BUCKET_CAPACITY
  {
    if i > 0 {
      LevelStaysInside(levels, oks, i - 1);
      assert SpendsAt(levels, oks, i - 1);
    }
  }

  /** Over any span of a clock that does not go back, at most the capacity plus the refill of that span is
      accepted. */
  lemma DeliveriesWithinTheRate(levels: seq<Bucket>, oks: seq<bool>)
    requires Attempts(levels, oks) && ClockRises(levels) && 0.0 <= levels[0].tokens <= BUCKET_CAPACITY
    ensures Accepted(oks) as real <= 60.0 + (levels[|oks|].refilled - levels[0].refilled) as real / 2000.0
  {
    SpentIsEarned(levels, oks);
    LevelStaysInside(levels, oks, |oks|);
  }

  class Mailbox {
    var mail: seq<Row>
    var nextSeq: nat
    var purgedThrough: nat
    var tokens: real
    var refilled: int

    constructor (now: int)
      ensures State() == Init().box
      ensures tokens == BUCKET_CAPACITY && refilled == now
    {
      mail, nextSeq, purgedThrough := [], 1, 0;
      tokens, refilled := BUCKET_CAPACITY, now;
    }

    function State(): Box
      reads this
    {
      Box(mail, nextSeq, purgedThrough)
    }

    function Level(): Bucket
      reads this
    {
      Bucket(tokens, refilled)
    }

    /** One attempt on the bucket at the time `now`. */
    method TakeToken(now: int) returns (ok: bool)
      modifies this`tokens, this`refilled
      ensures refilled == now && Spends(old(Level()), ok, Level())
      ensures old(tokens) >= 0.0 && now >= old(refilled) ==> 0.0 <= tokens <= BUCKET_CAPACITY
    {
      var filled := tokens + (now - refilled) as real / 1000.0 * BUCKET_PER_SECOND;
      tokens := if filled < BUCKET_CAPACITY then filled else BUCKET_CAPACITY;
      refilled := now;
      if tokens < 1.0 { return false; }
      tokens := tokens - 1.0;
      return true;
    }

    /** A delivery that finds a token is cut into parts which are stored together. */
    method Store(raw: Bytes, signature: string, batch: nat, to: nat, sizes: seq<nat>, now: int) returns (code: int)
      modifies this
      ensures code == 200 || code == 429
      ensures code == 429 ==> State() == old(State())
      ensures code == 200 ==>
        var d := Delivery(old(nextSeq), batch, now, raw, signature, to, sizes);
        State() == Box(old(mail) + RowsOf(d), old(nextSeq) + Parts(raw), old(purgedThrough))
    {
      var ok := TakeToken(now);
      if !ok { return 429; }
      var parts := if |raw| == 0 then 1 else (|raw| + PART_BYTES - 1) / PART_BYTES;
      var cut: seq<Row> := [];
      ghost var d := Delivery(nextSeq, batch, now, raw, signature, to, sizes);
      for part := 0 to parts
        invariant cut == RowsOf(d)[..part]
      {
        var slice := raw[Min(part * PART_BYTES, |raw|)..Min((part + 1) * PART_BYTES, |raw|)];
        var sealed := Ciphertext(to, Letter(Envelope(batch, part, parts, slice, now, signature)),
                                 if part < |sizes| then sizes[part] else 0);
        cut := cut + [Row(nextSeq + part, now, batch, part, parts, sealed)];
      }
      mail, nextSeq := mail + cut, nextSeq + parts;
      return 200;
    }

    /** One page: rows after `after`, at least one, within the row and the byte bound. */
    method Pull(after: nat, limit: nat) returns (rows: seq<Row>, purged: nat, depth: nat)
      ensures rows == PageOf(mail, after, limit)
      ensures purged == purgedThrough && depth == |mail|
      ensures |rows| <= limit && |rows| <= 50 && (|rows| > 1 ==> SizeOf(rows) <= 256 * 1024)
      ensures var all := Above(mail, after);
        rows <= all && (|rows| < |all| && |rows| < Min(limit, 50) ==> |rows| > 0 && SizeOf(rows) + all[|rows|].cipher.size > 256 * 1024)
    {
      var cursor := Above(mail, after);
      var top := Min(|cursor|, Min(limit, PAGE_ROWS));
      rows := [];
      var bytes := 0;
      var i := 0;
      while i < top
        invariant 0 <= i <= top && rows == cursor[..i] && bytes == SizeOf(rows)
        invariant Fitting(cursor, i) == i && (i > 1 ==> bytes <= PAGE_BYTES)
        decreases top - i
      {
        var r := cursor[i];
        if |rows| > 0 && bytes + r.cipher.size > PAGE_BYTES {
          StaysCut(cursor, i, top);
          break;
        }
        bytes := bytes + r.cipher.size;
        assert cursor[..i + 1][..i] == cursor[..i];
        rows := rows + [r];
        i := i + 1;
      }
      purged, depth := purgedThrough, |mail|;
    }

    /** Acked mail goes, the rest stays in its order; acking the same again finds nothing to delete. */
    method Ack(through: nat) returns (deleted: int)
      modifies this`mail
      ensures forall r :: r in mail <==> r in old(mail) && r.seqNo > through
      ensures deleted == |old(mail)| - |mail| && Above(mail, through) == mail == Above(old(mail), through)
    {
      var before := |mail|;
      mail := Above(mail, through);
      deleted := before - |mail|;
      AboveMembers(old(mail), through);
      AboveTwice(old(mail), through);
    }

    method Alarm(now: int)
      modifies this`mail, this`purgedThrough
      ensures match Expired(old(mail), now - 30 * 24 * 3600 * 1000)
        case None => State() == old(State())
        case Some(top) =>
          mail == Above(old(mail), top) && purgedThrough == Max(old(purgedThrough), top)
    {
      var cutoff := now - RETENTION_MS;
      var i := |mail|;
      assert mail[..i] == mail;
      while i > 0
        invariant 0 <= i <= |mail|
        invariant Expired(mail, cutoff) == Expired(mail[..i], cutoff)
      {
        assert mail[..i][..i - 1] == mail[..i - 1];
        if mail[i - 1].receivedAt < cutoff {
          var top := mail[i - 1].seqNo;
          mail := Above(mail, top);
          purgedThrough := if purgedThrough > top then purgedThrough else top;
          return;
        }
        i := i - 1;
      }
    }
  }

  lemma {:induction false} StaysCut(rows: seq<Row>, i: nat, n: nat)
    requires 0 < i < n <= |rows| && Fitting(rows, i) == i
    requires SizeOf(rows[..i]) + rows[i].cipher.size > PAGE_BYTES
    ensures Fitting(rows, n) == i
    decreases n
  {
    if n > i + 1 { StaysCut(rows, i, n - 1); }
  }
}
