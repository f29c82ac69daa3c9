/** Bytes as the relay, the collector and the canonical encoder handle them. */
module ByteStrings {
  type Byte = b: int | 0 <= b < 256
  type Bytes = seq<Byte>
}

/**
The mailbox side of the WhatsApp relay: how a webhook body is cut into parts, what a stored
row holds, and what one page of a pull contains.  Encryption is ideal: a ciphertext is its
recipient, its plaintext and its length.
*/
module RelayMail {
  import opened ByteStrings

  const PART_BYTES: nat := 1024 * 1024
  const PAGE_ROWS: nat := 50
  const PAGE_BYTES: nat := 256 * 1024
  const MAX_BODY_BYTES: nat := 8 * 1024 * 1024

  datatype Envelope = Envelope(batch: nat, part: nat, parts: nat, raw: Bytes, receivedAt: int, signature: string)

  /** What a ciphertext opens to: a well-shaped envelope, or anything else. */
  datatype Plain = Letter(envelope: Envelope) | Scrap

  datatype Ciphertext = Ciphertext(to: nat, plain: Plain, size: nat)

  datatype Row = Row(seqNo: nat, receivedAt: int, batch: nat, part: nat, parts: nat, cipher: Ciphertext)

  /** One webhook answered 200: its first row has seq `start`. */
  datatype Delivery = Delivery(start: nat, batch: nat, receivedAt: int, body: Bytes, signature: string,
                               to: nat, sizes: seq<nat>)

  function Min(a: int, b: int): int { if a < b then a else b }

  function Max(a: int, b: int): int { if a > b then a else b }

  /** max(1, ceil(length / PART_BYTES)) */
  function Parts(body: Bytes): (n: nat)
    ensures n >= 1
    ensures (n - 1) * PART_BYTES <= |body| <= n * PART_BYTES
    ensures |body| <= MAX_BODY_BYTES ==> n <= 8
  {
    if |body| == 0 then 1 else (|body| + PART_BYTES - 1) / PART_BYTES
  }

  /** `subarray(i * PART_BYTES, (i + 1) * PART_BYTES)`, which clamps at the end. */
  function Slice(body: Bytes, i: nat): Bytes {
    body[Min(i * PART_BYTES, |body|)..Min((i + 1) * PART_BYTES, |body|)]
  }

  function RowOf(d: Delivery, i: nat): Row {
    var n := Parts(d.body);
    Row(d.start + i, d.receivedAt, d.batch, i, n,
        Ciphertext(d.to, Letter(Envelope(d.batch, i, n, Slice(d.body, i), d.receivedAt, d.signature)),
                   if i < |d.sizes| then d.sizes[i] else 0))
  }

  function RowsOf(d: Delivery): seq<Row> {
    seq(Parts(d.body), i requires 0 <= i => RowOf(d, i))
  }

  function Join(parts: seq<Bytes>): Bytes {
    if parts == [] then [] else Join(parts[..|parts| - 1]) + parts[|parts| - 1]
  }

  lemma {:induction false} JoinOfSlices(body: Bytes, n: nat)
    ensures Join(seq(n, i requires 0 <= i => Slice(body, i))) == body[..Min(n * PART_BYTES, |body|)]
  {
    if n > 0 {
      var all := seq(n, i requires 0 <= i => Slice(body, i));
      assert all[..n - 1] == seq(n - 1, i requires 0 <= i => Slice(body, i));
      JoinOfSlices(body, n - 1);
    }
  }

  /** Cutting a body into parts and joining them gives the body back, the empty body included. */
  lemma SplitThenJoin(body: Bytes)
    ensures Join(seq(Parts(body), i requires 0 <= i => Slice(body, i))) == body
    ensures forall i :: 0 <= i < Parts(body) ==> |Slice(body, i)| <= 1024 * 1024
    ensures forall i :: 0 <= i < Parts(body) - 1 ==> |Slice(body, i)| == 1024 * 1024
  {
    JoinOfSlices(body, Parts(body));
  }

  // -- the history of deliveries ------------------------------------------------------------

  predicate Covers(d: Delivery, k: nat) {
    d.start <= k < d.start + Parts(d.body)
  }

  function NextSeq(ds: seq<Delivery>): nat {
    if ds == [] then 1 else ds[|ds| - 1].start + Parts(ds[|ds| - 1].body)
  }

  /** `seq` is AUTOINCREMENT and a batch is one transaction: deliveries tile 1, 2, 3, ... */
  ghost predicate Tiled(ds: seq<Delivery>) {
    forall j :: FollowsOn(ds, j)
  }

  ghost predicate FollowsOn(ds: seq<Delivery>, j: int) {
    0 <= j < |ds| ==> ds[j].start == if j == 0 then 1 else ds[j - 1].start + Parts(ds[j - 1].body)
  }

  ghost predicate Owns(ds: seq<Delivery>, j: int, k: nat) {
    0 <= j < |ds| && Covers(ds[j], k)
  }

  lemma {:induction false} StartsClimb(ds: seq<Delivery>, i: int, j: int)
    requires Tiled(ds) && 0 <= i < j < |ds|
    ensures ds[i].start + Parts(ds[i].body) <= ds[j].start
    decreases j
  {
    assert FollowsOn(ds, j);
    if i < j - 1 {
      StartsClimb(ds, i, j - 1);
    }
  }

  lemma OwnerUnique(ds: seq<Delivery>, i: int, j: int, k: nat)
    requires Tiled(ds) && Owns(ds, i, k) && Owns(ds, j, k)
    ensures i == j
  {
    if i < j { StartsClimb(ds, i, j); }
    if j < i { StartsClimb(ds, j, i); }
  }

  lemma OwnedBelowNext(ds: seq<Delivery>, j: int, k: nat)
    requires Tiled(ds) && Owns(ds, j, k)
    ensures 1 <= k < NextSeq(ds)
    ensures ds[j].start + Parts(ds[j].body) <= NextSeq(ds)
  {
    var last := |ds| - 1;
    if j < last { StartsClimb(ds, j, last); }
    StartsPositive(ds, j);
  }

  lemma {:induction false} StartsPositive(ds: seq<Delivery>, j: int)
    requires Tiled(ds) && 0 <= j < |ds|
    ensures ds[j].start >= 1
    decreases j
  {
    assert FollowsOn(ds, j);
    if j > 0 { StartsPositive(ds, j - 1); }
  }

  lemma TiledAppend(ds: seq<Delivery>, d: Delivery)
    requires Tiled(ds) && d.start == NextSeq(ds)
    ensures Tiled(ds + [d])
    ensures NextSeq(ds + [d]) == d.start + Parts(d.body)
  {
    var more := ds + [d];
    forall j ensures FollowsOn(more, j) { assert FollowsOn(ds, j); }
  }

  /** `r` is exactly the row the mailbox stored under its seq. */
  ghost predicate Genuine(ds: seq<Delivery>, r: Row) {
    exists j :: Owns(ds, j, r.seqNo) && r == RowOf(ds[j], r.seqNo - ds[j].start)
  }

  lemma GenuineAppend(ds: seq<Delivery>, d: Delivery, r: Row)
    requires Genuine(ds, r)
    ensures Genuine(ds + [d], r)
  {
    var j :| Owns(ds, j, r.seqNo) && r == RowOf(ds[j], r.seqNo - ds[j].start);
    assert Owns(ds + [d], j, r.seqNo);
  }

  lemma RowOfOwner(ds: seq<Delivery>, j: int, r: Row)
    requires Tiled(ds) && Genuine(ds, r) && Owns(ds, j, r.seqNo)
    ensures r == RowOf(ds[j], r.seqNo - ds[j].start)
  {
    var q :| Owns(ds, q, r.seqNo) && r == RowOf(ds[q], r.seqNo - ds[q].start);
    OwnerUnique(ds, q, j, r.seqNo);
  }

  /** `p` is the last seq of some delivery (or nothing was stored yet). */
  ghost predicate Boundary(ds: seq<Delivery>, p: nat) {
    p == 0 || exists j :: 0 <= j < |ds| && p == ds[j].start + Parts(ds[j].body) - 1
  }

  /** The row after a boundary opens a delivery. */
  lemma AfterBoundary(ds: seq<Delivery>, p: nat, r: Row)
    requires Tiled(ds) && Boundary(ds, p) && Genuine(ds, r) && r.seqNo == p + 1
    ensures r.part == 0
  {
    var j :| Owns(ds, j, r.seqNo) && r == RowOf(ds[j], r.seqNo - ds[j].start);
    if p != 0 {
      var i :| 0 <= i < |ds| && p == ds[i].start + Parts(ds[i].body) - 1;
      if r.part > 0 {
        assert Owns(ds, j, p) && Owns(ds, i, p);
        OwnerUnique(ds, i, j, p);
      }
    } else {
      StartsPositive(ds, j);
    }
  }

  /** Rows of one unfinished batch followed by the next seq: the same batch goes on. */
  lemma SameBatchGoesOn(ds: seq<Delivery>, a: Row, b: Row)
    requires Tiled(ds) && Genuine(ds, a) && Genuine(ds, b)
    requires b.seqNo == a.seqNo + 1 && a.part + 1 < a.parts
    ensures b.batch == a.batch && b.part == a.part + 1 && b.parts == a.parts
  {
    var j := OwnerOfLast(ds, a);
    RowOfOwner(ds, j, a);
    RowOfOwner(ds, j, b);
  }

  /** Rows in consecutive seqs with parts 0, 1, 2, ... that reach their own count. */
  ghost predicate InOrder(rows: seq<Row>) {
    forall i :: 0 <= i < |rows| ==> rows[i].part == i && rows[i].seqNo == rows[0].seqNo + i
  }

  lemma OwnerOfLast(ds: seq<Delivery>, last: Row) returns (j: int)
    requires Genuine(ds, last)
    ensures Owns(ds, j, last.seqNo)
    ensures ds[j].start == last.seqNo - last.part && Parts(ds[j].body) == last.parts
    ensures last.part < last.parts
  {
    j :| Owns(ds, j, last.seqNo) && last == RowOf(ds[j], last.seqNo - ds[j].start);
  }

  /** Such rows are one delivery, whole: never a mix of batches. */
  lemma WholeBatch(ds: seq<Delivery>, rows: seq<Row>) returns (j: int)
    requires Tiled(ds) && rows != [] && InOrder(rows)
    requires forall r :: r in rows ==> Genuine(ds, r)
    requires |rows| >= rows[|rows| - 1].parts
    ensures 0 <= j < |ds| && rows == RowsOf(ds[j]) && rows[0].seqNo == ds[j].start
  {
    var last := rows[|rows| - 1];
    j := OwnerOfLast(ds, last);
    var whole := RowsOf(ds[j]);
    assert |whole| == |rows|;
    forall i | 0 <= i < |rows| ensures rows[i] == whole[i] {
      assert rows[i] in rows;
      RowOfOwner(ds, j, rows[i]);
    }
  }

  // -- the stored rows and one page of them -------------------------------------------------

  ghost predicate Sorted(rows: seq<Row>) {
    forall i, j :: 0 <= i < j < |rows| ==> rows[i].seqNo < rows[j].seqNo
  }

  ghost predicate Holds(rows: seq<Row>, k: nat) {
    exists i :: 0 <= i < |rows| && rows[i].seqNo == k
  }

  /** Drops the rows with seq at most `through` (DELETE ... WHERE seq <= through). */
  function Above(rows: seq<Row>, through: nat): seq<Row> {
    if rows == [] then [] else
      var rest := Above(rows[..|rows| - 1], through);
      if rows[|rows| - 1].seqNo > through then rest + [rows[|rows| - 1]] else rest
  }

  lemma {:induction false} AboveKeeps(rows: seq<Row>, through: nat)
    requires Sorted(rows)
    ensures Sorted(Above(rows, through))
    ensures forall r :: r in Above(rows, through) <==> r in rows && r.seqNo > through
    ensures forall k: nat :: Holds(Above(rows, through), k) <==> Holds(rows, k) && k > through
  {
    if rows != [] {
      var n := |rows| - 1;
      AboveKeeps(rows[..n], through);
      assert rows == rows[..n] + [rows[n]];
      var kept := Above(rows, through);
      var rest := Above(rows[..n], through);
      forall r ensures r in kept <==> r in rows && r.seqNo > through {
      }
      assert Sorted(kept) by {
        forall i, j | 0 <= i < j < |kept| ensures kept[i].seqNo < kept[j].seqNo {
          if j == |rest| {
            assert kept[i] in rest;
            assert kept[i] in rows[..n];
          }
        }
      }
      HoldsByMembers(kept);
      HoldsByMembers(rows);
    }
  }

  lemma {:induction false} AboveMembers(rows: seq<Row>, through: nat)
    ensures forall r :: r in Above(rows, through) <==> r in rows && r.seqNo > through
  {
    if rows != [] {
      AboveMembers(rows[..|rows| - 1], through);
      assert rows == rows[..|rows| - 1] + [rows[|rows| - 1]];
    }
  }

  lemma {:induction false} AboveTwice(rows: seq<Row>, through: nat)
    ensures Above(Above(rows, through), through) == Above(rows, through)
  {
    if rows != [] {
      var n := |rows| - 1;
      AboveTwice(rows[..n], through);
      if rows[n].seqNo > through {
        assert Above(rows, through)[..|Above(rows, through)| - 1] == Above(rows[..n], through);
      }
    }
  }

  lemma {:induction false} AboveIsASuffix(rows: seq<Row>, through: nat) returns (i: nat)
    requires Sorted(rows)
    ensures i <= |rows| && Above(rows, through) == rows[i..]
  {
    if rows == [] {
      i := 0;
    } else {
      var n := |rows| - 1;
      i := AboveIsASuffix(rows[..n], through);
      if rows[n].seqNo > through {
        assert rows[..n][i..] + [rows[n]] == rows[i..];
      } else {
        AboveKeeps(rows[..n], through);
        var kept := Above(rows[..n], through);
        assert forall r :: r in kept ==> r in rows[..n] && r.seqNo > through;
        assert forall r :: r in rows[..n] ==> r.seqNo < rows[n].seqNo;
        i := |rows|;
      }
    }
  }

  lemma HoldsByMembers(rows: seq<Row>)
    ensures forall k: nat :: Holds(rows, k) <==> exists r :: r in rows && r.seqNo == k
  {
    forall k: nat ensures Holds(rows, k) <==> exists r :: r in rows && r.seqNo == k {
      if Holds(rows, k) {
        var i :| 0 <= i < |rows| && rows[i].seqNo == k;
        assert rows[i] in rows;
      }
    }
  }

  /** How many of `rows` fit one page: at least one, then while the byte budget holds. */
  function Fitting(rows: seq<Row>, n: nat): (m: nat)
    requires n <= |rows|
    ensures m <= n && (n > 0 ==> m > 0)
  {
    if n == 0 then 0 else
      var before := Fitting(rows, n - 1);
      if before < n - 1 then before
      else if before > 0 && SizeOf(rows[..before]) + rows[before].cipher.size > PAGE_BYTES then before
      else n
  }

  function SizeOf(rows: seq<Row>): nat {
    if rows == [] then 0 else SizeOf(rows[..|rows| - 1]) + rows[|rows| - 1].cipher.size
  }

  /** SELECT ... WHERE seq > after ORDER BY seq LIMIT min(limit, PAGE_ROWS), cut at PAGE_BYTES. */
  function PageOf(mail: seq<Row>, after: nat, limit: nat): seq<Row> {
    var rows := Above(mail, after);
    rows[..Fitting(rows, Min(|rows|, Min(limit, PAGE_ROWS)))]
  }

  /** What a prefix of sorted rows holds, up to its last row, is what the rows hold. */
  lemma PrefixHolds(rows: seq<Row>, n: nat, k: nat)
    requires Sorted(rows) && 0 < n <= |rows| && k <= rows[n - 1].seqNo && Holds(rows, k)
    ensures Holds(rows[..n], k)
  {
    var i :| 0 <= i < |rows| && rows[i].seqNo == k;
    assert i < n;
    assert rows[..n][i].seqNo == k;
  }

  lemma PageIsEmptyAtTheEnd(mail: seq<Row>, after: nat, limit: nat)
    requires Sorted(mail) && limit > 0
    ensures PageOf(mail, after, limit) == [] <==> forall k: nat :: k > after ==> !Holds(mail, k)
  {
    AboveKeeps(mail, after);
    var rows := Above(mail, after);
    if rows != [] {
      assert Holds(rows, rows[0].seqNo);
    } else {
      assert forall k: nat :: !Holds(rows, k);
    }
  }

  lemma PageMembers(mail: seq<Row>, after: nat, limit: nat)
    requires Sorted(mail)
    ensures var page := PageOf(mail, after, limit);
      Sorted(page) && forall r :: r in page ==> r in mail && r.seqNo > after
  {
    AboveKeeps(mail, after);
    assert forall r :: r in PageOf(mail, after, limit) ==> r in Above(mail, after);
  }

  lemma PageHolds(mail: seq<Row>, after: nat, limit: nat, k: nat)
    requires Sorted(mail) && PageOf(mail, after, limit) != [] && Holds(mail, k)
    requires after < k <= PageOf(mail, after, limit)[|PageOf(mail, after, limit)| - 1].seqNo
    ensures Holds(PageOf(mail, after, limit), k)
  {
    AboveKeeps(mail, after);
    PrefixHolds(Above(mail, after), |PageOf(mail, after, limit)|, k);
  }

  /** A page is what comes after the cursor, in order and without omission, and empty only at the end. */
  lemma PageIsAPrefix(mail: seq<Row>, after: nat, limit: nat)
    requires Sorted(mail) && limit > 0
    ensures var page := PageOf(mail, after, limit);
      && Sorted(page)
      && (forall r :: r in page ==> r in mail && r.seqNo > after)
      && (page == [] <==> forall k: nat :: k > after ==> !Holds(mail, k))
      && (page != [] ==> forall k: nat :: after < k <= page[|page| - 1].seqNo && Holds(mail, k) ==> Holds(page, k))
  {
    PageIsEmptyAtTheEnd(mail, after, limit);
    PageMembers(mail, after, limit);
    var page := PageOf(mail, after, limit);
    if page != [] {
      forall k: nat | after < k <= page[|page| - 1].seqNo && Holds(mail, k) ensures Holds(page, k) {
        PageHolds(mail, after, limit, k);
      }
    }
  }
}
