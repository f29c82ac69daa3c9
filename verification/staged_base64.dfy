/** Strict base64 (section 4 of RFC 4648), as staged pieces travel. */
module Base64 {
  datatype Option<+T> = None | Some(value: T)

  type Byte = b: nat | b < 256
  type Bytes = seq<Byte>
  type Six = d: nat | d < 64

  /** A character by its place in the alphabet, the padding, or anything else. */
  datatype Sym = D(d: Six) | Pad | Bad

  function SymOf(c: char): Sym {
    var n := c as int;
    if 65 <= n <= 90 then D(n - 65)
    else if 97 <= n <= 122 then D(n - 71)
    else if 48 <= n <= 57 then D(n + 4)
    else if c == '+' then D(62)
    else if c == '/' then D(63)
    else if c == '=' then Pad
    else Bad
  }

  function CharOf(s: Sym): (c: char)
    requires !s.Bad?
    ensures SymOf(c) == s
  {
    match s
    case Pad => '='
    case D(d) =>
      if d < 26 then (d + 65) as char
      else if d < 52 then (d + 71) as char
      else if d < 62 then (d - 4) as char
      else if d == 62 then '+' else '/'
  }

  /** The three bytes of a group of four digits. */
  function First(a: Six, b: Six): Byte { a * 4 + b / 16 }

  function Second(b: Six, c: Six): Byte { b % 16 * 16 + c / 4 }

  function Third(c: Six, d: Six): Byte { c % 4 * 64 + d }

  /** Groups of four, padding only at the very end, nothing outside the alphabet. */
  function DecodeSyms(t: seq<Sym>): Option<Bytes> {
    if t == [] then Some([])
    else if |t| < 4 || !t[0].D? || !t[1].D? then None
    else if t[2].Pad? then if |t| == 4 && t[3].Pad? then Some([First(t[0].d, t[1].d)]) else None
    else if t[2].Bad? then None
    else if t[3].Pad? then if |t| == 4 then Some([First(t[0].d, t[1].d), Second(t[1].d, t[2].d)]) else None
    else if t[3].Bad? then None
    else
      var rest := DecodeSyms(t[4..]);
      if rest.None? then None
      else Some([First(t[0].d, t[1].d), Second(t[1].d, t[2].d), Third(t[2].d, t[3].d)] + rest.value)
  }

  function EncodeSyms(b: Bytes): (t: seq<Sym>)
    ensures forall i :: 0 <= i < |t| ==> !t[i].Bad?
  {
    if b == [] then []
    else if |b| == 1 then [D(b[0] / 4), D(b[0] % 4 * 16), Pad, Pad]
    else if |b| == 2 then [D(b[0] / 4), D(b[0] % 4 * 16 + b[1] / 16), D(b[1] % 16 * 4), Pad]
    else [D(b[0] / 4), D(b[0] % 4 * 16 + b[1] / 16), D(b[1] % 16 * 4 + b[2] / 64), D(b[2] % 64)] + EncodeSyms(b[3..])
  }

  function Syms(t: string): seq<Sym> { seq(|t|, i requires 0 <= i < |t| => SymOf(t[i])) }

  function Decode(t: string): Option<Bytes> { DecodeSyms(Syms(t)) }

  function Encode(b: Bytes): string {
    var t := EncodeSyms(b);
    seq(|t|, i requires 0 <= i < |t| => CharOf(t[i]))
  }

  // -- length and round trip ---------------------------------------------------------------------

  lemma {:induction false} DecodedSymsLength(t: seq<Sym>)
    requires DecodeSyms(t).Some?
    ensures |t| == (|DecodeSyms(t).value| + 2) / 3 * 4
    decreases |t|
  {
    if t != [] && t[2].D? && t[3].D? { DecodedSymsLength(t[4..]); }
  }

  /** Only texts of this length decode to as many bytes. */
  lemma DecodedLength(t: string)
    requires Decode(t).Some?
    ensures |t| == (|Decode(t).value| + 2) / 3 * 4
  {
    DecodedSymsLength(Syms(t));
  }

  lemma OneByte(b: Byte)
    ensures First(b / 4, b % 4 * 16) == b
  {
  }

  lemma TwoBytes(a: Byte, b: Byte)
    ensures First(a / 4, a % 4 * 16 + b / 16) == a && Second(a % 4 * 16 + b / 16, b % 16 * 4) == b
  {
  }

  lemma ThreeBytes(a: Byte, b: Byte, c: Byte)
    ensures First(a / 4, a % 4 * 16 + b / 16) == a
    ensures Second(a % 4 * 16 + b / 16, b % 16 * 4 + c / 64) == b && Third(b % 16 * 4 + c / 64, c % 64) == c
  {
  }

  lemma {:induction false} SymsRoundTrip(b: Bytes)
    ensures DecodeSyms(EncodeSyms(b)) == Some(b)
    decreases |b|
  {
    if |b| == 1 {
      OneByte(b[0]);
      assert b == [b[0]];
    } else if |b| == 2 {
      TwoBytes(b[0], b[1]);
      assert b == [b[0], b[1]];
    } else if |b| >= 3 {
      SymsRoundTrip(b[3..]);
      ThreeBytes(b[0], b[1], b[2]);
      assert EncodeSyms(b)[4..] == EncodeSyms(b[3..]);
      assert b == [b[0], b[1], b[2]] + b[3..];
    }
  }

  /** What is encoded decodes to itself. */
  lemma RoundTrip(b: Bytes)
    ensures Decode(Encode(b)) == Some(b)
  {
    assert Syms(Encode(b)) == EncodeSyms(b);
    SymsRoundTrip(b);
  }

  // -- the alphabet and the groups, as the standard has them -----------------------------------------

  predicate InAlphabet(c: char) {
    'A' <= c <= 'Z' || 'a' <= c <= 'z' || '0' <= c <= '9' || c == '+' || c == '/'
  }

  /** Table 1 of RFC 4648: the letters, the small letters, the figures, the plus sign and the solidus. */
  function Place(c: char): nat
    requires InAlphabet(c)
  {
    if 'A' <= c <= 'Z' then c as int - 'A' as int
    else if 'a' <= c <= 'z' then 26 + (c as int - 'a' as int)
    else if '0' <= c <= '9' then 52 + (c as int - '0' as int)
    else if c == '+' then 62 else 63
  }

  /** A digit stands for its place in the alphabet; nothing else is a digit, and only the equals sign pads. */
  lemma AlphabetIsExact(c: char)
    ensures SymOf(c).D? <==> InAlphabet(c)
    ensures SymOf(c).D? ==> SymOf(c).d == Place(c)
    ensures SymOf(c).Pad? <==> c == '='
  {
  }

  /** Four digits and three bytes are the same twenty-four bits. */
  lemma GroupIsTheSameBits(a: Six, b: Six, c: Six, d: Six)
    ensures First(a, b) * 65536 + Second(b, c) * 256 + Third(c, d) == a * 262144 + b * 4096 + c * 64 + d
  {
  }

  /** Padding at the end, `p` characters of it, and digits before. */
  ghost predicate PaddedBy(t: seq<Sym>, p: nat) {
    p <= |t| && forall i :: 0 <= i < |t| ==> if i < |t| - p then t[i].D? else t[i].Pad?
  }

  lemma {:induction false} SymsDecodeExactly(t: seq<Sym>)
    ensures DecodeSyms(t).Some? <==> |t| % 4 == 0 && exists p: nat :: p <= 2 && PaddedBy(t, p)
    decreases |t|
  {
    if t == [] {
      assert PaddedBy(t, 0);
    } else if |t| >= 4 {
      var rest := t[4..];
      SymsDecodeExactly(rest);
      if |t| == 4 {
        if DecodeSyms(t).Some? { assert PaddedBy(t, if t[2].Pad? then 2 else if t[3].Pad? then 1 else 0); }
      } else {
        MoreGroups(t);
      }
    }
  }

  lemma MoreGroups(t: seq<Sym>)
    requires |t| > 4
    ensures |t| % 4 == 0 ==>
      ((exists p: nat :: p <= 2 && PaddedBy(t, p)) <==>
       t[0].D? && t[1].D? && t[2].D? && t[3].D? && exists p: nat :: p <= 2 && PaddedBy(t[4..], p))
  {
    if |t| % 4 == 0 {
      if p: nat :| p <= 2 && PaddedBy(t, p) { assert PaddedBy(t[4..], p); }
      if p: nat :| p <= 2 && PaddedBy(t[4..], p) && t[0].D? && t[1].D? && t[2].D? && t[3].D? {
        forall i | 0 <= i < |t| ensures if i < |t| - p then t[i].D? else t[i].Pad? {
          if i >= 4 { assert t[4..][i - 4] == t[i]; }
        }
        assert PaddedBy(t, p);
      }
    }
  }

  /** `p` equals signs at the end, and characters of the alphabet before. */
  ghost predicate EndsWith(t: string, p: nat) {
    p <= |t| && forall i :: 0 <= i < |t| ==> if i < |t| - p then InAlphabet(t[i]) else t[i] == '='
  }

  /** Strict: whole groups of four, the alphabet, and at most two padding characters, at the very end. */
  lemma DecodesExactly(t: string)
    ensures Decode(t).Some? <==> |t| % 4 == 0 && exists p: nat :: p <= 2 && EndsWith(t, p)
  {
    SymsDecodeExactly(Syms(t));
    forall p: nat ensures PaddedBy(Syms(t), p) <==> EndsWith(t, p) {
      forall i | 0 <= i < |t| ensures (Syms(t)[i].D? <==> InAlphabet(t[i])) && (Syms(t)[i].Pad? <==> t[i] == '=') {
        AlphabetIsExact(t[i]);
      }
    }
  }
}
