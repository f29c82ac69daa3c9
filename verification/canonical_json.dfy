/**
TG-JCS-v1: the canonical JSON bytes under every digest and MAC.  A text is a sequence of code points;
a value is what the encoder may be handed, including what it refuses.
*/
module CanonicalJson {
  datatype Option<+T> = None | Some(value: T)

  type Code = c: nat | c < 0x11_0000

  type Text = seq<Code>

  datatype Key = TextKey(text: Text) | OtherKey(n: nat)

  datatype Value =
    | Null
    | Bool(b: bool)
    | Int(n: int)
    | Float(x: real)
    | Str(text: Text)
    | Arr(items: seq<Value>)
    | Obj(members: map<Key, Value>)
    | OtherValue(kind: nat)

  predicate Surrogate(c: Code) { 0xD800 <= c <= 0xDFFF }

  predicate Clean(t: Text) { forall i :: 0 <= i < |t| ==> !Surrogate(t[i]) }

  predicate IsAscii(t: Text) { forall i :: 0 <= i < |t| ==> t[i] < 128 }

  /** No float, no lone surrogate, no key that is not an ASCII string, nothing that is not JSON. */
  ghost predicate Canonicalizable(v: Value) {
    match v
    case Float(_) => false
    case OtherValue(_) => false
    case Str(text) => Clean(text)
    case Arr(items) => forall i :: 0 <= i < |items| ==> Canonicalizable(items[i])
    case Obj(members) => forall k :: k in members ==> k.TextKey? && IsAscii(k.text) && Canonicalizable(members[k])
    case _ => true
  }

  // -- strings: section 7 of RFC 8259 ----------------------------------------------------------

  const Quote: Code := 34
  const Comma: Code := 44
  const Minus: Code := 45
  const Colon: Code := 58
  const Backslash: Code := 92
  const CloseArray: Code := 93
  const CloseObject: Code := 125

  function Hex(n: nat): Code
    requires n < 16
  {
    if n < 10 then 48 + n else 87 + n
  }

  /** Only the quote, the backslash and the control characters are escaped; the rest stays literal. */
  function Escape(c: Code): (r: Text)
    ensures r != [] && (!Surrogate(c) ==> Clean(r))
  {
    if c == Quote || c == Backslash then [Backslash, c]
    else if c == 8 then [Backslash, 98]
    else if c == 9 then [Backslash, 116]
    else if c == 10 then [Backslash, 110]
    else if c == 12 then [Backslash, 102]
    else if c == 13 then [Backslash, 114]
    else if c < 32 then [Backslash, 117, 48, 48, Hex(c / 16), Hex(c % 16)]
    else [c]
  }

  function Escaped(t: Text): (r: Text)
    ensures Clean(t) ==> Clean(r)
  {
    if t == [] then [] else Escape(t[0]) + Escaped(t[1..])
  }

  function Quoted(t: Text): (r: Text)
    ensures Clean(t) ==> Clean(r)
  {
    [Quote] + (Escaped(t) + [Quote])
  }

  // -- integers --------------------------------------------------------------------------------

  predicate IsDigit(c: Code) { 48 <= c <= 57 }

  function Digits(n: nat): (r: Text)
    ensures r != [] && forall i :: 0 <= i < |r| ==> IsDigit(r[i])
  {
    if n < 10 then [48 + n] else Digits(n / 10) + [48 + n % 10]
  }

  function Decimal(n: int): (r: Text)
    ensures Clean(r)
  {
    if n < 0 then [Minus] + Digits(-n) else Digits(n)
  }

  // -- key order -------------------------------------------------------------------------------

  predicate Less(a: Text, b: Text) {
    b != [] && (a == [] || a[0] < b[0] || (a[0] == b[0] && Less(a[1..], b[1..])))
  }

  lemma {:induction false} LessTotal(a: Text, b: Text)
    ensures a == b || Less(a, b) || Less(b, a)
  {
    if a != [] && b != [] && a[0] == b[0] {
      LessTotal(a[1..], b[1..]);
      assert a == [a[0]] + a[1..] && b == [b[0]] + b[1..];
    }
  }

  lemma {:induction false} LessOrders(a: Text, b: Text, c: Text)
    ensures Less(a, b) && Less(b, c) ==> Less(a, c)
    ensures !(Less(a, b) && Less(b, a)) && !Less(a, a)
  {
    if a != [] && b != [] {
      LessOrders(a[1..], b[1..], if c == [] then [] else c[1..]);
    } else if a != [] {
      LessOrders(a[1..], [], []);
    }
  }

  ghost function Smallest(s: set<Text>): (k: Text)
    requires s != {}
    ensures k in s && forall t :: t in s && t != k ==> Less(k, t)
  {
    var x :| x in s;
    if s == {x} then x
    else
      var y := Smallest(s - {x});
      LessTotal(x, y);
      assert forall t {:trigger Less(x, t)} :: t in s && Less(x, y) && Less(y, t) ==> Less(x, t) by {
        forall t | t in s && Less(x, y) && Less(y, t) ensures Less(x, t) { LessOrders(x, y, t); }
      }
      if Less(x, y) then x else y
  }

  ghost predicate Ascending(keys: seq<Text>) {
    forall i, j :: 0 <= i < j < |keys| ==> Less(keys[i], keys[j])
  }

  /** sort_keys: the keys in code point order. */
  ghost function InOrder(s: set<Text>): (keys: seq<Text>)
    ensures (forall t :: t in keys <==> t in s) && Ascending(keys)
  {
    if s == {} then [] else
      var k := Smallest(s);
      [k] + InOrder(s - {k})
  }

  // -- values ----------------------------------------------------------------------------------

  ghost function KeysOf(v: Value): (keys: seq<Text>)
    requires v.Obj? && Canonicalizable(v)
    ensures forall t :: t in keys <==> TextKey(t) in v.members
    ensures Ascending(keys)
  {
    InOrder(set k | k in v.members :: k.text)
  }

  function Separator(i: nat): Text { if i > 0 then [Comma] else [] }

  ghost function Write(v: Value): (r: Text)
    requires Canonicalizable(v)
    ensures Clean(r)
    decreases v, 1, 0
  {
    match v
    case Null => [110, 117, 108, 108]
    case Bool(b) => if b then [116, 114, 117, 101] else [102, 97, 108, 115, 101]
    case Int(n) => Decimal(n)
    case Str(text) => Quoted(text)
    case Arr(items) => [91] + WriteItems(items, 0)
    case Obj(_) => [123] + WriteMembers(v, KeysOf(v), 0)
  }

  /** The items from `i` on, with the closing bracket. */
  ghost function WriteItems(items: seq<Value>, i: nat): (r: Text)
    requires i <= |items| && forall k :: 0 <= k < |items| ==> Canonicalizable(items[k])
    ensures Clean(r)
    decreases items, 0, |items| - i
  {
    if i == |items| then [CloseArray]
    else Separator(i) + (Write(items[i]) + WriteItems(items, i + 1))
  }

  /** The members from key `i` on, with the closing brace. */
  ghost function WriteMembers(v: Value, keys: seq<Text>, i: nat): (r: Text)
    requires v.Obj? && i <= |keys| && Canonicalizable(v) && forall k :: k in keys ==> TextKey(k) in v.members
    ensures Clean(r)
    decreases v, 0, |keys| - i
  {
    if i == |keys| then [CloseObject]
    else
      assert keys[i] in keys && IsAscii(TextKey(keys[i]).text);
      Separator(i) + (Quoted(keys[i]) + ([Colon] + (Write(v.members[TextKey(keys[i])]) + WriteMembers(v, keys, i + 1))))
  }

  // -- UTF-8 -----------------------------------------------------------------------------------

  type Byte = b: nat | b < 256

  function Utf8Code(c: Code): seq<Byte>
    requires !Surrogate(c)
  {
    if c < 0x80 then [c]
    else if c < 0x800 then [0xC0 + c / 64, 0x80 + c % 64]
    else if c < 0x1_0000 then [0xE0 + c / 64 / 64, 0x80 + c / 64 % 64, 0x80 + c % 64]
    else [0xF0 + c / 64 / 64 / 64, 0x80 + c / 64 / 64 % 64, 0x80 + c / 64 % 64, 0x80 + c % 64]
  }

  function Utf8(t: Text): seq<Byte>
    requires Clean(t)
  {
    if t == [] then [] else
      assert !Surrogate(t[0]) && forall i :: 0 <= i < |t[1..]| ==> t[1..][i] == t[i + 1];
      Utf8Code(t[0]) + Utf8(t[1..])
  }

  /** The encoder: bytes, or the ValueError. */
  ghost function Dumps(v: Value): Option<seq<Byte>> {
    if Canonicalizable(v) then Some(Utf8(Write(v))) else None
  }
}
