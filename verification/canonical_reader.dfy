/**
A reader of JSON texts without white space, after the grammar of RFC 8259 and not after the encoder, and a
decoder of UTF-8 after section 3 of RFC 3629: what the encoder writes reads back as what it was given.
*/
module CanonicalReader {
  import opened CanonicalJson
  import opened CanonicalInjective

  // -- strings and numbers -----------------------------------------------------------------------

  function HexValue(c: Code): Option<nat> {
    if 48 <= c <= 57 then Some(c - 48)
    else if 65 <= c <= 70 then Some(c - 55)
    else if 97 <= c <= 102 then Some(c - 87)
    else None
  }

  /** What the character after a backslash stands for, `u` apart. */
  function ShortEscape(c: Code): Option<Code> {
    if c == 34 || c == 92 || c == 47 then Some(c) // quotation mark, reverse solidus, solidus
    else if c == 98 then Some(8) // b: backspace
    else if c == 102 then Some(12) // f: form feed
    else if c == 110 then Some(10) // n: line feed
    else if c == 114 then Some(13) // r: carriage return
    else if c == 116 then Some(9) // t: tab
    else None
  }

  /** Four hexadecimal digits; halves of surrogate pairs are not read. */
  function FourHex(t: Text): Option<Code> {
    if |t| < 4 then None else
      match (HexValue(t[0]), HexValue(t[1]), HexValue(t[2]), HexValue(t[3]))
      case (Some(a), Some(b), Some(c), Some(d)) =>
        var code := ((a * 16 + b) * 16 + c) * 16 + d;
        if code < 0x11_0000 && !Surrogate(code) then Some(code) else None
      case _ => None
  }

  /** The characters up to the closing quotation mark, and what follows it. */
  function ReadString(t: Text): (r: Option<(Text, Text)>)
    ensures r.Some? ==> |r.value.1| < |t|
    decreases |t|
  {
    if t == [] || t[0] < 32 then None
    else if t[0] == 34 then Some(([], t[1..]))
    else if t[0] != 92 then Prefixed(t[0], ReadString(t[1..]))
    else if |t| < 2 then None
    else if t[1] == 117 then
      match FourHex(t[2..])
      case None => None
      case Some(c) => Prefixed(c, ReadString(t[6..]))
    else
      match ShortEscape(t[1])
      case None => None
      case Some(c) => Prefixed(c, ReadString(t[2..]))
  }

  function Prefixed(c: Code, r: Option<(Text, Text)>): Option<(Text, Text)> {
    match r
    case None => None
    case Some((text, rest)) => Some(([c] + text, rest))
  }

  /** The leading digits. */
  function DigitRun(t: Text): (n: nat)
    ensures n <= |t| && (forall i :: 0 <= i < n ==> IsDigit(t[i])) && (n < |t| ==> !IsDigit(t[n]))
  {
    if t == [] || !IsDigit(t[0]) then 0 else 1 + DigitRun(t[1..])
  }

  function DigitValue(c: Code): nat
    requires IsDigit(c)
  {
    c as int - 48
  }

  function NatValue(t: Text): nat
    requires forall i :: 0 <= i < |t| ==> IsDigit(t[i])
  {
    if t == [] then 0 else 10 * NatValue(t[..|t| - 1]) + DigitValue(t[|t| - 1])
  }

  /** An integer: digits without a leading zero, perhaps after a minus sign. */
  function ReadNat(t: Text): (r: Option<(nat, Text)>)
    ensures r.Some? ==> |r.value.1| < |t|
  {
    var n := DigitRun(t);
    if n == 0 || (n > 1 && t[0] == 48) then None else Some((NatValue(t[..n]), t[n..]))
  }

  // -- values ------------------------------------------------------------------------------------

  function ReadValue(t: Text): (r: Option<(Value, Text)>)
    ensures r.Some? ==> |r.value.1| < |t|
    decreases |t|, 2
  {
    if t == [] then None else ReadFrom(t)
  }

  function ReadFrom(t: Text): (r: Option<(Value, Text)>)
    requires t != []
    ensures r.Some? ==> |r.value.1| < |t|
    decreases |t|, 1
  {
    if [110, 117, 108, 108] <= t then Some((Null, t[4..]))
    else if [116, 114, 117, 101] <= t then Some((Bool(true), t[4..]))
    else if [102, 97, 108, 115, 101] <= t then Some((Bool(false), t[5..]))
    else if t[0] == 34 then
      match ReadString(t[1..])
      case None => None
      case Some((text, rest)) => Some((Str(text), rest))
    else if t[0] == 91 then
      if |t| > 1 && t[1] == 93 then Some((Arr([]), t[2..])) else
        match ReadItems(t[1..])
        case None => None
        case Some((items, rest)) => Some((Arr(items), rest))
    else if t[0] == 123 then
      if |t| > 1 && t[1] == 125 then Some((Obj(map[]), t[2..])) else
        match ReadMembers(t[1..])
        case None => None
        case Some((members, rest)) => Some((Obj(members), rest))
    else if t[0] == 45 then
      match ReadNat(t[1..])
      case None => None
      case Some((n, rest)) => Some((Int(0 - n as int), rest))
    else
      match ReadNat(t)
      case None => None
      case Some((n, rest)) => Some((Int(n), rest))
  }

  /** One or more values with commas between them, up to the closing bracket. */
  function ReadItems(t: Text): (r: Option<(seq<Value>, Text)>)
    ensures r.Some? ==> |r.value.1| < |t|
    decreases |t|, 3
  {
    match ReadValue(t)
    case None => None
    case Some((v, rest)) =>
      if rest == [] then None
      else if rest[0] == 93 then Some(([v], rest[1..]))
      else if rest[0] != 44 then None
      else
        match ReadItems(rest[1..])
        case None => None
        case Some((items, end)) => Some(([v] + items, end))
  }

  /** One or more members with commas between them, up to the closing brace; no name twice. */
  function ReadMembers(t: Text): (r: Option<(map<Key, Value>, Text)>)
    ensures r.Some? ==> |r.value.1| < |t|
    decreases |t|, 2
  {
    if t == [] || t[0] != 34 then None else
      match ReadString(t[1..])
      case None => None
      case Some((name, afterName)) =>
        if afterName == [] || afterName[0] != 58 then None else
          match ReadValue(afterName[1..])
          case None => None
          case Some((v, rest)) =>
            if rest == [] then None
            else if rest[0] == 125 then Some((map[TextKey(name) := v], rest[1..]))
            else if rest[0] != 44 then None
            else
              match ReadMembers(rest[1..])
              case None => None
              case Some((members, end)) => if TextKey(name) in members then None else Some((members[TextKey(name) := v], end))
  }

  // -- strings read back ---------------------------------------------------------------------------

  lemma HexReads(n: nat)
    requires n < 16
    ensures HexValue(Hex(n)) == Some(n)
  {
  }

  lemma EscapeReads(c: Code, x: Text)
    ensures ReadString(Escape(c) + x) == Prefixed(c, ReadString(x))
  {
    var t := Escape(c) + x;
    if |Escape(c)| == 1 {
      assert t[1..] == x;
    } else if |Escape(c)| == 2 {
      assert t[2..] == x;
    } else {
      HexReads(c / 16);
      HexReads(c % 16);
      assert t[2..][0] == 48 && t[2..][1] == 48 && t[2..][2] == Hex(c / 16) && t[2..][3] == Hex(c % 16);
      assert FourHex(t[2..]) == Some(c);
      assert t[6..] == x;
    }
  }

  lemma {:induction false} EscapedReads(text: Text, x: Text)
    ensures ReadString(Escaped(text) + ([Quote] + x)) == Some((text, x))
  {
    if text == [] {
      assert Escaped(text) + ([Quote] + x) == [Quote] + x;
      assert ([Quote] + x)[1..] == x;
    } else {
      Assoc(Escape(text[0]), Escaped(text[1..]), [Quote] + x);
      EscapeReads(text[0], Escaped(text[1..]) + ([Quote] + x));
      EscapedReads(text[1..], x);
      assert text == [text[0]] + text[1..];
    }
  }

  lemma QuotedReads(text: Text, x: Text)
    ensures var t := Quoted(text) + x; t[0] == Quote && ReadString(t[1..]) == Some((text, x))
  {
    var t := Quoted(text) + x;
    Assoc([Quote], Escaped(text) + [Quote], x);
    Assoc(Escaped(text), [Quote], x);
    assert t[1..] == Escaped(text) + ([Quote] + x);
    EscapedReads(text, x);
  }

  /** A short form is used wherever there is one, the six-character form only for the other control characters,
      in lower case, and nothing else is escaped. */
  lemma EscapesAreShortest(c: Code)
    ensures |Escape(c)| == 1 <==> c >= 32 && c != 34 && c != 92
    ensures |Escape(c)| == 2 <==> c in {34, 92, 8, 9, 10, 12, 13}
    ensures |Escape(c)| == 6 ==> forall i :: 2 <= i < 6 ==> 48 <= Escape(c)[i] <= 57 || 97 <= Escape(c)[i] <= 102
    ensures |Escape(c)| in {1, 2, 6}
  {
  }

  // -- numbers read back -----------------------------------------------------------------------------

  lemma {:induction false} RunOfDigits(t: Text, x: Text)
    requires (forall i :: 0 <= i < |t| ==> IsDigit(t[i])) && Stops(x)
    ensures DigitRun(t + x) == |t|
  {
    if t != [] {
      assert (t + x)[1..] == t[1..] + x;
      RunOfDigits(t[1..], x);
    } else {
      assert t + x == x;
    }
  }

  lemma {:induction false} DigitsAreTheValue(n: nat)
    ensures NatValue(Digits(n)) == n && (|Digits(n)| > 1 ==> Digits(n)[0] != 48)
  {
    if n >= 10 {
      DigitsAreTheValue(n / 10);
      assert Digits(n)[..|Digits(n)| - 1] == Digits(n / 10);
      assert Digits(n)[0] == Digits(n / 10)[0];
      if |Digits(n / 10)| == 1 { assert n / 10 < 10; }
    } else {
      assert NatValue([48 + n]) == n;
    }
  }

  lemma DigitsRead(n: nat, x: Text)
    requires Stops(x)
    ensures ReadNat(Digits(n) + x) == Some((n, x))
  {
    RunOfDigits(Digits(n), x);
    DigitsAreTheValue(n);
    assert (Digits(n) + x)[..|Digits(n)|] == Digits(n) && (Digits(n) + x)[|Digits(n)|..] == x;
    assert |Digits(n)| > 1 ==> (Digits(n) + x)[0] == Digits(n)[0];
  }

  // -- how a value starts ---------------------------------------------------------------------------------

  lemma NumberStarts(t: Text)
    requires t != [] && (t[0] == 45 || IsDigit(t[0]))
    ensures ReadValue(t) == (
      if t[0] == 45 then match ReadNat(t[1..]) case None => None case Some((n, rest)) => Some((Int(0 - n as int), rest))
      else match ReadNat(t) case None => None case Some((n, rest)) => Some((Int(n), rest)))
  {
    assert ReadValue(t) == ReadFrom(t);
  }

  lemma ArrStarts(t: Text, items: seq<Value>, rest: Text)
    requires |t| > 1 && t[0] == 91
    requires if t[1] == 93 then items == [] && rest == t[2..] else ReadItems(t[1..]) == Some((items, rest))
    ensures ReadValue(t) == Some((Arr(items), rest))
  {
    assert ReadValue(t) == ReadFrom(t);
  }

  lemma ObjStarts(t: Text, members: map<Key, Value>, rest: Text)
    requires |t| > 1 && t[0] == 123
    requires if t[1] == 125 then members == map[] && rest == t[2..] else ReadMembers(t[1..]) == Some((members, rest))
    ensures ReadValue(t) == Some((Obj(members), rest))
  {
    assert ReadValue(t) == ReadFrom(t);
  }

  lemma StrStarts(t: Text, text: Text, rest: Text)
    requires t != [] && t[0] == 34 && ReadString(t[1..]) == Some((text, rest))
    ensures ReadValue(t) == Some((Str(text), rest))
  {
    assert ReadValue(t) == ReadFrom(t);
  }

  lemma NatReads(n: nat, x: Text)
    requires Stops(x)
    ensures ReadValue(Digits(n) + x) == Some((Int(n), x))
  {
    var t := Digits(n) + x;
    DigitsRead(n, x);
    assert t[0] == Digits(n)[0] && IsDigit(t[0]);
    NumberStarts(t);
  }

  lemma NegativeReads(n: nat, x: Text)
    requires Stops(x)
    ensures ReadValue([Minus] + Digits(n) + x) == Some((Int(0 - n as int), x))
  {
    var t := [Minus] + Digits(n) + x;
    DigitsRead(n, x);
    assert t[0] == 45 && t[1..] == Digits(n) + x;
    NumberStarts(t);
  }

  lemma DecimalReads(n: int, x: Text)
    requires Stops(x)
    ensures ReadValue(Decimal(n) + x) == Some((Int(n), x))
  {
    if n < 0 { NegativeReads(-n, x); } else { NatReads(n, x); }
  }

  // -- values read back --------------------------------------------------------------------------------

  /** What is written, followed by anything that is not a digit, reads back as the value, and stops there. */
  lemma {:induction false} WriteReadsBack(v: Value, x: Text)
    requires Canonicalizable(v) && Stops(x)
    ensures ReadValue(Write(v) + x) == Some((v, x))
    decreases v, 1, 0
  {
    match v
    case Null => WordReads(v, x);
    case Bool(_) => WordReads(v, x);
    case Int(n) => DecimalReads(n, x);
    case Str(text) =>
      QuotedReads(text, x);
      StrStarts(Write(v) + x, text, x);
    case Arr(items) => ArrReads(v, x);
    case Obj(_) => ObjReads(v, x);
  }

  lemma WordReads(v: Value, x: Text)
    requires v.Null? || v.Bool?
    ensures ReadValue(Write(v) + x) == Some((v, x))
  {
    var w := Write(v);
    assert (w + x)[|w|..] == x && w <= w + x && (w + x)[0] == w[0];
    assert ReadValue(w + x) == ReadFrom(w + x);
  }

  lemma {:induction false} ArrReads(v: Value, x: Text)
    requires v.Arr? && Canonicalizable(v) && Stops(x)
    ensures ReadValue(Write(v) + x) == Some((v, x))
    decreases v, 0, 0
  {
    var items, t := v.items, Write(v) + x;
    ArrTail(v, x);
    if items != [] {
      ItemsRead(items, 0, x);
      assert items[0..] == items;
    }
    ArrStarts(t, items, x);
  }

  lemma ArrTail(v: Value, x: Text)
    requires v.Arr? && Canonicalizable(v)
    ensures var items, t := v.items, Write(v) + x;
      && |t| > 1 && t[0] == 91 && (t[1] == CloseArray <==> items == []) && (items == [] ==> t[2..] == x)
      && (items != [] ==> t[1..] == ItemsText(items, 0, x))
  {
    var items, t := v.items, Write(v) + x;
    var tail := WriteItems(items, 0) + x;
    Assoc([91], WriteItems(items, 0), x);
    assert t == [91] + tail && t[1..] == tail;
    ItemsOpen(items, 0, x);
    assert t[1] == tail[0];
    if items == [] {
      assert tail == [CloseArray] + x && t[2..] == tail[1..] == x;
    } else {
      ItemParts(items, 0, x);
    }
  }

  lemma LastItem(t: Text, v: Value, rest: Text, x: Text)
    requires ReadValue(t) == Some((v, rest)) && rest != [] && rest[0] == CloseArray && rest[1..] == x
    ensures ReadItems(t) == Some(([v], x))
  {
  }

  lemma OneMoreItem(t: Text, v: Value, rest: Text, items: seq<Value>, x: Text)
    requires ReadValue(t) == Some((v, rest)) && rest != [] && rest[0] == Comma && ReadItems(rest[1..]) == Some((items, x))
    ensures ReadItems(t) == Some(([v] + items, x))
  {
  }

  /** The items from `i` on without the separator, and what follows them. */
  ghost function ItemsText(items: seq<Value>, i: nat, x: Text): Text
    requires Items(items) && i < |items|
  {
    Write(items[i]) + (WriteItems(items, i + 1) + x)
  }

  /** What follows an item: the end, or a comma and the next item. */
  lemma AfterItem(items: seq<Value>, i: nat, x: Text) returns (rest: Text)
    requires Items(items) && i < |items|
    ensures ItemsText(items, i, x) == Write(items[i]) + rest && rest != [] && Stops(rest)
    ensures i + 1 == |items| ==> rest[0] == CloseArray && rest[1..] == x
    ensures i + 1 < |items| ==> rest[0] == Comma && rest[1..] == ItemsText(items, i + 1, x)
  {
    rest := WriteItems(items, i + 1) + x;
    ItemsOpen(items, i + 1, x);
    if i + 1 == |items| {
      assert rest == [CloseArray] + x;
    } else {
      ItemParts(items, i + 1, x);
      assert rest == [Comma] + ItemsText(items, i + 1, x);
    }
  }

  lemma {:induction false} ItemsRead(items: seq<Value>, i: nat, x: Text)
    requires Items(items) && i < |items|
    ensures ReadItems(ItemsText(items, i, x)) == Some((items[i..], x))
    decreases items, 0, |items| - i
  {
    var rest := AfterItem(items, i, x);
    WriteReadsBack(items[i], rest);
    if i + 1 < |items| {
      ItemsRead(items, i + 1, x);
      OneMoreItem(ItemsText(items, i, x), items[i], rest, items[i + 1..], x);
      assert [items[i]] + items[i + 1..] == items[i..];
    } else {
      LastItem(ItemsText(items, i, x), items[i], rest, x);
      assert [items[i]] == items[i..];
    }
  }

  /** The members from key `i` on. */
  ghost function MembersFrom(v: Value, keys: seq<Text>, i: nat): map<Key, Value>
    requires Members(v, keys) && i <= |keys|
  {
    map k | k in v.members && exists j :: i <= j < |keys| && TextKey(keys[j]) == k :: v.members[k]
  }

  lemma {:induction false} ObjReads(v: Value, x: Text)
    requires v.Obj? && Canonicalizable(v) && Stops(x)
    ensures ReadValue(Write(v) + x) == Some((v, x))
    decreases v, 0, |KeysOf(v)| + 1
  {
    var keys, t := KeysOf(v), Write(v) + x;
    var tail := WriteMembers(v, keys, 0) + x;
    ObjTail(v, x);
    AllMembers(v);
    if keys != [] { MembersRead(v, keys, 0, x); }
    ObjStarts(t, v.members, x);
  }

  lemma ObjTail(v: Value, x: Text)
    requires v.Obj? && Canonicalizable(v)
    ensures var keys, t := KeysOf(v), Write(v) + x;
      && |t| > 1 && t[0] == 123 && (t[1] == CloseObject <==> keys == []) && (keys == [] ==> t[2..] == x)
      && (keys != [] ==> t[1..] == Quoted(keys[0]) + ([Colon] + (Write(At(v, keys, 0)) + (WriteMembers(v, keys, 1) + x))))
  {
    var keys, t := KeysOf(v), Write(v) + x;
    var tail := WriteMembers(v, keys, 0) + x;
    Assoc([123], WriteMembers(v, keys, 0), x);
    assert t == [123] + tail && t[1..] == tail;
    MembersOpen(v, keys, 0, x);
    assert t[1] == tail[0];
    if keys == [] {
      assert tail == [CloseObject] + x && t[2..] == tail[1..] == x;
    } else {
      MemberParts(v, keys, 0, x);
    }
  }

  lemma AllMembers(v: Value)
    requires v.Obj? && Canonicalizable(v)
    ensures MembersFrom(v, KeysOf(v), 0) == v.members && (KeysOf(v) == [] ==> v.members == map[])
  {
    var keys := KeysOf(v);
    forall k | k in v.members ensures exists j :: 0 <= j < |keys| && TextKey(keys[j]) == k {
      assert k == TextKey(k.text) && k.text in keys;
    }
  }

  lemma NextMembers(v: Value, keys: seq<Text>, i: nat)
    requires Members(v, keys) && i < |keys| && Ascending(keys)
    ensures TextKey(keys[i]) !in MembersFrom(v, keys, i + 1)
    ensures MembersFrom(v, keys, i) == MembersFrom(v, keys, i + 1)[TextKey(keys[i]) := At(v, keys, i)]
  {
    forall j | i < j < |keys| ensures keys[j] != keys[i] { LessOrders(keys[i], keys[j], keys[i]); }
    assert keys[i] in keys;
  }

  lemma {:induction false} MembersRead(v: Value, keys: seq<Text>, i: nat, x: Text)
    requires Members(v, keys) && i < |keys| && Ascending(keys)
    ensures ReadMembers(Quoted(keys[i]) + ([Colon] + (Write(At(v, keys, i)) + (WriteMembers(v, keys, i + 1) + x)))) ==
      Some((MembersFrom(v, keys, i), x))
    decreases v, 0, |keys| - i
  {
    var rest := WriteMembers(v, keys, i + 1) + x;
    var w := [Colon] + (Write(At(v, keys, i)) + rest);
    QuotedReads(keys[i], w);
    assert w[1..] == Write(At(v, keys, i)) + rest;
    MembersOpen(v, keys, i + 1, x);
    WriteReadsBack(At(v, keys, i), rest);
    NextMembers(v, keys, i);
    if i + 1 == |keys| {
      assert rest[1..] == x;
      assert MembersFrom(v, keys, i + 1) == map[];
    } else {
      MemberParts(v, keys, i + 1, x);
      assert rest[0] == Comma;
      assert rest[1..] == Quoted(keys[i + 1]) + ([Colon] + (Write(At(v, keys, i + 1)) + (WriteMembers(v, keys, i + 2) + x)));
      MembersRead(v, keys, i + 1, x);
    }
  }

  // -- UTF-8 -------------------------------------------------------------------------------------------

  predicate Tail(b: Byte) { 0x80 <= b <= 0xBF }

  function Bits(b: Byte, lead: nat): nat
    requires lead <= b
  {
    b as int - lead
  }

  /** The first character of the octets, and how many it takes; no surrogates, nothing longer than needed. */
  function FirstCharacter(b: seq<Byte>): Option<(Code, nat)> {
    if b == [] then None
    else if b[0] <= 0x7F then Some((b[0], 1))
    else if 0xC2 <= b[0] <= 0xDF && |b| >= 2 && Tail(b[1]) then Some((Bits(b[0], 0xC0) * 0x40 + Bits(b[1], 0x80), 2))
    else if 0xE0 <= b[0] <= 0xEF && |b| >= 3 && Tail(b[1]) && Tail(b[2]) then
      var c := Bits(b[0], 0xE0) * 0x1000 + Bits(b[1], 0x80) * 0x40 + Bits(b[2], 0x80);
      if c >= 0x800 && !Surrogate(c) then Some((c, 3)) else None
    else if 0xF0 <= b[0] <= 0xF4 && |b| >= 4 && Tail(b[1]) && Tail(b[2]) && Tail(b[3]) then
      var c := Bits(b[0], 0xF0) * 0x4_0000 + Bits(b[1], 0x80) * 0x1000 + Bits(b[2], 0x80) * 0x40 + Bits(b[3], 0x80);
      if 0x1_0000 <= c < 0x11_0000 then Some((c, 4)) else None
    else None
  }

  function Decode(b: seq<Byte>): Option<Text>
    decreases |b|
  {
    if b == [] then Some([]) else
      match FirstCharacter(b)
      case None => None
      case Some((c, n)) =>
        if n == 0 || n > |b| then None else
          match Decode(b[n..])
          case None => None
          case Some(rest) => Some([c] + rest)
  }

  lemma TwoSplit(c: nat)
    ensures c == c / 64 * 64 + c % 64 && c / 64 == c / 64 / 64 * 64 + c / 64 % 64
  {
  }

  lemma CodeDecodes(c: Code, x: seq<Byte>)
    requires !Surrogate(c)
    ensures FirstCharacter(Utf8Code(c) + x) == Some((c, |Utf8Code(c)|))
  {
    var b := Utf8Code(c) + x;
    assert forall i :: 0 <= i < |Utf8Code(c)| ==> b[i] == Utf8Code(c)[i];
    TwoSplit(c);
    TwoSplit(c / 64);
  }

  lemma {:induction false} Utf8Decodes(t: Text)
    requires Clean(t)
    ensures Decode(Utf8(t)) == Some(t)
  {
    if t != [] {
      assert Clean(t[1..]);
      CodeDecodes(t[0], Utf8(t[1..]));
      assert (Utf8Code(t[0]) + Utf8(t[1..]))[|Utf8Code(t[0])|..] == Utf8(t[1..]);
      Utf8Decodes(t[1..]);
      assert t == [t[0]] + t[1..];
    }
  }

  // -- main results ------------------------------------------------------------------------------------

  /** The bytes are UTF-8, and the JSON text they decode to is the value, to the last character. */
  lemma DumpsReadsBack(v: Value)
    requires Dumps(v).Some?
    ensures var text := Decode(Dumps(v).value); text.Some? && ReadValue(text.value) == Some((v, []))
  {
    Utf8Decodes(Write(v));
    WriteReadsBack(v, []);
    assert Write(v) + [] == Write(v);
  }

  predicate IsName(k: Key) { k.TextKey? && forall i :: 0 <= i < |k.text| ==> k.text[i] < 128 }

  /** What is refused: floats, what JSON does not have, lone surrogates, keys that are not ASCII strings, and
      whatever contains one of these. */
  lemma RefusedExactly(v: Value)
    ensures Dumps(v).None? <==> match v
      case Null => false
      case Bool(_) => false
      case Int(_) => false
      case Float(_) => true
      case OtherValue(_) => true
      case Str(text) => exists i :: 0 <= i < |text| && 0xD800 <= text[i] <= 0xDFFF
      case Arr(items) => exists i :: 0 <= i < |items| && Dumps(items[i]).None?
      case Obj(members) => exists k :: k in members && (!IsName(k) || Dumps(members[k]).None?)
  {
  }

  // -- the layouts that rest on it ---------------------------------------------------------------------

  /** The number that octets stand for, most significant first. */
  function BigEndianValue(b: seq<Byte>): nat {
    if b == [] then 0 else 256 * BigEndianValue(b[..|b| - 1]) + b[|b| - 1] as int
  }

  lemma {:induction false} BigEndianReads(n: nat, k: nat)
    requires n < Power256(k)
    ensures BigEndianValue(BigEndian(n, k)) == n
    decreases k
  {
    if k > 0 {
      BigEndianReads(n / 256, k - 1);
      assert BigEndian(n, k)[..k - 1] == BigEndian(n / 256, k - 1);
    }
  }

  /** The MAC preimage, read from its front: the domain, eight octets of epoch, eight of sequence number, the
      previous MAC, and the event's columns as a JSON object to the end. */
  lemma MacMessageLayout(domain: seq<Byte>, epoch: nat, seqNo: nat, prev: seq<Byte>, columns: map<Key, Value>)
    requires epoch < Power256(8) && seqNo < Power256(8) && |prev| == 32 && MacMessage(domain, epoch, seqNo, prev, columns).Some?
    ensures var m, d := MacMessage(domain, epoch, seqNo, prev, columns).value, |domain|;
      && |m| > d + 48 && m[..d] == domain && BigEndianValue(m[d..d + 8]) == epoch && BigEndianValue(m[d + 8..d + 16]) == seqNo
      && m[d + 16..d + 48] == prev
      && var text := Decode(m[d + 48..]);
         text.Some? && ReadValue(text.value) == Some((Obj(columns), []))
  {
    var body := Dumps(Obj(columns)).value;
    var m, d := MacMessage(domain, epoch, seqNo, prev, columns).value, |domain|;
    assert m[d..d + 8] == BigEndian(epoch, 8) && m[d + 8..d + 16] == BigEndian(seqNo, 8) && m[d + 48..] == body;
    BigEndianReads(epoch, 8);
    BigEndianReads(seqNo, 8);
    DumpsReadsBack(Obj(columns));
  }

  /** The bytes under a request digest are a JSON object with exactly the tool, the arguments and the targets. */
  lemma RequestBodyReads(tool: Text, args: map<Key, Value>, targets: map<Key, Value>)
    requires RequestBody(tool, args, targets).Some?
    ensures var text := Decode(RequestBody(tool, args, targets).value);
      text.Some? && exists members :: ReadValue(text.value) == Some((Obj(members), [])) && IsRequest(members, tool, args, targets)
  {
    var members := map[TextKey(Args) := Obj(args), TextKey(Targets) := Obj(targets), TextKey(Tool) := Str(tool)];
    assert Args != Targets && |Tool| == |Args| && Tool[0] != Args[0] && |Targets| != |Tool|;
    assert IsRequest(members, tool, args, targets);
    DumpsReadsBack(Obj(members));
  }

  predicate IsRequest(members: map<Key, Value>, tool: Text, args: map<Key, Value>, targets: map<Key, Value>) {
    && |members| == 3
    && TextKey(Tool) in members && members[TextKey(Tool)] == Str(tool)
    && TextKey(Args) in members && members[TextKey(Args)] == Obj(args)
    && TextKey(Targets) in members && members[TextKey(Targets)] == Obj(targets)
  }
}
