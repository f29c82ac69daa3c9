/** Equal canonical bytes come from equal values, so digests and MAC preimages bind what they cover. */
module CanonicalInjective {
  import opened CanonicalJson

  /** What may follow a written value: nothing, or anything but a digit. */
  predicate Stops(x: Text) { x == [] || !IsDigit(x[0]) }

  // -- sequences -------------------------------------------------------------------------------

  lemma Assoc<T>(a: seq<T>, b: seq<T>, c: seq<T>)
    ensures a + b + c == a + (b + c)
  {
  }

  /** Equal concatenations of equally long fronts agree in both parts. */
  lemma Cut<T>(a: seq<T>, b: seq<T>, x: seq<T>, y: seq<T>)
    requires a + x == b + y && |a| == |b|
    ensures a == b && x == y
  {
    assert (a + x)[..|a|] == a && (b + y)[..|b|] == b;
    assert (a + x)[|a|..] == x && (b + y)[|b|..] == y;
  }

  lemma SameFirst<T>(a: seq<T>, b: seq<T>, x: seq<T>, y: seq<T>)
    requires a + x == b + y && a != [] && b != []
    ensures a[0] == b[0]
  {
    assert (a + x)[0] == a[0] && (b + y)[0] == b[0];
  }

  // -- strings ---------------------------------------------------------------------------------

  lemma SameEscape(c: Code, d: Code)
    requires Escape(c) == Escape(d)
    ensures c == d
  {
    var p, q := Escape(c), Escape(d);
    assert p[0] == q[0] && (|p| > 1 ==> p[1] == q[1]);
    if |p| == 6 {
      assert p[4] == q[4] && p[5] == q[5];
    }
  }

  lemma EscapeLength(c: Code, d: Code, x: Text, y: Text)
    requires Escape(c) + x == Escape(d) + y
    ensures |Escape(c)| == |Escape(d)|
  {
    var p, q := Escape(c) + x, Escape(d) + y;
    assert p[0] == Escape(c)[0] && q[0] == Escape(d)[0];
    assert |Escape(c)| > 1 ==> p[1] == Escape(c)[1];
    assert |Escape(d)| > 1 ==> q[1] == Escape(d)[1];
  }

  lemma EscapeUnique(c: Code, d: Code, x: Text, y: Text)
    requires Escape(c) + x == Escape(d) + y
    ensures c == d && x == y
  {
    EscapeLength(c, d, x, y);
    Cut(Escape(c), Escape(d), x, y);
    SameEscape(c, d);
  }

  lemma {:induction false} EscapedUnique(t: Text, u: Text, x: Text, y: Text)
    requires Escaped(t) + ([Quote] + x) == Escaped(u) + ([Quote] + y)
    ensures t == u && x == y
    decreases |t|
  {
    if t == [] && u == [] {
      assert [Quote] + x == Escaped(t) + ([Quote] + x) == [Quote] + y;
      Cut([Quote], [Quote], x, y);
    } else if t == [] {
      assert [Quote] + x == Escaped(t) + ([Quote] + x);
      NotQuoteFirst(u, y);
    } else if u == [] {
      assert [Quote] + y == Escaped(u) + ([Quote] + y);
      NotQuoteFirst(t, x);
    } else {
      Assoc(Escape(t[0]), Escaped(t[1..]), [Quote] + x);
      Assoc(Escape(u[0]), Escaped(u[1..]), [Quote] + y);
      EscapeUnique(t[0], u[0], Escaped(t[1..]) + ([Quote] + x), Escaped(u[1..]) + ([Quote] + y));
      EscapedUnique(t[1..], u[1..], x, y);
      assert t == [t[0]] + t[1..] && u == [u[0]] + u[1..];
    }
  }

  lemma NotQuoteFirst(t: Text, x: Text)
    requires t != []
    ensures (Escaped(t) + ([Quote] + x))[0] != Quote
  {
    assert Escaped(t)[0] == Escape(t[0])[0];
  }

  lemma QuotedUnique(t: Text, u: Text, x: Text, y: Text)
    requires Quoted(t) + x == Quoted(u) + y
    ensures t == u && x == y
  {
    Assoc([Quote], Escaped(t) + [Quote], x);
    Assoc([Quote], Escaped(u) + [Quote], y);
    Cut([Quote], [Quote], Escaped(t) + [Quote] + x, Escaped(u) + [Quote] + y);
    Assoc(Escaped(t), [Quote], x);
    Assoc(Escaped(u), [Quote], y);
    EscapedUnique(t, u, x, y);
  }

  // -- integers --------------------------------------------------------------------------------

  lemma {:induction false} DigitsUnique(m: nat, n: nat)
    requires Digits(m) == Digits(n)
    ensures m == n
    decreases m
  {
    var p, q := Digits(m), Digits(n);
    assert p[|p| - 1] == q[|q| - 1];
    if m >= 10 && n >= 10 {
      Cut(Digits(m / 10), Digits(n / 10), [48 + m % 10], [48 + n % 10]);
      DigitsUnique(m / 10, n / 10);
    }
  }

  /** A run of digits ends where the digits end. */
  lemma RunLength(p: Text, q: Text, x: Text, y: Text)
    requires p + x == q + y && Stops(x)
    requires forall i :: 0 <= i < |q| ==> IsDigit(q[i])
    ensures |p| >= |q|
  {
    assert forall i :: 0 <= i < |q| ==> (p + x)[i] == q[i];
    assert |p| < |q| ==> |x| > 0;
    assert |x| > 0 ==> (p + x)[|p|] == x[0];
  }

  lemma DigitsStop(m: nat, n: nat, x: Text, y: Text)
    requires Digits(m) + x == Digits(n) + y && Stops(x) && Stops(y)
    ensures m == n && x == y
  {
    RunLength(Digits(m), Digits(n), x, y);
    RunLength(Digits(n), Digits(m), y, x);
    Cut(Digits(m), Digits(n), x, y);
    DigitsUnique(m, n);
  }

  lemma DecimalUnique(m: int, n: int, x: Text, y: Text)
    requires Decimal(m) + x == Decimal(n) + y && Stops(x) && Stops(y)
    ensures m == n && x == y
  {
    SameFirst(Decimal(m), Decimal(n), x, y);
    assert m < 0 <==> n < 0;
    if m < 0 {
      Assoc([Minus], Digits(-m), x);
      Assoc([Minus], Digits(-n), y);
      Cut([Minus], [Minus], Digits(-m) + x, Digits(-n) + y);
      DigitsStop(-m, -n, x, y);
    } else {
      DigitsStop(m, n, x, y);
    }
  }

  // -- values ----------------------------------------------------------------------------------

  /** The constructor shows in the first code point. */
  predicate Opens(v: Value, c: Code) {
    match v
    case Null => c == 110
    case Bool(b) => c == if b then 116 else 102
    case Int(n) => c == Minus || IsDigit(c)
    case Str(_) => c == Quote
    case Arr(_) => c == 91
    case Obj(_) => c == 123
    case _ => false
  }

  lemma FirstCode(v: Value)
    requires Canonicalizable(v)
    ensures Write(v) != [] && Opens(v, Write(v)[0])
  {
  }

  /** No written value followed by anything that is not a digit can be read as another. */
  lemma {:induction false} WriteUnique(a: Value, b: Value, x: Text, y: Text)
    requires Canonicalizable(a) && Canonicalizable(b) && Write(a) + x == Write(b) + y && Stops(x) && Stops(y)
    ensures a == b && x == y
    decreases a, 1, 0
  {
    FirstCode(a);
    FirstCode(b);
    SameFirst(Write(a), Write(b), x, y);
    match a
    case Int(m) => DecimalUnique(m, b.n, x, y);
    case Str(t) => QuotedUnique(t, b.text, x, y);
    case Arr(_) => ArrUnique(a, b, x, y);
    case Obj(_) => ObjUnique(a, b, x, y);
    case _ =>
      assert a == b;
      Cut(Write(a), Write(b), x, y);
  }

  lemma {:induction false} ArrUnique(a: Value, b: Value, x: Text, y: Text)
    requires a.Arr? && b.Arr? && Canonicalizable(a) && Canonicalizable(b) && Write(a) + x == Write(b) + y
    ensures a == b && x == y
    decreases a, 0, 0
  {
    Assoc([91], WriteItems(a.items, 0), x);
    Assoc([91], WriteItems(b.items, 0), y);
    Cut([91], [91], WriteItems(a.items, 0) + x, WriteItems(b.items, 0) + y);
    ItemsUnique(a.items, b.items, 0, x, y);
  }

  lemma ObjCut(a: Value, b: Value, s: seq<Text>, t: seq<Text>, x: Text, y: Text)
    requires a.Obj? && b.Obj? && Canonicalizable(a) && Canonicalizable(b) && s == KeysOf(a) && t == KeysOf(b) && Write(a) + x == Write(b) + y
    ensures WriteMembers(a, s, 0) + x == WriteMembers(b, t, 0) + y
  {
    Assoc([123], WriteMembers(a, s, 0), x);
    Assoc([123], WriteMembers(b, t, 0), y);
    Cut([123], [123], WriteMembers(a, s, 0) + x, WriteMembers(b, t, 0) + y);
  }

  lemma {:induction false} ObjUnique(a: Value, b: Value, x: Text, y: Text)
    requires a.Obj? && b.Obj? && Canonicalizable(a) && Canonicalizable(b) && Write(a) + x == Write(b) + y
    ensures a == b && x == y
    decreases a, 0, |KeysOf(a)| + 1
  {
    var s, t := KeysOf(a), KeysOf(b);
    ObjCut(a, b, s, t, x, y);
    MembersUnique(a, b, s, t, 0, x, y);
    assert s == t;
    SameMembers(a, b);
  }

  ghost predicate Items(items: seq<Value>) { forall k :: 0 <= k < |items| ==> Canonicalizable(items[k]) }

  lemma ItemsOpen(items: seq<Value>, i: nat, x: Text)
    requires Items(items) && i <= |items|
    ensures var p := WriteItems(items, i) + x;
      && p != [] && (i > 0 ==> Stops(p)) && (p[0] == CloseArray <==> i == |items|)
  {
    if i < |items| && i == 0 { FirstCode(items[0]); }
  }

  lemma ItemParts(items: seq<Value>, i: nat, x: Text)
    requires Items(items) && i < |items|
    ensures WriteItems(items, i) + x == Separator(i) + (Write(items[i]) + (WriteItems(items, i + 1) + x))
  {
    Assoc(Separator(i), Write(items[i]) + WriteItems(items, i + 1), x);
    Assoc(Write(items[i]), WriteItems(items, i + 1), x);
  }

  lemma {:induction false} ItemsUnique(s: seq<Value>, t: seq<Value>, i: nat, x: Text, y: Text)
    requires Items(s) && Items(t) && i <= |s| && i <= |t| && s[..i] == t[..i]
    requires WriteItems(s, i) + x == WriteItems(t, i) + y
    ensures s == t && x == y
    decreases s, 0, |s| - i
  {
    ItemsOpen(s, i, x);
    ItemsOpen(t, i, y);
    assert i == |s| <==> i == |t|;
    if i == |s| {
      Cut([CloseArray], [CloseArray], x, y);
      assert s == s[..i] && t == t[..i];
    } else {
      ItemParts(s, i, x);
      ItemParts(t, i, y);
      var restS, restT := WriteItems(s, i + 1) + x, WriteItems(t, i + 1) + y;
      Cut(Separator(i), Separator(i), Write(s[i]) + restS, Write(t[i]) + restT);
      ItemsOpen(s, i + 1, x);
      ItemsOpen(t, i + 1, y);
      WriteUnique(s[i], t[i], restS, restT);
      assert s[..i + 1] == s[..i] + [s[i]] && t[..i + 1] == t[..i] + [t[i]];
      ItemsUnique(s, t, i + 1, x, y);
    }
  }

  ghost predicate Members(v: Value, keys: seq<Text>) {
    v.Obj? && Canonicalizable(v) && forall k :: k in keys ==> TextKey(k) in v.members
  }

  lemma MembersOpen(v: Value, keys: seq<Text>, i: nat, x: Text)
    requires Members(v, keys) && i <= |keys|
    ensures var p := WriteMembers(v, keys, i) + x;
      p != [] && Stops(p) && (p[0] == CloseObject <==> i == |keys|)
  {
  }

  ghost function At(v: Value, keys: seq<Text>, i: nat): (m: Value)
    requires Members(v, keys) && i < |keys|
    ensures TextKey(keys[i]) in v.members && m == v.members[TextKey(keys[i])] && Canonicalizable(m)
  {
    assert keys[i] in keys;
    v.members[TextKey(keys[i])]
  }

  /** One member apart: the separator, the key, the colon, the value, the rest. */
  lemma MemberParts(v: Value, keys: seq<Text>, i: nat, x: Text)
    requires Members(v, keys) && i < |keys|
    ensures WriteMembers(v, keys, i) + x ==
      Separator(i) + (Quoted(keys[i]) + ([Colon] + (Write(At(v, keys, i)) + (WriteMembers(v, keys, i + 1) + x))))
  {
    var rest := WriteMembers(v, keys, i + 1);
    var w := Write(At(v, keys, i));
    Assoc(Separator(i), Quoted(keys[i]) + ([Colon] + (w + rest)), x);
    Assoc(Quoted(keys[i]), [Colon] + (w + rest), x);
    Assoc([Colon], w + rest, x);
    Assoc(w, rest, x);
  }

  lemma MemberUnique(a: Value, b: Value, s: seq<Text>, t: seq<Text>, i: nat, x: Text, y: Text)
    requires Members(a, s) && Members(b, t) && i < |s| && i < |t|
    requires WriteMembers(a, s, i) + x == WriteMembers(b, t, i) + y
    ensures s[i] == t[i]
    ensures Write(At(a, s, i)) + (WriteMembers(a, s, i + 1) + x) == Write(At(b, t, i)) + (WriteMembers(b, t, i + 1) + y)
  {
    MemberParts(a, s, i, x);
    MemberParts(b, t, i, y);
    var p, q := Write(At(a, s, i)) + (WriteMembers(a, s, i + 1) + x), Write(At(b, t, i)) + (WriteMembers(b, t, i + 1) + y);
    Cut(Separator(i), Separator(i), Quoted(s[i]) + ([Colon] + p), Quoted(t[i]) + ([Colon] + q));
    QuotedUnique(s[i], t[i], [Colon] + p, [Colon] + q);
    Cut([Colon], [Colon], p, q);
  }

  /** The keys and values agree below `i`. */
  ghost predicate Agree(a: Value, b: Value, s: seq<Text>, t: seq<Text>, i: nat) {
    && Members(a, s) && Members(b, t) && i <= |s| && i <= |t|
    && forall k :: 0 <= k < i ==> s[k] == t[k] && At(a, s, k) == At(b, t, k)
  }

  lemma {:induction false} MembersUnique(a: Value, b: Value, s: seq<Text>, t: seq<Text>, i: nat, x: Text, y: Text)
    requires Agree(a, b, s, t, i) && WriteMembers(a, s, i) + x == WriteMembers(b, t, i) + y
    ensures |s| == |t| && Agree(a, b, s, t, |s|) && x == y
    decreases a, 0, |s| - i
  {
    MembersOpen(a, s, i, x);
    MembersOpen(b, t, i, y);
    assert i == |s| <==> i == |t|;
    if i == |s| {
      Cut([CloseObject], [CloseObject], x, y);
    } else {
      MemberUnique(a, b, s, t, i, x, y);
      MembersOpen(a, s, i + 1, x);
      MembersOpen(b, t, i + 1, y);
      WriteUnique(At(a, s, i), At(b, t, i), WriteMembers(a, s, i + 1) + x, WriteMembers(b, t, i + 1) + y);
      MembersUnique(a, b, s, t, i + 1, x, y);
    }
  }

  lemma SameMembers(a: Value, b: Value)
    requires a.Obj? && b.Obj? && Canonicalizable(a) && Canonicalizable(b) && KeysOf(a) == KeysOf(b)
    requires forall k :: 0 <= k < |KeysOf(a)| ==> At(a, KeysOf(a), k) == At(b, KeysOf(b), k)
    ensures a == b
  {
    forall key | key in a.members || key in b.members ensures key in a.members && key in b.members && a.members[key] == b.members[key] {
      assert key == TextKey(key.text) && key.text in KeysOf(a);
      var k :| 0 <= k < |KeysOf(a)| && KeysOf(a)[k] == key.text;
      assert At(a, KeysOf(a), k) == At(b, KeysOf(b), k);
    }
    assert a.members == b.members;
  }

  // -- UTF-8 -----------------------------------------------------------------------------------

  lemma Utf8CodeUnique(c: Code, d: Code, x: seq<Byte>, y: seq<Byte>)
    requires !Surrogate(c) && !Surrogate(d) && Utf8Code(c) + x == Utf8Code(d) + y
    ensures c == d && x == y
  {
    SameFirst(Utf8Code(c), Utf8Code(d), x, y);
    assert |Utf8Code(c)| == |Utf8Code(d)|;
    Cut(Utf8Code(c), Utf8Code(d), x, y);
    SameCode(c, d);
  }

  lemma SameCode(c: Code, d: Code)
    requires !Surrogate(c) && !Surrogate(d) && Utf8Code(c) == Utf8Code(d)
    ensures c == d
  {
    var p, q := Utf8Code(c), Utf8Code(d);
    assert |p| == |q| && p[0] == q[0];
    assert |p| > 1 ==> p[1] == q[1];
    assert |p| > 2 ==> p[2] == q[2];
    assert |p| > 3 ==> p[3] == q[3];
  }

  lemma {:induction false} Utf8Unique(t: Text, u: Text)
    requires Clean(t) && Clean(u) && Utf8(t) == Utf8(u)
    ensures t == u
    decreases |t|
  {
    if t != [] && u != [] {
      assert Clean(t[1..]) && Clean(u[1..]);
      Utf8CodeUnique(t[0], u[0], Utf8(t[1..]), Utf8(u[1..]));
      Utf8Unique(t[1..], u[1..]);
      assert t == [t[0]] + t[1..] && u == [u[0]] + u[1..];
    }
  }

  // -- main results ----------------------------------------------------------------------------

  /** Two values with the same canonical bytes are the same value. */
  lemma DumpsIsInjective(a: Value, b: Value)
    requires Dumps(a).Some? && Dumps(a) == Dumps(b)
    ensures a == b
  {
    Utf8Unique(Write(a), Write(b));
    WriteUnique(a, b, [], []);
  }

  /** An ascending listing of the keys is the one the encoder uses: insertion order does not matter. */
  lemma {:induction false} OrderIsUnique(s: set<Text>, keys: seq<Text>)
    requires Ascending(keys) && forall t :: t in keys <==> t in s
    ensures keys == InOrder(s)
    decreases |s|
  {
    assert |keys| > 0 ==> keys[0] in s;
    if s != {} {
      var k := Smallest(s);
      assert k in keys && keys[0] in keys;
      LessOrders(k, keys[0], k);
      assert keys[0] == k;
      forall t ensures t in keys[1..] <==> t in s - {k} {
        if t in keys[1..] {
          var j :| 1 <= j < |keys| && keys[j] == t;
          LessOrders(k, k, k);
        }
        if t in s - {k} { var j :| 0 <= j < |keys| && keys[j] == t; assert keys[1..][j - 1] == t; }
      }
      OrderIsUnique(s - {k}, keys[1..]);
    } else {
      assert |keys| == 0;
      assert InOrder(s) == [];
      assert keys == [];
    }
  }

  // -- what rests on it --------------------------------------------------------------------------

  /** A wire domain: a name without NUL, closed by NUL. */
  predicate IsDomain(d: seq<Byte>) {
    d != [] && d[|d| - 1] == 0 && forall i :: 0 <= i < |d| - 1 ==> d[i] != 0
  }

  /** Messages hashed under different domains are never the same bytes. */
  lemma DomainsSeparate(d: seq<Byte>, e: seq<Byte>, x: seq<Byte>, y: seq<Byte>)
    requires IsDomain(d) && IsDomain(e) && d + x == e + y
    ensures d == e && x == y
  {
    assert forall i :: 0 <= i < |d| && i < |e| ==> d[i] == (d + x)[i] == (e + y)[i] == e[i];
    Cut(d, e, x, y);
  }

  const Args: Text := [97, 114, 103, 115]
  const Targets: Text := [116, 97, 114, 103, 101, 116, 115]
  const Tool: Text := [116, 111, 111, 108]
  const Client: Text := [99, 108, 105, 101, 110, 116]
  const Request: Text := [114, 101, 113, 117, 101, 115, 116]

  /** What request_digest hashes, after its domain. */
  ghost function RequestBody(tool: Text, args: map<Key, Value>, targets: map<Key, Value>): Option<seq<Byte>> {
    Dumps(Obj(map[TextKey(Args) := Obj(args), TextKey(Targets) := Obj(targets), TextKey(Tool) := Str(tool)]))
  }

  /** The request digest binds the tool, every argument and every target. */
  lemma RequestBodyBinds(tool: Text, args: map<Key, Value>, targets: map<Key, Value>,
                         tool': Text, args': map<Key, Value>, targets': map<Key, Value>)
    requires RequestBody(tool, args, targets).Some? && RequestBody(tool, args, targets) == RequestBody(tool', args', targets')
    ensures tool == tool' && args == args' && targets == targets'
  {
    var m := map[TextKey(Args) := Obj(args), TextKey(Targets) := Obj(targets), TextKey(Tool) := Str(tool)];
    var m' := map[TextKey(Args) := Obj(args'), TextKey(Targets) := Obj(targets'), TextKey(Tool) := Str(tool')];
    DumpsIsInjective(Obj(m), Obj(m'));
    assert Args != Targets && |Tool| == |Args| && Tool[0] != Args[0] && |Targets| != |Tool|;
    assert m[TextKey(Args)] == m'[TextKey(Args)] && m[TextKey(Targets)] == m'[TextKey(Targets)] && m[TextKey(Tool)] == m'[TextKey(Tool)];
  }

  ghost function OpBody(client: Text, request: Text): Option<seq<Byte>> {
    Dumps(Obj(map[TextKey(Client) := Str(client), TextKey(Request) := Str(request)]))
  }

  /** The provider key of an operation binds the client and the request id. */
  lemma OpBodyBinds(client: Text, request: Text, client': Text, request': Text)
    requires OpBody(client, request).Some? && OpBody(client, request) == OpBody(client', request')
    ensures client == client' && request == request'
  {
    var m := map[TextKey(Client) := Str(client), TextKey(Request) := Str(request)];
    var m' := map[TextKey(Client) := Str(client'), TextKey(Request) := Str(request')];
    DumpsIsInjective(Obj(m), Obj(m'));
    assert |Client| != |Request|;
    assert m[TextKey(Client)] == m'[TextKey(Client)] && m[TextKey(Request)] == m'[TextKey(Request)];
  }

  /** to_bytes(k, "big") */
  function BigEndian(n: nat, k: nat): (r: seq<Byte>)
    ensures |r| == k
  {
    if k == 0 then [] else BigEndian(n / 256, k - 1) + [n % 256]
  }

  function Power256(k: nat): nat { if k == 0 then 1 else 256 * Power256(k - 1) }

  lemma {:induction false} BigEndianUnique(m: nat, n: nat, k: nat)
    requires m < Power256(k) && n < Power256(k) && BigEndian(m, k) == BigEndian(n, k)
    ensures m == n
    decreases k
  {
    if k > 0 {
      Cut(BigEndian(m / 256, k - 1), BigEndian(n / 256, k - 1), [m % 256], [n % 256]);
      assert [m % 256][0] == [n % 256][0];
      BigEndianUnique(m / 256, n / 256, k - 1);
    }
  }

  /** What event_mac signs: domain, epoch, sequence number, previous MAC, the event's columns. */
  ghost function MacMessage(domain: seq<Byte>, epoch: nat, seqNo: nat, prev: seq<Byte>, columns: map<Key, Value>): Option<seq<Byte>> {
    match Dumps(Obj(columns))
    case None => None
    case Some(body) => Some(domain + (BigEndian(epoch, 8) + (BigEndian(seqNo, 8) + (prev + body))))
  }

  /** The MAC preimage binds the chain profile, the position, the previous MAC and every column. */
  lemma MacMessageBinds(domain: seq<Byte>, epoch: nat, seqNo: nat, prev: seq<Byte>, columns: map<Key, Value>,
                        domain': seq<Byte>, epoch': nat, seqNo': nat, prev': seq<Byte>, columns': map<Key, Value>)
    requires IsDomain(domain) && IsDomain(domain') && |prev| == 32 && |prev'| == 32
    requires epoch < Power256(8) && seqNo < Power256(8) && epoch' < Power256(8) && seqNo' < Power256(8)
    requires MacMessage(domain, epoch, seqNo, prev, columns).Some?
    requires MacMessage(domain, epoch, seqNo, prev, columns) == MacMessage(domain', epoch', seqNo', prev', columns')
    ensures (domain, epoch, seqNo, prev, columns) == (domain', epoch', seqNo', prev', columns')
  {
    var body, body' := Dumps(Obj(columns)).value, Dumps(Obj(columns')).value;
    var x, x' := prev + body, prev' + body';
    var y, y' := BigEndian(seqNo, 8) + x, BigEndian(seqNo', 8) + x';
    DomainsSeparate(domain, domain', BigEndian(epoch, 8) + y, BigEndian(epoch', 8) + y');
    Cut(BigEndian(epoch, 8), BigEndian(epoch', 8), y, y');
    Cut(BigEndian(seqNo, 8), BigEndian(seqNo', 8), x, x');
    Cut(prev, prev', body, body');
    BigEndianUnique(epoch, epoch', 8);
    BigEndianUnique(seqNo, seqNo', 8);
    DumpsIsInjective(Obj(columns), Obj(columns'));
  }
}
