/** The key strings under which instantiations are remembered, and why two different
    types never share one. */
module TypeKeys {
  import opened Options
  import opened HirTypes
  import opened LexSpec

  // ------------------------------------------------------------------- the key string

  /** A number in decimal. */
  function Decimal(n: nat): (s: string)
    ensures |s| > 0 && forall c | c in s :: IsDigit(c)
  {
    var last := ['0' + (n % 10) as char];
    if n < 10 then last else Decimal(n / 10) + last
  }

  function Signed(n: int): string {
    if n < 0 then "-" + Decimal(-n) else Decimal(n)
  }

  function Mut(mutable: bool): string {
    if mutable then "m" else "c"
  }

  function JoinNames(names: seq<string>, sep: string): string {
    if |names| == 0 then ""
    else if |names| == 1 then names[0]
    else names[0] + sep + JoinNames(names[1..], sep)
  }

  function Key(t: HType): string {
    match t
    case Int => "int"
    case Float => "float"
    case SizedFloat(bits) => "f" + Decimal(bits)
    case Bool => "bool"
    case Char => "char"
    case SizedInt(signed, bits) => (if signed then "i" else "u") + Decimal(bits)
    case Unit => "unit"
    case Str => "str"
    case NullT => "null"
    case Struct(id) => "S" + Decimal(id)
    case Enum(id) => "E" + Decimal(id)
    case Ref(m, i) => "R" + Mut(m) + Key(i)
    case Ptr(m, i) => "P" + Mut(m) + Key(i)
    case RawPtr(m, i) => "RP" + Mut(m) + Key(i)
    case OwnPtr(m, i) => "OP" + Mut(m) + Key(i)
    case Heap(i) => "H" + Key(i)
    case Array(n, e) => "A" + Signed(n) + "_" + Key(e)
    case Slice(m, e) => "Sl" + Mut(m) + Key(e)
    case Vec(e) => "V" + Key(e)
    case Dyn(traits, locked) => (if locked then "S" else "D") + JoinNames(traits, "+")
    case FnPtr(ret, params) => "F" + Key(ret) + "_" + ParamKeys(params)
    case TyVar(n) => "'" + n
    case AssocType(on, segment, _) => "AT" + Key(on) + "_" + segment
    case GenericPattern(n, args, _) => "GP" + n + "__" + JoinNames(Keys(args), "_")
    case RustOpaque(_) => "OPm" + "unit"
  }

  function ParamKeys(ts: seq<HType>): string {
    if |ts| == 0 then "" else Key(ts[0]) + "_" + ParamKeys(ts[1..])
  }

  function Keys(ts: seq<HType>): seq<string> {
    if |ts| == 0 then [] else [Key(ts[0])] + Keys(ts[1..])
  }

  /** The key of an argument list. */
  function ArgsKey(args: seq<HType>): string {
    JoinNames(Keys(args), ",")
  }

  /** Built without dyn, opaque, variable, associated or generic-pattern types. */
  predicate Keyed(t: HType)
    decreases Size(t)
  {
    KidsSmaller(t);
    && !t.Dyn? && !t.TyVar? && !t.AssocType? && !t.GenericPattern? && !t.RustOpaque?
    && KeyedAll(Kids(t))
  }

  predicate KeyedAll(ts: seq<HType>)
    decreases Sizes(ts)
  {
    |ts| == 0 || (Keyed(ts[0]) && KeyedAll(ts[1..]))
  }

  // ------------------------------------------------------------------ reading a number

  /** Digits read so far have value `acc`. */
  function ReadDigits(acc: nat, s: string): (r: (nat, string))
    ensures |r.1| <= |s|
    decreases |s|
  {
    if |s| == 0 || !IsDigit(s[0]) then (acc, s)
    else ReadDigits(acc * 10 + DigitValue(s[0]), s[1..])
  }

  predicate NoDigitAhead(s: string) {
    |s| == 0 || !IsDigit(s[0])
  }

  lemma {:induction false} ReadsThrough(n: nat, rest: string)
    ensures ReadDigits(0, Decimal(n) + rest) == ReadDigits(n, rest)
    decreases n
  {
    var d := '0' + (n % 10) as char;
    assert DigitValue(d) == n % 10 && IsDigit(d);
    if n < 10 {
      assert Decimal(n) + rest == [d] + rest && ([d] + rest)[1..] == rest;
    } else {
      ReadsThrough(n / 10, [d] + rest);
      assert Decimal(n) + rest == Decimal(n / 10) + ([d] + rest);
      assert ([d] + rest)[1..] == rest;
    }
  }

  // -------------------------------------------------------------------- reading a key

  function Past(s: string, n: nat): (r: string)
    ensures |r| <= |s| && (n > 0 && |s| > 0 ==> |r| < |s|)
  {
    if n <= |s| then s[n..] else ""
  }

  datatype Read<T> = Nothing | Read(value: T, rest: string)

  /** A type's outermost constructor, its parts left as unit. */
  function ReadHead(s: string): (r: Read<HType>)
    ensures r.Read? ==> |r.rest| < |s|
  {
    if |s| == 0 then Nothing
    else match s[0]
      case 'i' => if Peek(s, 1) == 'n' then Read(Int, Past(s, 3)) else ReadSized(s, true)
      case 'u' => if Peek(s, 1) == 'n' then Read(Unit, Past(s, 4)) else ReadSized(s, false)
      case 'f' =>
        if Peek(s, 1) == 'l' then Read(Float, Past(s, 5))
        else Read(SizedFloat(ReadDigits(0, s[1..]).0), ReadDigits(0, s[1..]).1)
      case 'b' => Read(Bool, Past(s, 4))
      case 'c' => Read(Char, Past(s, 4))
      case 's' => Read(Str, Past(s, 3))
      case 'n' => Read(NullT, Past(s, 4))
      case 'S' =>
        if Peek(s, 1) == 'l' then Read(Slice(Peek(s, 2) == 'm', Unit), Past(s, 3))
        else Read(Struct(ReadDigits(0, s[1..]).0), ReadDigits(0, s[1..]).1)
      case 'E' => Read(Enum(ReadDigits(0, s[1..]).0), ReadDigits(0, s[1..]).1)
      case 'R' =>
        if Peek(s, 1) == 'P' then Read(RawPtr(Peek(s, 2) == 'm', Unit), Past(s, 3))
        else Read(Ref(Peek(s, 1) == 'm', Unit), Past(s, 2))
      case 'P' => Read(Ptr(Peek(s, 1) == 'm', Unit), Past(s, 2))
      case 'O' => Read(OwnPtr(Peek(s, 2) == 'm', Unit), Past(s, 3))
      case 'H' => Read(Heap(Unit), s[1..])
      case 'A' => ReadArray(s)
      case 'V' => Read(Vec(Unit), s[1..])
      case 'F' => Read(FnPtr(Unit, []), s[1..])
      case _ => Nothing
  }

  function ReadSized(s: string, signed: bool): (r: Read<HType>)
    requires |s| > 0
    ensures r.Read? ==> |r.rest| < |s|
  {
    var d := ReadDigits(0, s[1..]);
    Read(SizedInt(signed, d.0), d.1)
  }

  function ReadArray(s: string): (r: Read<HType>)
    requires |s| > 0
    ensures r.Read? ==> |r.rest| < |s|
  {
    var negative := Peek(s, 1) == '-';
    var d := ReadDigits(0, Past(s, if negative then 2 else 1));
    Read(Array(if negative then 0 - d.0 as int else d.0, Unit), Past(d.1, 1))
  }

  /** A type with one part, the part put in. */
  function Around(head: HType, part: HType): HType {
    match head
    case Ref(m, _) => Ref(m, part)
    case Ptr(m, _) => Ptr(m, part)
    case RawPtr(m, _) => RawPtr(m, part)
    case OwnPtr(m, _) => OwnPtr(m, part)
    case Heap(_) => Heap(part)
    case Array(n, _) => Array(n, part)
    case Slice(m, _) => Slice(m, part)
    case Vec(_) => Vec(part)
    case _ => head
  }

  predicate HasPart(t: HType) {
    t.Ref? || t.Ptr? || t.RawPtr? || t.OwnPtr? || t.Heap? || t.Array? || t.Slice? || t.Vec?
  }

  function Decode(s: string): (r: Read<HType>)
    ensures r.Read? ==> |r.rest| < |s|
    decreases |s|, 0
  {
    match ReadHead(s)
    case Nothing => Nothing
    case Read(head, more) =>
      if head.FnPtr? then
        match Decode(more)
        case Nothing => Nothing
        case Read(ret, after) =>
          var ps := DecodeParams(Past(after, 1));
          Read(FnPtr(ret, ps.0), ps.1)
      else if HasPart(head) then
        match Decode(more)
        case Nothing => Nothing
        case Read(part, after) => Read(Around(head, part), after)
      else Read(head, more)
  }

  /** Parameters, each closed by an underscore, up to something that starts no type. */
  function DecodeParams(s: string): (r: (seq<HType>, string))
    ensures |r.1| <= |s|
    decreases |s|, 1
  {
    match Decode(s)
    case Nothing => ([], s)
    case Read(t, after) =>
      var more := DecodeParams(Past(after, 1));
      ([t] + more.0, more.1)
  }

  // ------------------------------------------------------------------------ round trip

  /** What can follow a key: nothing, an underscore, or the comma between arguments. */
  predicate Stops(s: string) {
    |s| == 0 || s[0] == '_' || s[0] == ','
  }

  function HeadKey(t: HType): string {
    match t
    case Ref(m, _) => "R" + Mut(m)
    case Ptr(m, _) => "P" + Mut(m)
    case RawPtr(m, _) => "RP" + Mut(m)
    case OwnPtr(m, _) => "OP" + Mut(m)
    case Heap(_) => "H"
    case Array(n, _) => "A" + Signed(n) + "_"
    case Slice(m, _) => "Sl" + Mut(m)
    case Vec(_) => "V"
    case FnPtr(_, _) => "F"
    case _ => Key(t)
  }

  lemma Front(c: char, s: string)
    ensures ([c] + s)[0] == c && ([c] + s)[1..] == s
  {
  }

  lemma NumberAfter(c: char, n: nat, rest: string)
    requires NoDigitAhead(rest)
    ensures var s := [c] + Decimal(n) + rest;
            s[0] == c && ReadDigits(0, s[1..]) == (n, rest) && IsDigit(Peek(s, 1))
  {
    var s := [c] + Decimal(n) + rest;
    ReadsThrough(n, rest);
    assert s == [c] + (Decimal(n) + rest);
    assert Peek(s, 1) == Decimal(n)[0];
    assert Decimal(n)[0] in Decimal(n);
  }

  lemma ReadsNumbered(t: HType, rest: string)
    requires t.SizedFloat? || t.SizedInt? || t.Struct? || t.Enum?
    requires Stops(rest)
    ensures ReadHead(Key(t) + rest) == Read(t, rest)
  {
    match t
    case SizedFloat(bits) => NumberAfter('f', bits, rest);
    case SizedInt(signed, bits) => NumberAfter(if signed then 'i' else 'u', bits, rest);
    case Struct(id) => NumberAfter('S', id, rest);
    case Enum(id) => NumberAfter('E', id, rest);
  }

  lemma ReadsWord(t: HType, rest: string)
    requires t.Int? || t.Float? || t.Bool? || t.Char? || t.Unit? || t.Str? || t.NullT?
    ensures ReadHead(Key(t) + rest) == Read(t, rest)
  {
    assert (Key(t) + rest)[|Key(t)|..] == rest;
  }

  lemma ReadsNegativeArray(n: int, rest: string)
    requires n < 0
    ensures ReadHead("A" + Signed(n) + "_" + rest) == Read(Array(n, Unit), rest)
  {
    var s, tail := "A" + Signed(n) + "_" + rest, ['_'] + rest;
    var digits := Decimal(-n) + tail;
    assert s == ['A', '-'] + digits && s[2..] == digits;
    ReadsThrough(-n, tail);
    Front('_', rest);
    ArrayRead(s, true, digits, -n, tail);
  }

  lemma ReadsArray(n: int, rest: string)
    requires n >= 0
    ensures ReadHead("A" + Signed(n) + "_" + rest) == Read(Array(n, Unit), rest)
  {
    var s, tail := "A" + Signed(n) + "_" + rest, ['_'] + rest;
    var digits := Decimal(n) + tail;
    assert s == ['A'] + digits && s[1..] == digits;
    NumberAfter('A', n, tail);
    assert s == ['A'] + Decimal(n) + tail;
    Front('_', rest);
    ArrayRead(s, false, digits, n, tail);
  }

  lemma ArrayRead(s: string, negative: bool, digits: string, n: nat, tail: string)
    requires |s| > 1 && s[0] == 'A' && negative == (s[1] == '-') && digits == s[if negative then 2 else 1..]
    requires ReadDigits(0, digits) == (n, tail) && |tail| > 0
    ensures ReadHead(s) == Read(Array(if negative then 0 - n as int else n, Unit), tail[1..])
  {
    assert ReadHead(s) == ReadArray(s);
  }

  lemma ReadsOnePointer(t: HType, rest: string)
    requires t.Ref? || t.Ptr?
    ensures ReadHead(HeadKey(t) + rest) == Read(Bare(t), rest)
  {
    assert (HeadKey(t) + rest)[2..] == rest;
  }

  lemma ReadsTwoPointer(t: HType, rest: string)
    requires t.RawPtr? || t.OwnPtr? || t.Slice?
    ensures ReadHead(HeadKey(t) + rest) == Read(Bare(t), rest)
  {
    assert (HeadKey(t) + rest)[3..] == rest;
  }

  /** The constructor is read back from its part of the key. */
  lemma ReadsHead(t: HType, rest: string)
    requires Keyed(t) && (|Kids(t)| == 0 ==> Stops(rest))
    ensures ReadHead(HeadKey(t) + rest) == Read(Bare(t), rest)
  {
    if t.SizedFloat? || t.SizedInt? || t.Struct? || t.Enum? { ReadsNumbered(t, rest); }
    else if t.Array? { if t.len < 0 { ReadsNegativeArray(t.len, rest); } else { ReadsArray(t.len, rest); } }
    else if t.Ref? || t.Ptr? { ReadsOnePointer(t, rest); }
    else if t.RawPtr? || t.OwnPtr? || t.Slice? { ReadsTwoPointer(t, rest); }
    else if t.Heap? || t.Vec? || t.FnPtr? { assert (HeadKey(t) + rest)[1..] == rest; }
    else { ReadsWord(t, rest); }
  }

  lemma KeyOfPart(t: HType)
    requires HasPart(t)
    ensures Kids(t) == [Kids(t)[0]] && Key(t) == HeadKey(t) + Key(Kids(t)[0])
    ensures Around(Bare(t), Kids(t)[0]) == t
  {
  }

  // One step of the decoder, its pieces given.

  lemma DecodeLeaf(s: string, head: HType, rest: string)
    requires ReadHead(s) == Read(head, rest) && !head.FnPtr? && !HasPart(head)
    ensures Decode(s) == Read(head, rest)
  {
  }

  lemma DecodePart(s: string, head: HType, more: string, part: HType, rest: string)
    requires ReadHead(s) == Read(head, more) && !head.FnPtr? && HasPart(head) && Decode(more) == Read(part, rest)
    ensures Decode(s) == Read(Around(head, part), rest)
  {
  }

  lemma DecodeFn(s: string, more: string, ret: HType, after: string, params: seq<HType>, rest: string)
    requires ReadHead(s) == Read(FnPtr(Unit, []), more) && Decode(more) == Read(ret, after)
    requires DecodeParams(Past(after, 1)) == (params, rest)
    ensures Decode(s) == Read(FnPtr(ret, params), rest)
  {
  }

  lemma DecodeParam(s: string, t: HType, after: string, more: seq<HType>, rest: string)
    requires Decode(s) == Read(t, after) && DecodeParams(Past(after, 1)) == (more, rest)
    ensures DecodeParams(s) == ([t] + more, rest)
  {
  }

  lemma DecodeNoParam(s: string)
    requires Stops(s)
    ensures DecodeParams(s) == ([], s)
  {
    assert Decode(s) == Nothing;
  }

  lemma PastFirst(c: char, s: string)
    ensures Past([c] + s, 1) == s
  {
  }

  /** Decoding a key gives the type back, and leaves what follows it. */
  lemma {:induction false} KeyDecodes(t: HType, rest: string)
    requires Keyed(t) && Stops(rest)
    ensures Decode(Key(t) + rest) == Read(t, rest)
    decreases Size(t)
  {
    KidsSmaller(t);
    if t.FnPtr? {
      FnKeyDecodes(t.ret, t.params, rest);
    } else if HasPart(t) {
      KeyOfPart(t);
      var part := Kids(t)[0];
      var more := Key(part) + rest;
      KidSmaller(Kids(t), 0);
      KeyDecodes(part, rest);
      ReadsHead(t, more);
      KeyCut(t, HeadKey(t), Key(part), rest);
      DecodePart(Key(t) + rest, Bare(t), more, part, rest);
    } else {
      ReadsHead(t, rest);
      DecodeLeaf(Key(t) + rest, t, rest);
    }
  }

  lemma KeyCut(t: HType, a: string, b: string, rest: string)
    requires Key(t) == a + b
    ensures Key(t) + rest == a + (b + rest)
  {
  }

  lemma {:induction false} FnKeyDecodes(ret: HType, params: seq<HType>, rest: string)
    requires Keyed(ret) && KeyedAll(params) && Stops(rest)
    ensures Decode(Key(FnPtr(ret, params)) + rest) == Read(FnPtr(ret, params), rest)
    decreases 1 + Size(ret) + Sizes(params)
  {
    var ps := ParamKeys(params) + rest;
    var after := ['_'] + ps;
    KeyDecodes(ret, after);
    PastFirst('_', ps);
    ParamsDecode(params, rest);
    var more := Key(ret) + after;
    FnHead(more);
    DecodeFn(['F'] + more, more, ret, after, params, rest);
    FnKeyIs(ret, params, rest);
  }

  lemma FnHead(more: string)
    ensures ReadHead(['F'] + more) == Read(FnPtr(Unit, []), more)
  {
    Front('F', more);
  }

  lemma FnKeyIs(ret: HType, params: seq<HType>, rest: string)
    ensures Key(FnPtr(ret, params)) + rest == ['F'] + (Key(ret) + (['_'] + (ParamKeys(params) + rest)))
  {
    FnGlue(Key(ret), ParamKeys(params), rest);
  }

  lemma FnGlue(ret: string, params: string, rest: string)
    ensures "F" + ret + "_" + params + rest == ['F'] + (ret + (['_'] + (params + rest)))
  {
  }

  lemma {:induction false} ParamsDecode(ts: seq<HType>, rest: string)
    requires KeyedAll(ts) && Stops(rest)
    ensures DecodeParams(ParamKeys(ts) + rest) == (ts, rest)
    decreases Sizes(ts)
  {
    if |ts| == 0 {
      assert ParamKeys(ts) + rest == rest;
      DecodeNoParam(rest);
    } else {
      var more := ParamKeys(ts[1..]) + rest;
      var after := ['_'] + more;
      KeyDecodes(ts[0], after);
      PastFirst('_', more);
      ParamsDecode(ts[1..], rest);
      DecodeParam(Key(ts[0]) + after, ts[0], after, ts[1..], rest);
      ParamKeyIs(Key(ts[0]), ParamKeys(ts[1..]), rest);
      assert ts == [ts[0]] + ts[1..];
    }
  }

  lemma ParamKeyIs(key: string, params: string, rest: string)
    ensures key + "_" + params + rest == key + (['_'] + (params + rest))
  {
  }

  /** Keys are uniquely readable: different types have different keys. */
  lemma KeyInjective(a: HType, b: HType)
    requires Keyed(a) && Keyed(b) && Key(a) == Key(b)
    ensures a == b
  {
    KeyDecodes(a, "");
    KeyDecodes(b, "");
    assert Key(a) + "" == Key(a) && Key(b) + "" == Key(b);
  }

  // -------------------------------------------------------------------- argument lists

  function ArgsFrom(ts: seq<HType>): string {
    if |ts| == 0 then "" else "," + Key(ts[0]) + ArgsFrom(ts[1..])
  }

  lemma {:induction false} ArgsKeyIs(ts: seq<HType>)
    requires |ts| > 0
    ensures ArgsKey(ts) == Key(ts[0]) + ArgsFrom(ts[1..])
    decreases |ts|
  {
    assert Keys(ts)[1..] == Keys(ts[1..]) && |Keys(ts)| == |ts| by { KeysLength(ts); }
    if |ts| == 1 {
      assert ArgsFrom(ts[1..]) == "";
    } else {
      ArgsKeyIs(ts[1..]);
      KeysLength(ts[1..]);
      assert Key(ts[0]) + "," + ArgsKey(ts[1..]) == Key(ts[0]) + ("," + Key(ts[1]) + ArgsFrom(ts[1..][1..]));
    }
  }

  lemma {:induction false} KeysLength(ts: seq<HType>)
    ensures |Keys(ts)| == |ts|
    decreases |ts|
  {
    if |ts| > 0 { KeysLength(ts[1..]); }
  }

  lemma HeadsAgree(x: HType, y: HType, a: string, b: string)
    requires Keyed(x) && Keyed(y) && Stops(a) && Stops(b) && Key(x) + a == Key(y) + b
    ensures x == y && a == b
  {
    KeyDecodes(x, a);
    KeyDecodes(y, b);
  }

  lemma CommaStops(ts: seq<HType>)
    ensures Stops(ArgsFrom(ts))
  {
    if |ts| > 0 { Comma(Key(ts[0]), ArgsFrom(ts[1..])); }
  }

  lemma Comma(a: string, b: string)
    ensures "," + a + b == [','] + (a + b) && ([','] + (a + b))[0] == ',' && ([','] + (a + b))[1..] == a + b
  {
  }

  lemma {:induction false} ArgsFromInjective(a: seq<HType>, b: seq<HType>)
    requires KeyedAll(a) && KeyedAll(b) && ArgsFrom(a) == ArgsFrom(b)
    ensures a == b
    decreases |a|
  {
    if |a| > 0 { Comma(Key(a[0]), ArgsFrom(a[1..])); }
    if |b| > 0 { Comma(Key(b[0]), ArgsFrom(b[1..])); }
    if |a| > 0 && |b| > 0 {
      CommaStops(a[1..]);
      CommaStops(b[1..]);
      HeadsAgree(a[0], b[0], ArgsFrom(a[1..]), ArgsFrom(b[1..]));
      ArgsFromInjective(a[1..], b[1..]);
      assert a == [a[0]] + a[1..] && b == [b[0]] + b[1..];
    }
  }

  lemma KeyNonEmpty(t: HType)
    requires Keyed(t)
    ensures |Key(t)| > 0
  {
    KeyDecodes(t, "");
    assert Key(t) + "" == Key(t);
  }

  /** So are comma-joined argument lists: one key never stands for two of them. */
  lemma ArgsKeyInjective(a: seq<HType>, b: seq<HType>)
    requires KeyedAll(a) && KeyedAll(b) && ArgsKey(a) == ArgsKey(b)
    ensures a == b
  {
    if |a| > 0 { ArgsKeyIs(a); KeyNonEmpty(a[0]); }
    if |b| > 0 { ArgsKeyIs(b); KeyNonEmpty(b[0]); }
    if |a| > 0 && |b| > 0 {
      CommaStops(a[1..]);
      CommaStops(b[1..]);
      HeadsAgree(a[0], b[0], ArgsFrom(a[1..]), ArgsFrom(b[1..]));
      ArgsFromInjective(a[1..], b[1..]);
      assert a == [a[0]] + a[1..] && b == [b[0]] + b[1..];
    }
  }

  // --------------------------------------------------------- why types are left out

  /** Two types share a key on purpose: an opaque handle is an owning pointer to unit. */
  lemma OpaqueShares(name: string)
    ensures Key(RustOpaque(name)) == Key(OwnPtr(true, Unit))
  {
  }

  /** And one by accident: `some lmint`, for a trait called `lmint`, and `[]mut int`. */
  lemma DynCollides(t: HType)
    requires t == Dyn(["lmint"], true)
    ensures Key(t) == Key(Slice(true, Int))
  {
    assert JoinNames(["lmint"], "+") == "lmint";
    assert "S" + "lmint" == "Sl" + "m" + "int";
  }
}
