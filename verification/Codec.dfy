/** The variable-length codes for integers and strings. */
module Codec {
  import opened Basics

  type Octet = c: char | c as int < 256

  type Text = seq<Octet>

  function Byte(n: nat): Octet
    requires n < 256
  {
    n as char
  }

  function Code(c: Octet): (n: nat)
    ensures n < 256
  {
    c as int
  }

  /** A file open for writing. */
  class Output {
    var bytes: Text

    constructor ()
      ensures bytes == []
    {
      bytes := [];
    }

    method Put(c: Octet)
      modifies this
      ensures bytes == old(bytes) + [c]
    {
      bytes := bytes + [c];
    }

    method Write(t: Text)
      modifies this
      ensures bytes == old(bytes) + t
    {
      bytes := bytes + t;
    }
  }

  /** A file open for reading. */
  class Input {
    const bytes: Text
    var pos: nat

    constructor (bytes: Text)
      ensures this.bytes == bytes && pos == 0
    {
      this.bytes, pos := bytes, 0;
    }

    ghost predicate Valid()
      reads this
    {
      pos <= |bytes|
    }

    /** What is still to be read. */
    ghost function Rest(): Text
      requires Valid()
      reads this
    {
      bytes[pos..]
    }

    /** fgetc */
    method Get() returns (c: Option<Octet>)
      requires Valid()
      modifies this
      ensures Valid()
      ensures c == if old(Rest()) == [] then None else Some(old(Rest())[0])
      ensures Rest() == if old(Rest()) == [] then [] else old(Rest())[1..]
    {
      c := None;
      if pos < |bytes| {
        c := Some(bytes[pos]);
        pos := pos + 1;
      }
    }

    /** fread of one item of `n` bytes: all of it or a failure, which uses up what there was. */
    method Read(n: nat) returns (t: Option<Text>)
      requires Valid()
      modifies this
      ensures Valid()
      ensures t == if n <= |old(Rest())| then Some(old(Rest())[..n]) else None
      ensures Rest() == if n <= |old(Rest())| then old(Rest())[n..] else []
    {
      if pos + n <= |bytes| {
        assert Rest()[..n] == bytes[pos..pos + n] && Rest()[n..] == bytes[pos + n..];
        t := Some(bytes[pos..pos + n]);
        pos := pos + n;
      } else {
        t := None;
        pos := |bytes|;
      }
    }
  }

  // ---------------------------------------------------------------- integers

  /** All groups of seven bits but the last, the first group not zero. */
  function High(v: nat): Text {
    if v == 0 then [] else High(v / 128) + [Byte(v % 128)]
  }

  /** The code of a number: its groups of seven bits, with the top bit set on the last. */
  function Encoded(v: nat): (t: Text)
    ensures t != []
  {
    High(v / 128) + [Byte(v % 128 + 128)]
  }

  /** The outcome of decoding: a value and what is left, or a failure. */
  datatype Decoded<T> = Failed(rest: Text) | Decoded(value: T, rest: Text)

  /** (acc | v) << 7 on 32 bits, where the low seven bits of `acc` are clear. */
  function ShiftIn(acc: Word, v: nat): (r: Word)
    requires v < 128
    ensures r % 128 == 0 && r == (acc + v) * 128 % WORD_LIMIT
  {
    var m := (acc + v) % 0x200_0000;
    assert acc + v == (acc + v) / 0x200_0000 * 0x200_0000 + m;
    m * 128
  }

  /** Decoding with `acc` shifted in so far. */
  function DecodeFrom(acc: Word, t: Text): (d: Decoded<Word>)
    requires acc % 128 == 0
    ensures |d.rest| <= |t| && (d.Decoded? ==> |d.rest| < |t|)
    decreases |t|
  {
    if t == [] then Failed([])
    else
      var v := Code(t[0]);
      if v >= 128 then Decoded(acc + (v - 128), t[1..])
      else DecodeFrom(ShiftIn(acc, v), t[1..])
  }

  function Decode(t: Text): (d: Decoded<Word>)
    ensures |d.rest| <= |t| && (d.Decoded? ==> |d.rest| < |t|)
  {
    DecodeFrom(0, t)
  }

  /** What decoding leaves in its result, also when the file ends before the number does. */
  function StoredFrom(acc: Word, t: Text): Word
    requires acc % 128 == 0
    decreases |t|
  {
    if t == [] then acc / 128
    else
      var v := Code(t[0]);
      if v >= 128 then acc + (v - 128) else StoredFrom(ShiftIn(acc, v), t[1..])
  }

  function Stored(t: Text): Word {
    StoredFrom(0, t)
  }

  /** The number made of `n` and then groups of seven bits. */
  function Groups(n: nat, t: Text): nat
    decreases |t|
  {
    if t == [] then n else Groups(n * 128 + Code(t[0]), t[1..])
  }

  lemma {:induction false} StoredGroups(n: nat, acc: Word, t: Text)
    requires acc == n * 128 % WORD_LIMIT && acc % 128 == 0 && forall c | c in t :: Code(c) < 128
    ensures DecodeFrom(acc, t) == Failed([]) && StoredFrom(acc, t) == Groups(n, t) % 0x200_0000
    decreases |t|
  {
    hide ShiftIn;
    if t == [] {
      LowBits(n);
    } else {
      var v := Code(t[0]);
      ShiftGroups(n, acc, v);
      StoredGroups(n * 128 + v, ShiftIn(acc, v), t[1..]);
    }
  }

  lemma LowBits(n: nat)
    ensures n * 128 % WORD_LIMIT / 128 == n % 0x200_0000
  {
    var m := n % 0x200_0000;
    assert n * 128 == n / 0x200_0000 * WORD_LIMIT + m * 128;
  }

  lemma ShiftGroups(n: nat, acc: Word, v: nat)
    requires acc == n * 128 % WORD_LIMIT && acc % 128 == 0 && v < 128
    ensures ShiftIn(acc, v) == (n * 128 + v) * 128 % WORD_LIMIT
  {
    hide ShiftIn;
    var k := n * 128 / WORD_LIMIT;
    assert (n * 128 + v) * 128 == (acc + v) * 128 + k * 128 * WORD_LIMIT;
    SameRemainder((acc + v) * 128, k * 128);
  }

  lemma SameRemainder(a: nat, k: nat)
    ensures (a + k * WORD_LIMIT) % WORD_LIMIT == a % WORD_LIMIT
  {
    var q := a / WORD_LIMIT;
    assert a + k * WORD_LIMIT == (q + k) * WORD_LIMIT + a % WORD_LIMIT;
  }

  /** A decoded number is stored; of one that the end of the file cuts off, the low 25 bits of the
      groups that are there. */
  lemma StoredIs(t: Text)
    ensures Decode(t).Decoded? ==> Stored(t) == Decode(t).value
    ensures Decode(t).Failed? <==> forall c | c in t :: Code(c) < 128
    ensures Decode(t).Failed? ==> Decode(t).rest == [] && Stored(t) == Groups(0, t) % 0x200_0000
  {
    StoredDecoded(0, t);
    if forall c | c in t :: Code(c) < 128 { StoredGroups(0, 0, t); }
  }

  lemma {:induction false} StoredDecoded(acc: Word, t: Text)
    requires acc % 128 == 0
    ensures DecodeFrom(acc, t).Decoded? ==> StoredFrom(acc, t) == DecodeFrom(acc, t).value
    ensures DecodeFrom(acc, t).Failed? ==> forall c | c in t :: Code(c) < 128
    decreases |t|
  {
    if t != [] && Code(t[0]) < 128 { StoredDecoded(ShiftIn(acc, Code(t[0])), t[1..]); }
  }

  lemma ShiftOf(v: nat)
    requires v < WORD_LIMIT / 128
    ensures v / 128 * 128 < WORD_LIMIT && ShiftIn(v / 128 * 128, v % 128) == v * 128
  {
  }

  lemma {:induction false} DecodeHigh(v: nat, rest: Text)
    requires v < WORD_LIMIT / 128
    ensures DecodeFrom(0, High(v) + rest) == DecodeFrom(v * 128, rest)
    decreases v
  {
    hide ShiftIn;
    if v == 0 {
      assert High(v) + rest == rest;
    } else {
      ShiftOf(v);
      var c := [Byte(v % 128)];
      assert High(v) + rest == High(v / 128) + (c + rest);
      DecodeHigh(v / 128, c + rest);
      assert (c + rest)[1..] == rest && Code((c + rest)[0]) == v % 128;
    }
  }

  /** Decoding undoes encoding and uses exactly the bytes of the code. */
  lemma IntegerRoundTrip(v: Word, rest: Text)
    ensures Decode(Encoded(v) + rest) == Decoded(v, rest)
  {
    var c := [Byte(v % 128 + 128)];
    assert Encoded(v) + rest == High(v / 128) + (c + rest);
    DecodeHigh(v / 128, c + rest);
    assert (c + rest)[1..] == rest && v / 128 * 128 + v % 128 == v;
  }

  /** The form of a code: groups of seven bits, most significant first, none before the first that is
      not zero; only the last byte has its top bit set. */
  lemma CodeForm(v: nat)
    ensures var t := Encoded(v); var n := |t| - 1;
      && (forall i | 0 <= i < n :: Code(t[i]) < 128) && Code(t[n]) >= 128
      && v == Groups(0, t[..n]) * 128 + Code(t[n]) - 128 && (n > 0 ==> Code(t[0]) > 0)
  {
    HighForm(v / 128);
    assert Encoded(v)[..|Encoded(v)| - 1] == High(v / 128);
  }

  lemma {:induction false} HighForm(v: nat)
    ensures (forall c | c in High(v) :: Code(c) < 128) && Groups(0, High(v)) == v
    ensures v > 0 ==> High(v) != [] && Code(High(v)[0]) > 0
  {
    if v > 0 {
      HighForm(v / 128);
      GroupsNext(0, High(v / 128), Byte(v % 128));
      if v / 128 > 0 { assert High(v)[0] == High(v / 128)[0]; }
    }
  }

  lemma {:induction false} GroupsNext(n: nat, t: Text, c: Octet)
    ensures Groups(n, t + [c]) == Groups(n, t) * 128 + Code(c)
    decreases |t|
  {
    if t != [] {
      assert (t + [c])[1..] == t[1..] + [c];
      GroupsNext(n * 128 + Code(t[0]), t[1..], c);
    } else {
      assert (t + [c])[1..] == [];
    }
  }

  /** No code is the beginning of another. */
  lemma PrefixFree(a: Word, b: Word)
    requires Encoded(a) <= Encoded(b)
    ensures a == b
  {
    var rest := Encoded(b)[|Encoded(a)|..];
    assert Encoded(a) + rest == Encoded(b) == Encoded(b) + [];
    IntegerRoundTrip(a, rest);
    IntegerRoundTrip(b, []);
  }

  function Power(n: nat): nat {
    if n == 0 then 1 else 128 * Power(n - 1)
  }

  lemma {:induction false} HighLength(v: nat)
    ensures v < Power(|High(v)|) && (v > 0 ==> Power(|High(v)| - 1) <= v)
  {
    if v > 0 { HighLength(v / 128); }
  }

  lemma {:induction false} PowerGrows(m: nat, n: nat)
    requires m <= n
    ensures 0 < Power(m) <= Power(n)
  {
    if m < n { PowerGrows(m, n - 1); } else if m > 0 { PowerGrows(m - 1, m - 1); }
  }

  /** Whatever decodes to a value below a limit for its length. */
  lemma {:induction false} DecodeBound(acc: Word, t: Text, n: nat)
    requires acc % 128 == 0 && acc < Power(n + 1) && DecodeFrom(acc, t).Decoded?
    ensures var d := DecodeFrom(acc, t);
      |d.rest| < |t| && d.value < Power(n + |t| - |d.rest|)
    decreases |t|
  {
    var v := Code(t[0]);
    if v >= 128 {
      PowerBlock(acc, v - 128, n);
    } else {
      PowerBlock(acc, v, n);
      var next := ShiftIn(acc, v);
      assert next <= (acc + v) * 128;
      DecodeBound(next, t[1..], n + 1);
    }
  }

  lemma PowerBlock(acc: nat, v: nat, n: nat)
    requires acc % 128 == 0 && acc < Power(n + 1) && v < 128
    ensures acc + v < Power(n + 1)
  {
    assert Power(n + 1) % 128 == 0;
  }

  /** A code has one to five bytes, and no byte string that decodes to the same number is shorter. */
  lemma Shortest(v: Word, t: Text)
    requires Decode(t) == Decoded(v, [])
    ensures 1 <= |Encoded(v)| <= 5 && |Encoded(v)| <= |t|
  {
    var h := v / 128;
    HighLength(h);
    DecodeBound(0, t, 0);
    assert Power(4) == 0x1000_0000 by { assert Power(2) == 0x4000; }
    if |High(h)| > 4 {
      PowerGrows(4, |High(h)| - 1);
    }
    if |t| < |High(h)| + 1 && h > 0 {
      PowerGrows(|t| - 1, |High(h)| - 1);
      assert Power(|t|) == 128 * Power(|t| - 1);
    }
  }

  // ---------------------------------------------------------------- the loops over integers

  /** 1 << i, for the shifts of the loop. */
  function One(i: nat): nat {
    if i == 28 then 0x1000_0000 else if i == 21 then 0x20_0000 else if i == 14 then 0x4000 else 0x80
  }

  /** value >> i, for the shifts of the loop. */
  function Right(value: Word, i: nat): Word {
    if i >= 35 then 0
    else if i == 28 then value / 0x1000_0000 else if i == 21 then value / 0x20_0000
    else if i == 14 then value / 0x4000 else if i == 7 then value / 0x80
    else value
  }

  /** camel_file_util_encode_uint32.  The result is that of the last fputc, not 0. */
  method EncodeUint32(out: Output, value: Word) returns (ret: int)
    modifies out
    ensures out.bytes == old(out.bytes) + Encoded(value) && ret >= 128
  {
    var i := 28;
    while i > 0
      invariant i == 28 || i == 21 || i == 14 || i == 7 || i == 0
      invariant out.bytes == old(out.bytes) + High(Right(value, i + 7))
    {
      NextGroup(value, i);
      if value >= One(i) {
        var c := Right(value, i) % 128;
        out.Put(Byte(c));
      }
      i := i - 7;
    }
    out.Put(Byte(value % 128 + 128));
    ret := value % 128 + 128;
  }

  lemma NextGroup(value: Word, i: nat)
    requires i == 28 || i == 21 || i == 14 || i == 7
    ensures value >= One(i) <==> Right(value, i) > 0
    ensures High(Right(value, i)) ==
            if value >= One(i) then High(Right(value, i + 7)) + [Byte(Right(value, i) % 128)] else High(Right(value, i + 7))
  {
    RightStep(value, i);
    hide Right, One;
    HighStep(Right(value, i));
  }

  lemma HighStep(v: nat)
    ensures High(v) == if v > 0 then High(v / 128) + [Byte(v % 128)] else High(v / 128)
  {
  }

  lemma RightStep(value: Word, i: nat)
    requires i == 28 || i == 21 || i == 14 || i == 7
    ensures value >= One(i) <==> Right(value, i) > 0
    ensures Right(value, i + 7) == Right(value, i) / 128
  {
    if i == 28 { Split28(value); } else if i == 21 { Split21(value); } else if i == 14 { Split14(value); } else { Split7(value); }
  }

  lemma Split28(value: Word)
    ensures value / 0x1000_0000 / 128 == 0 && (value >= 0x1000_0000 <==> value / 0x1000_0000 > 0)
  {
  }

  lemma Split21(value: Word)
    ensures value / 0x20_0000 / 128 == value / 0x1000_0000 && (value >= 0x20_0000 <==> value / 0x20_0000 > 0)
  {
  }

  lemma Split14(value: Word)
    ensures value / 0x4000 / 128 == value / 0x20_0000 && (value >= 0x4000 <==> value / 0x4000 > 0)
  {
  }

  lemma Split7(value: Word)
    ensures value / 0x80 / 128 == value / 0x4000 && (value >= 0x80 <==> value / 0x80 > 0)
  {
  }

  /** camel_file_util_decode_uint32, with the number it stores in either case. */
  method DecodeUint32(in_: Input) returns (ok: bool, dest: Word)
    requires in_.Valid()
    modifies in_
    ensures in_.Valid() && in_.Rest() == Decode(old(in_.Rest())).rest
    ensures ok <==> Decode(old(in_.Rest())).Decoded?
    ensures dest == Stored(old(in_.Rest())) && (ok ==> dest == Decode(old(in_.Rest())).value)
  {
    var value: Word := 0;
    var v := in_.Get();
    ghost var t := old(in_.Rest());
    while v.Some? && Code(v.value) < 128
      invariant in_.Valid() && value % 128 == 0
      invariant v == None ==> t == [] && in_.Rest() == []
      invariant v.Some? ==> t != [] && t[0] == v.value && in_.Rest() == t[1..]
      invariant DecodeFrom(value, t) == Decode(old(in_.Rest())) && StoredFrom(value, t) == Stored(old(in_.Rest()))
      decreases |t|
    {
      t := in_.Rest();
      value := ShiftIn(value, Code(v.value));
      v := in_.Get();
    }
    if v == None {
      return false, value / 128;
    }
    ok, dest := true, value + (Code(v.value) - 128);
  }

  // ---------------------------------------------------------------- strings

  const STRING_LIMIT: nat := 65536

  function Cut(s: Text): Text {
    if |s| > STRING_LIMIT then s[..STRING_LIMIT] else s
  }

  function EncodedString(s: Option<Text>): Text {
    match s
    case None => Encoded(1)
    case Some(t) => Encoded(|Cut(t)| + 1) + Cut(t)
  }

  function DecodeString(t: Text): Decoded<Text> {
    match Decode(t)
    case Failed(rest) => Failed(rest)
    case Decoded(n, rest) =>
      var len := (n + WORD_LIMIT - 1) % WORD_LIMIT;
      if len > STRING_LIMIT then Failed(rest)
      else if len > |rest| then Failed([])
      else Decoded(rest[..len], rest[len..])
  }

  /** What is read back: nothing at all comes back as the empty string, long strings come back cut. */
  function Kept(s: Option<Text>): Text {
    if s == None then [] else Cut(s.value)
  }

  lemma StringRoundTrip(s: Option<Text>, rest: Text)
    ensures DecodeString(EncodedString(s) + rest) == Decoded(Kept(s), rest)
  {
    var t := Kept(s);
    assert EncodedString(s) + rest == Encoded(|t| + 1) + (t + rest);
    IntegerRoundTrip(|t| + 1, t + rest);
    assert (t + rest)[..|t|] == t && (t + rest)[|t|..] == rest;
  }

  /** camel_file_util_encode_string */
  method EncodeString(out: Output, s: Option<Text>)
    modifies out
    ensures out.bytes == old(out.bytes) + EncodedString(s)
  {
    if s == None {
      var _ := EncodeUint32(out, 1);
      return;
    }
    var len := |s.value|;
    if len > STRING_LIMIT { len := STRING_LIMIT; }
    var _ := EncodeUint32(out, len + 1);
    if len != 0 { out.Write(s.value[..len]); }
    assert Cut(s.value) == s.value[..len];
  }

  /** camel_file_util_decode_string */
  method ReadString(in_: Input) returns (r: Option<Text>)
    requires in_.Valid()
    modifies in_
    ensures in_.Valid() && in_.Rest() == DecodeString(old(in_.Rest())).rest
    ensures r == match DecodeString(old(in_.Rest())) case Failed(_) => None case Decoded(s, _) => Some(s)
  {
    var ok, n := DecodeUint32(in_);
    if !ok { return None; }
    var len := (n + WORD_LIMIT - 1) % WORD_LIMIT;
    if len > STRING_LIMIT { return None; }
    r := in_.Read(len);
  }

  // ---------------------------------------------------------------- streams of both

  datatype Item = Number(n: Word) | String(s: Option<Text>)

  function Stream(items: seq<Item>): Text {
    if items == [] then []
    else (match items[0] case Number(n) => Encoded(n) case String(s) => EncodedString(s)) + Stream(items[1..])
  }

  datatype Value = NumberRead(n: Word) | StringRead(s: Text)

  function Expected(i: Item): Value {
    match i
    case Number(n) => NumberRead(n)
    case String(s) => StringRead(Kept(s))
  }

  /** Reading one thing after the other, of the kinds in which `items` were written. */
  function ReadBack(items: seq<Item>, t: Text): Decoded<seq<Value>> {
    if items == [] then Decoded([], t)
    else
      var first: Decoded<Value> := match items[0]
        case Number(n) => (match Decode(t) case Failed(r) => Failed(r) case Decoded(v, r) => Decoded(NumberRead(v), r))
        case String(s) => (match DecodeString(t) case Failed(r) => Failed(r) case Decoded(v, r) => Decoded(StringRead(v), r));
      match first
      case Failed(r) => Failed(r)
      case Decoded(v, r) =>
        match ReadBack(items[1..], r)
        case Failed(q) => Failed(q)
        case Decoded(vs, q) => Decoded([v] + vs, q)
  }

  function AllExpected(items: seq<Item>): seq<Value> {
    if items == [] then [] else [Expected(items[0])] + AllExpected(items[1..])
  }

  /** Numbers and strings written in any order are read back in that order, and exactly their bytes
      are used. */
  lemma {:induction false} StreamRoundTrip(items: seq<Item>, rest: Text)
    ensures ReadBack(items, Stream(items) + rest) == Decoded(AllExpected(items), rest)
    decreases |items|
  {
    hide Encoded, Decode, EncodedString, DecodeString, Kept;
    if items != [] {
      var tail := Stream(items[1..]) + rest;
      StreamRoundTrip(items[1..], rest);
      match items[0]
      case Number(n) =>
        IntegerRoundTrip(n, tail);
        assert Stream(items) + rest == Encoded(n) + tail;
      case String(s) =>
        StringRoundTrip(s, tail);
        assert Stream(items) + rest == EncodedString(s) + tail;
    } else {
      assert Stream(items) + rest == rest;
    }
  }
}
