/**
 The canonical tag-length-value encoding that every MAC input and every AEAD associated-data
 string is built from: one tag byte, the length as four big-endian bytes, the payload.

 Bytes are symbolic. A byte is plain, or it is one of the bytes of a MAC; a MAC is identified
 by its key label and its message. So MACs never collide, while everything about how their
 messages are put together is about the actual bytes.
 */
module CanonicalEncoding {
  import opened Options

  type Byte = b: int | 0 <= b < 256

  datatype Atom = Plain(b: Byte) | OfMac(mac: Mac, index: nat)
  datatype Mac = Mac(info: seq<Atom>, message: seq<Atom>)

  type Bytes = seq<Atom>

  const U32_MODULUS := 0x1_0000_0000
  const MAC_LENGTH: nat := 32

  function MacBytes(m: Mac): (r: Bytes)
    ensures |r| == MAC_LENGTH && r[0] == OfMac(m, 0)
  {
    seq(MAC_LENGTH, i requires 0 <= i < MAC_LENGTH => OfMac(m, i))
  }

  // ---------- Big-endian numbers ----------

  function Power256(k: nat): (r: nat)
    ensures 0 < r
  {
    if k == 0 then 1 else 256 * Power256(k - 1)
  }

  function BigEndian(n: nat, k: nat): (r: Bytes)
    ensures |r| == k
  {
    if k == 0 then [] else BigEndian(n / 256, k - 1) + [Plain(n % 256)]
  }

  predicate AllPlain(bs: Bytes) {
    forall i :: 0 <= i < |bs| ==> bs[i].Plain?
  }

  function FromBigEndian(bs: Bytes): (r: nat)
    requires AllPlain(bs)
  {
    if bs == [] then 0 else 256 * FromBigEndian(bs[..|bs| - 1]) + bs[|bs| - 1].b
  }

  lemma {:induction false} BigEndianRoundTrip(n: nat, k: nat)
    requires n < Power256(k)
    ensures AllPlain(BigEndian(n, k)) && FromBigEndian(BigEndian(n, k)) == n
  {
    if k > 0 {
      BigEndianRoundTrip(n / 256, k - 1);
      assert BigEndian(n, k)[..k - 1] == BigEndian(n / 256, k - 1);
    }
  }

  lemma {:induction false} FromBigEndianBound(bs: Bytes)
    requires AllPlain(bs)
    ensures FromBigEndian(bs) < Power256(|bs|)
    ensures BigEndian(FromBigEndian(bs), |bs|) == bs
  {
    if bs != [] { FromBigEndianBound(bs[..|bs| - 1]); }
  }

  lemma FourBytes()
    ensures Power256(4) == U32_MODULUS && Power256(2) == 0x1_0000
  {
    assert Power256(1) == 256;
    assert Power256(2) == 0x1_0000;
    assert Power256(3) == 0x100_0000;
  }

  // ---------- Fields ----------

  datatype Field = Field(tag: Byte, payload: Bytes)

  predicate Sized(f: Field) {
    |f.payload| < U32_MODULUS
  }

  predicate AllSized(fs: seq<Field>) {
    forall i :: 0 <= i < |fs| ==> Sized(fs[i])
  }

  function EncodeField(f: Field): (r: Bytes)
    requires Sized(f)
    ensures |r| == 5 + |f.payload|
  {
    [Plain(f.tag)] + BigEndian(|f.payload|, 4) + f.payload
  }

  function Encode(fs: seq<Field>): (r: Bytes)
    requires AllSized(fs)
  {
    if fs == [] then [] else EncodeField(fs[0]) + Encode(fs[1..])
  }

  /** The parser that shows the encoding can be read back. */
  function Decode(bs: Bytes): (r: Option<seq<Field>>)
    decreases |bs|
  {
    if bs == [] then Some([])
    else if |bs| < 5 || !AllPlain(bs[..5]) then None
    else
      var n := FromBigEndian(bs[1..5]);
      if |bs| < 5 + n then None
      else
        var rest := Decode(bs[5 + n..]);
        if rest.None? then None else Some([Field(bs[0].b, bs[5..5 + n])] + rest.value)
  }

  lemma {:induction false} DecodeEncode(fs: seq<Field>)
    requires AllSized(fs)
    ensures Decode(Encode(fs)) == Some(fs)
  {
    if fs != [] {
      var f, bs := fs[0], Encode(fs);
      var n := |f.payload|;
      FourBytes();
      BigEndianRoundTrip(n, 4);
      assert bs[1..5] == BigEndian(n, 4);
      assert bs[..5] == [Plain(f.tag)] + BigEndian(n, 4);
      assert bs[5..5 + n] == f.payload;
      assert bs[5 + n..] == Encode(fs[1..]);
      DecodeEncode(fs[1..]);
      assert fs == [f] + fs[1..];
    }
  }

  lemma FieldOfHeader(bs: Bytes, n: nat)
    requires 5 <= |bs| && AllPlain(bs[..5]) && AllPlain(bs[1..5]) && n == FromBigEndian(bs[1..5]) && 5 + n <= |bs|
    ensures var f := Field(bs[0].b, bs[5..5 + n]); Sized(f) && EncodeField(f) == bs[..5 + n]
  {
    FourBytes();
    FromBigEndianBound(bs[1..5]);
    assert bs[0] == bs[..5][0];
    assert bs[..5 + n] == [bs[0]] + bs[1..5] + bs[5..5 + n];
  }

  lemma EncodeCons(f: Field, fs: seq<Field>)
    requires Sized(f) && AllSized(fs)
    ensures AllSized([f] + fs) && Encode([f] + fs) == EncodeField(f) + Encode(fs)
  {
    assert ([f] + fs)[1..] == fs;
  }

  /** What decodes starts with a field that encodes to its first bytes. */
  lemma DecodeHead(bs: Bytes) returns (n: nat, f: Field)
    requires bs != [] && Decode(bs).Some?
    ensures 5 + n <= |bs| && Sized(f) && EncodeField(f) == bs[..5 + n]
    ensures Decode(bs[5 + n..]).Some? && Decode(bs).value == [f] + Decode(bs[5 + n..]).value
  {
    assert forall i :: 0 <= i < 4 ==> bs[1..5][i] == bs[..5][i + 1];
    n := FromBigEndian(bs[1..5]);
    f := Field(bs[0].b, bs[5..5 + n]);
    FieldOfHeader(bs, n);
  }

  /** Only encodings decode: the parser accepts nothing else. */
  lemma {:induction false} EncodeDecode(bs: Bytes)
    requires Decode(bs).Some?
    ensures AllSized(Decode(bs).value) && Encode(Decode(bs).value) == bs
    decreases |bs|
  {
    if bs != [] {
      var n, f := DecodeHead(bs);
      EncodeDecode(bs[5 + n..]);
      EncodeCons(f, Decode(bs[5 + n..]).value);
      assert bs == bs[..5 + n] + bs[5 + n..];
    }
  }

  /** Unique decodability: two field lists with the same encoding are the same list. */
  lemma EncodingInjective(fs: seq<Field>, gs: seq<Field>)
    requires AllSized(fs) && AllSized(gs) && Encode(fs) == Encode(gs)
    ensures fs == gs
  {
    DecodeEncode(fs);
    DecodeEncode(gs);
  }

  lemma {:induction false} EncodeAppend(fs: seq<Field>, f: Field)
    requires AllSized(fs) && Sized(f)
    ensures AllSized(fs + [f]) && Encode(fs + [f]) == Encode(fs) + EncodeField(f)
  {
    if fs == [] {
      assert fs + [f] == [f] + [];
      EncodeCons(f, []);
    } else {
      var tail := fs[1..];
      EncodeAppend(tail, f);
      EncodeCons(fs[0], tail + [f]);
      assert fs + [f] == [fs[0]] + (tail + [f]);
      assert Encode(fs) == EncodeField(fs[0]) + Encode(tail);
    }
  }

  // ---------- Typed fields ----------

  const TAG_STR: Byte := 's' as int
  const TAG_BYTES: Byte := 'b' as int
  const TAG_I16: Byte := 'i' as int
  const TAG_I32: Byte := 'I' as int
  const TAG_UUID: Byte := 'u' as int

  type I16 = v: int | -0x8000 <= v < 0x8000
  type I32 = v: int | -0x8000_0000 <= v < 0x8000_0000
  type Uuid = u: Bytes | |u| == 16 witness seq(16, _ => Plain(0))

  function StrField(s: Bytes): (r: Field) { Field(TAG_STR, s) }
  function BytesField(s: Bytes): (r: Field) { Field(TAG_BYTES, s) }
  function UuidField(u: Uuid): (r: Field) { Field(TAG_UUID, u) }

  /** Two's complement, two bytes. */
  function I16Field(v: I16): (r: Field) {
    Field(TAG_I16, BigEndian(if v < 0 then v + 0x1_0000 else v, 2))
  }

  /** Two's complement, four bytes. */
  function I32Field(v: I32): (r: Field) {
    Field(TAG_I32, BigEndian(if v < 0 then v + U32_MODULUS else v, 4))
  }

  lemma I32FieldInjective(v: I32, w: I32)
    requires I32Field(v) == I32Field(w)
    ensures v == w
  {
    FourBytes();
    BigEndianRoundTrip(if v < 0 then v + U32_MODULUS else v, 4);
    BigEndianRoundTrip(if w < 0 then w + U32_MODULUS else w, 4);
  }

  /** The bytes of a field: its tag, its length with the most significant byte first, its payload. */
  lemma FieldBytes(f: Field)
    requires Sized(f)
    ensures var n := |f.payload|;
            EncodeField(f) == [Plain(f.tag), Plain(n / 0x100_0000), Plain(n / 0x1_0000 % 256), Plain(n / 256 % 256), Plain(n % 256)] + f.payload
  {
    FourPlain(|f.payload|);
  }

  lemma Quotients(n: nat)
    ensures n / 256 / 256 == n / 0x1_0000 && n / 0x1_0000 / 256 == n / 0x100_0000
    ensures n < U32_MODULUS ==> n / 0x100_0000 < 256
  {
  }

  lemma FourSteps(n: nat, a: nat, b: nat, c: nat)
    requires a == n / 256 && b == a / 256 && c == b / 256
    ensures BigEndian(n, 4) == [Plain(c % 256), Plain(b % 256), Plain(a % 256), Plain(n % 256)]
  {
    assert BigEndian(c / 256, 0) == [];
    assert BigEndian(c, 1) == [Plain(c % 256)];
    assert BigEndian(b, 2) == [Plain(c % 256), Plain(b % 256)];
    assert BigEndian(a, 3) == [Plain(c % 256), Plain(b % 256), Plain(a % 256)];
  }

  lemma FourPlain(n: nat)
    requires n < U32_MODULUS
    ensures n / 0x100_0000 < 256
    ensures BigEndian(n, 4) == [Plain(n / 0x100_0000), Plain(n / 0x1_0000 % 256), Plain(n / 256 % 256), Plain(n % 256)]
  {
    Quotients(n);
    FourSteps(n, n / 256, n / 0x1_0000, n / 0x100_0000);
  }

  /** The bytes of an integer field are its two's complement. */
  lemma I32FieldBytes(v: I32)
    ensures var n := v % U32_MODULUS;
            I32Field(v) == Field('I' as int, [Plain(n / 0x100_0000), Plain(n / 0x1_0000 % 256), Plain(n / 256 % 256), Plain(n % 256)])
  {
    FourPlain(v % U32_MODULUS);
  }

  lemma I16FieldBytes(v: I16)
    ensures var n := v % 0x1_0000; I16Field(v) == Field('i' as int, [Plain(n / 256), Plain(n % 256)])
  {
    var n := v % 0x1_0000;
    assert BigEndian(n / 256, 1) == [Plain(n / 256 % 256)] by { assert BigEndian(n / 256 / 256, 0) == []; }
  }

  /** The builder: it appends fields to its bytes in place. A payload of 2^32 bytes or more
      makes the source panic. */
  class CanonicalBytes {
    var bytes: Bytes
    ghost var fields: seq<Field>

    ghost predicate Valid()
      reads this
    {
      AllSized(fields) && bytes == Encode(fields)
    }

    constructor (domain: Bytes)
      requires |domain| < U32_MODULUS
      ensures Valid() && fields == [StrField(domain)]
    {
      bytes := EncodeField(StrField(domain));
      fields := [StrField(domain)];
      new;
      assert [StrField(domain)][1..] == [];
      assert bytes == Encode(fields);
    }

    method AppendField(tag: Byte, value: Bytes)
      requires Valid() && |value| < U32_MODULUS
      modifies this
      ensures Valid() && fields == old(fields) + [Field(tag, value)]
    {
      EncodeAppend(fields, Field(tag, value));
      bytes := bytes + [Plain(tag)];
      bytes := bytes + BigEndian(|value|, 4);
      bytes := bytes + value;
      fields := fields + [Field(tag, value)];
      assert bytes == old(bytes) + EncodeField(Field(tag, value));
    }

    method AppendStr(value: Bytes)
      requires Valid() && |value| < U32_MODULUS
      modifies this
      ensures Valid() && fields == old(fields) + [StrField(value)]
    {
      AppendField(TAG_STR, value);
    }

    method AppendBytes(value: Bytes)
      requires Valid() && |value| < U32_MODULUS
      modifies this
      ensures Valid() && fields == old(fields) + [BytesField(value)]
    {
      AppendField(TAG_BYTES, value);
    }

    method AppendI16(value: I16)
      requires Valid()
      modifies this
      ensures Valid() && fields == old(fields) + [I16Field(value)]
    {
      AppendField(TAG_I16, BigEndian(if value < 0 then value + 0x1_0000 else value, 2));
    }

    method AppendI32(value: I32)
      requires Valid()
      modifies this
      ensures Valid() && fields == old(fields) + [I32Field(value)]
    {
      AppendField(TAG_I32, BigEndian(if value < 0 then value + U32_MODULUS else value, 4));
    }

    method AppendUuid(value: Uuid)
      requires Valid()
      modifies this
      ensures Valid() && fields == old(fields) + [UuidField(value)]
    {
      AppendField(TAG_UUID, value);
    }
  }
}
