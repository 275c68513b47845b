/**
 * Multi-precision integers as private-key files hold them: SSH-2 strings (section 5 of RFC 4251),
 * the bit-counted numbers of ssh.com, and the shortest ASN.1 INTEGER of a computed value.
 */
module Mpints {
  import opened Bytes
  import opened Marshal

  /** The big-endian value of some bytes. */
  function Value(b: Blob): nat {
    Fold(0, b, 8)
  }

  /** mp_get_nbits */
  function NBits(v: nat): nat {
    if v == 0 then 0 else 1 + NBits(v / 2)
  }

  // ----- canonical numbers -----

  function Strip(b: Blob): Blob {
    if b != [] && b[0] == 0 then Strip(b[1..]) else b
  }

  /** No leading zero byte but the one that keeps the number non-negative. */
  predicate Canonical(b: Blob) {
    b != [] ==> b[0] < 128 && (b[0] == 0 ==> |b| > 1 && b[1] >= 128)
  }

  function Canon(b: Blob): Blob {
    var s := Strip(b);
    if s != [] && s[0] >= 128 then [0] + s else s
  }

  lemma {:induction false} StripValue(b: Blob)
    ensures Value(Strip(b)) == Value(b) && (Strip(b) != [] ==> Strip(b)[0] != 0) && |Strip(b)| <= |b|
  {
    if b != [] && b[0] == 0 {
      StripValue(b[1..]);
    }
  }

  lemma {:induction false} FoldGrows(v: nat, b: Blob)
    ensures Fold(v, b, 8) >= v
    decreases |b|
  {
    if b != [] {
      FoldGrows(Join(v, b[0], 8), b[1..]);
    }
  }

  /** Bytes without a leading zero are the digits of their value. */
  lemma {:induction false} DigitsOfValue(b: Blob)
    requires b != [] && b[0] != 0
    ensures Value(b) > 0 && Digits(Value(b), 8) == b
    decreases |b|
  {
    var (a, x) := (b[..|b| - 1], b[|b| - 1]);
    assert b == a + [x];
    FoldAppend(0, a, [x], 8);
    FoldOne(Value(a), x, 8);
    assert Over(Value(b), 8) == Value(a) && Low(Value(b), 8) == x;
    if a != [] {
      DigitsOfValue(a);
    }
  }

  /** Canon keeps the value, is canonical, and is the only canonical form of that value. */
  lemma CanonIs(b: Blob)
    ensures Canonical(Canon(b)) && Value(Canon(b)) == Value(b)
    ensures Canonical(b) ==> Canon(b) == b
    ensures |Canon(b)| <= |b| + 1
  {
    StripValue(b);
    assert ([0] + Strip(b))[1..] == Strip(b);
    if Canonical(b) && b != [] && b[0] == 0 {
      assert Strip(b) == b[1..] && b == [0] + b[1..];
    }
  }

  lemma CanonUnique(a: Blob, b: Blob)
    ensures Value(a) == Value(b) <==> Canon(a) == Canon(b)
  {
    hide Value, Digits, Strip;
    CanonIs(a);
    CanonIs(b);
    if Value(a) == Value(b) {
      StripValue(a);
      StripValue(b);
      var (s, t) := (Strip(a), Strip(b));
      if s != [] {
        DigitsOfValue(s);
      }
      if t != [] {
        DigitsOfValue(t);
      }
      assert Value([]) == 0 by { NoBytes(); }
    }
  }

  lemma NoBytes()
    ensures Value([]) == 0
  {
  }

  // ----- SSH-2 numbers -----

  function PutMp(b: Blob): Blob {
    PutString(Canon(b))
  }

  /** put_mp_ssh2_from_string */
  method PutMpSsh2(out: Blob, str: Blob) returns (o: Blob)
    ensures o == out + PutMp(str)
  {
    hide PutUint32;
    var n := |str|;
    assert str[0..] == str;
    while n > 0 && str[|str| - n] == 0
      invariant 0 <= n <= |str|
      invariant Strip(str[|str| - n..]) == Strip(str)
    {
      n := n - 1;
    }
    var bytes := str[|str| - n..];
    o := out;
    if n > 0 && bytes[0] >= 128 {
      o := o + PutUint32(n + 1) + [0];
    } else {
      o := o + PutUint32(n);
    }
    o := o + bytes;
    assert bytes == Strip(str);
  }

  lemma PutMpOfCanonical(b: Blob)
    requires Canonical(b)
    ensures PutMp(b) == PutString(b)
  {
    CanonIs(b);
  }

  // ----- ssh.com numbers -----

  /** All leading zero bytes gone, but never the last byte. */
  function ComBytes(b: Blob): (r: Blob)
    ensures |r| <= |b| && (b != [] <==> r != [])
  {
    if |b| > 1 && b[0] == 0 then ComBytes(b[1..]) else b
  }

  function ComBits(b: Blob): nat {
    var c := ComBytes(b);
    if c == [] then 0
    else 8 * (|c| - 1) + (if c[0] == 0 then 1 else NBits(c[0]))
  }

  function PutCom(b: Blob): Blob {
    PutUint32(ComBits(b)) + ComBytes(b)
  }

  function Pow2(k: nat): nat
    requires k < 8
  {
    [1, 2, 4, 8, 16, 32, 64, 128][k]
  }

  function TestBit(x: byte, k: nat): bool
    requires k < 8
  {
    match k
    case 0 => x % 2 == 1
    case 1 => x / 2 % 2 == 1
    case 2 => x / 4 % 2 == 1
    case 3 => x / 8 % 2 == 1
    case 4 => x / 16 % 2 == 1
    case 5 => x / 32 % 2 == 1
    case 6 => x / 64 % 2 == 1
    case 7 => x / 128 % 2 == 1
  }

  lemma ByteBits(x: byte, k: nat)
    requires k < 8 && x < 2 * Pow2(k)
    ensures x >= Pow2(k) <==> TestBit(x, k)
    ensures x >= Pow2(k) ==> NBits(x) == k + 1
    ensures x < Pow2(k) && k > 0 ==> x < 2 * Pow2(k - 1)
  {
    hide NBits;
    if x >= Pow2(k) {
      Halves(x, k);
    }
  }

  lemma {:induction false} Halves(x: nat, k: nat)
    requires k < 8 && Pow2(k) <= x < 2 * Pow2(k)
    ensures NBits(x) == k + 1
  {
    if k > 0 {
      Halves(x / 2, k - 1);
    }
  }

  /** The bytes a bit count stands for. */
  lemma ComBytesCount(b: Blob)
    ensures (ComBits(b) + 7) / 8 == |ComBytes(b)|
    ensures ComBits(b) <= 8 * |b|
  {
    var c := ComBytes(b);
    if c != [] {
      ByteNBits(c[0]);
    }
  }

  lemma ByteNBits(x: byte)
    ensures NBits(x) <= 8 && (x > 0 ==> NBits(x) >= 1) && (NBits(x) == 8 <==> x >= 128)
  {
    if x >= 128 { Halves(x, 7); }
    else if x >= 64 { Halves(x, 6); }
    else if x >= 32 { Halves(x, 5); }
    else if x >= 16 { Halves(x, 4); }
    else if x >= 8 { Halves(x, 3); }
    else if x >= 4 { Halves(x, 2); }
    else if x >= 2 { Halves(x, 1); }
    else if x >= 1 { Halves(x, 0); }
  }

  /** The bit count is the number of bits of the value; zero, in one byte or more, counts one. */
  lemma {:induction false} ComBitsExact(b: Blob)
    ensures ComBits(b) == if b == [] then 0 else if Value(b) == 0 then 1 else NBits(Value(b))
    decreases |b|
  {
    if |b| > 1 && b[0] == 0 {
      ComBitsExact(b[1..]);
      assert Value(b) == Value(b[1..]);
    } else if |b| >= 1 {
      if b[0] == 0 {
        assert b == [0];
        FoldOne(0, 0, 8);
      } else {
        BitsOfValue(b);
      }
    }
  }

  lemma {:induction false} BitsOfValue(b: Blob)
    requires b != [] && b[0] != 0
    ensures Value(b) > 0 && NBits(Value(b)) == 8 * (|b| - 1) + NBits(b[0])
    decreases |b|
  {
    var (a, x) := (b[..|b| - 1], b[|b| - 1]);
    assert b == a + [x];
    FoldAppend(0, a, [x], 8);
    FoldOne(Value(a), x, 8);
    if a != [] {
      BitsOfValue(a);
      EightMore(Value(a), x);
    }
  }

  lemma OneMore(v: nat, w: nat)
    requires v > 0 && w / 2 == v
    ensures NBits(w) == NBits(v) + 1
  {
  }

  lemma EightMore(v: nat, x: byte)
    requires v > 0
    ensures NBits(v * 256 + x) == NBits(v) + 8
  {
    hide NBits;
    var w := v * 256 + x;
    OneMore(w / 2 / 2 / 2 / 2 / 2 / 2 / 2 / 2, w / 2 / 2 / 2 / 2 / 2 / 2 / 2);
    OneMore(w / 2 / 2 / 2 / 2 / 2 / 2 / 2, w / 2 / 2 / 2 / 2 / 2 / 2);
    OneMore(w / 2 / 2 / 2 / 2 / 2 / 2, w / 2 / 2 / 2 / 2 / 2);
    OneMore(w / 2 / 2 / 2 / 2 / 2, w / 2 / 2 / 2 / 2);
    OneMore(w / 2 / 2 / 2 / 2, w / 2 / 2 / 2);
    OneMore(w / 2 / 2 / 2, w / 2 / 2);
    OneMore(w / 2 / 2, w / 2);
    OneMore(w / 2, w);
  }

  /** put_mp_sshcom_from_string: the search for the top bit, from the first bit of the first byte. */
  method PutMpSshcom(out: Blob, str: Blob) returns (o: Blob)
    ensures o == out + PutCom(str)
  {
    hide NBits;
    var n := |str|;
    var bits := n * 8 - 1;
    assert str[0..] == str;
    while bits > 0
      invariant n <= |str| && (str == [] ==> n == 0 && bits == -1)
                && (str != [] ==> n >= 1 && bits / 8 == n - 1 && bits >= 0)
      invariant ComBytes(str[|str| - n..]) == ComBytes(str)
      invariant n >= 1 ==> str[|str| - n] < 2 * Pow2(bits % 8)
    {
      ghost var x := str[|str| - n];
      ByteBits(x, bits % 8);
      if TestBit(str[|str| - n], bits % 8) {
        break;
      }
      if bits % 8 == 0 {
        n := n - 1;
      }
      bits := bits - 1;
    }
    o := out + PutUint32(bits + 1) + str[|str| - n..];
    ghost var c := str[|str| - n..];
    if n >= 1 {
      if bits > 0 {
        assert c[0] != 0;
      } else {
        assert n == 1 && c[0] < 2;
        Halves(1, 0);
      }
      assert ComBytes(c) == c;
      assert ComBits(str) == bits + 1;
    }
    assert out + PutUint32(bits + 1) + c == out + PutCom(str);
  }

  /** The sum is of 32-bit unsigned numbers. */
  function BytesFor(bits: nat): nat {
    (bits + 7) % TWO_TO_THE_32 / 8
  }

  /** get_mp_sshcom_as_string */
  function GetCom(s: Src): Got<Blob> {
    var n := Uint32(s);
    Data(n.src, BytesFor(n.value))
  }

  lemma NoWrap(bits: nat, bytes: nat)
    requires bits < 0x8000_0000 && (bits + 7) / 8 == bytes
    ensures BytesFor(bits) == bytes
  {
  }

  /** For numbers whose bit count fits a C int, as the writer computes it. */
  lemma GetPutCom(b: Blob, tail: Blob)
    requires |b| < 0x1000_0000
    ensures GetCom(Src(PutCom(b) + tail, false)) == Got(ComBytes(b), Src(tail, false))
  {
    hide PutUint32, ComBytes, ComBits, Uint32, Data, BytesFor, PutCom;
    var (n, d) := (ComBits(b), ComBytes(b));
    ComBytesCount(b);
    CountFits(b);
    NoWrap(n, |d|);
    PutComParts(b, tail);
    Uint32Is(n, d + tail);
    DataIs(d, tail);
  }

  lemma CountFits(b: Blob)
    requires |b| < 0x1000_0000
    ensures ComBits(b) < 0x8000_0000
  {
    ComBytesCount(b);
  }

  lemma PutComParts(b: Blob, tail: Blob)
    ensures PutCom(b) + tail == PutUint32(ComBits(b)) + (ComBytes(b) + tail)
  {
    hide PutUint32, ComBytes, ComBits;
  }

  lemma {:induction false} ComBytesValue(b: Blob)
    ensures Value(ComBytes(b)) == Value(b)
  {
    if |b| > 1 && b[0] == 0 {
      ComBytesValue(b[1..]);
    }
  }

  /** A number that went through the ssh.com form comes out as the same SSH-2 number. */
  lemma ThroughCom(b: Blob)
    requires Canonical(b)
    ensures PutMp(ComBytes(b)) == PutString(b)
  {
    ComBytesValue(b);
    CanonUnique(ComBytes(b), b);
    CanonIs(b);
  }

  // ----- ASN.1 INTEGERs of computed values -----

  function DerInt(v: nat): Blob {
    if v == 0 then [0] else Canon(Digits(v, 8))
  }

  /** Non-negative, of the right value, and no shorter encoding has both. */
  lemma DerIntShortest(v: nat)
    ensures var d := DerInt(v);
            d != [] && d[0] < 128 && Value(d) == v && (|d| > 1 && d[0] == 0 ==> d[1] >= 128)
    ensures |DerInt(v)| == (NBits(v) + 8) / 8
  {
    hide Digits, Value, Strip, NBits;
    if v == 0 {
      ZeroByte();
      assert NBits(0) == 0 by { NoBits(); }
    } else {
      var d := Digits(v, 8);
      FoldDigits(v, 8);
      assert Value(d) == v by { ValueIsFold(d); }
      CanonIs(d);
      BitsOfValue(d);
      ByteNBits(d[0]);
      assert Strip(d) == d by { NothingToStrip(d); }
    }
  }

  lemma ZeroByte()
    ensures Value([0]) == 0
  {
    FoldOne(0, 0, 8);
  }

  lemma NoBits()
    ensures NBits(0) == 0
  {
  }

  lemma ValueIsFold(b: Blob)
    ensures Value(b) == Fold(0, b, 8)
  {
  }

  lemma NothingToStrip(b: Blob)
    requires b != [] && b[0] != 0
    ensures Strip(b) == b
  {
  }

  lemma {:induction false} ShorterIsNot(v: nat, b: Blob)
    requires b != [] && b[0] < 128 && Value(b) == v
    ensures |b| >= |DerInt(v)|
  {
    hide Digits, Value, Strip;
    DerIntShortest(v);
    if v > 0 {
      CanonUnique(b, DerInt(v));
      CanonIs(DerInt(v));
      CanonShorter(b);
    }
  }

  lemma {:induction false} CanonShorter(b: Blob)
    requires b != [] && b[0] < 128
    ensures |Canon(b)| <= |b|
  {
    StripValue(b);
    if b[0] == 0 {
      StripValue(b[1..]);
    }
  }

  /** The loop that writes dmp1 and dmq1, most significant byte first. */
  method WriteDer(v: nat) returns (d: Blob)
    ensures d == DerInt(v)
  {
    hide Digits, NBits, Shift, Low, Strip;
    DerIntShortest(v);
    var n := (NBits(v) + 8) / 8;
    d := [];
    for i := 0 to n
      invariant d == DerInt(v)[..i]
    {
      DerAt(v, i);
      d := d + [Low(Shift(v, 8, n - 1 - i), 8)];
    }
    assert DerInt(v)[..n] == DerInt(v);
  }

  lemma CanonEnd(b: Blob, n: nat)
    requires Strip(b) == b && n < |Canon(b)|
    ensures Canon(b)[|Canon(b)| - 1 - n] == if n < |b| then b[|b| - 1 - n] else 0
  {
    hide Strip;
  }

  lemma DerAt(v: nat, i: nat)
    requires i < |DerInt(v)|
    ensures DerInt(v)[i] == Low(Shift(v, 8, |DerInt(v)| - 1 - i), 8)
  {
    hide Digits, Canon;
    if v > 0 {
      var (d, n) := (Digits(v, 8), |DerInt(v)| - 1 - i);
      FoldDigits(v, 8);
      NothingToStrip(d);
      CanonEnd(d, n);
      hide Shift;
      DigitIs(v, 8, n);
    }
  }
}
