/** Bytes, the order the key trees are sorted by, and 32-bit big-endian lengths. */
module Bytes {

  type byte = x: int | 0 <= x < 256

  type Blob = seq<byte>

  datatype Option<+T> = None | Some(value: T)

  /** memcmp on the common length, then the shorter string first. */
  function StrCmp(a: Blob, b: Blob): int {
    if a == [] && b == [] then 0
    else if a == [] then -1
    else if b == [] then 1
    else if a[0] != b[0] then (if a[0] < b[0] then -1 else 1)
    else StrCmp(a[1..], b[1..])
  }

  lemma {:induction false} StrCmpZero(a: Blob, b: Blob)
    ensures StrCmp(a, b) == 0 <==> a == b
  {
    if a != [] && b != [] && a[0] == b[0] {
      StrCmpZero(a[1..], b[1..]);
      assert a == [a[0]] + a[1..] && b == [b[0]] + b[1..];
    }
  }

  lemma {:induction false} StrCmpFlip(a: Blob, b: Blob)
    ensures StrCmp(a, b) == -StrCmp(b, a)
  {
    if a != [] && b != [] && a[0] == b[0] {
      StrCmpFlip(a[1..], b[1..]);
    }
  }

  lemma {:induction false} StrCmpTrans(a: Blob, b: Blob, c: Blob)
    requires StrCmp(a, b) <= 0 && StrCmp(b, c) <= 0
    ensures StrCmp(a, c) <= 0
    ensures StrCmp(a, b) < 0 || StrCmp(b, c) < 0 ==> StrCmp(a, c) < 0
  {
    if a != [] && b != [] && c != [] && a[0] == b[0] == c[0] {
      StrCmpTrans(a[1..], b[1..], c[1..]);
    }
  }

  /** A string of nothing but x, or of nothing. */
  predicate Only<T(==)>(s: seq<T>, x: T) {
    forall i :: 0 <= i < |s| ==> s[i] == x
  }

  /** No element stands in the sequence twice. */
  predicate NoRepeat<T(==)>(s: seq<T>) {
    forall i, j :: 0 <= i < j < |s| ==> s[i] != s[j]
  }

  lemma NoRepeatCons<T>(x: T, s: seq<T>)
    requires NoRepeat(s) && x !in s
    ensures NoRepeat([x] + s)
  {
  }

  lemma NoRepeatTail<T>(s: seq<T>)
    requires NoRepeat(s) && s != []
    ensures NoRepeat(s[1..]) && s[0] !in s[1..]
  {
  }

  const TWO_TO_THE_32 := 0x1_0000_0000

  const INT_MAX: nat := 0x7FFF_FFFF

  /** PUT_32BIT_MSB_FIRST: the value modulo 2^32. */
  function PutUint32(n: nat): (r: Blob)
    ensures |r| == 4
  {
    [n / 256 / 256 / 256 % 256, n / 256 / 256 % 256, n / 256 % 256, n % 256]
  }

  function GetUint32(b: Blob): (n: nat)
    requires |b| >= 4
    ensures n < TWO_TO_THE_32
  {
    var (b0: int, b1: int, b2: int, b3: int) := (b[0], b[1], b[2], b[3]);
    ((b0 * 256 + b1) * 256 + b2) * 256 + b3
  }

  lemma Digits256(n: nat)
    ensures ((n / 256 / 256 / 256 % 256 * 256 + n / 256 / 256 % 256) * 256 + n / 256 % 256) * 256 + n % 256
            == n % TWO_TO_THE_32
  {
    var (a, b, c) := (n / 256, n / 256 / 256, n / 256 / 256 / 256);
    var d := c / 256;
    assert n == 256 * a + n % 256 && a == 256 * b + a % 256 && b == 256 * c + b % 256 && c == 256 * d + c % 256;
    var v := ((c % 256 * 256 + b % 256) * 256 + a % 256) * 256 + n % 256;
    assert n == TWO_TO_THE_32 * d + v && 0 <= v < TWO_TO_THE_32;
  }

  lemma Uint32RoundTrip(n: nat, tail: Blob)
    ensures GetUint32(PutUint32(n) + tail) == n % TWO_TO_THE_32
  {
    Digits256(n);
    assert (PutUint32(n) + tail)[..4] == PutUint32(n);
    GetUint32Prefix(PutUint32(n), PutUint32(n) + tail);
  }

  lemma GetUint32Prefix(s: Blob, t: Blob)
    requires 4 <= |s| && 4 <= |t| && s[..4] == t[..4]
    ensures GetUint32(s) == GetUint32(t)
  {
    assert s[0] == s[..4][0] && s[1] == s[..4][1] && s[2] == s[..4][2] && s[3] == s[..4][3];
    assert t[0] == t[..4][0] && t[1] == t[..4][1] && t[2] == t[..4][2] && t[3] == t[..4][3];
  }

  /** And back: four bytes are the encoding of their value. */
  lemma PutOfGet(b: Blob)
    requires |b| >= 4
    ensures PutUint32(GetUint32(b)) == b[..4]
  {
    var (b0: int, b1: int, b2: int, b3: int) := (b[0], b[1], b[2], b[3]);
    var (x: int, y: int, z: int) := (b0 * 256 + b1, (b0 * 256 + b1) * 256 + b2, GetUint32(b));
    assert z == y * 256 + b3 && z / 256 == y && z % 256 == b3;
    assert y == x * 256 + b2 && y / 256 == x && y % 256 == b2;
    assert x / 256 == b0 && x % 256 == b1;
  }

  /** The most significant byte comes first: as strings, numbers compare as they do as numbers. */
  lemma Uint32Orders(m: nat, n: nat)
    requires m < TWO_TO_THE_32 && n < TWO_TO_THE_32
    ensures StrCmp(PutUint32(m), PutUint32(n)) < 0 <==> m < n
  {
    hide PutUint32, GetUint32;
    var (a, b) := (PutUint32(m), PutUint32(n));
    assert a + [] == a && b + [] == b;
    Uint32RoundTrip(m, []);
    Uint32RoundTrip(n, []);
    FourOrder(a, b);
  }

  lemma FourOrder(a: Blob, b: Blob)
    requires |a| == 4 && |b| == 4
    ensures StrCmp(a, b) < 0 <==> GetUint32(a) < GetUint32(b)
  {
    FirstDiffers(a, b);
    if a[0] == b[0] {
      FirstDiffers(a[1..], b[1..]);
      if a[1] == b[1] {
        FirstDiffers(a[2..], b[2..]);
        if a[2] == b[2] {
          FirstDiffers(a[3..], b[3..]);
          assert StrCmp([], []) == 0;
        }
      }
    }
  }

  lemma FirstDiffers(a: Blob, b: Blob)
    requires a != [] && b != []
    ensures StrCmp(a, b) == if a[0] == b[0] then StrCmp(a[1..], b[1..]) else if a[0] < b[0] then -1 else 1
    ensures |a| >= 2 ==> a[1..][1..] == a[2..]
    ensures |b| >= 2 ==> b[1..][1..] == b[2..]
    ensures |a| >= 3 ==> a[2..][1..] == a[3..]
    ensures |b| >= 3 ==> b[2..][1..] == b[3..]
  {
  }

  /** An SSH string: its length, then its bytes. */
  function PutString(s: Blob): Blob {
    PutUint32(|s|) + s
  }
}
