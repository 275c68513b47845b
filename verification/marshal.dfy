/** The reading cursor with a sticky error, and big-endian digits. */
module Marshal {
  import opened Bytes

  /** What is left to read, and whether a read has failed. A failed read yields zero or nothing. */
  datatype Src = Src(rest: Blob, err: bool)

  datatype Got<+T> = Got(value: T, src: Src)

  function Data(s: Src, n: nat): Got<Blob> {
    if !s.err && n <= |s.rest| then Got(s.rest[..n], Src(s.rest[n..], false)) else Got([], s.(err := true))
  }

  function Byte(s: Src): Got<byte> {
    if !s.err && |s.rest| >= 1 then Got(s.rest[0], Src(s.rest[1..], false)) else Got(0, s.(err := true))
  }

  function Uint32(s: Src): Got<nat> {
    if !s.err && |s.rest| >= 4 then Got(GetUint32(s.rest), Src(s.rest[4..], false)) else Got(0, s.(err := true))
  }

  function Str(s: Src): Got<Blob> {
    var n := Uint32(s);
    Data(n.src, n.value)
  }

  lemma DataIs(d: Blob, tail: Blob)
    ensures Data(Src(d + tail, false), |d|) == Got(d, Src(tail, false))
  {
    assert (d + tail)[..|d|] == d && (d + tail)[|d|..] == tail;
  }

  lemma ByteIs(b: byte, tail: Blob)
    ensures Byte(Src([b] + tail, false)) == Got(b, Src(tail, false))
  {
    assert ([b] + tail)[1..] == tail;
  }

  lemma Uint32Is(n: nat, tail: Blob)
    requires n < TWO_TO_THE_32
    ensures Uint32(Src(PutUint32(n) + tail, false)) == Got(n, Src(tail, false))
  {
    hide PutUint32, GetUint32;
    Uint32RoundTrip(n, tail);
    assert (PutUint32(n) + tail)[4..] == tail;
  }

  lemma StrIs(d: Blob, tail: Blob)
    requires |d| < TWO_TO_THE_32
    ensures Str(Src(PutString(d) + tail, false)) == Got(d, Src(tail, false))
  {
    hide PutUint32;
    assert PutString(d) + tail == PutUint32(|d|) + (d + tail);
    Uint32Is(|d|, d + tail);
    DataIs(d, tail);
  }

  lemma Uint32Exactly(b: Blob, n: nat, tail: Blob)
    ensures Uint32(Src(b, false)) == Got(n, Src(tail, false)) <==> n < TWO_TO_THE_32 && b == PutUint32(n) + tail
  {
    hide PutUint32, GetUint32;
    if Uint32(Src(b, false)) == Got(n, Src(tail, false)) {
      PutOfGet(b);
      assert b == b[..4] + b[4..];
    } else if n < TWO_TO_THE_32 && b == PutUint32(n) + tail {
      Uint32Is(n, tail);
    }
  }

  /** A string is read without error exactly from where it was written. */
  lemma StrExactly(b: Blob, d: Blob, tail: Blob)
    ensures Str(Src(b, false)) == Got(d, Src(tail, false)) <==> |d| < TWO_TO_THE_32 && b == PutString(d) + tail
  {
    hide PutUint32, GetUint32;
    if Str(Src(b, false)) == Got(d, Src(tail, false)) {
      assert |b| >= 4;
      PutOfGet(b);
      assert b == b[..4] + b[4..] && b[4..] == d + tail && GetUint32(b) == |d|;
    } else if |d| < TWO_TO_THE_32 && b == PutString(d) + tail {
      StrIs(d, tail);
    }
  }

  class Source {
    var data: Blob
    var pos: nat
    var err: bool

    ghost predicate Valid()
      reads this
    {
      pos <= |data|
    }

    ghost function View(): Src
      reads this
      requires Valid()
    {
      Src(data[pos..], err)
    }

    constructor (data: Blob)
      ensures Valid() && View() == Src(data, false) && this.data == data
    {
      this.data, pos, err := data, 0, false;
      new;
      assert data[0..] == data;
    }

    method Avail(wanted: nat) returns (ok: bool)
      requires Valid()
      modifies this`err
      ensures Valid() && ok == (!old(err) && wanted <= |data| - pos) && err == !ok
    {
      if err {
        return false;
      }
      if wanted <= |data| - pos {
        return true;
      }
      err := true;
      return false;
    }

    method GetData(wanted: nat) returns (d: Blob)
      requires Valid()
      modifies this
      ensures Valid() && data == old(data) && Got(d, View()) == Data(old(View()), wanted)
    {
      var ok := Avail(wanted);
      if !ok {
        return [];
      }
      d := data[pos..pos + wanted];
      pos := pos + wanted;
      assert data[pos..] == old(data[pos..])[wanted..];
      assert d == old(data[pos..])[..wanted];
    }

    method GetByte() returns (b: byte)
      requires Valid()
      modifies this
      ensures Valid() && data == old(data) && Got(b, View()) == Byte(old(View()))
    {
      var d := GetData(1);
      if d == [] {
        return 0;
      }
      return d[0];
    }

    method ReadUint32() returns (n: nat)
      requires Valid()
      modifies this
      ensures Valid() && data == old(data) && Got(n, View()) == Uint32(old(View()))
    {
      var d := GetData(4);
      if d == [] {
        return 0;
      }
      GetUint32Prefix(d, old(data[pos..]));
      return GetUint32(d);
    }

    method GetString() returns (d: Blob)
      requires Valid()
      modifies this
      ensures Valid() && data == old(data) && Got(d, View()) == Str(old(View()))
    {
      var n := ReadUint32();
      d := GetData(n);
    }
  }

  // ----- big-endian digits of 7 or 8 bits -----

  type Width = w: int | w == 7 || w == 8 witness 7

  function Over(v: nat, w: Width): nat {
    if w == 7 then v / 128 else v / 256
  }

  function Low(v: nat, w: Width): byte {
    if w == 7 then v % 128 else v % 256
  }

  function Join(v: nat, d: byte, w: Width): nat {
    if w == 7 then v * 128 + d else v * 256 + d
  }

  /** The value shifted right by n digits. */
  function Shift(v: nat, w: Width, n: nat): nat {
    if n == 0 then v else Over(Shift(v, w, n - 1), w)
  }

  function Digits(v: nat, w: Width): Blob
    decreases v
  {
    if Over(v, w) == 0 then [Low(v, w)] else Digits(Over(v, w), w) + [Low(v, w)]
  }

  /** Reading digits, most significant first, into an accumulator. */
  function Fold(v: nat, digits: Blob, w: Width): nat
    decreases |digits|
  {
    if digits == [] then v else Fold(Join(v, digits[0], w), digits[1..], w)
  }

  lemma {:induction false} FoldAppend(v: nat, a: Blob, b: Blob, w: Width)
    ensures Fold(v, a + b, w) == Fold(Fold(v, a, w), b, w)
    decreases |a|
  {
    if a == [] {
      assert a + b == b;
    } else {
      FoldAppend(Join(v, a[0], w), a[1..], b, w);
      assert (a + b)[1..] == a[1..] + b;
    }
  }

  lemma FoldOne(v: nat, d: byte, w: Width)
    ensures Fold(v, [d], w) == Join(v, d, w)
  {
    assert [d][1..] == [];
  }

  lemma {:induction false} FoldDigits(v: nat, w: Width)
    ensures Fold(0, Digits(v, w), w) == v && Digits(v, w) != []
    ensures forall i :: 0 <= i < |Digits(v, w)| && w == 7 ==> Digits(v, w)[i] < 128
    ensures v > 0 ==> Digits(v, w)[0] != 0
    decreases v
  {
    FoldOne(Over(v, w), Low(v, w), w);
    if Over(v, w) != 0 {
      FoldDigits(Over(v, w), w);
      FoldAppend(0, Digits(Over(v, w), w), [Low(v, w)], w);
    }
  }

  lemma {:induction false} ShiftFirst(v: nat, w: Width, n: nat)
    ensures Shift(v, w, n + 1) == Shift(Over(v, w), w, n)
  {
    if n > 0 {
      ShiftFirst(v, w, n - 1);
    }
  }

  lemma {:induction false} ShiftZero(w: Width, n: nat)
    ensures Shift(0, w, n) == 0
  {
    if n > 0 {
      ShiftZero(w, n - 1);
    }
  }

  /** The digits are the low ends of the shifted values, and there are as many as the value needs. */
  lemma {:induction false} DigitIs(v: nat, w: Width, n: nat)
    ensures n < |Digits(v, w)| ==> Digits(v, w)[|Digits(v, w)| - 1 - n] == Low(Shift(v, w, n), w)
    ensures n > 0 ==> (Shift(v, w, n) > 0 <==> n < |Digits(v, w)|)
    decreases v
  {
    hide Low;
    if n > 0 {
      ShiftFirst(v, w, n - 1);
      if Over(v, w) == 0 {
        ShiftZero(w, n - 1);
      } else {
        DigitIs(Over(v, w), w, n - 1);
        MoreDigits(v, w, n);
      }
    }
  }

  lemma MoreDigits(v: nat, w: Width, n: nat)
    requires Over(v, w) != 0
    ensures |Digits(v, w)| == |Digits(Over(v, w), w)| + 1
    ensures 0 < n < |Digits(v, w)| ==>
            Digits(v, w)[|Digits(v, w)| - 1 - n] == Digits(Over(v, w), w)[|Digits(v, w)| - 1 - n]
  {
  }
}
