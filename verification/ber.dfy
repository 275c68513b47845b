/** ASN.1 BER headers, as written and read for private keys (ITU-T X.690, sections 8.1.2 and 8.1.3). */
module Ber {
  import opened Bytes
  import opened Marshal

  const CONSTRUCTED: byte := 0x20
  const CONTEXT_SPECIFIC: byte := 0x80

  datatype Item = Item(id: nat, flags: byte, data: Blob)

  /** The class and constructed bits only, and a length that fits a C int. */
  predicate Writable(it: Item) {
    it.flags % 32 == 0 && |it.data| <= INT_MAX
  }

  // ----- writing -----

  /** The top bit on every byte but the last. */
  function Marked(d: Blob): Blob
    requires forall i :: 0 <= i < |d| ==> d[i] < 128
  {
    if |d| <= 1 then d else [128 + d[0]] + Marked(d[1..])
  }

  function IdBytes(id: nat, flags: byte): Blob
    requires flags % 32 == 0
  {
    if id <= 30 then [id + flags] else FoldDigits(id, 7); [31 + flags] + Marked(Digits(id, 7))
  }

  function LengthBytes(n: nat): Blob
    requires n <= INT_MAX
  {
    if n < 128 then [n] else IntDigits(n); [128 + |Digits(n, 8)|] + Digits(n, 8)
  }

  function Header(id: nat, length: nat, flags: byte): Blob
    requires flags % 32 == 0 && length <= INT_MAX
  {
    IdBytes(id, flags) + LengthBytes(length)
  }

  function Encode(it: Item): Blob
    requires Writable(it)
  {
    Header(it.id, |it.data|, it.flags) + it.data
  }

  lemma IntDigits(n: nat)
    requires n <= INT_MAX
    ensures |Digits(n, 8)| <= 4
  {
    hide Digits;
    DigitIs(n, 8, 4);
    assert Shift(n, 8, 0) == n && Shift(n, 8, 1) == n / 256 && Shift(n, 8, 2) == n / 256 / 256;
    assert Shift(n, 8, 3) == n / 256 / 256 / 256 < 128;
    assert Shift(n, 8, 4) == 0;
  }

  /** The loop that counts bytes. */
  method CountDigits(v: nat, w: Width) returns (n: nat)
    ensures n == |Digits(v, w)|
  {
    hide Digits;
    FoldDigits(v, w);
    DigitIs(v, w, 1);
    n := 1;
    while Shift(v, w, n) > 0
      invariant 1 <= n <= |Digits(v, w)|
      decreases |Digits(v, w)| - n
    {
      DigitIs(v, w, n);
      n := n + 1;
    }
    DigitIs(v, w, n);
  }

  lemma MarkedAt(d: Blob, k: nat)
    requires k < |d| && forall i :: 0 <= i < |d| ==> d[i] < 128
    ensures |Marked(d)| == |d| && Marked(d)[k] == if k < |d| - 1 then 128 + d[k] else d[k]
  {
    if |d| > 1 {
      MarkedAt(d[1..], if k == 0 then 0 else k - 1);
    }
  }

  /** put_ber_id_len, the identifier */
  method PutId(out: Blob, id: nat, flags: byte) returns (o: Blob)
    requires flags % 32 == 0
    ensures o == out + IdBytes(id, flags)
  {
    hide Digits, Shift, Marked, Low;
    if id <= 30 {
      return out + [id + flags];
    }
    o := out + [31 + flags];
    var n := CountDigits(id, 7);
    FoldDigits(id, 7);
    ghost var d := Digits(id, 7);
    ghost var before := o;
    MarkedAt(d, 0);
    while n > 0
      invariant 0 <= n <= |d| && |Marked(d)| == |d|
      invariant o == before + Marked(d)[..|d| - n]
    {
      n := n - 1;
      MarkedAt(d, |d| - 1 - n);
      DigitIs(id, 7, n);
      o := o + [if n > 0 then 128 + Low(Shift(id, 7, n), 7) else Low(Shift(id, 7, n), 7)];
    }
    assert Marked(d)[..|d|] == Marked(d);
  }

  /** put_ber_id_len, the length */
  method PutLength(out: Blob, length: nat) returns (o: Blob)
    requires length <= INT_MAX
    ensures o == out + LengthBytes(length)
  {
    hide Digits, Shift, Low;
    if length < 128 {
      return out + [length];
    }
    IntDigits(length);
    var n := CountDigits(length, 8);
    o := out + [128 + n];
    ghost var d := Digits(length, 8);
    ghost var before := o;
    while n > 0
      invariant 0 <= n <= |d|
      invariant o == before + d[..|d| - n]
    {
      n := n - 1;
      DigitIs(length, 8, n);
      o := o + [Low(Shift(length, 8, n), 8)];
    }
    assert d[..|d|] == d;
  }

  method PutIdLen(out: Blob, id: nat, length: nat, flags: byte) returns (o: Blob)
    requires flags % 32 == 0 && length <= INT_MAX
    ensures o == out + Header(id, length, flags)
  {
    hide IdBytes, LengthBytes;
    o := PutId(out, id, flags);
    o := PutLength(o, length);
  }

  // ----- reading -----

  function ReadId(v: nat, s: Src): Got<nat>
    decreases |s.rest|
  {
    var b := Byte(s);
    var next := Join(v, b.value % 128, 7);
    if b.value >= 128 then ReadId(next, b.src) else Got(next, b.src)
  }

  function ReadLength(v: nat, n: nat, s: Src): Got<nat>
    decreases n
  {
    if n == 0 then Got(v, s)
    else var b := Byte(s); ReadLength(Join(v, b.value, 8), n - 1, b.src)
  }

  function Read(s: Src): Got<Item> {
    var lead := Byte(s);
    var id := if lead.value % 32 == 31 then ReadId(0, lead.src) else Got(lead.value % 32, lead.src);
    var lb := Byte(id.src);
    var len := if lb.value >= 128 then ReadLength(0, lb.value - 128, lb.src) else Got(lb.value, lb.src);
    var d := Data(len.src, len.value);
    Got(Item(id.value, lead.value - lead.value % 32, d.value), d.src)
  }

  /** get_ber, the identifier */
  method GetId(src: Source) returns (id: nat)
    requires src.Valid()
    modifies src
    ensures src.Valid() && src.data == old(src.data)
    ensures Got(id, src.View()) == ReadId(0, old(src.View()))
  {
    ghost var all := ReadId(0, src.View());
    var b := src.GetByte();
    id := Join(0, b % 128, 7);
    while b >= 128
      invariant src.Valid() && src.data == old(src.data)
      invariant all == if b >= 128 then ReadId(id, src.View()) else Got(id, src.View())
      invariant b >= 128 ==> !src.err
      decreases |src.data| - src.pos, if b >= 128 then 1 else 0
    {
      b := src.GetByte();
      id := Join(id, b % 128, 7);
    }
  }

  /** get_ber, the bytes of a long length */
  method GetLength(src: Source, count: nat) returns (length: nat)
    requires src.Valid()
    modifies src
    ensures src.Valid() && src.data == old(src.data)
    ensures Got(length, src.View()) == ReadLength(0, count, old(src.View()))
  {
    var n := count;
    length := 0;
    while n > 0
      invariant 0 <= n && src.Valid() && src.data == old(src.data)
      invariant ReadLength(0, count, old(src.View())) == ReadLength(length, n, src.View())
    {
      var b := src.GetByte();
      length := Join(length, b, 8);
      n := n - 1;
    }
  }

  /** get_ber */
  method Get(src: Source) returns (it: Item)
    requires src.Valid()
    modifies src
    ensures src.Valid() && src.data == old(src.data)
    ensures Got(it, src.View()) == Read(old(src.View()))
  {
    hide Data, Byte, ReadId, ReadLength;
    var lead := src.GetByte();
    var id: nat := lead % 32;
    if lead % 32 == 31 {
      id := GetId(src);
    }
    var lb := src.GetByte();
    var length: nat := lb;
    if lb >= 128 {
      length := GetLength(src, lb - 128);
    }
    var d := src.GetData(length);
    it := Item(id, lead - lead % 32, d);
  }

  // ----- one undoes the other -----

  lemma {:induction false} ReadIdIs(v: nat, d: Blob, tail: Blob)
    requires d != [] && forall i :: 0 <= i < |d| ==> d[i] < 128
    ensures ReadId(v, Src(Marked(d) + tail, false)) == Got(Fold(v, d, 7), Src(tail, false))
    decreases |d|
  {
    if |d| == 1 {
      ByteIs(d[0], tail);
      FoldOne(v, d[0], 7);
      assert d == [d[0]];
    } else {
      assert Marked(d) + tail == [128 + d[0]] + (Marked(d[1..]) + tail);
      ByteIs(128 + d[0], Marked(d[1..]) + tail);
      ReadIdIs(Join(v, d[0], 7), d[1..], tail);
    }
  }

  lemma {:induction false} ReadLengthIs(v: nat, d: Blob, tail: Blob)
    ensures ReadLength(v, |d|, Src(d + tail, false)) == Got(Fold(v, d, 8), Src(tail, false))
    decreases |d|
  {
    if d == [] {
      assert d + tail == tail;
    } else {
      assert d + tail == [d[0]] + (d[1..] + tail);
      ByteIs(d[0], d[1..] + tail);
      ReadLengthIs(Join(v, d[0], 8), d[1..], tail);
    }
  }

  lemma IdIs(id: nat, flags: byte, tail: Blob)
    requires flags % 32 == 0
    ensures var lead := Byte(Src(IdBytes(id, flags) + tail, false));
            && lead.value - lead.value % 32 == flags
            && (if lead.value % 32 == 31 then ReadId(0, lead.src) else Got(lead.value % 32, lead.src))
               == Got(id, Src(tail, false))
  {
    hide Digits, Fold, Marked, ReadId;
    if id <= 30 {
      ByteIs(id + flags, tail);
      assert (id + flags) % 32 == id;
    } else {
      FoldDigits(id, 7);
      var m := Marked(Digits(id, 7));
      assert IdBytes(id, flags) + tail == [31 + flags] + (m + tail);
      ByteIs(31 + flags, m + tail);
      ReadIdIs(0, Digits(id, 7), tail);
    }
  }

  lemma LengthIs(n: nat, tail: Blob)
    requires n <= INT_MAX
    ensures var lb := Byte(Src(LengthBytes(n) + tail, false));
            (if lb.value >= 128 then ReadLength(0, lb.value - 128, lb.src) else Got(lb.value, lb.src))
              == Got(n, Src(tail, false))
  {
    hide Digits, Fold, ReadLength;
    if n < 128 {
      ByteIs(n, tail);
    } else {
      IntDigits(n);
      FoldDigits(n, 8);
      var d := Digits(n, 8);
      assert LengthBytes(n) + tail == [128 + |d|] + (d + tail);
      ByteIs(128 + |d|, d + tail);
      ReadLengthIs(0, d, tail);
    }
  }

  /** A header followed by its data, whatever comes after, reads back as the same item. */
  lemma ReadEncoded(it: Item, tail: Blob)
    requires Writable(it)
    ensures Read(Src(Encode(it) + tail, false)) == Got(it, Src(tail, false))
  {
    hide IdBytes, LengthBytes, Data, ReadId, ReadLength, Byte;
    var (a, b) := (IdBytes(it.id, it.flags), LengthBytes(|it.data|));
    assert Encode(it) + tail == a + (b + (it.data + tail));
    IdIs(it.id, it.flags, b + (it.data + tail));
    LengthIs(|it.data|, it.data + tail);
    DataIs(it.data, tail);
  }

  function EncodeAll(its: seq<Item>): Blob
    requires forall i :: 0 <= i < |its| ==> Writable(its[i])
  {
    if its == [] then [] else Encode(its[0]) + EncodeAll(its[1..])
  }

  lemma EncodeCons(it: Item, its: seq<Item>)
    requires Writable(it) && forall i :: 0 <= i < |its| ==> Writable(its[i])
    ensures EncodeAll([it] + its) == Encode(it) + EncodeAll(its) && EncodeAll([]) == []
  {
    assert ([it] + its)[1..] == its;
  }

  function ReadMany(n: nat, s: Src): Got<seq<Item>>
    decreases n
  {
    if n == 0 then Got([], s)
    else
      var first := Read(s);
      var more := ReadMany(n - 1, first.src);
      Got([first.value] + more.value, more.src)
  }

  /** A sequence of encoded items reads back item by item. */
  lemma {:induction false} ReadEncodedAll(its: seq<Item>, tail: Blob)
    requires forall i :: 0 <= i < |its| ==> Writable(its[i])
    ensures ReadMany(|its|, Src(EncodeAll(its) + tail, false)) == Got(its, Src(tail, false))
  {
    hide Read, Encode;
    if its == [] {
      assert EncodeAll(its) + tail == tail;
    } else {
      assert EncodeAll(its) + tail == Encode(its[0]) + (EncodeAll(its[1..]) + tail);
      ReadEncoded(its[0], EncodeAll(its[1..]) + tail);
      ReadEncodedAll(its[1..], tail);
      assert its == [its[0]] + its[1..];
    }
  }
}
