/**
 * The packet dump of the SSH log: rows of sixteen bytes in hex and in characters, with some bytes
 * blanked out and some omitted, written through a fixed row buffer.
 */
module PacketDump {
  import opened Bytes

  datatype Blanking = Emit | Blank | Omit

  datatype Range = Range(offset: nat, len: nat, ty: Blanking)

  /** In increasing order, and not overlapping. */
  predicate Ordered(rs: seq<Range>) {
    forall i, j :: 0 <= i < j < |rs| ==> rs[i].offset + rs[i].len <= rs[j].offset
  }

  predicate Covers(r: Range, p: nat) {
    r.offset <= p < r.offset + r.len
  }

  /** What is to happen to byte p. */
  function Mask(rs: seq<Range>, p: nat): Blanking {
    if rs == [] then Emit else if Covers(rs[0], p) then rs[0].ty else Mask(rs[1..], p)
  }

  lemma {:induction false} MaskIs(rs: seq<Range>, p: nat, i: nat)
    requires Ordered(rs) && i < |rs| && Covers(rs[i], p)
    ensures Mask(rs, p) == rs[i].ty
  {
    if i > 0 {
      assert rs[0].offset + rs[0].len <= rs[i].offset;
      MaskIs(rs[1..], p, i - 1);
    }
  }

  lemma {:induction false} MaskSkips(rs: seq<Range>, p: nat, b: nat)
    requires b <= |rs| && forall i :: 0 <= i < b ==> rs[i].offset + rs[i].len <= p
    ensures Mask(rs, p) == Mask(rs[b..], p)
  {
    if b == 0 {
      assert rs[0..] == rs;
    } else {
      MaskSkips(rs[1..], p, b - 1);
      assert rs[1..][b - 1..] == rs[b..];
    }
  }

  lemma {:induction false} MaskNone(rs: seq<Range>, p: nat)
    requires forall i :: 0 <= i < |rs| ==> p < rs[i].offset
    ensures Mask(rs, p) == Emit
  {
    if rs != [] {
      MaskNone(rs[1..], p);
    }
  }

  // ----- what the log shows of each byte -----

  datatype Cell = Shown(b: byte) | Hidden | Skipped

  datatype Packet = Packet(data: Blob, ranges: seq<Range>)

  function CellAt(k: Packet, p: nat): Cell
    requires p < |k.data|
  {
    match Mask(k.ranges, p)
    case Emit => Shown(k.data[p])
    case Blank => Hidden
    case Omit => Skipped
  }

  /** The packet from byte p on, as the log may show it. */
  function Cells(k: Packet, p: nat, e: nat): (r: seq<Cell>)
    requires p <= e <= |k.data|
    ensures |r| == e - p && forall i :: 0 <= i < |r| ==> r[i] == CellAt(k, p + i)
  {
    seq(e - p, i requires 0 <= i < e - p => CellAt(k, p + i))
  }

  /** Byte p stands in a range of this kind. */
  ghost predicate InRange(k: Packet, p: nat, ty: Blanking) {
    exists i :: 0 <= i < |k.ranges| && k.ranges[i].offset <= p < k.ranges[i].offset + k.ranges[i].len
                && k.ranges[i].ty == ty
  }

  lemma OneRange(k: Packet, p: nat, ty: Blanking)
    requires Ordered(k.ranges) && InRange(k, p, ty)
    ensures Mask(k.ranges, p) == ty
  {
    var i :| 0 <= i < |k.ranges| && k.ranges[i].offset <= p < k.ranges[i].offset + k.ranges[i].len
             && k.ranges[i].ty == ty;
    MaskIs(k.ranges, p, i);
  }

  lemma {:induction false} MaskInRange(rs: seq<Range>, p: nat)
    ensures Mask(rs, p) == Emit || exists i :: 0 <= i < |rs| && Covers(rs[i], p) && rs[i].ty == Mask(rs, p)
  {
    if rs != [] && !Covers(rs[0], p) {
      MaskInRange(rs[1..], p);
      if i :| 0 <= i < |rs| - 1 && Covers(rs[1..][i], p) && rs[1..][i].ty == Mask(rs[1..], p) {
        assert rs[i + 1] == rs[1..][i];
      }
    }
  }

  /** A byte is blanked or omitted exactly if it stands in a range that says so; any other is shown as it is. */
  lemma CellExactly(k: Packet, p: nat)
    requires Ordered(k.ranges) && p < |k.data|
    ensures CellAt(k, p) == Hidden <==> InRange(k, p, Blank)
    ensures CellAt(k, p) == Skipped <==> InRange(k, p, Omit)
    ensures CellAt(k, p) == Shown(k.data[p]) <==> !InRange(k, p, Blank) && !InRange(k, p, Omit)
  {
    MaskInRange(k.ranges, p);
    if InRange(k, p, Blank) {
      OneRange(k, p, Blank);
    }
    if InRange(k, p, Omit) {
      OneRange(k, p, Omit);
    }
    hide Mask;
  }

  // ----- the layout of a row -----

  function Digit(v: nat): char
    requires v < 16
  {
    "0123456789abcdef"[v]
  }

  /** The lowest n hex digits. */
  function Hex(v: nat, n: nat): (r: string)
    ensures |r| == n
    decreases n
  {
    if n == 0 then "" else Hex(v / 16, n - 1) + [Digit(v % 16)]
  }

  function HexPair(c: Cell): (r: string)
    requires !c.Skipped?
    ensures |r| == 2
  {
    if c.Hidden? then "XX" else [Digit(c.b / 16), Digit(c.b % 16)]
  }

  function Ascii(c: Cell): char
    requires !c.Skipped?
  {
    if c.Hidden? then 'X' else if 0x20 <= c.b < 0x7F then c.b as char else '.'
  }

  predicate AllShown(k: Packet, s: nat, e: nat) {
    e <= |k.data| && forall q {:trigger Mask(k.ranges, q)} :: s <= q < e ==> Mask(k.ranges, q) != Omit
  }

  /** Character i of the row at base when it holds bytes s to e: the offset, the hex columns, the characters. */
  function RowChar(k: Packet, base: nat, s: nat, e: nat, i: nat): char
    requires base <= s <= e <= base + 16 && AllShown(k, s, e)
  {
    if 2 <= i < 10 then Hex(base, 8)[i - 2]
    else if 12 <= i < 60 && (i - 12) % 3 != 2 && s <= base + (i - 12) / 3 < e then
      HexPair(CellAt(k, base + (i - 12) / 3))[(i - 12) % 3]
    else if 61 <= i < 77 && s <= base + (i - 61) < e then Ascii(CellAt(k, base + (i - 61)))
    else ' '
  }

  function RowText(k: Packet, s: nat, e: nat): (r: string)
    requires s < e <= s - s % 16 + 16 && AllShown(k, s, e)
    ensures |r| == 61 + (e - (s - s % 16)) + 2
  {
    seq(61 + (e - (s - s % 16)), i requires 0 <= i < 61 + (e - (s - s % 16)) => RowChar(k, s - s % 16, s, e, i))
      + "\r\n"
  }

  // ----- the dump as a whole -----

  datatype Line = Row(text: string) | Omitted(count: nat)

  /** The first place from p on whose byte is not omitted. */
  function OmitEnd(k: Packet, p: nat): (e: nat)
    requires p <= |k.data|
    ensures p <= e <= |k.data| && forall q {:trigger Mask(k.ranges, q)} :: p <= q < e ==> Mask(k.ranges, q) == Omit
    ensures e < |k.data| ==> Mask(k.ranges, e) != Omit
    decreases |k.data| - p
  {
    if p < |k.data| && Mask(k.ranges, p) == Omit then OmitEnd(k, p + 1) else p
  }

  /** Where the row that p is in must end: at the end of sixteen, of the packet, or before an omission. */
  function RowEnd(k: Packet, p: nat): (e: nat)
    requires p < |k.data| && Mask(k.ranges, p) != Omit
    ensures p < e <= |k.data| && e <= p - p % 16 + 16 && AllShown(k, p, e)
    ensures e % 16 == 0 || e == |k.data| || Mask(k.ranges, e) == Omit
    decreases |k.data| - p
  {
    if (p + 1) % 16 == 0 || p + 1 == |k.data| || Mask(k.ranges, p + 1) == Omit then p + 1 else RowEnd(k, p + 1)
  }

  function Dump(k: Packet, p: nat): seq<Line>
    requires p <= |k.data|
    decreases |k.data| - p
  {
    if p == |k.data| then []
    else if Mask(k.ranges, p) == Omit then [Omitted(OmitEnd(k, p) - p)] + Dump(k, OmitEnd(k, p))
    else [Row(RowText(k, p, RowEnd(k, p)))] + Dump(k, RowEnd(k, p))
  }

  // ----- reading the log back -----

  function DigitValue(c: char): Option<nat> {
    if '0' <= c <= '9' then Some(c as int - '0' as int)
    else if 'a' <= c <= 'f' then Some(c as int - 'a' as int + 10)
    else None
  }

  function ParseHex(s: string): Option<nat> {
    if s == "" then Some(0)
    else match (ParseHex(s[..|s| - 1]), DigitValue(s[|s| - 1]))
      case (Some(v), Some(d)) => Some(v * 16 + d)
      case _ => None
  }

  /** The columns of a row from column n on. The byte in a column must be the one at that place. */
  function ReadColumns(row: string, base: nat, n: nat, at: nat): Option<seq<Cell>>
    requires |row| >= 61 && n <= 16
    decreases 16 - n
  {
    if n == 16 then Some([])
    else
      var (h, l) := (row[12 + 3 * n], row[13 + 3 * n]);
      if h == ' ' then ReadColumns(row, base, n + 1, at)
      else if base + n != at then None
      else
        var rest := ReadColumns(row, base, n + 1, at + 1);
        if rest.None? then None
        else if h == 'X' then Some([Hidden] + rest.value)
        else match (DigitValue(h), DigitValue(l))
          case (Some(x), Some(y)) => Some([Shown(x * 16 + y)] + rest.value)
          case _ => None
  }

  function Gap(n: nat): (r: seq<Cell>)
    ensures |r| == n && forall i :: 0 <= i < n ==> r[i] == Skipped
  {
    seq(n, _ => Skipped)
  }

  /** What the lines say about the packet from place at on; None if they contradict their own offsets. */
  function Replay(lines: seq<Line>, at: nat): Option<seq<Cell>>
    decreases |lines|
  {
    if lines == [] then Some([])
    else match lines[0]
      case Omitted(n) =>
        (match Replay(lines[1..], at + n) case Some(rest) => Some(Gap(n) + rest) case None => None)
      case Row(text) =>
        if |text| < 61 then None
        else match ParseHex(text[2..10])
          case None => None
          case Some(base) =>
            match ReadColumns(text, base, 0, at)
            case None => None
            case Some(cells) =>
              match Replay(lines[1..], at + |cells|) case Some(rest) => Some(cells + rest) case None => None
  }

  function Power(n: nat): nat {
    if n == 0 then 1 else 16 * Power(n - 1)
  }

  lemma DigitIs(v: nat)
    requires v < 16
    ensures DigitValue(Digit(v)) == Some(v) && Digit(v) != ' ' && Digit(v) != 'X'
  {
  }

  lemma {:induction false} ParseHexIs(v: nat, n: nat)
    requires v < Power(n)
    ensures ParseHex(Hex(v, n)) == Some(v)
    decreases n
  {
    if n > 0 {
      var (s, d) := (Hex(v / 16, n - 1), v % 16);
      hide Digit, DigitValue;
      DigitIs(d);
      ParseHexIs(v / 16, n - 1);
      assert (s + [Digit(d)])[..|s|] == s;
      assert v / 16 * 16 + d == v;
    }
  }

  lemma EightDigits(v: nat)
    requires v < TWO_TO_THE_32
    ensures ParseHex(Hex(v, 8)) == Some(v)
  {
    assert Power(8) == 16 * Power(7) && Power(7) == 16 * Power(6) && Power(6) == 16 * Power(5)
           && Power(5) == 16 * Power(4);
    assert Power(4) == 16 * Power(3) && Power(3) == 16 * Power(2) && Power(2) == 16 * Power(1)
           && Power(1) == 16 * Power(0);
    hide Power, Hex, ParseHex;
    ParseHexIs(v, 8);
  }

  /** One column of a row as written. */
  lemma ColumnIs(k: Packet, s: nat, e: nat, n: nat)
    requires s < e <= s - s % 16 + 16 && AllShown(k, s, e) && n < 16
    ensures var (base, row) := (s - s % 16, RowText(k, s, e));
            if s <= base + n < e then
              row[12 + 3 * n] == HexPair(CellAt(k, base + n))[0]
              && row[13 + 3 * n] == HexPair(CellAt(k, base + n))[1]
            else row[12 + 3 * n] == ' '
  {
    hide Hex, HexPair, Ascii, CellAt, Mask;
    assert (12 + 3 * n - 12) % 3 == 0 && (12 + 3 * n - 12) / 3 == n;
    assert (13 + 3 * n - 12) % 3 == 1 && (13 + 3 * n - 12) / 3 == n;
  }

  /** The two hex characters of a byte, or the marks of a hidden one, read back. */
  lemma PairReads(c: Cell)
    requires !c.Skipped?
    ensures HexPair(c)[0] != ' ' && (c.Hidden? <==> HexPair(c)[0] == 'X')
    ensures c.Shown? ==> DigitValue(HexPair(c)[0]) == Some(c.b / 16) && DigitValue(HexPair(c)[1]) == Some(c.b % 16)
    ensures c.Shown? ==> Shown(c.b / 16 * 16 + c.b % 16) == c
  {
    hide Digit, DigitValue;
    if c.Shown? {
      DigitIs(c.b / 16);
      DigitIs(c.b % 16);
    }
  }

  lemma {:induction false} ColumnsAre(k: Packet, s: nat, e: nat, n: nat)
    requires s < e <= s - s % 16 + 16 && AllShown(k, s, e) && n <= 16
    ensures var (base, row) := (s - s % 16, RowText(k, s, e));
            var from := if base + n < s then s else if base + n > e then e else base + n;
            e <= |k.data| && ReadColumns(row, base, n, from) == Some(Cells(k, from, e))
    decreases 16 - n
  {
    hide RowText, AllShown, HexPair, CellAt, ReadColumns;
    ShownBound(k, s, e);
    var (base, row) := (s - s % 16, RowText(k, s, e));
    if n == 16 {
      NoColumns(row, base, e);
    } else {
      ColumnIs(k, s, e, n);
      ColumnsAre(k, s, e, n + 1);
      if s <= base + n < e {
        CellShown(k, s, e, base + n);
        var c := CellAt(k, base + n);
        ColumnRead(row, base, n, c, Cells(k, base + n + 1, e));
        assert Cells(k, base + n, e) == [c] + Cells(k, base + n + 1, e);
      } else {
        ColumnBlank(row, base, n, if base + n < s then s else e);
      }
    }
  }

  lemma NoColumns(row: string, base: nat, at: nat)
    requires |row| >= 61
    ensures ReadColumns(row, base, 16, at) == Some([])
  {
  }

  lemma ColumnBlank(row: string, base: nat, n: nat, at: nat)
    requires |row| >= 61 && n < 16 && row[12 + 3 * n] == ' '
    ensures ReadColumns(row, base, n, at) == ReadColumns(row, base, n + 1, at)
  {
  }

  lemma ColumnRead(row: string, base: nat, n: nat, c: Cell, rest: seq<Cell>)
    requires |row| >= 61 && n < 16 && !c.Skipped? && row[12 + 3 * n] == HexPair(c)[0]
             && row[13 + 3 * n] == HexPair(c)[1]
    requires ReadColumns(row, base, n + 1, base + n + 1) == Some(rest)
    ensures ReadColumns(row, base, n, base + n) == Some([c] + rest)
  {
    hide HexPair, DigitValue;
    PairReads(c);
  }

  lemma ShownBound(k: Packet, s: nat, e: nat)
    requires AllShown(k, s, e)
    ensures e <= |k.data|
  {
  }

  lemma CellShown(k: Packet, s: nat, e: nat, q: nat)
    requires AllShown(k, s, e) && s <= q < e
    ensures q < |k.data| && !CellAt(k, q).Skipped?
  {
  }

  /**
   * Reading the log back gives, for every byte of the packet and in order, the byte itself, a mark
   * that it was blanked, or its part in an omission, each as the ranges say; so the bytes in rows
   * and the bytes in omissions together are all the bytes of the packet.
   */
  lemma {:induction false} LogReadsBack(k: Packet, p: nat)
    requires p <= |k.data| <= TWO_TO_THE_32
    ensures Replay(Dump(k, p), p) == Some(Cells(k, p, |k.data|))
    decreases |k.data| - p
  {
    hide Replay, Mask, CellAt, RowText;
    if p == |k.data| {
      ReplayNothing(p);
    } else if Mask(k.ranges, p) == Omit {
      var e := OmitEnd(k, p);
      LogReadsBack(k, e);
      ReplayOmitted(e - p, Dump(k, e), p);
      OmittedCells(k, p, e);
    } else {
      var e := RowEnd(k, p);
      LogReadsBack(k, e);
      ReplayRow(k, p, e, Dump(k, e));
      assert Cells(k, p, |k.data|) == Cells(k, p, e) + Cells(k, e, |k.data|);
    }
  }

  lemma ReplayNothing(at: nat)
    ensures Replay([], at) == Some([])
  {
  }

  lemma ReplayOmitted(n: nat, lines: seq<Line>, at: nat)
    ensures Replay([Omitted(n)] + lines, at)
            == match Replay(lines, at + n) case Some(rest) => Some(Gap(n) + rest) case None => None
  {
    assert ([Omitted(n)] + lines)[1..] == lines;
  }

  lemma OmittedCells(k: Packet, p: nat, e: nat)
    requires p <= e <= |k.data| && forall q {:trigger Mask(k.ranges, q)} :: p <= q < e ==> Mask(k.ranges, q) == Omit
    ensures Cells(k, p, |k.data|) == Gap(e - p) + Cells(k, e, |k.data|)
  {
    hide Mask;
  }

  lemma ReplayRow(k: Packet, s: nat, e: nat, lines: seq<Line>)
    requires s < e <= s - s % 16 + 16 && AllShown(k, s, e) && |k.data| <= TWO_TO_THE_32
    ensures e <= |k.data|
    ensures Replay([Row(RowText(k, s, e))] + lines, s)
            == match Replay(lines, e) case Some(rest) => Some(Cells(k, s, e) + rest) case None => None
  {
    hide RowText, ReadColumns, ParseHex, Hex, AllShown, Mask;
    ShownBound(k, s, e);
    RowOffset(k, s, e);
    EightDigits(s - s % 16);
    ColumnsAre(k, s, e, 0);
    assert ([Row(RowText(k, s, e))] + lines)[1..] == lines;
  }

  lemma RowOffset(k: Packet, s: nat, e: nat)
    requires s < e <= s - s % 16 + 16 && AllShown(k, s, e)
    ensures RowText(k, s, e)[2..10] == Hex(s - s % 16, 8)
  {
    hide Hex, AllShown, HexPair, Ascii;
    var (base, row) := (s - s % 16, RowText(k, s, e));
    forall i | 2 <= i < 10
      ensures row[i] == Hex(base, 8)[i - 2]
    {
      assert row[i] == RowChar(k, base, s, e, i);
    }
  }

  // ----- the character columns -----

  /** What the log prints for a byte beside the hex: itself from space to tilde, else a dot; X for a blanked one. */
  function Glyph(c: Cell): char
    requires !c.Skipped?
  {
    match c
    case Hidden => 'X'
    case Shown(b) => if ' ' as int <= b <= '~' as int then b as char else '.'
  }

  /** The glyphs of all bytes from p on that are not omitted. */
  function Glyphs(k: Packet, p: nat): string
    requires p <= |k.data|
    decreases |k.data| - p
  {
    if p == |k.data| then []
    else (if CellAt(k, p).Skipped? then [] else [Glyph(CellAt(k, p))]) + Glyphs(k, p + 1)
  }

  /** The character columns of a row from column n on, where the hex columns hold a byte. */
  function ReadGlyphs(row: string, n: nat): string
    requires |row| >= 61 && n <= 16
    decreases 16 - n
  {
    if n == 16 then []
    else (if row[12 + 3 * n] != ' ' && 61 + n < |row| then [row[61 + n]] else []) + ReadGlyphs(row, n + 1)
  }

  function TextOf(lines: seq<Line>): string {
    if lines == [] then []
    else (if lines[0].Row? && |lines[0].text| >= 61 then ReadGlyphs(lines[0].text, 0) else []) + TextOf(lines[1..])
  }

  lemma GlyphColumnIs(k: Packet, s: nat, e: nat, n: nat)
    requires s < e <= s - s % 16 + 16 && AllShown(k, s, e) && n < 16 && s <= s - s % 16 + n < e
    ensures CellAt(k, s - s % 16 + n).Skipped? == false
    ensures var row := RowText(k, s, e); 61 + n < |row| && row[61 + n] == Glyph(CellAt(k, s - s % 16 + n))
  {
    hide Hex, HexPair, Mask;
    CellShown(k, s, e, s - s % 16 + n);
    assert !(12 <= 61 + n < 60);
  }

  lemma RowReadGlyphs(row: string, n: nat)
    requires |row| >= 61 && n < 16
    ensures ReadGlyphs(row, n)
            == (if row[12 + 3 * n] != ' ' && 61 + n < |row| then [row[61 + n]] else []) + ReadGlyphs(row, n + 1)
  {
  }

  lemma GlyphsStep(k: Packet, p: nat)
    requires p < |k.data| && !CellAt(k, p).Skipped?
    ensures Glyphs(k, p) == [Glyph(CellAt(k, p))] + Glyphs(k, p + 1)
  {
  }

  /** One column of a row, read for its glyph. */
  lemma GlyphColumnRead(k: Packet, s: nat, e: nat, n: nat)
    requires s < e <= s - s % 16 + 16 && AllShown(k, s, e) && n < 16
    ensures var (p, row) := (s - s % 16 + n, RowText(k, s, e));
            if s <= p < e then
              && p < |k.data| && !CellAt(k, p).Skipped?
              && ReadGlyphs(row, n) == [Glyph(CellAt(k, p))] + ReadGlyphs(row, n + 1)
            else ReadGlyphs(row, n) == ReadGlyphs(row, n + 1)
  {
    hide RowText, HexPair, CellAt, Glyph, ReadGlyphs;
    ColumnIs(k, s, e, n);
    var (p, row) := (s - s % 16 + n, RowText(k, s, e));
    RowReadGlyphs(row, n);
    if s <= p < e {
      CellShown(k, s, e, p);
      PairReads(CellAt(k, p));
      GlyphColumnIs(k, s, e, n);
    } else {
      assert [] + ReadGlyphs(row, n + 1) == ReadGlyphs(row, n + 1);
    }
    hide AllShown;
  }

  /** The glyphs of the row's bytes from a column on, before those of what follows the row. */
  lemma {:induction false} GlyphsAre(k: Packet, s: nat, e: nat, n: nat)
    requires s < e <= s - s % 16 + 16 && AllShown(k, s, e) && n <= 16
    ensures var from := if s - s % 16 + n < s then s else if s - s % 16 + n > e then e else s - s % 16 + n;
            from <= |k.data| && e <= |k.data| && ReadGlyphs(RowText(k, s, e), n) + Glyphs(k, e) == Glyphs(k, from)
    decreases 16 - n
  {
    hide RowText, AllShown, CellAt, Glyph, Glyphs, ReadGlyphs;
    ShownBound(k, s, e);
    var (p, row) := (s - s % 16 + n, RowText(k, s, e));
    if n == 16 {
      NoGlyphsLeft(row, Glyphs(k, e));
    } else {
      GlyphsAre(k, s, e, n + 1);
      GlyphColumnRead(k, s, e, n);
      if s <= p < e {
        GlyphsStep(k, p);
        var g := Glyph(CellAt(k, p));
        assert [g] + ReadGlyphs(row, n + 1) + Glyphs(k, e) == [g] + (ReadGlyphs(row, n + 1) + Glyphs(k, e));
      }
    }
  }

  lemma NoGlyphsLeft(row: string, more: string)
    requires |row| >= 61
    ensures ReadGlyphs(row, 16) + more == more
  {
  }

  lemma {:induction false} NoGlyphs(k: Packet, p: nat, e: nat)
    requires p <= e <= |k.data| && forall q {:trigger Mask(k.ranges, q)} :: p <= q < e ==> Mask(k.ranges, q) == Omit
    ensures Glyphs(k, p) == Glyphs(k, e)
    decreases e - p
  {
    hide Mask;
    if p < e {
      NoGlyphs(k, p + 1, e);
      assert [] + Glyphs(k, p + 1) == Glyphs(k, p + 1);
    }
  }

  /**
   * The character columns spell the packet: one glyph for each byte that is not omitted, in order, under the
   * byte's own hex column.
   */
  lemma {:induction false} TextReadsBack(k: Packet, p: nat)
    requires p <= |k.data|
    ensures TextOf(Dump(k, p)) == Glyphs(k, p)
    decreases |k.data| - p
  {
    hide Mask, CellAt, RowText, ReadGlyphs, Glyphs;
    if p == |k.data| {
      assert Dump(k, p) == [] && Glyphs(k, p) == [] by { NothingLeft(k); }
    } else if Mask(k.ranges, p) == Omit {
      var e := OmitEnd(k, p);
      TextReadsBack(k, e);
      NoGlyphs(k, p, e);
      assert ([Omitted(e - p)] + Dump(k, e))[1..] == Dump(k, e);
      assert [] + TextOf(Dump(k, e)) == TextOf(Dump(k, e));
    } else {
      var e := RowEnd(k, p);
      TextReadsBack(k, e);
      GlyphsAre(k, p, e, 0);
      assert ([Row(RowText(k, p, e))] + Dump(k, e))[1..] == Dump(k, e);
    }
  }

  lemma NothingLeft(k: Packet)
    ensures Dump(k, |k.data|) == [] && Glyphs(k, |k.data|) == []
  {
  }

  // ----- the code -----

  const ROW_BUFFER := 128

  /** The row at base with bytes s to e in it, up to its last character column. */
  ghost predicate IsRow(row: string, k: Packet, s: nat, e: nat)
    requires s <= e && AllShown(k, s, e)
  {
    && |row| == ROW_BUFFER && e <= s - s % 16 + 16
    && forall i :: 0 <= i < 77 ==> row[i] == RowChar(k, s - s % 16, s, e, i)
  }

  ghost predicate Holds(dump: array<char>, k: Packet, s: nat, e: nat)
    requires s <= e && AllShown(k, s, e)
    reads dump
  {
    IsRow(dump[..], k, s, e)
  }

  /** The template: the offset of the row, and spaces where the columns will be. */
  method InitRow(dump: array<char>, k: Packet, s: nat)
    requires dump.Length == ROW_BUFFER && s < |k.data|
    modifies dump
    ensures Holds(dump, k, s, s)
  {
    hide Hex, HexPair, Ascii, CellAt, Mask;
    var offset := Hex(s - s % 16, 8);
    for i := 0 to 77
      invariant forall j :: 0 <= j < i ==> dump[j] == RowChar(k, s - s % 16, s, s, j)
    {
      dump[i] := if 2 <= i < 10 then offset[i - 2] else ' ';
    }
    dump[77], dump[78], dump[79] := '\r', '\n', '\0';
  }

  /** A byte's three places in the row, and what goes there. */
  function WithCell(row: string, n: nat, c: Cell): (r: string)
    requires |row| == ROW_BUFFER && n < 16 && !c.Skipped?
    ensures |r| == |row|
  {
    row[12 + 3 * n := HexPair(c)[0]][13 + 3 * n := HexPair(c)[1]][61 + n := Ascii(c)]
  }

  method PutChars(dump: array<char>, n: nat, c: Cell)
    requires dump.Length == ROW_BUFFER && n < 16 && !c.Skipped?
    modifies dump
    ensures dump[..] == WithCell(old(dump[..]), n, c)
  {
    var small := HexPair(c);
    hide HexPair, Ascii;
    dump[10 + 2 + 3 * n] := small[0];
    dump[10 + 2 + 3 * n + 1] := small[1];
    dump[10 + 1 + 3 * 16 + 2 + n] := Ascii(c);
  }

  /** One byte goes to its two hex columns and its character column. */
  method PutCell(dump: array<char>, k: Packet, ghost s: nat, p: nat)
    requires s <= p < |k.data| && p < s - s % 16 + 16 && AllShown(k, s, p + 1) && Holds(dump, k, s, p)
    modifies dump
    ensures Holds(dump, k, s, p + 1)
  {
    CellShown(k, s, p + 1, p);
    assert AllShown(k, s, p);
    hide CellAt, AllShown, WithCell, IsRow;
    RowTakesByte(k, s, p, dump[..]);
    PutChars(dump, p % 16, CellAt(k, p));
  }

  lemma RowTakesByte(k: Packet, s: nat, p: nat, row: string)
    requires s <= p < |k.data| && p < s - s % 16 + 16 && AllShown(k, s, p + 1) && AllShown(k, s, p)
    requires !CellAt(k, p).Skipped? && IsRow(row, k, s, p)
    ensures |row| == ROW_BUFFER && IsRow(WithCell(row, p % 16, CellAt(k, p)), k, s, p + 1)
  {
    hide Hex, Mask, CellAt, HexPair, Ascii, RowChar, AllShown;
    var base := s - s % 16;
    assert base + p % 16 == p;
    forall i | 0 <= i < 77 ensures WithCell(row, p % 16, CellAt(k, p))[i] == RowChar(k, base, s, p + 1, i) {
      CharChange(k, base, s, p, i);
    }
  }

  /** Taking one more byte into a row changes its own three places and no other. */
  lemma CharChange(k: Packet, base: nat, s: nat, p: nat, i: nat)
    requires base <= s <= p < base + 16 && AllShown(k, s, p + 1) && i < 77
    ensures var n := p - base;
            p < |k.data| && !CellAt(k, p).Skipped? &&
            RowChar(k, base, s, p + 1, i) ==
              if i == 12 + 3 * n then HexPair(CellAt(k, p))[0]
              else if i == 13 + 3 * n then HexPair(CellAt(k, p))[1]
              else if i == 61 + n then Ascii(CellAt(k, p))
              else RowChar(k, base, s, p, i)
  {
    hide Hex, HexPair, Ascii, CellAt, Mask;
    CellShown(k, s, p + 1, p);
    var n := p - base;
    if 12 <= i < 60 {
      var (q, r) := ((i - 12) / 3, (i - 12) % 3);
      assert i == 12 + 3 * q + r;
      assert q == n && r == 0 <==> i == 12 + 3 * n;
      assert q == n && r == 1 <==> i == 13 + 3 * n;
    }
  }

  /** The row is cut off after its last character and written. */
  method Flush(dump: array<char>, ghost k: Packet, ghost s: nat, ghost e: nat, outputPos: nat) returns (text: string)
    requires s < e && AllShown(k, s, e) && Holds(dump, k, s, e) && outputPos == e - (s - s % 16)
    modifies dump
    ensures text == RowText(k, s, e)
  {
    hide RowChar;
    var end := 10 + 1 + 3 * 16 + 2 + outputPos;
    dump[end], dump[end + 1], dump[end + 2] := '\r', '\n', '\0';
    return dump[..end + 2];
  }

  /** Moves to the current entry of the ranges, and says what it asks for byte p. */
  method CurrentMask(rs: seq<Range>, p: nat, start: nat) returns (b: nat, ty: Blanking)
    requires Ordered(rs) && start <= |rs| && forall i :: 0 <= i < start ==> rs[i].offset + rs[i].len <= p
    ensures b <= |rs| && forall i :: 0 <= i < b ==> rs[i].offset + rs[i].len <= p
    ensures ty == Mask(rs, p)
  {
    b := start;
    while b < |rs| && p >= rs[b].offset + rs[b].len
      invariant start <= b <= |rs| && forall i :: 0 <= i < b ==> rs[i].offset + rs[i].len <= p
    {
      b := b + 1;
    }
    MaskSkips(rs, p, b);
    if b < |rs| && Covers(rs[b], p) {
      MaskIs(rs, p, b);
      return b, rs[b].ty;
    }
    ty := Emit;
    if b < |rs| {
      forall i | 0 <= i < |rs[b..]|
        ensures p < rs[b..][i].offset
      {
        assert i > 0 ==> rs[b].offset + rs[b].len <= rs[b + i].offset;
      }
    }
    MaskNone(rs[b..], p);
  }

  /** Where the loop stands: what is written, and the row or the omission in progress since place s. */
  ghost predicate Progress(k: Packet, lines: seq<Line>, s: nat, p: nat, omitted: nat, outputPos: nat) {
    && s <= p <= |k.data| && Dump(k, 0) == lines + Dump(k, s)
    && (omitted > 0 ==>
          outputPos == 0 && omitted == p - s && Mask(k.ranges, s) == Omit && OmitEnd(k, s) == OmitEnd(k, p))
    && (omitted == 0 && outputPos > 0 ==>
          && s < p < |k.data| && outputPos == p % 16 && p < s - s % 16 + 16 && AllShown(k, s, p)
          && RowEnd(k, s) == if Mask(k.ranges, p) == Omit then p else RowEnd(k, p))
    && (omitted == 0 && outputPos == 0 ==> s == p)
  }

  lemma ProgressFacts(k: Packet, lines: seq<Line>, s: nat, p: nat, omitted: nat, outputPos: nat)
    requires Progress(k, lines, s, p, omitted, outputPos)
    ensures s <= p <= |k.data| && (omitted > 0 ==> outputPos == 0 && omitted == p - s)
    ensures omitted == 0 && outputPos == 0 ==> s == p
    ensures outputPos > 0 ==> s < p && AllShown(k, s, p) && outputPos == p - (s - s % 16) <= 16
  {
    hide Dump, RowEnd, OmitEnd, AllShown;
  }

  lemma OmissionEnds(k: Packet, lines: seq<Line>, s: nat, p: nat)
    requires s < p && Progress(k, lines, s, p, p - s, 0) && (p < |k.data| ==> Mask(k.ranges, p) != Omit)
    ensures Progress(k, lines + [Omitted(p - s)], p, p, 0, 0)
  {
    hide RowEnd;
    assert OmitEnd(k, p) == p;
    assert Dump(k, s) == [Omitted(p - s)] + Dump(k, p);
  }

  lemma OmissionGrows(k: Packet, lines: seq<Line>, s: nat, p: nat)
    requires s <= p < |k.data| && Mask(k.ranges, p) == Omit && Progress(k, lines, s, p, p - s, 0)
    ensures Progress(k, lines, s, p + 1, p + 1 - s, 0)
  {
    hide Dump, RowEnd;
  }

  lemma RowEnds(k: Packet, lines: seq<Line>, s: nat, e: nat)
    requires s < |k.data| && Mask(k.ranges, s) != Omit && RowEnd(k, s) == e && Dump(k, 0) == lines + Dump(k, s)
    ensures Progress(k, lines + [Row(RowText(k, s, e))], e, e, 0, 0)
  {
    hide OmitEnd, RowText;
    assert Dump(k, s) == [Row(RowText(k, s, e))] + Dump(k, e);
  }

  lemma RowGrowsBounds(k: Packet, lines: seq<Line>, s: nat, p: nat, outputPos: nat)
    requires Progress(k, lines, s, p, 0, outputPos) && p < |k.data| && Mask(k.ranges, p) != Omit
    ensures s <= p < s - s % 16 + 16 && AllShown(k, s, p) && AllShown(k, s, p + 1) && p % 16 + 1 == p + 1 - (s - s % 16)
    ensures Mask(k.ranges, s) != Omit
  {
    hide Dump, OmitEnd, RowEnd;
  }

  lemma RowEndMoves(k: Packet, lines: seq<Line>, s: nat, p: nat, outputPos: nat)
    requires Progress(k, lines, s, p, 0, outputPos) && p < |k.data| && Mask(k.ranges, p) != Omit
             && Mask(k.ranges, s) != Omit
    ensures s <= p
    ensures RowEnd(k, s) == if (p + 1) % 16 == 0 || p + 1 == |k.data| || Mask(k.ranges, p + 1) == Omit
                            then p + 1 else RowEnd(k, p + 1)
  {
    hide Dump, OmitEnd, AllShown;
  }

  /** A byte to be shown goes into the row; a row that is full, or the last, is then complete. */
  lemma RowGrows(k: Packet, lines: seq<Line>, s: nat, p: nat, outputPos: nat)
    requires Progress(k, lines, s, p, 0, outputPos) && p < |k.data| && Mask(k.ranges, p) != Omit
    ensures s <= p < s - s % 16 + 16 && AllShown(k, s, p) && AllShown(k, s, p + 1) && p % 16 + 1 == p + 1 - (s - s % 16)
    ensures if (p + 1) % 16 == 0 || p + 1 == |k.data|
            then Progress(k, lines + [Row(RowText(k, s, p + 1))], p + 1, p + 1, 0, 0)
            else Progress(k, lines, s, p + 1, 0, p % 16 + 1)
  {
    hide Progress, AllShown, RowText, Mask;
    RowGrowsBounds(k, lines, s, p, outputPos);
    if (p + 1) % 16 == 0 || p + 1 == |k.data| {
      RowFills(k, lines, s, p, outputPos);
    } else {
      RowGoesOn(k, lines, s, p, outputPos);
    }
  }

  lemma RowFills(k: Packet, lines: seq<Line>, s: nat, p: nat, outputPos: nat)
    requires Progress(k, lines, s, p, 0, outputPos) && p < |k.data| && Mask(k.ranges, p) != Omit
             && Mask(k.ranges, s) != Omit
    requires (p + 1) % 16 == 0 || p + 1 == |k.data|
    ensures s <= p && AllShown(k, s, p + 1) && p + 1 <= s - s % 16 + 16
    ensures Progress(k, lines + [Row(RowText(k, s, p + 1))], p + 1, p + 1, 0, 0)
  {
    RowGrowsBounds(k, lines, s, p, outputPos);
    RowEndMoves(k, lines, s, p, outputPos);
    hide Dump, OmitEnd, RowText, RowEnd, Mask, AllShown;
    RowEnds(k, lines, s, p + 1);
  }

  lemma RowGoesOn(k: Packet, lines: seq<Line>, s: nat, p: nat, outputPos: nat)
    requires Progress(k, lines, s, p, 0, outputPos) && p < |k.data| && Mask(k.ranges, p) != Omit
             && Mask(k.ranges, s) != Omit
    requires (p + 1) % 16 != 0 && p + 1 < |k.data|
    ensures Progress(k, lines, s, p + 1, 0, p % 16 + 1)
  {
    RowGrowsBounds(k, lines, s, p, outputPos);
    RowEndMoves(k, lines, s, p, outputPos);
    hide Dump, OmitEnd, RowEnd, Mask, AllShown;
    NextColumn(p);
  }

  lemma NextColumn(p: nat)
    requires (p + 1) % 16 != 0
    ensures (p + 1) % 16 == p % 16 + 1
  {
  }

  /** A row in progress that meets an omission ends where it is. */
  lemma RowStops(k: Packet, lines: seq<Line>, s: nat, p: nat, outputPos: nat)
    requires Progress(k, lines, s, p, 0, outputPos) && outputPos > 0 && p < |k.data| && Mask(k.ranges, p) == Omit
    ensures s < p && AllShown(k, s, p) && p <= s - s % 16 + 16
            && Progress(k, lines + [Row(RowText(k, s, p))], p, p, 0, 0)
  {
    hide Dump, OmitEnd, RowText;
    RowEnds(k, lines, s, p);
  }

  lemma ProgressStarts(k: Packet)
    ensures Progress(k, [], 0, 0, 0, 0)
  {
    assert [] + Dump(k, 0) == Dump(k, 0);
  }

  lemma ProgressDone(k: Packet, lines: seq<Line>)
    requires Progress(k, lines, |k.data|, |k.data|, 0, 0)
    ensures lines == Dump(k, 0)
  {
  }

  /** log_packet, from the header on. Every place written in the buffer is within it. */
  method LogPacket(k: Packet) returns (lines: seq<Line>)
    requires Ordered(k.ranges) && |k.data| <= TWO_TO_THE_32
    ensures lines == Dump(k, 0)
  {
    hide Dump, Mask, RowText, Holds, AllShown, Ordered, Progress;
    var dump := new char[ROW_BUFFER];
    lines := [];
    var p: nat, b: nat, omitted: nat, outputPos: nat := 0, 0, 0, 0;
    ghost var s: nat := 0;
    ProgressStarts(k);
    while p < |k.data|
      invariant fresh(dump) && dump.Length == ROW_BUFFER && p <= |k.data|
      invariant Progress(k, lines, s, p, omitted, outputPos)
      invariant b <= |k.ranges| && forall i :: 0 <= i < b ==> k.ranges[i].offset + k.ranges[i].len <= p
      invariant outputPos > 0 ==> s <= p && AllShown(k, s, p) && Holds(dump, k, s, p)
    {
      ProgressFacts(k, lines, s, p, omitted, outputPos);
      var ty;
      b, ty := CurrentMask(k.ranges, p, b);
      if ty != Omit && omitted > 0 {
        OmissionEnds(k, lines, s, p);
        lines := lines + [Omitted(omitted)];
        omitted := 0;
        s := p;
      }
      if outputPos == 0 && omitted == 0 {
        InitRow(dump, k, p);
      }
      ghost var e: nat := p;
      if ty == Omit {
        if outputPos > 0 {
          RowStops(k, lines, s, p, outputPos);
        }
        omitted := omitted + 1;
      } else {
        RowGrows(k, lines, s, p, outputPos);
        PutCell(dump, k, s, p);
        outputPos := p % 16 + 1;
        e := p + 1;
      }
      p := p + 1;
      if p % 16 == 0 || p == |k.data| || omitted > 0 {
        if outputPos > 0 {
          var text := Flush(dump, k, s, e, outputPos);
          lines := lines + [Row(text)];
          s := e;
          outputPos := 0;
        }
      }
      if omitted > 0 {
        OmissionGrows(k, lines, s, p - 1);
      }
    }
    ProgressFacts(k, lines, s, p, omitted, outputPos);
    if omitted > 0 {
      OmissionEnds(k, lines, s, p);
      lines := lines + [Omitted(omitted)];
    } else {
      NoRowAtEnd(k, lines, s, outputPos);
    }
    ProgressDone(k, lines);
  }

  lemma NoRowAtEnd(k: Packet, lines: seq<Line>, s: nat, outputPos: nat)
    requires Progress(k, lines, s, |k.data|, 0, outputPos)
    ensures outputPos == 0 && s == |k.data|
  {
    hide Dump, RowEnd, OmitEnd;
  }
}
