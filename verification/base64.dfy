/** Base64 (section 4 of RFC 4648) as key files use it: written in lines, read back four characters at a time. */
module Base64 {
  import opened Bytes
  import opened Text

  const PAD: byte := 61

  // ----- atoms -----

  function EncodeChar(v: nat): (c: byte)
    requires v < 64
    ensures DecodeChar(c) == Some(v as int)
  {
    if v < 26 then 65 + v
    else if v < 52 then 97 + (v - 26)
    else if v < 62 then 48 + (v - 52)
    else if v == 62 then 43
    else 47
  }

  /** -1 for the padding character, None for one that is not base64. */
  function DecodeChar(c: byte): (v: Option<int>)
    ensures v.Some? ==> -1 <= v.value < 64
  {
    if 65 <= c <= 90 then Some(c - 65)
    else if 97 <= c <= 122 then Some(c - 97 + 26)
    else if 48 <= c <= 57 then Some(c - 48 + 52)
    else if c == 43 then Some(62)
    else if c == 47 then Some(63)
    else if c == PAD then Some(-1)
    else None
  }

  predicate IsBase64(c: byte) {
    DecodeChar(c).Some?
  }

  /** One to three bytes in a 24-bit word. */
  function Word(d: Blob): (w: int)
    requires 1 <= |d| <= 3
    ensures 0 <= w < 0x100_0000
  {
    var (d0: int, d1: int, d2: int) := (d[0], if |d| > 1 then d[1] else 0, if |d| > 2 then d[2] else 0);
    d0 * 65536 + d1 * 256 + d2
  }

  /** base64_encode_atom, for one to three bytes */
  function EncodeAtom(d: Blob): (r: Blob)
    requires 1 <= |d| <= 3
    ensures |r| == 4
  {
    var w := Word(d);
    [ EncodeChar(w / 64 / 64 / 64),
      EncodeChar(w / 64 / 64 % 64),
      if |d| > 1 then EncodeChar(w / 64 % 64) else PAD,
      if |d| > 2 then EncodeChar(w % 64) else PAD ]
  }

  function Unpack(w: nat): (d: Blob)
    ensures |d| == 3
  {
    [w / 256 / 256 % 256, w / 256 % 256, w % 256]
  }

  /** base64_decode_atom: None when the code returns 0 bytes. A padding value counts as 63. */
  function DecodeAtom(a: Blob): (d: Option<Blob>)
    requires |a| == 4
    ensures d.Some? ==> 1 <= |d.value| <= 3
  {
    match (DecodeChar(a[0]), DecodeChar(a[1]), DecodeChar(a[2]), DecodeChar(a[3]))
    case (Some(v0), Some(v1), Some(v2), Some(v3)) =>
      if v0 == -1 || v1 == -1 || (v2 == -1 && v3 != -1) then None
      else
        var w := v0 * 262144 + v1 * 4096 + (v2 % 64) * 64 + v3 % 64;
        var all := Unpack(w);
        Some(if v3 != -1 then all else if v2 != -1 then all[..2] else all[..1])
    case _ => None
  }

  lemma AtomRoundTrip(d: Blob)
    requires 1 <= |d| <= 3
    ensures DecodeAtom(EncodeAtom(d)) == Some(d)
  {
    hide EncodeChar, DecodeChar, Unpack, Word, DecodeAtom;
    PadIs();
    SixBits(d);
    var (w, a) := (Word(d), EncodeAtom(d));
    var (v0, v1) := (w / 64 / 64 / 64, w / 64 / 64 % 64);
    if |d| == 1 {
      DecodeIs(a, v0, v1, -1, -1);
      UnpackIs(d[0], 15, 255);
      WordPlus(d, 15, 255);
      assert Unpack(w + 63 * 64 + 63)[..1] == d;
    } else if |d| == 2 {
      DecodeIs(a, v0, v1, w / 64 % 64, -1);
      UnpackIs(d[0], d[1], 63);
      WordPlus(d, d[1], 63);
      assert Unpack(w + 63)[..2] == d;
    } else {
      DecodeIs(a, v0, v1, w / 64 % 64, w % 64);
      UnpackIs(d[0], d[1], d[2]);
      WordPlus(d, d[1], d[2]);
      assert Unpack(w) == d;
    }
  }

  lemma DecodeIs(a: Blob, v0: int, v1: int, v2: int, v3: int)
    requires |a| == 4 && DecodeChar(a[0]) == Some(v0) && DecodeChar(a[1]) == Some(v1) && DecodeChar(a[2]) == Some(v2)
             && DecodeChar(a[3]) == Some(v3)
    requires v0 != -1 && v1 != -1 && (v2 == -1 ==> v3 == -1)
    ensures var all := Unpack(v0 * 262144 + v1 * 4096
                              + (if v2 == -1 then 63 else v2) * 64 + (if v3 == -1 then 63 else v3));
            DecodeAtom(a) == Some(if v3 != -1 then all else if v2 != -1 then all[..2] else all[..1])
  {
    hide DecodeChar, Unpack;
  }

  lemma WordPlus(d: Blob, y: byte, z: byte)
    requires 1 <= |d| <= 3
    ensures d[0] * 65536 + y * 256 + z
            == Word(d) + (if |d| > 1 then (y - d[1]) * 256 else y * 256) + (if |d| > 2 then z - d[2] else z)
  {
  }

  /** The four six-bit groups put together give the word; those after the data are zero. */
  lemma SixBits(d: Blob)
    requires 1 <= |d| <= 3
    ensures var w := Word(d);
            && w == w / 64 / 64 / 64 * 262144 + w / 64 / 64 % 64 * 4096 + w / 64 % 64 * 64 + w % 64
            && (|d| == 1 ==> w / 64 % 64 == 0) && (|d| <= 2 ==> w % 64 == 0)
  {
    SplitWord(Word(d));
    var x: int, y: int := d[0], if |d| > 1 then d[1] else 0;
    if |d| <= 2 {
      assert Word(d) == (x * 1024 + y * 4) * 64;
      ZeroGroup(x * 1024 + y * 4);
    }
    if |d| == 1 {
      assert x * 1024 == x * 16 * 64;
      ZeroGroup(x * 16);
    }
  }

  lemma SplitWord(w: nat)
    ensures w == w / 64 / 64 / 64 * 262144 + w / 64 / 64 % 64 * 4096 + w / 64 % 64 * 64 + w % 64
  {
    var (a, b, c) := (w / 64, w / 64 / 64, w / 64 / 64 / 64);
    assert w == 64 * a + w % 64 && a == 64 * b + a % 64 && b == 64 * c + b % 64;
  }

  lemma ZeroGroup(a: nat)
    ensures (a * 64) % 64 == 0 && a * 64 / 64 == a
  {
  }

  lemma UnpackIs(x: byte, y: byte, z: byte)
    ensures Unpack(x * 65536 + y * 256 + z) == [x, y, z]
  {
  }

  lemma PadIs()
    ensures DecodeChar(PAD) == Some(-1)
  {
  }

  // ----- writing -----

  function Chars(data: Blob): Blob {
    if data == [] then []
    else
      var n := if |data| < 3 then |data| else 3;
      EncodeAtom(data[..n]) + Chars(data[n..])
  }

  /** Lines of cpl characters, the last one shorter perhaps, each ended by a newline. */
  function Wrap(chars: Blob, cpl: nat): Blob
    requires cpl > 0
  {
    if |chars| <= cpl then chars + [NL] else chars[..cpl] + [NL] + Wrap(chars[cpl..], cpl)
  }

  /** All but the unfinished line, and that line, as they stand before the next character. */
  function Broken(chars: Blob, cpl: nat): (r: (Blob, Blob))
    requires cpl > 0
    ensures |r.1| <= cpl
  {
    if |chars| <= cpl then ([], chars)
    else var r := Broken(chars[cpl..], cpl); (chars[..cpl] + [NL] + r.0, r.1)
  }

  lemma {:induction false} BrokenAppend(chars: Blob, c: byte, cpl: nat)
    requires cpl > 0
    ensures var r, s := Broken(chars, cpl), Broken(chars + [c], cpl);
            s == if |r.1| < cpl then (r.0, r.1 + [c]) else (r.0 + r.1 + [NL], [c])
  {
    if |chars| > cpl {
      BrokenAppend(chars[cpl..], c, cpl);
      assert (chars + [c])[cpl..] == chars[cpl..] + [c] && (chars + [c])[..cpl] == chars[..cpl];
      var t := Broken(chars[cpl..], cpl);
      assert chars[..cpl] + [NL] + (t.0 + t.1 + [NL]) == chars[..cpl] + [NL] + t.0 + t.1 + [NL];
    } else if |chars| == cpl {
      assert (chars + [c])[cpl..] == [c] && (chars + [c])[..cpl] == chars;
      assert Broken([c], cpl) == ([], [c]) && Broken(chars, cpl) == ([], chars);
      assert chars + [NL] + [] == [] + chars + [NL];
    }
  }

  lemma {:induction false} BrokenIsWrap(chars: Blob, cpl: nat)
    requires cpl > 0
    ensures Broken(chars, cpl).0 + Broken(chars, cpl).1 + [NL] == Wrap(chars, cpl)
  {
    if |chars| > cpl {
      BrokenIsWrap(chars[cpl..], cpl);
    }
  }

  lemma CharsStep(a: Blob, b: Blob)
    requires |a| >= 3
    ensures Chars(a + b) == EncodeAtom(a[..3]) + Chars(a[3..] + b)
  {
    hide EncodeAtom;
    assert (a + b)[..3] == a[..3] && (a + b)[3..] == a[3..] + b;
  }

  lemma Assoc(a: Blob, b: Blob, c: Blob)
    ensures a + (b + c) == a + b + c
  {
  }

  lemma {:induction false} CharsAppend(a: Blob, b: Blob)
    requires |a| % 3 == 0
    ensures Chars(a + b) == Chars(a) + Chars(b)
  {
    hide EncodeAtom;
    if a == [] {
      assert a + b == b;
    } else {
      hide Chars;
      CharsStep(a, b);
      CharsStep(a, []);
      CharsAppend(a[3..], b);
      assert a + [] == a && a[3..] + [] == a[3..];
      Assoc(EncodeAtom(a[..3]), Chars(a[3..]), Chars(b));
    }
  }

  /** The text written for some characters, as it stands before the next one. */
  function Open(chars: Blob, cpl: nat): Blob
    requires cpl > 0
  {
    Broken(chars, cpl).0 + Broken(chars, cpl).1
  }

  function Column(chars: Blob, cpl: nat): nat
    requires cpl > 0
  {
    |Broken(chars, cpl).1|
  }

  lemma OpenAppend(chars: Blob, c: byte, cpl: nat)
    requires cpl > 0
    ensures Column(chars + [c], cpl) == if Column(chars, cpl) < cpl then Column(chars, cpl) + 1 else 1
    ensures Open(chars + [c], cpl) == Open(chars, cpl) + (if Column(chars, cpl) < cpl then [] else [NL]) + [c]
  {
    hide Broken;
    BrokenAppend(chars, c, cpl);
  }

  method EmitAtom(out: Blob, column: nat, ghost before: Blob, ghost sofar: Blob, atom: Blob, cpl: nat)
    returns (o: Blob, linelen: nat)
    requires cpl > 0 && |atom| == 4
    requires column == Column(sofar, cpl) && out == before + Open(sofar, cpl)
    ensures linelen == Column(sofar + atom, cpl) && o == before + Open(sofar + atom, cpl)
  {
    hide Open, Column;
    o, linelen := out, column;
    assert sofar + atom[..0] == sofar;
    for i := 0 to 4
      invariant linelen == Column(sofar + atom[..i], cpl)
      invariant o == before + Open(sofar + atom[..i], cpl)
    {
      OpenAppend(sofar + atom[..i], atom[i], cpl);
      assert sofar + atom[..i] + [atom[i]] == sofar + atom[..i + 1];
      if linelen >= cpl {
        linelen := 0;
        o := o + [NL];
      }
      o := o + [atom[i]];
      linelen := linelen + 1;
    }
    assert atom[..4] == atom;
  }

  /** base64_encode, with cpl characters to the line */
  method EncodeLines(out: Blob, data: Blob, cpl: nat) returns (o: Blob)
    requires cpl > 0
    ensures o == out + Wrap(Chars(data), cpl)
  {
    hide Wrap, EncodeAtom, Open, Column, Chars;
    o := out;
    var pos, linelen := 0, 0;
    NothingOpen(cpl);
    assert data[..0] == [];
    while pos < |data|
      invariant 0 <= pos <= |data| && (pos < |data| ==> pos % 3 == 0)
      invariant linelen == Column(Chars(data[..pos]), cpl)
      invariant o == out + Open(Chars(data[..pos]), cpl)
    {
      var n := if |data| - pos < 3 then |data| - pos else 3;
      var atom := EncodeAtom(data[pos..pos + n]);
      NextAtom(data, pos, n);
      o, linelen := EmitAtom(o, linelen, out, Chars(data[..pos]), atom, cpl);
      pos := pos + n;
    }
    assert data[..pos] == data;
    OpenIsWrap(Chars(data), cpl);
    o := o + [NL];
  }

  lemma NothingOpen(cpl: nat)
    requires cpl > 0
    ensures Chars([]) == [] && Column([], cpl) == 0 && Open([], cpl) == []
  {
  }

  lemma OpenIsWrap(chars: Blob, cpl: nat)
    requires cpl > 0
    ensures Open(chars, cpl) + [NL] == Wrap(chars, cpl)
  {
    hide Broken, Wrap;
    BrokenIsWrap(chars, cpl);
  }

  lemma NextAtom(data: Blob, pos: nat, n: nat)
    requires pos < |data| && pos % 3 == 0 && n == if |data| - pos < 3 then |data| - pos else 3
    ensures Chars(data[..pos + n]) == Chars(data[..pos]) + EncodeAtom(data[pos..pos + n])
  {
    hide EncodeAtom;
    assert data[..pos + n] == data[..pos] + data[pos..pos + n];
    CharsAppend(data[..pos], data[pos..pos + n]);
    var d := data[pos..pos + n];
    assert d[..n] == d && d[n..] == [];
  }

  // ----- reading -----

  /** The characters waiting for a full group of four, and the bytes decoded so far. */
  datatype Acc = Acc(bits: Blob, out: Blob)

  const FRESH := Acc([], [])

  function FeedOne(a: Acc, c: byte): (r: Option<Acc>)
    requires |a.bits| < 4
    ensures r.Some? ==> |r.value.bits| < 4
  {
    if |a.bits| < 3 then Some(Acc(a.bits + [c], a.out))
    else match DecodeAtom(a.bits + [c])
      case Some(d) => Some(Acc([], a.out + d))
      case None => None
  }

  /** None when some group of four is not valid base64. */
  function Feed(a: Acc, chars: Blob): (r: Option<Acc>)
    requires |a.bits| < 4
    ensures r.Some? ==> |r.value.bits| < 4
    decreases |chars|
  {
    if chars == [] then Some(a)
    else match FeedOne(a, chars[0])
      case Some(b) => Feed(b, chars[1..])
      case None => None
  }

  /** Where the characters are cut does not matter. */
  lemma {:induction false} FeedAppend(a: Acc, s: Blob, t: Blob)
    requires |a.bits| < 4
    ensures Feed(a, s + t) == match Feed(a, s) case Some(b) => Feed(b, t) case None => None
    decreases |s|
  {
    hide FeedOne;
    if s == [] {
      assert s + t == t;
    } else {
      assert (s + t)[1..] == s[1..] + t;
      match FeedOne(a, s[0])
      case Some(b) => FeedAppend(b, s[1..], t);
      case None =>
    }
  }

  lemma FeedAtom(out: Blob, d: Blob)
    requires 1 <= |d| <= 3
    ensures Feed(Acc([], out), EncodeAtom(d)) == Some(Acc([], out + d))
  {
    hide EncodeAtom, DecodeAtom;
    AtomRoundTrip(d);
    var a := EncodeAtom(d);
    assert [] + [a[0]] + [a[1]] + [a[2]] + [a[3]] == a;
    assert a[1..][1..] == a[2..] && a[2..][1..] == a[3..] && a[3..][1..] == [];
    assert Feed(Acc([a[0], a[1], a[2]], out), a[3..]) == Some(Acc([], out + d)) by {
      assert [a[0], a[1], a[2]] + [a[3]] == a;
    }
    assert [a[0], a[1]] + [a[2]] == [a[0], a[1], a[2]] && [a[0]] + [a[1]] == [a[0], a[1]] && [] + [a[0]] == [a[0]];
    assert Feed(Acc([a[0], a[1]], out), a[2..]) == Feed(Acc([a[0], a[1], a[2]], out), a[3..]);
    assert Feed(Acc([a[0]], out), a[1..]) == Feed(Acc([a[0], a[1]], out), a[2..]);
  }

  lemma {:induction false} FeedChars(out: Blob, data: Blob)
    ensures Feed(Acc([], out), Chars(data)) == Some(Acc([], out + data))
    decreases |data|
  {
    hide EncodeAtom, Feed;
    if data == [] {
      assert out + [] == out;
      FeedNothing(Acc([], out));
    } else {
      var n := if |data| < 3 then |data| else 3;
      FeedAtom(out, data[..n]);
      FeedAppend(Acc([], out), EncodeAtom(data[..n]), Chars(data[n..]));
      FeedChars(out + data[..n], data[n..]);
      assert out + data[..n] + data[n..] == out + data;
    }
  }

  lemma FeedNothing(a: Acc)
    requires |a.bits| < 4
    ensures Feed(a, []) == Some(a)
  {
  }

  /** The base64 characters a line starts with; the rest of the line is ignored. */
  function Run(line: Blob): (n: nat)
    ensures n <= |line| && forall i :: 0 <= i < n ==> IsBase64(line[i])
    ensures n < |line| ==> !IsBase64(line[n])
  {
    if line != [] && IsBase64(line[0]) then 1 + Run(line[1..]) else 0
  }

  function FeedLine(a: Acc, line: Blob): (r: Option<Acc>)
    requires |a.bits| < 4
    ensures r.Some? ==> |r.value.bits| < 4
  {
    Feed(a, line[..Run(line)])
  }

  /** The loop over one line, with the four-character buffer carried from line to line. */
  method ReadLine(bits: Blob, out: Blob, line: Blob) returns (ok: bool, newBits: Blob, newOut: Blob)
    requires |bits| < 4
    ensures |newBits| < 4
    ensures (if ok then Some(Acc(newBits, newOut)) else None) == FeedLine(Acc(bits, out), line)
  {
    hide DecodeAtom, Feed;
    newBits, newOut := bits, out;
    var i := 0;
    FeedNothing(Acc(bits, out));
    assert line[..0] == [];
    while i < |line| && IsBase64(line[i])
      invariant 0 <= i <= Run(line) && |newBits| < 4
      invariant Feed(Acc(bits, out), line[..i]) == Some(Acc(newBits, newOut))
    {
      FeedNext(Acc(bits, out), line[..i], line[i]);
      assert line[..i] + [line[i]] == line[..i + 1];
      ghost var prefix := line[..i + 1];
      newBits := newBits + [line[i]];
      i := i + 1;
      if |newBits| == 4 {
        var atom := DecodeAtom(newBits);
        newBits := [];
        if atom.None? {
          StaysInvalid(Acc(bits, out), prefix, line[i..Run(line)]);
          assert prefix + line[i..Run(line)] == line[..Run(line)];
          return false, [], newOut;
        }
        newOut := newOut + atom.value;
      }
    }
    return true, newBits, newOut;
  }

  lemma FeedNext(a: Acc, s: Blob, c: byte)
    requires |a.bits| < 4
    ensures Feed(a, s + [c]) == match Feed(a, s) case Some(b) => FeedOne(b, c) case None => None
  {
    FeedAppend(a, s, [c]);
    assert [c][1..] == [];
  }

  lemma StaysInvalid(a: Acc, s: Blob, t: Blob)
    requires |a.bits| < 4 && Feed(a, s).None?
    ensures Feed(a, s + t).None?
  {
    FeedAppend(a, s, t);
  }

  // ----- lines of the writer -----

  predicate AllBase64(chars: Blob) {
    forall i :: 0 <= i < |chars| ==> IsBase64(chars[i])
  }

  lemma {:induction false} CharsAreBase64(data: Blob)
    ensures AllBase64(Chars(data))
    ensures data != [] ==> Chars(data) != []
  {
    if data != [] {
      var n := if |data| < 3 then |data| else 3;
      CharsAreBase64(data[n..]);
      AtomIsBase64(data[..n]);
    }
  }

  lemma AtomIsBase64(d: Blob)
    requires 1 <= |d| <= 3
    ensures AllBase64(EncodeAtom(d))
  {
    hide EncodeChar, DecodeChar;
    PadIs();
  }

  lemma Base64Line(line: Blob)
    requires AllBase64(line)
    ensures PlainLine(line) && line[..Run(line)] == line && ':' as int !in line && '-' as int !in line
  {
    hide Run, DecodeChar;
    NotBase64();
    RunAll(line);
  }

  lemma {:induction false} RunAll(line: Blob)
    requires AllBase64(line)
    ensures Run(line) == |line|
  {
    if line != [] {
      RunAll(line[1..]);
    }
  }

  lemma NotBase64()
    ensures !IsBase64(NL) && !IsBase64(0) && !IsBase64(CR) && !IsBase64(':' as int) && !IsBase64('-' as int)
  {
  }

  // ----- lines of any lengths -----

  function Unlines(lines: seq<Blob>): Blob {
    if lines == [] then [] else lines[0] + [NL] + Unlines(lines[1..])
  }

  function Concat(lines: seq<Blob>): Blob {
    if lines == [] then [] else lines[0] + Concat(lines[1..])
  }

  predicate Base64Lines(lines: seq<Blob>) {
    forall i :: 0 <= i < |lines| ==> AllBase64(lines[i])
  }

  function FeedLines(a: Acc, lines: seq<Blob>): (r: Option<Acc>)
    requires |a.bits| < 4
    ensures r.Some? ==> |r.value.bits| < 4
    decreases |lines|
  {
    if lines == [] then Some(a)
    else match FeedLine(a, lines[0])
      case Some(b) => FeedLines(b, lines[1..])
      case None => None
  }

  /** Decoding does not depend on where the lines are broken. */
  lemma {:induction false} LineBreaksDoNotMatter(a: Acc, lines: seq<Blob>)
    requires |a.bits| < 4 && Base64Lines(lines)
    ensures FeedLines(a, lines) == Feed(a, Concat(lines))
    decreases |lines|
  {
    hide Feed, Run, IsBase64;
    if lines == [] {
      FeedNothing(a);
    } else {
      Base64Line(lines[0]);
      FeedAppend(a, lines[0], Concat(lines[1..]));
      match FeedLine(a, lines[0])
      case Some(b) => LineBreaksDoNotMatter(b, lines[1..]);
      case None =>
    }
  }

  /** The lines of the writer. */
  function Cut(chars: Blob, cpl: nat): seq<Blob>
    requires cpl > 0
  {
    if |chars| <= cpl then [chars] else [chars[..cpl]] + Cut(chars[cpl..], cpl)
  }

  lemma {:induction false} CutIs(chars: Blob, cpl: nat)
    requires cpl > 0 && AllBase64(chars)
    ensures Unlines(Cut(chars, cpl)) == Wrap(chars, cpl) && Concat(Cut(chars, cpl)) == chars
            && Base64Lines(Cut(chars, cpl))
    ensures forall i :: 0 <= i < |Cut(chars, cpl)| ==> |Cut(chars, cpl)[i]| <= cpl
  {
    hide IsBase64;
    if |chars| <= cpl {
      assert [chars][1..] == [];
    } else {
      CutIs(chars[cpl..], cpl);
      var rest := Cut(chars[cpl..], cpl);
      assert ([chars[..cpl]] + rest)[1..] == rest;
    }
  }
}
