/** The text of SCP control records: numbers, lines, and what the receiver scans out of them. */
module ScpWire {
  import opened Bytes
  import opened Text

  // ----- numbers -----

  function Digits(n: nat, base: nat): (r: Blob)
    requires 2 <= base <= 10
    decreases n
  {
    if n < base then [48 + n] else Digits(n / base, base) + [48 + n % base]
  }

  /** %04o: at least four characters. */
  function Pad4(b: Blob): Blob
    decreases 4 - |b|
  {
    if |b| < 4 then Pad4([48] + b) else b
  }

  predicate IsDigit(c: byte, base: nat) {
    48 <= c < 48 + base
  }

  predicate AllDigits(b: Blob, base: nat) {
    forall i :: 0 <= i < |b| ==> IsDigit(b[i], base)
  }

  function Value(b: Blob, base: nat): int {
    if b == [] then 0 else Value(b[..|b| - 1], base) * base + b[|b| - 1] - 48
  }

  lemma {:induction false} DigitsValue(n: nat, base: nat)
    requires 2 <= base <= 10
    ensures Digits(n, base) != [] && AllDigits(Digits(n, base), base) && Value(Digits(n, base), base) == n
    decreases n
  {
    if n < base {
      assert [48 + n][..0] == [];
    } else {
      DigitsValue(n / base, base);
      DivMod(n, base);
      var (d, c) := (Digits(n / base, base), 48 + n % base);
      hide Digits;
      assert Digits(n, base) == d + [c] by { LastDigit(n, base); }
      assert (d + [c])[..|d|] == d;
    }
  }

  lemma DivMod(n: nat, base: nat)
    requires base >= 1
    ensures n / base * base + n % base == n && 0 <= n % base < base
  {
  }

  lemma LastDigit(n: nat, base: nat)
    requires 2 <= base <= 10 && n >= base
    ensures Digits(n, base) == Digits(n / base, base) + [48 + n % base]
  {
  }

  lemma {:induction false} LeadingZero(b: Blob, base: nat)
    ensures Value([48] + b, base) == Value(b, base)
  {
    if b == [] {
      assert ([48] + b)[..0] == [];
    } else {
      LeadingZero(b[..|b| - 1], base);
      assert ([48] + b)[..|b|] == [48] + b[..|b| - 1];
    }
  }

  lemma {:induction false} Pad4Value(b: Blob, base: nat)
    requires 2 <= base <= 10 && AllDigits(b, base)
    ensures AllDigits(Pad4(b), base) && Value(Pad4(b), base) == Value(b, base) && |Pad4(b)| >= 4
    decreases 4 - |b|
  {
    if |b| < 4 {
      LeadingZero(b, base);
      Pad4Value([48] + b, base);
    }
  }

  // ----- scanning -----

  function DigitRun(b: Blob, base: nat): (n: nat)
    ensures n <= |b|
  {
    if b != [] && IsDigit(b[0], base) then 1 + DigitRun(b[1..], base) else 0
  }

  datatype Scanned = Scanned(value: int, rest: Blob)

  /** One unsigned conversion of sscanf. */
  function ScanNumber(b: Blob, base: nat): Option<Scanned> {
    var s := SkipSpace(b);
    var n := DigitRun(s, base);
    if n == 0 then None else Some(Scanned(Value(s[..n], base), s[n..]))
  }

  lemma {:induction false} RunIs(d: Blob, tail: Blob, base: nat)
    requires AllDigits(d, base) && (tail == [] || !IsDigit(tail[0], base))
    ensures DigitRun(d + tail, base) == |d|
  {
    if d == [] {
      assert d + tail == tail;
    } else {
      assert (d + tail)[1..] == d[1..] + tail;
      RunIs(d[1..], tail, base);
    }
  }

  lemma ScanDigits(d: Blob, tail: Blob, base: nat)
    requires 2 <= base <= 10 && d != [] && AllDigits(d, base) && (tail == [] || !IsDigit(tail[0], base))
    ensures ScanNumber(d + tail, base) == Some(Scanned(Value(d, base), tail))
    ensures ScanNumber([SP] + d + tail, base) == Some(Scanned(Value(d, base), tail))
  {
    RunIs(d, tail, base);
    assert (d + tail)[..|d|] == d && (d + tail)[|d|..] == tail;
    assert IsDigit(d[0], base) && (d + tail)[0] == d[0];
    assert SkipSpace(d + tail) == d + tail;
    assert ([SP] + d + tail)[1..] == d + tail;
  }

  // ----- control records -----

  const CHAR_C: byte := 67
  const CHAR_D: byte := 68
  const CHAR_E: byte := 69
  const CHAR_T: byte := 84

  function FileText(perms: nat, size: nat, name: Blob): Blob {
    Pad4(Digits(perms, 8)) + ([SP] + Digits(size, 10) + ([SP] + name))
  }

  function FileLine(perms: nat, size: nat, name: Blob): Blob {
    [CHAR_C] + FileText(perms, size, name) + [NL]
  }

  /** Directories are always announced with mode 0755 and size 0. */
  function DirText(name: Blob): Blob {
    Pad4(Digits(493, 8)) + ([SP] + Digits(0, 10) + ([SP] + name))
  }

  function DirLine(name: Blob): Blob {
    [CHAR_D] + DirText(name) + [NL]
  }

  function TimeText(mtime: nat, atime: nat): Blob {
    Digits(mtime, 10) + ([SP] + Digits(0, 10) + ([SP] + Digits(atime, 10) + ([SP] + Digits(0, 10))))
  }

  function TimeLine(mtime: nat, atime: nat): Blob {
    [CHAR_T] + TimeText(mtime, atime) + [NL]
  }

  const END_LINE: Blob := [CHAR_E, NL]

  datatype Entry = Entry(perms: int, size: int, name: Blob)

  function ParseEntry(b: Blob): Option<Entry> {
    match ScanNumber(b, 8)
    case None => None
    case Some(p) =>
      match ScanNumber(p.rest, 10)
      case None => None
      case Some(s) => Some(Entry(p.value, s.value, SkipSpace(s.rest)))
  }

  datatype Times = Times(mtime: int, atime: int)

  /** The second and fourth numbers are scanned but not kept. */
  function ParseTimes(b: Blob): Option<Times> {
    match ScanNumber(b, 10)
    case None => None
    case Some(m) =>
      match ScanNumber(m.rest, 10)
      case None => None
      case Some(x) =>
        match ScanNumber(x.rest, 10)
        case None => None
        case Some(a) => Some(Times(m.value, a.value))
  }

  lemma ParseFileText(perms: nat, size: nat, name: Blob)
    requires name != [] && !IsSpace(name[0])
    ensures ParseEntry(FileText(perms, size, name)) == Some(Entry(perms, size, name))
  {
    hide Digits, Pad4, Value, ScanNumber;
    DigitsValue(perms, 8);
    Pad4Value(Digits(perms, 8), 8);
    DigitsValue(size, 10);
    ScanDigits(Pad4(Digits(perms, 8)), [SP] + Digits(size, 10) + ([SP] + name), 8);
    ScanDigits(Digits(size, 10), [SP] + name, 10);
    assert ([SP] + name)[1..] == name;
    assert SkipSpace([SP] + name) == SkipSpace(name) == name;
  }

  lemma ParseDirText(name: Blob)
    requires name != [] && !IsSpace(name[0])
    ensures ParseEntry(DirText(name)) == Some(Entry(493, 0, name))
  {
    ParseFileText(493, 0, name);
  }

  lemma ParseTimeText(mtime: nat, atime: nat)
    ensures ParseTimes(TimeText(mtime, atime)) == Some(Times(mtime, atime))
  {
    hide Digits, Value, ScanNumber;
    DigitsValue(mtime, 10);
    DigitsValue(0, 10);
    DigitsValue(atime, 10);
    var rest := [SP] + Digits(0, 10);
    var middle := [SP] + Digits(atime, 10) + rest;
    ScanDigits(Digits(mtime, 10), [SP] + Digits(0, 10) + middle, 10);
    ScanDigits(Digits(0, 10), middle, 10);
    ScanDigits(Digits(atime, 10), rest, 10);
  }

  // ----- lines -----

  lemma TextHasNoNl(perms: nat, size: nat, name: Blob)
    requires NL !in name
    ensures NL !in FileText(perms, size, name)
  {
    hide Digits, Pad4, Value;
    DigitsValue(perms, 8);
    Pad4Value(Digits(perms, 8), 8);
    DigitsValue(size, 10);
  }

  lemma TimesHaveNoNl(mtime: nat, atime: nat)
    ensures NL !in TimeText(mtime, atime)
  {
    hide Digits, Value;
    DigitsValue(mtime, 10);
    DigitsValue(0, 10);
    DigitsValue(atime, 10);
  }
}
