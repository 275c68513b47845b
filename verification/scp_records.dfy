/**
 * Control records as the receiver takes them from any peer: which ones it accepts, what an error record does
 * to the one behind it, and what is stored or refused.
 */
module ScpRecords {
  import opened Bytes
  import opened Duplex
  import opened ScpWire
  import opened Text
  import opened Scp
  import ScpPrefix
  import ScpTarget

  // ----- the first record -----

  /** The text of the record at the front, up to its newline. */
  function RecordText(input: Blob): Blob
    requires input != [] && input[0] != NL && NL in input
  {
    input[1..Find(input, NL).value]
  }

  lemma FindsNewline(input: Blob)
    ensures Find(input, NL).Some? <==> NL in input
    ensures input != [] && input[0] != NL && NL in input ==> Find(input, NL).value >= 1
  {
  }

  /**
   * A record that is neither an error nor a time decides: C, and D in a recursive copy, announce an item if the
   * text scans, E ends the directory, the end of the stream ends the level, and anything else ends the copy.
   */
  lemma DecisiveExactly(cfg: Config, rx: Rx, buf: Blob, times: Option<Times>)
    requires rx.input != [] ==> rx.input[0] != 1 && rx.input[0] != 'T' as int
    ensures var a := GetAction(cfg, rx, buf, times);
            var whole := rx.input != [] && rx.input[0] != NL && NL in rx.input;
            && (a.Closed? <==> rx.input == [])
            && (a.EndDir? <==> whole && rx.input[0] == 'E' as int)
            && (a.Item? <==> whole && (rx.input[0] == 'C' as int || (rx.input[0] == 'D' as int && cfg.recursive))
                             && ParseEntry(buf + RecordText(rx.input)).Some?)
            && (a.Item? ==> (a.isDir <==> rx.input[0] == 'D' as int) && a.times == times
                            && Some(a.entry) == ParseEntry(buf + RecordText(rx.input)))
  {
    FindsNewline(rx.input);
    hide Find, ParseEntry, ParseTimes, Receives;
  }

  // ----- what an error record does to the next -----

  lemma {:induction false} SkipSpaceAppend(a: Blob, b: Blob)
    ensures SkipSpace(a + b) == if SkipSpace(a) == [] then SkipSpace(b) else SkipSpace(a) + b
  {
    if a == [] {
      assert a + b == b;
    } else if IsSpace(a[0]) {
      SkipSpaceAppend(a[1..], b);
      assert (a + b)[1..] == a[1..] + b;
    } else {
      assert (a + b)[0] == a[0];
    }
  }

  lemma {:induction false} RunAppend(a: Blob, b: Blob, base: nat)
    ensures DigitRun(a + b, base) == if DigitRun(a, base) == |a| then |a| + DigitRun(b, base) else DigitRun(a, base)
  {
    if a == [] {
      assert a + b == b;
    } else if IsDigit(a[0], base) {
      RunAppend(a[1..], b, base);
      assert (a + b)[1..] == a[1..] + b;
    }
  }

  lemma {:induction false} RunDigits(a: Blob, base: nat)
    ensures DigitRun(a, base) == |a| <==> AllDigits(a, base)
  {
    if a != [] {
      RunDigits(a[1..], base);
    }
  }

  lemma {:induction false} ValueAppend(a: Blob, b: Blob)
    requires AllDigits(a, 8) && AllDigits(b, 8)
    ensures Value(a + b, 8) == Value(b, 8) <==> Only(a, 48)
    ensures Value(a + b, 8) >= Value(b, 8)
    decreases |a|
  {
    if a == [] {
      assert a + b == b;
    } else {
      ValueAppend(a[1..], b);
      assert a + b == [a[0]] + (a[1..] + b);
      FirstDigit(a[0], a[1..] + b);
      assert Only(a, 48) <==> a[0] == 48 && Only(a[1..], 48);
    }
  }

  /** A digit in front adds nothing iff it is zero. */
  lemma {:induction false} FirstDigit(c: byte, b: Blob)
    requires IsDigit(c, 8) && AllDigits(b, 8)
    ensures Value([c] + b, 8) >= Value(b, 8) && (Value([c] + b, 8) == Value(b, 8) <==> c == 48)
  {
    if b == [] {
      assert ([c] + b)[..0] == [] && Value([], 8) == 0;
    } else {
      FirstDigit(c, b[..|b| - 1]);
      assert ([c] + b)[..|b|] == [c] + b[..|b| - 1];
    }
  }

  /** The record's text behind the digits of its mode. */
  function Behind(size: nat, name: Blob): Blob {
    [SP] + Digits(size, 10) + ([SP] + name)
  }

  lemma BehindIs(size: nat, name: Blob)
    requires name != [] && !IsSpace(name[0])
    ensures var u := Behind(size, name);
            && u[0] == SP && ScanNumber(u, 10) == Some(Scanned(size, [SP] + name))
            && SkipSpace([SP] + name) == name && SkipSpace(u) == u[1..] && |u| > |name| + 1
  {
    hide Digits, Value;
    DigitsValue(size, 10);
    ScanDigits(Digits(size, 10), [SP] + name, 10);
    assert ([SP] + name)[1..] == name;
    var u := Behind(size, name);
    assert u[1..] == Digits(size, 10) + ([SP] + name);
    assert IsDigit(Digits(size, 10)[0], 10);
  }

  /** Whatever digits are scanned in front of the rest, the name that comes out is longer. */
  lemma NameTooLong(a: Blob, u: Blob, name: Blob)
    requires u != [] && u[0] == SP && |u| > |name| + 1 && SkipSpace(u) == u[1..] && SkipSpace(a) != []
    ensures match ScanNumber(a + u, 10)
            case None => true
            case Some(s) => |SkipSpace(s.rest)| > |name|
  {
    hide SkipSpace, DigitRun, Value, IsDigit;
    SkipSpaceAppend(a, u);
    var x := SkipSpace(a);
    var n := RunBeforeSpace(x, u);
    SkipSpaceAppend(x[n..], u);
  }

  lemma RunBeforeSpace(x: Blob, u: Blob) returns (n: nat)
    requires u != [] && u[0] == SP
    ensures n == DigitRun(x + u, 10) <= |x| && (x + u)[n..] == x[n..] + u
  {
    assert !IsDigit(u[0], 10) && DigitRun(u, 10) == 0;
    hide DigitRun, IsDigit;
    RunAppend(x, u, 10);
    n := DigitRun(x + u, 10);
  }

  /** A message of nothing but digits prolongs the mode. */
  lemma DigitsFirst(m: Blob, p: Blob, u: Blob, size: nat, name: Blob)
    requires m != [] && AllDigits(m, 8) && AllDigits(p, 8) && u != [] && u[0] == SP
    requires ScanNumber(u, 10) == Some(Scanned(size, [SP] + name)) && SkipSpace([SP] + name) == name
    ensures ParseEntry(m + (p + u)) == Some(Entry(Value(m + p, 8), size, name))
  {
    var s := m + (p + u);
    assert !IsSpace(s[0]) && SkipSpace(s) == s;
    assert s == (m + p) + u && !IsDigit(u[0], 8) && DigitRun(u, 8) == 0;
    RunDigits(m + p, 8);
    RunAppend(m + p, u, 8);
    assert s[..|m| + |p|] == m + p && s[|m| + |p|..] == u;
    hide SkipSpace, DigitRun, Value, IsDigit;
  }

  /** Any other message that begins with digits makes a name that is too long. */
  lemma WordsFirst(m: Blob, p: Blob, u: Blob, name: Blob)
    requires m != [] && SkipSpace(m) == m && !AllDigits(m, 8) && p != [] && !IsSpace(p[0]) && u != [] && u[0] == SP
    requires SkipSpace(u) == u[1..] && |u| > |name| + 1
    ensures match ParseEntry(m + (p + u)) case None => true case Some(e) => |e.name| > |name|
  {
    NoSpaceFirst(p);
    hide SkipSpace, DigitRun, Value, IsDigit, AllDigits, IsSpace, ParseEntry;
    SkipSpaceAppend(m, p + u);
    RunStops(m, p + u);
    var r := DigitRun(m, 8);
    CutBehind(m, p, u, r);
    SkipSpaceAppend(m[r..], p);
    NameTooLong(m[r..] + p, u, name);
    WordsThen(m + (p + u), name);
  }

  lemma RunStops(m: Blob, x: Blob)
    requires !AllDigits(m, 8)
    ensures DigitRun(m + x, 8) == DigitRun(m, 8) < |m|
  {
    hide DigitRun, AllDigits;
    RunAppend(m, x, 8);
    RunDigits(m, 8);
  }

  lemma CutBehind(m: Blob, p: Blob, u: Blob, r: nat)
    requires r <= |m|
    ensures (m + (p + u))[r..] == (m[r..] + p) + u
  {
  }

  lemma NoSpaceFirst(p: Blob)
    requires p != [] && !IsSpace(p[0])
    ensures SkipSpace(p) == p
  {
  }

  /** An entry's name is what is left after its two numbers. */
  lemma WordsThen(s: Blob, name: Blob)
    requires SkipSpace(s) == s
    requires match ScanNumber(s[DigitRun(s, 8)..], 10) case None => true case Some(x) => |SkipSpace(x.rest)| > |name|
    ensures match ParseEntry(s) case None => true case Some(e) => |e.name| > |name|
  {
    hide SkipSpace, DigitRun, Value;
  }

  /** A message that begins with something else than space, in front of the mode's digits p and the rest u. */
  lemma MessageFirst(m: Blob, p: Blob, u: Blob, perms: nat, size: nat, name: Blob)
    requires m != [] && SkipSpace(m) == m && p != [] && AllDigits(p, 8) && Value(p, 8) == perms && u != [] && u[0] == SP
    requires ScanNumber(u, 10) == Some(Scanned(size, [SP] + name)) && SkipSpace([SP] + name) == name
    requires SkipSpace(u) == u[1..] && |u| > |name| + 1
    ensures ParseEntry(m + (p + u)) == Some(Entry(perms, size, name)) <==> Only(m, 48)
  {
    assert Only(m, 48) ==> AllDigits(m, 8);
    if AllDigits(m, 8) {
      ValueAppend(m, p);
      DigitsFirst(m, p, u, size, name);
    } else {
      assert IsDigit(p[0], 8) && !IsSpace(p[0]);
      WordsFirst(m, p, u, name);
    }
    hide ParseEntry, Value, Only, AllDigits, SkipSpace, ScanNumber;
  }

  /** Only what follows leading space matters to a scan. */
  lemma ScanSkips(a: Blob, b: Blob)
    requires SkipSpace(a) == SkipSpace(b)
    ensures ParseEntry(a) == ParseEntry(b)
  {
    hide SkipSpace, DigitRun, Value;
  }

  /**
   * The text of an error record stays in the buffer and is read in front of the next record's: a file record
   * behind it is read as it was sent exactly when the message is blank but for zeros at its end.
   */
  lemma SpoiledExactly(msg: Blob, perms: nat, size: nat, name: Blob)
    requires name != [] && !IsSpace(name[0])
    ensures ParseEntry(msg + FileText(perms, size, name)) == Some(Entry(perms, size, name))
            <==> Only(SkipSpace(msg), 48)
  {
    hide Digits, Pad4, Behind, ParseEntry, SkipSpace, ScanNumber, Only;
    var p := Pad4(Digits(perms, 8));
    var u := Behind(size, name);
    var m := SkipSpace(msg);
    DigitsValue(perms, 8);
    Pad4Value(Digits(perms, 8), 8);
    BehindIs(size, name);
    TextParts(perms, size, name);
    NoSpaceFirst(p);
    NoSpaceFirst(p + u);
    SkipSpaceAppend(msg, p + u);
    SkipTwice(msg);
    if m == [] {
      ScanSkips(msg + (p + u), p + u);
      ParseFileText(perms, size, name);
      NothingOnly(m);
    } else {
      SkipSpaceAppend(m, p + u);
      ScanSkips(msg + (p + u), m + (p + u));
      MessageFirst(m, p, u, perms, size, name);
    }
  }

  lemma NothingOnly(b: Blob)
    requires b == []
    ensures Only(b, 48)
  {
  }

  lemma TextParts(perms: nat, size: nat, name: Blob)
    ensures FileText(perms, size, name) == Pad4(Digits(perms, 8)) + Behind(size, name)
  {
    hide Digits, Pad4;
  }

  lemma {:induction false} SkipTwice(b: Blob)
    ensures SkipSpace(SkipSpace(b)) == SkipSpace(b)
  {
    if b != [] && IsSpace(b[0]) {
      SkipTwice(b[1..]);
    }
  }

  /** An error record is passed over, but its text stays in the buffer. */
  lemma ErrorRecordStays(cfg: Config, rx: Rx, msg: Blob, line: Blob)
    requires rx.input == [1] + msg + [NL] + line && NL !in msg
    ensures |msg| + 2 <= |rx.input| && rx.input[|msg| + 2..] == line
    ensures GetAction(cfg, rx, [], None) == GetAction(cfg, Take(rx, |msg| + 2), msg, None)
  {
    FindAt([1] + msg, NL, line);
    assert rx.input == ([1] + msg) + [NL] + line && rx.input[1..1 + |msg|] == msg && rx.input[|msg| + 2..] == line;
    assert [] + msg == msg;
    hide Find, ParseEntry, ParseTimes, Receives;
  }

  lemma RecordTextIs(text: Blob, rest: Blob)
    requires NL !in text
    ensures var line := [CHAR_C] + text + [NL] + rest; NL in line && RecordText(line) == text
  {
    FindAt([CHAR_C] + text, NL, rest);
    var line := [CHAR_C] + text + [NL] + rest;
    assert line[1..1 + |text|] == text && line[1 + |text|] == NL;
    hide Find;
  }

  /** So of the two records the receiver takes the second as sent, or not, by the message of the first. */
  lemma ErrorRecordSpoilsNext(cfg: Config, rx: Rx, msg: Blob, perms: nat, size: nat, name: Blob, rest: Blob)
    requires rx.input == [1] + msg + [NL] + (FileLine(perms, size, name) + rest)
    requires NL !in msg && NL !in name && name != [] && !IsSpace(name[0])
    ensures var a := GetAction(cfg, rx, [], None);
            (a.Item? && a.entry == Entry(perms, size, name)) <==> Only(SkipSpace(msg), 48)
    ensures msg != [] && !IsSpace(msg[0]) && !IsDigit(msg[0], 8) ==> GetAction(cfg, rx, [], None).Fatal?
  {
    hide GetAction, Find, FileText, ParseEntry, SkipSpace, Receives, RecordText;
    var text := FileText(perms, size, name);
    TextHasNoNl(perms, size, name);
    ErrorRecordStays(cfg, rx, msg, FileLine(perms, size, name) + rest);
    RecordTextIs(text, rest);
    var next := Take(rx, |msg| + 2);
    DecisiveExactly(cfg, next, msg, None);
    SpoiledExactly(msg, perms, size, name);
    if msg != [] && !IsSpace(msg[0]) && !IsDigit(msg[0], 8) {
      NoNumber(msg, text);
      NotDecided(cfg, next, msg);
    }
  }

  lemma NoNumber(msg: Blob, text: Blob)
    requires msg != [] && !IsSpace(msg[0]) && !IsDigit(msg[0], 8)
    ensures ParseEntry(msg + text).None?
  {
  }

  lemma NotDecided(cfg: Config, rx: Rx, buf: Blob)
    requires !GetAction(cfg, rx, buf, None).Item? && !GetAction(cfg, rx, buf, None).Closed?
             && !GetAction(cfg, rx, buf, None).EndDir?
    ensures GetAction(cfg, rx, buf, None).Fatal?
  {
  }

  // ----- responses -----

  /** The response to a file's data that arrives is a zero byte, or an error of type 1 with its text, cut at 2048. */
  lemma ResponseExactly(rx: Rx)
    ensures var r := ReadResponse(rx);
            && (rx.input == [] ==> r.None?)
            && (rx.input != [] && rx.input[0] == 0 ==> r.Some? && r.value.input == rx.input[1..])
            && (rx.input != [] && rx.input[0] > 1 ==> r.None?)
            && (rx.input != [] && rx.input[0] == 1 ==>
                  if NL in rx.input[1..] && Find(rx.input[1..], NL).value < 2048
                  then r.Some? && r.value.input == rx.input[Find(rx.input[1..], NL).value + 2..]
                  else (r.Some? <==> |rx.input| > 2048) && (r.Some? ==> r.value.input == rx.input[2049..]))
  {
    hide Receives, Find;
    if rx.input != [] {
      FindsNewline(rx.input[1..]);
    }
  }

  // ----- what is stored -----

  /** A level that must be a directory and is not ends the copy before anything is said or done. */
  lemma NeedsDirectory(cfg: Config, rx: Rx, targ: Path, src: Option<Blob>)
    ensures var r := Sink(cfg, rx, targ, src);
            r == Bumped(rx) <==> cfg.targetShouldBeDirectory && !IsFolder(rx.fs, targ)
  {
    hide GetAction, Destination, Store;
    ScpPrefix.LoopGrows(cfg, AckRx(rx), targ, IsFolder(rx.fs, targ), src, false);
  }

  /** What stands in the way of an item: something of the other kind, or the disk. */
  predicate InTheWay(cfg: Config, fs: Fs, dest: Path, isDir: bool) {
    if isDir then (dest in fs && fs[dest].Regular?) || (dest !in fs && cfg.disk.noDir(dest))
    else (dest in fs && fs[dest].Folder?) || cfg.disk.noFile(dest)
  }

  /** What stands at the place of an item that was not refused. */
  predicate Placed(fs: Fs, dest: Path, isDir: bool, e: Entry) {
    dest in fs && (if isDir then fs[dest].Folder? else fs[dest].Regular? && fs[dest].perms == e.perms)
  }

  /**
   * An item is refused exactly when something is in the way. A refusal is reported to the peer and changes
   * nothing else; otherwise there is a directory, or a file of the announced mode, at its place.
   */
  lemma RefusedExactly(cfg: Config, rx: Rx, dest: Path, isDir: bool, e: Entry, times: Option<Times>, wrerror: bool)
    ensures var r := Store(cfg, rx, dest, isDir, e, times, wrerror);
            if InTheWay(cfg, rx.fs, dest, isDir) then r == Done(rx.(trace := rx.trace + Sends([1, NL])))
            else Placed(r.rx.fs, dest, isDir, e)
  {
    hide Receives, Sends, Sink, ReceiveFile;
    if isDir && !InTheWay(cfg, rx.fs, dest, true) {
      ScpTarget.SinkStaysBelow(cfg, rx.(fs := rx.fs[dest := Folder]), dest, None);
      FolderStays(cfg, dest, rx.fs[dest := Folder], Sink(cfg, rx.(fs := rx.fs[dest := Folder]), dest, None).rx.fs);
    } else {
      FilePlaced(cfg.disk.room(dest), wrerror, rx, dest, e, times);
    }
  }

  lemma FilePlaced(room: Option<nat>, wrerror: bool, rx: Rx, dest: Path, e: Entry, times: Option<Times>)
    ensures Placed(ReceiveFile(room, wrerror, rx, dest, e, times).rx.fs, dest, false, e)
  {
    hide Receives, Sends;
  }

  lemma FolderStays(cfg: Config, dest: Path, f: Fs, g: Fs)
    requires ScpTarget.Within(cfg, dest, f, g) && IsFolder(f, dest)
    ensures IsFolder(g, dest)
  {
    assert !ScpTarget.Changed(f, g, dest);
  }

  /** The mode that is announced: the twelve permission bits, and 0644 where the mode is not known. */
  lemma ModeExactly(perms: int)
    ensures Mode(perms) < 8 * 8 * 8 * 8
    ensures 0 <= perms < 8 * 8 * 8 * 8 ==> Mode(perms) == perms
    ensures perms >= 0 ==> Mode(perms + 8 * 8 * 8 * 8) == Mode(perms)
    ensures perms < 0 ==> Digits(Mode(perms), 8) == [48 + 6, 48 + 4, 48 + 4]
  {
    assert Digits(420 / 8, 8) == [48 + 6, 48 + 4] && 420 % 8 == 4;
  }
}
