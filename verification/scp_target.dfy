/** Whatever bytes arrive, the receiver stays at or below its target: where items go, and what they change. */
module ScpTarget {
  import opened Bytes
  import opened Duplex
  import opened ScpWire
  import opened Text
  import opened Scp

  const SLASH: byte := 47
  const BACKSLASH: byte := 92
  const COLON: byte := 58

  // ----- the last component of a name -----

  /** A name that has no separator in it. */
  predicate Simple(c: Blob) {
    SLASH !in c && BACKSLASH !in c
  }

  /** What may stand before the last component: nothing, or an end with a slash, a backslash or the first colon. */
  predicate Directory(a: Blob) {
    a != [] ==> var x := a[|a| - 1]; x == SLASH || x == BACKSLASH || (x == COLON && COLON !in a[..|a| - 1])
  }

  /** c is the last component of the name, which a slash, a backslash or the first colon ends the rest of. */
  ghost predicate LastPart(name: Blob, c: Blob) {
    exists a: Blob :: name == a + c && Directory(a) && Simple(c) && (COLON in c ==> COLON in a)
  }

  /** Cutting further left than a directory leaves a separator in what follows. */
  lemma CutTooEarly(a: Blob, c: Blob, b: Blob, d: Blob)
    requires a + c == b + d && |a| < |b| && Directory(b) && (COLON in c ==> COLON in a)
    ensures !Simple(c)
  {
    var n := |b| - |a|;
    assert b == (a + c)[..|b|] == a + c[..n];
    assert b[|b| - 1] == c[n - 1] && c[n - 1] in c;
    assert b[..|b| - 1] == a + c[..n - 1];
  }

  lemma OneLastPart(a: Blob, c: Blob, b: Blob, d: Blob)
    requires a + c == b + d && |a| <= |b|
    requires Directory(b) && Simple(c) && (COLON in c ==> COLON in a)
    ensures c == d
  {
    if |a| < |b| {
      CutTooEarly(a, c, b, d);
    } else {
      assert c == (a + c)[|a|..] && d == (b + d)[|a|..];
    }
  }

  lemma {:induction false} AfterFirstIs(name: Blob, sep: byte) returns (a: Blob)
    requires sep in name
    ensures name == a + [sep] + AfterFirst(name, sep) && sep !in AfterFirst(name, sep)
    decreases |name|
  {
    if name[0] == sep && sep !in name[1..] {
      a := [];
    } else {
      var b := AfterFirstIs(name[1..], sep);
      a := [name[0]] + b;
      assert name == [name[0]] + name[1..];
    }
  }

  lemma {:induction false} AfterColonIs(name: Blob) returns (a: Blob)
    ensures name == a + AfterColon(name)
    ensures if COLON in name then a != [] && a[|a| - 1] == COLON && COLON !in a[..|a| - 1] else a == []
  {
    if COLON !in name {
      a := [];
    } else if name[0] == COLON {
      a := [COLON];
    } else {
      var b := AfterColonIs(name[1..]);
      a := [name[0]] + b;
      assert a[..|a| - 1] == [name[0]] + b[..|b| - 1];
    }
  }

  /** One more cut keeps what is before the component a directory. */
  lemma CutMore(name: Blob, a: Blob, b: Blob, sep: byte) returns (d: Blob)
    requires name == a + b && Directory(a) && (COLON in b ==> COLON in a) && (sep == SLASH || sep == BACKSLASH)
    ensures var c := AfterLast(b, sep);
            && name == d + c && Directory(d) && (COLON in c ==> COLON in d)
            && sep !in c && (forall x :: x in c ==> x in b)
  {
    d := a;
    if sep in b {
      var e := AfterFirstIs(b, sep);
      d := a + (e + [sep]);
      var c := AfterLast(b, sep);
      assert b == e + [sep] + c;
      if COLON in c {
        assert COLON in b;
      }
    }
  }

  /** Stripping leaves the last component of any name. */
  lemma StrippedExactly(name: Blob, c: Blob)
    ensures LastPart(name, c) <==> c == StripSlashes(name)
  {
    var a := AfterColonIs(name);
    var b := AfterColon(name);
    assert COLON in b ==> COLON in a;
    var d := CutMore(name, a, b, SLASH);
    var e := CutMore(name, d, AfterLast(b, SLASH), BACKSLASH);
    var r := StripSlashes(name);
    assert r == AfterLast(AfterLast(b, SLASH), BACKSLASH);
    assert name == e + r && Directory(e) && Simple(r);
    hide StripSlashes, AfterLast, Directory, Simple;
    if x: Blob :| name == x + c && Directory(x) && Simple(c) && (COLON in c ==> COLON in x) {
      if |x| <= |e| {
        OneLastPart(x, c, e, r);
      } else {
        OneLastPart(e, r, x, c);
      }
    }
  }

  /**
   * In a directory an item goes one component down: by the last part of the name that was sent, which is
   * then not all dots, or of the name that was asked for; and by the latter whenever a name was asked for,
   * unless the check is turned off.
   */
  lemma DestinationExactly(cfg: Config, targ: Path, src: Option<Blob>, name: Blob)
    ensures Destination(cfg, targ, true, src, name).None?
            <==> exists c: Blob :: LastPart(name, c) && Only(c, '.' as int)
    ensures match Destination(cfg, targ, true, src, name)
            case None => true
            case Some(p) =>
              && |p| == |targ| + 1 && p == targ + [p[|targ|]]
              && var c := p[|targ|];
                 && Simple(c)
                 && if src.Some? && !cfg.unsafe then LastPart(src.value, c) else LastPart(name, c)
  {
    StrippedExactly(name, StripSlashes(name));
    if src.Some? {
      StrippedExactly(src.value, StripSlashes(src.value));
    }
    forall c: Blob ensures LastPart(name, c) ==> c == StripSlashes(name) {
      StrippedExactly(name, c);
    }
    hide StripSlashes, Only;
  }

  // ----- what a level changes -----

  predicate Changed(f: Fs, g: Fs, p: Path) {
    if p in f then p !in g || g[p] != f[p] else p in g
  }

  /** The target itself, or a path below it by components without separators. */
  predicate Below(targ: Path, p: Path) {
    targ <= p && forall i :: |targ| <= i < |p| ==> Simple(p[i])
  }

  /**
   * What may differ after a level: paths at or below the target only, nothing is lost, a directory stays
   * one, and new directories are made only when copying recursively.
   */
  ghost predicate Within(cfg: Config, targ: Path, f: Fs, g: Fs) {
    forall p :: Changed(f, g, p) ==>
      && Below(targ, p) && p in g && !IsFolder(f, p) && (IsFolder(g, p) ==> cfg.recursive)
  }

  lemma WithinTwice(cfg: Config, targ: Path, f: Fs, g: Fs, h: Fs)
    requires Within(cfg, targ, f, g) && Within(cfg, targ, g, h)
    ensures Within(cfg, targ, f, h)
  {
    hide Below;
    forall p | Changed(f, h, p)
      ensures Below(targ, p) && p in h && !IsFolder(f, p) && (IsFolder(h, p) ==> cfg.recursive)
    {
      assert Changed(f, g, p) || Changed(g, h, p);
    }
  }

  lemma WithinBelow(cfg: Config, targ: Path, dest: Path, f: Fs, g: Fs)
    requires Within(cfg, dest, f, g) && Below(targ, dest)
    ensures Within(cfg, targ, f, g)
  {
    forall p | Changed(f, g, p) ensures Below(targ, p) {
      assert Below(dest, p);
    }
  }

  lemma {:induction false} ItemsKeepFs(cfg: Config, rx: Rx, buf: Blob, times: Option<Times>)
    ensures var a := GetAction(cfg, rx, buf, times); a.rx.fs == rx.fs && (a.Item? && a.isDir ==> cfg.recursive)
    decreases |rx.input|
  {
    hide ParseTimes, ParseEntry, Receives, Find;
    if rx.input != [] && rx.input[0] != NL && Find(rx.input, NL).Some? {
      var k := Find(rx.input, NL).value;
      var r := Take(rx, k + 1);
      var text := buf + rx.input[1..k];
      if rx.input[0] == 1 {
        ItemsKeepFs(cfg, r, text, times);
      } else if rx.input[0] == CHAR_T && ParseTimes(text).Some? {
        ItemsKeepFs(cfg, AckRx(r), [], ParseTimes(text));
      }
    }
  }

  lemma FileWithin(cfg: Config, room: Option<nat>, wrerror: bool, rx: Rx, dest: Path, e: Entry, times: Option<Times>)
    requires !IsFolder(rx.fs, dest)
    ensures Within(cfg, dest, rx.fs, ReceiveFile(room, wrerror, rx, dest, e, times).rx.fs)
  {
    hide Receives, Sends;
  }

  /**
   * On every input, from every peer, a level of the receiver changes nothing but files and directories at
   * or below its target.
   */
  lemma {:induction false} SinkStaysBelow(cfg: Config, rx: Rx, targ: Path, src: Option<Blob>)
    ensures Within(cfg, targ, rx.fs, Sink(cfg, rx, targ, src).rx.fs)
    decreases |rx.input|, 1
  {
    hide SinkLoop, Within;
    SameIsWithin(cfg, targ, rx.fs);
    if !(cfg.targetShouldBeDirectory && !IsFolder(rx.fs, targ)) {
      LevelStaysBelow(cfg, AckRx(rx), targ, IsFolder(rx.fs, targ), src, false);
    }
  }

  lemma SameIsWithin(cfg: Config, targ: Path, f: Fs)
    ensures Within(cfg, targ, f, f)
  {
  }

  lemma {:induction false} LevelStaysBelow(cfg: Config, rx: Rx, targ: Path, targIsDir: bool, src: Option<Blob>,
      wrerror: bool)
    ensures Within(cfg, targ, rx.fs, SinkLoop(cfg, rx, targ, targIsDir, src, wrerror).rx.fs)
    decreases |rx.input|, 0
  {
    hide GetAction, Store, Within, Destination, WriteFails;
    SameIsWithin(cfg, targ, rx.fs);
    ItemsKeepFs(cfg, rx, [], None);
    var a := GetAction(cfg, rx, [], None);
    if a.Item? && Destination(cfg, targ, targIsDir, src, a.entry.name).Some? {
      var dest := Destination(cfg, targ, targIsDir, src, a.entry.name).value;
      DestinationBelow(cfg, targ, targIsDir, src, a.entry.name);
      ItemStaysBelow(cfg, a.rx, dest, a.isDir, a.entry, a.times, wrerror);
      var got := Store(cfg, a.rx, dest, a.isDir, a.entry, a.times, wrerror);
      WithinBelow(cfg, targ, dest, rx.fs, got.rx.fs);
      if got.Done? {
        var w := wrerror || WriteFails(cfg, a.rx.fs, dest, a.isDir, a.entry);
        LevelStaysBelow(cfg, got.rx, targ, targIsDir, src, w);
        WithinTwice(cfg, targ, rx.fs, got.rx.fs, SinkLoop(cfg, got.rx, targ, targIsDir, src, w).rx.fs);
      }
    }
  }

  lemma DestinationBelow(cfg: Config, targ: Path, targIsDir: bool, src: Option<Blob>, name: Blob)
    ensures var d := Destination(cfg, targ, targIsDir, src, name); d.Some? ==> Below(targ, d.value)
  {
    DestinationExactly(cfg, targ, src, name);
    hide LastPart, StripSlashes;
  }

  lemma {:induction false} ItemStaysBelow(cfg: Config, rx: Rx, dest: Path, isDir: bool, e: Entry,
      times: Option<Times>, wrerror: bool)
    requires isDir ==> cfg.recursive
    ensures Within(cfg, dest, rx.fs, Store(cfg, rx, dest, isDir, e, times, wrerror).rx.fs)
    decreases |rx.input|, 2
  {
    hide Sink, ReceiveFile, Within;
    SameIsWithin(cfg, dest, rx.fs);
    if !isDir {
      if !IsFolder(rx.fs, dest) {
        FileWithin(cfg, cfg.disk.room(dest), wrerror, rx, dest, e, times);
      }
    } else if dest !in rx.fs || rx.fs[dest].Folder? {
      var made := rx.(fs := rx.fs[dest := Folder]);
      assert Within(cfg, dest, rx.fs, made.fs) by { MadeWithin(cfg, dest, rx.fs); }
      SinkStaysBelow(cfg, made, dest, None);
      WithinTwice(cfg, dest, rx.fs, made.fs, Sink(cfg, made, dest, None).rx.fs);
    }
  }

  lemma MadeWithin(cfg: Config, dest: Path, f: Fs)
    requires cfg.recursive && (dest !in f || f[dest].Folder?)
    ensures Within(cfg, dest, f, f[dest := Folder])
  {
  }
}
