/**
 * Sender against receiver: for every finite tree with clean names, the two halves form one complete
 * conversation, and the receiver's file system ends up holding exactly that tree.
 */
module ScpTheorem {
  import opened Bytes
  import opened Duplex
  import opened ScpWire
  import opened Text
  import opened Scp

  // ----- clean names -----

  predicate Clean(name: Blob) {
    && name != [] && !IsSpace(name[0]) && NL !in name && !Only(name, '.' as int)
    && '/' as int !in name && '\\' as int !in name && ':' as int !in name
  }

  lemma CleanIsStripped(name: Blob)
    requires Clean(name)
    ensures StripSlashes(name) == name
  {
  }

  predicate CleanTree(t: Tree) {
    Clean(t.name) && (t.Dir? ==> CleanTrees(t.kids))
  }

  predicate CleanTrees(ts: seq<Tree>) {
    ts == [] || (CleanTree(ts[0]) && CleanTrees(ts[1..]))
  }

  /** The name asked for does not rename what arrives. */
  predicate Accepts(cfg: Config, src: Option<Blob>, ts: seq<Tree>) {
    src.None? || cfg.unsafe || forall i :: 0 <= i < |ts| ==> ts[i].name == StripSlashes(src.value)
  }

  // ----- the bytes the sender puts, and the operations of the receiver -----

  function Encode(t: Tree, preserve: bool): Blob {
    match t
    case File(name, perms, mtime, atime, data) =>
      (if preserve then TimeLine(mtime, atime) else []) + (FileLine(Mode(perms), |data|, name) + data + [0])
    case Dir(name, kids) => DirLine(name) + EncodeAll(kids, preserve) + END_LINE
  }

  function EncodeAll(ts: seq<Tree>, preserve: bool): Blob {
    if ts == [] then [] else Encode(ts[0], preserve) + EncodeAll(ts[1..], preserve)
  }

  function SinkOps(t: Tree, preserve: bool): seq<Op> {
    match t
    case File(name, perms, mtime, atime, data) =>
      (if preserve then Receives(TimeLine(mtime, atime)) + ACK else [])
      + (Receives(FileLine(Mode(perms), |data|, name)) + ACK + Receives(data) + ACK + Receives([0]))
    case Dir(name, kids) =>
      Receives(DirLine(name)) + ACK + SinksOps(kids, preserve) + Receives(END_LINE) + ACK
  }

  function SinksOps(ts: seq<Tree>, preserve: bool): seq<Op> {
    if ts == [] then [] else SinkOps(ts[0], preserve) + SinksOps(ts[1..], preserve)
  }

  // ----- the tree laid over a file system -----

  function StoredTimes(t: Tree, preserve: bool): Option<Times>
    requires t.File?
  {
    if preserve then Some(Times(t.mtime, t.atime)) else None
  }

  function Overlay(fs: Fs, targ: Path, t: Tree, preserve: bool): Fs
    decreases t, 1
  {
    match t
    case File(name, perms, _, _, data) => fs[targ + [name] := Regular(data, Mode(perms), StoredTimes(t, preserve))]
    case Dir(name, kids) => OverlayAll(fs[targ + [name] := Folder], targ + [name], kids, preserve)
  }

  function OverlayAll(fs: Fs, targ: Path, ts: seq<Tree>, preserve: bool): Fs
    decreases ts, 0
  {
    if ts == [] then fs else OverlayAll(Overlay(fs, targ, ts[0], preserve), targ, ts[1..], preserve)
  }

  /** No file stands where a directory must go, nor a directory where a file must, and the disk takes them. */
  predicate Fits(disk: Disk, fs: Fs, targ: Path, t: Tree, preserve: bool)
    decreases t, 1
  {
    match t
    case File(name, _, _, _, data) =>
      var dest := targ + [name];
      !IsFolder(fs, dest) && !disk.noFile(dest) && Written(disk.room(dest), |data|) == |data|
    case Dir(name, kids) =>
      && (if targ + [name] in fs then fs[targ + [name]].Folder? else !disk.noDir(targ + [name]))
      && FitsAll(disk, fs[targ + [name] := Folder], targ + [name], kids, preserve)
  }

  predicate FitsAll(disk: Disk, fs: Fs, targ: Path, ts: seq<Tree>, preserve: bool)
    decreases ts, 0
  {
    ts == [] ||
    (&& Fits(disk, fs, targ, ts[0], preserve)
     && FitsAll(disk, Overlay(fs, targ, ts[0], preserve), targ, ts[1..], preserve))
  }

  // ----- the receiver on the sender's bytes -----

  lemma TakeLine(rx: Rx, line: Blob, tail: Blob)
    requires rx.input == line + tail
    ensures Take(rx, |line|) == Rx(rx.fs, tail, rx.trace + Receives(line))
  {
    assert (line + tail)[..|line|] == line && (line + tail)[|line|..] == tail;
  }

  lemma ActionLine(rx: Rx, c: byte, text: Blob, tail: Blob)
    requires c != NL && NL !in text && rx.input == [c] + text + [NL] + tail
    ensures Find(rx.input, NL) == Some(1 + |text|) && rx.input[0] == c && rx.input[1..1 + |text|] == text
    ensures Take(rx, |text| + 2) == Rx(rx.fs, tail, rx.trace + Receives([c] + text + [NL]))
  {
    FindAt([c] + text, NL, tail);
    TakeLine(rx, [c] + text + [NL], tail);
  }

  lemma ActionOnFile(cfg: Config, rx: Rx, times: Option<Times>, perms: nat, size: nat, name: Blob, tail: Blob)
    requires Clean(name) && rx.input == FileLine(perms, size, name) + tail
    ensures GetAction(cfg, rx, [], times)
            == Item(false, Entry(perms, size, name), times,
                    Rx(rx.fs, tail, rx.trace + Receives(FileLine(perms, size, name))))
  {
    hide FileText, Receives, ParseEntry, Find, Take;
    TextHasNoNl(perms, size, name);
    ActionLine(rx, CHAR_C, FileText(perms, size, name), tail);
    ParseFileText(perms, size, name);
    assert [] + FileText(perms, size, name) == FileText(perms, size, name);
  }

  lemma ActionOnDir(cfg: Config, rx: Rx, name: Blob, tail: Blob)
    requires cfg.recursive && Clean(name) && rx.input == DirLine(name) + tail
    ensures GetAction(cfg, rx, [], None)
            == Item(true, Entry(493, 0, name), None, Rx(rx.fs, tail, rx.trace + Receives(DirLine(name))))
  {
    hide FileText, DirText, Receives, ParseEntry, Find, Take;
    DirTextIs(name);
    TextHasNoNl(493, 0, name);
    ActionLine(rx, CHAR_D, DirText(name), tail);
    ParseDirText(name);
    assert [] + DirText(name) == DirText(name);
  }

  lemma DirTextIs(name: Blob)
    ensures DirText(name) == FileText(493, 0, name)
  {
  }

  lemma ActionOnEnd(cfg: Config, rx: Rx, tail: Blob)
    requires rx.input == END_LINE + tail
    ensures GetAction(cfg, rx, [], None) == EndDir(Rx(rx.fs, tail, rx.trace + Receives(END_LINE) + ACK))
  {
    hide Receives, Find, Take;
    assert rx.input == [CHAR_E] + [] + [NL] + tail && [CHAR_E] + [] + [NL] == END_LINE;
    ActionLine(rx, CHAR_E, [], tail);
  }

  lemma ActionOnTimes(cfg: Config, rx: Rx, mtime: nat, atime: nat, tail: Blob)
    requires rx.input == TimeLine(mtime, atime) + tail
    ensures GetAction(cfg, rx, [], None)
            == GetAction(cfg, Rx(rx.fs, tail, rx.trace + Receives(TimeLine(mtime, atime)) + ACK), [],
                         Some(Times(mtime, atime)))
  {
    hide TimeText, Receives, ParseTimes, Find, Take;
    TimesHaveNoNl(mtime, atime);
    ActionLine(rx, CHAR_T, TimeText(mtime, atime), tail);
    ParseTimeText(mtime, atime);
    assert [] + TimeText(mtime, atime) == TimeText(mtime, atime);
  }

  lemma ReceiveData(room: Option<nat>, rx: Rx, dest: Path, e: Entry, times: Option<Times>, data: Blob, tail: Blob)
    requires e.size == |data| && rx.input == data + ([0] + tail)
    ensures var n := Written(room, |data|);
            if n == |data| then
              ReceiveFile(room, false, rx, dest, e, times)
              == Done(Rx(rx.fs[dest := Regular(data, e.perms, times)], tail,
                         rx.trace + (ACK + Receives(data) + ACK + Receives([0]))))
            else
              ReceiveFile(room, false, rx, dest, e, times)
              == Done(Rx(rx.fs[dest := Regular(data[..n], e.perms, times)], [0] + tail,
                         rx.trace + (ACK + Receives(data) + Sends([1, NL]))))
  {
    hide Receives;
    var n := Written(room, |data|);
    var o := AckRx(rx.(fs := rx.fs[dest := Regular([], e.perms, None)]));
    assert o.input == data + ([0] + tail);
    TakeLine(o, data, [0] + tail);
    var d := Take(o, e.size);
    assert o.input[..n] == data[..n] && data[..|data|] == data;
    if n == |data| {
      var w := AckRx(d.(fs := d.fs[dest := Regular(data, e.perms, times)]));
      TakeLine(w, [0], tail);
      assert rx.trace + ACK + Receives(data) + ACK + Receives([0])
          == rx.trace + (ACK + Receives(data) + ACK + Receives([0]));
    } else {
      assert rx.trace + ACK + Receives(data) + Sends([1, NL]) == rx.trace + (ACK + Receives(data) + Sends([1, NL]));
    }
  }

  /** The receiver consumes exactly one tree's bytes, stores that tree, and goes on with the rest. */
  lemma {:induction false} SinkOnTree(cfg: Config, rx: Rx, targ: Path, src: Option<Blob>, t: Tree, preserve: bool,
    rest: Blob)
    requires cfg.recursive && CleanTree(t) && Accepts(cfg, src, [t]) && Fits(cfg.disk, rx.fs, targ, t, preserve)
    requires rx.input == Encode(t, preserve) + rest
    ensures SinkLoop(cfg, rx, targ, true, src, false)
            == SinkLoop(cfg, Rx(Overlay(rx.fs, targ, t, preserve), rest, rx.trace + SinkOps(t, preserve)), targ,
                        true, src, false)
    decreases t, 1
  {
    CleanIsStripped(t.name);
    assert [t][0].name == t.name;
    match t
    case File(name, perms, mtime, atime, data) => SinkOnFile(cfg, rx, targ, src, t, preserve, rest);
    case Dir(name, kids) =>
      var tail := EncodeAll(kids, preserve) + (END_LINE + rest);
      DirBytes(name, kids, preserve, rest);
      var dest := targ + [name];
      var fs1 := rx.fs[dest := Folder];
      assert FitsAll(cfg.disk, fs1, dest, kids, preserve) && CleanTrees(kids)
             && Overlay(rx.fs, targ, t, preserve) == OverlayAll(fs1, dest, kids, preserve);
      hide SinkLoop, Accepts, Receives, DirLine, StripSlashes, OverlayAll, FitsAll, Encode, SinkOps, Overlay, Fits;
      var inner := Rx(fs1, tail, rx.trace + Receives(DirLine(name)) + ACK);
      EnterDir(cfg, rx, targ, src, name, tail);
      NoNameAccepts(cfg, kids);
      SinkOnTrees(cfg, inner, dest, None, kids, preserve, END_LINE + rest);
      var after := Rx(OverlayAll(fs1, dest, kids, preserve), END_LINE + rest, inner.trace + SinksOps(kids, preserve));
      LeaveDir(cfg, after, dest, rest);
      DirOps(name, kids, preserve, rx.trace);
  }

  lemma DirBytes(name: Blob, kids: seq<Tree>, preserve: bool, rest: Blob)
    ensures Encode(Dir(name, kids), preserve) + rest == DirLine(name) + (EncodeAll(kids, preserve) + (END_LINE + rest))
  {
    hide EncodeAll, DirLine;
  }

  lemma DirOps(name: Blob, kids: seq<Tree>, preserve: bool, trace: seq<Op>)
    ensures trace + Receives(DirLine(name)) + ACK + SinksOps(kids, preserve) + Receives(END_LINE) + ACK
            == trace + SinkOps(Dir(name, kids), preserve)
  {
    hide SinksOps, DirLine, Receives;
  }

  lemma NoNameAccepts(cfg: Config, ts: seq<Tree>)
    ensures Accepts(cfg, None, ts)
  {
  }

  lemma EnterDir(cfg: Config, rx: Rx, targ: Path, src: Option<Blob>, name: Blob, tail: Blob)
    requires cfg.recursive && Clean(name) && rx.input == DirLine(name) + tail && StripSlashes(name) == name
    requires src.None? || cfg.unsafe || name == StripSlashes(src.value)
    requires if targ + [name] in rx.fs then rx.fs[targ + [name]].Folder? else !cfg.disk.noDir(targ + [name])
    ensures var dest := targ + [name];
            var inner := Rx(rx.fs[dest := Folder], tail, rx.trace + Receives(DirLine(name)) + ACK);
            var sub := SinkLoop(cfg, inner, dest, true, None, false);
            SinkLoop(cfg, rx, targ, true, src, false)
            == if sub.Bumped? then sub else SinkLoop(cfg, sub.rx, targ, true, src, false)
  {
    hide GetAction, Receives, DirLine, StripSlashes;
    ActionOnDir(cfg, rx, name, tail);
    var dest := targ + [name];
    assert Destination(cfg, targ, true, src, name) == Some(dest);
    var r := Rx(rx.fs[dest := Folder], tail, rx.trace + Receives(DirLine(name)));
    assert Sink(cfg, r, dest, None) == SinkLoop(cfg, AckRx(r), dest, true, None, false);
  }

  lemma LeaveDir(cfg: Config, rx: Rx, targ: Path, tail: Blob)
    requires rx.input == END_LINE + tail
    ensures SinkLoop(cfg, rx, targ, true, None, false) == Done(Rx(rx.fs, tail, rx.trace + Receives(END_LINE) + ACK))
  {
    hide GetAction, Receives;
    ActionOnEnd(cfg, rx, tail);
  }

  /** A file as its records announce it, with its data and whatever comes behind it. */
  function FileThen(t: Tree, preserve: bool, tail: Blob): Blob
    requires t.File?
  {
    var body := FileLine(Mode(t.perms), |t.data|, t.name) + (t.data + tail);
    if preserve then TimeLine(t.mtime, t.atime) + body else body
  }

  /** The operations of the receiver on what announces a file. */
  function Announced(t: Tree, preserve: bool): seq<Op>
    requires t.File?
  {
    (if preserve then Receives(TimeLine(t.mtime, t.atime)) + ACK else [])
    + Receives(FileLine(Mode(t.perms), |t.data|, t.name))
  }

  /** On a file's bytes the receiver goes on from wherever storing the file leaves it. */
  lemma FileItem(cfg: Config, rx: Rx, targ: Path, src: Option<Blob>, t: Tree, preserve: bool, tail: Blob, wrerror: bool)
    requires t.File? && Clean(t.name) && StripSlashes(t.name) == t.name
    requires !IsFolder(rx.fs, targ + [t.name]) && !cfg.disk.noFile(targ + [t.name])
    requires src.None? || cfg.unsafe || t.name == StripSlashes(src.value)
    requires rx.input == FileThen(t, preserve, tail)
    ensures var r := Rx(rx.fs, t.data + tail, rx.trace + Announced(t, preserve));
            var e, dest := Entry(Mode(t.perms), |t.data|, t.name), targ + [t.name];
            var got := ReceiveFile(cfg.disk.room(dest), wrerror, r, dest, e, StoredTimes(t, preserve));
            SinkLoop(cfg, rx, targ, true, src, wrerror)
            == if got.Bumped? then got
               else SinkLoop(cfg, got.rx, targ, true, src,
                             wrerror || Written(cfg.disk.room(dest), |t.data|) < |t.data|)
  {
    var line := FileLine(Mode(t.perms), |t.data|, t.name);
    var body := t.data + tail;
    var times := StoredTimes(t, preserve);
    var start := if preserve then Rx(rx.fs, line + body, rx.trace + Receives(TimeLine(t.mtime, t.atime)) + ACK) else rx;
    assert start.trace + Receives(line) == rx.trace + Announced(t, preserve) by { hide Receives, FileLine, TimeLine; }
    hide Receives, FileLine, TimeLine, StripSlashes, GetAction, ReceiveFile, Announced;
    if preserve {
      ActionOnTimes(cfg, rx, t.mtime, t.atime, line + body);
    }
    ActionOnFile(cfg, start, times, Mode(t.perms), |t.data|, t.name, body);
    var e := Entry(Mode(t.perms), |t.data|, t.name);
    var r := Rx(rx.fs, body, start.trace + Receives(line));
    assert GetAction(cfg, rx, [], None) == Item(false, e, times, r);
    assert Destination(cfg, targ, true, src, t.name) == Some(targ + [t.name]);
  }

  lemma SinkOnFile(cfg: Config, rx: Rx, targ: Path, src: Option<Blob>, t: Tree, preserve: bool, rest: Blob)
    requires t.File? && Clean(t.name) && StripSlashes(t.name) == t.name && Fits(cfg.disk, rx.fs, targ, t, preserve)
    requires src.None? || cfg.unsafe || t.name == StripSlashes(src.value)
    requires rx.input == Encode(t, preserve) + rest
    ensures SinkLoop(cfg, rx, targ, true, src, false)
            == SinkLoop(cfg, Rx(Overlay(rx.fs, targ, t, preserve), rest, rx.trace + SinkOps(t, preserve)), targ,
                        true, src, false)
  {
    var dest := targ + [t.name];
    assert Written(cfg.disk.room(dest), |t.data|) == |t.data|;
    FileBytes(t, preserve, rest);
    FileItem(cfg, rx, targ, src, t, preserve, [0] + rest, false);
    hide Receives, StripSlashes, SinkLoop, ReceiveFile, Encode, SinkOps, Overlay, Fits, Written, Announced, FileThen;
    var r := Rx(rx.fs, t.data + ([0] + rest), rx.trace + Announced(t, preserve));
    var e := Entry(Mode(t.perms), |t.data|, t.name);
    ReceiveData(cfg.disk.room(dest), r, dest, e, StoredTimes(t, preserve), t.data, rest);
    FileOps(t, preserve, rx.trace);
    OverlayFile(rx.fs, targ, t, preserve);
  }

  /** A byte that starts no control record ends the copy, whatever follows it. */
  lemma NoRecordStartsWithZero(cfg: Config, rx: Rx, targ: Path, src: Option<Blob>, wrerror: bool)
    requires rx.input != [] && rx.input[0] == 0
    ensures SinkLoop(cfg, rx, targ, true, src, wrerror).Bumped?
  {
    hide Find, Receives;
  }

  /**
   * After a write error the zero byte that ends the file's data is still to come and is taken for a
   * control record: the receiver gives up, exactly when there was no room for the whole file.
   */
  lemma WriteErrorGivesUpExactly(cfg: Config, rx: Rx, targ: Path, src: Option<Blob>, t: Tree, preserve: bool,
    rest: Blob)
    requires t.File? && Clean(t.name) && !IsFolder(rx.fs, targ + [t.name]) && !cfg.disk.noFile(targ + [t.name])
    requires src.None? || cfg.unsafe || t.name == StripSlashes(src.value)
    requires rx.input == Encode(t, preserve) + rest
    ensures var whole := Written(cfg.disk.room(targ + [t.name]), |t.data|) == |t.data|;
            var next := Rx(Overlay(rx.fs, targ, t, preserve), rest, rx.trace + SinkOps(t, preserve));
            if whole then SinkLoop(cfg, rx, targ, true, src, false) == SinkLoop(cfg, next, targ, true, src, false)
            else SinkLoop(cfg, rx, targ, true, src, false).Bumped?
  {
    CleanIsStripped(t.name);
    var dest := targ + [t.name];
    hide Receives, StripSlashes, SinkLoop, ReceiveFile, Encode, SinkOps, Overlay, Written, Announced, FileThen;
    if Written(cfg.disk.room(dest), |t.data|) == |t.data| {
      SinkOnFile(cfg, rx, targ, src, t, preserve, rest);
    } else {
      FileBytes(t, preserve, rest);
      FileItem(cfg, rx, targ, src, t, preserve, [0] + rest, false);
      var r := Rx(rx.fs, t.data + ([0] + rest), rx.trace + Announced(t, preserve));
      var e := Entry(Mode(t.perms), |t.data|, t.name);
      ReceiveData(cfg.disk.room(dest), r, dest, e, StoredTimes(t, preserve), t.data, rest);
      var got := ReceiveFile(cfg.disk.room(dest), false, r, dest, e, StoredTimes(t, preserve));
      NoRecordStartsWithZero(cfg, got.rx, targ, src, true);
    }
  }

  /**
   * From a peer that sends no zero byte behind a file that failed, the level goes on, but nothing of
   * its later files is written, however much room there is for them, and each is reported in turn.
   */
  lemma WriteErrorLasts(cfg: Config, rx: Rx, targ: Path, src: Option<Blob>, t: Tree, preserve: bool, tail: Blob)
    requires t.File? && Clean(t.name) && !IsFolder(rx.fs, targ + [t.name]) && !cfg.disk.noFile(targ + [t.name])
    requires src.None? || cfg.unsafe || t.name == StripSlashes(src.value)
    requires rx.input == FileThen(t, preserve, tail)
    ensures var lost := Regular([], Mode(t.perms), StoredTimes(t, preserve));
            var trace := rx.trace + Announced(t, preserve) + (ACK + Receives(t.data) + Sends([1, NL]));
            SinkLoop(cfg, rx, targ, true, src, true)
            == SinkLoop(cfg, Rx(rx.fs[targ + [t.name] := lost], tail, trace), targ, true, src, true)
  {
    CleanIsStripped(t.name);
    var dest := targ + [t.name];
    hide Receives, StripSlashes, SinkLoop, Written, Announced, FileThen, ReceiveFile;
    FileItem(cfg, rx, targ, src, t, preserve, tail, true);
    var r := Rx(rx.fs, t.data + tail, rx.trace + Announced(t, preserve));
    LostFile(cfg.disk.room(dest), r, dest, Entry(Mode(t.perms), |t.data|, t.name), StoredTimes(t, preserve), t.data,
      tail);
  }

  lemma LostFile(room: Option<nat>, rx: Rx, dest: Path, e: Entry, times: Option<Times>, data: Blob, tail: Blob)
    requires e.size == |data| && rx.input == data + tail
    ensures ReceiveFile(room, true, rx, dest, e, times)
            == Done(Rx(rx.fs[dest := Regular([], e.perms, times)], tail,
                       rx.trace + (ACK + Receives(data) + Sends([1, NL]))))
  {
    hide Receives, Written;
    var o := AckRx(rx.(fs := rx.fs[dest := Regular([], e.perms, None)]));
    TakeLine(o, data, tail);
    assert o.input[..0] == [];
    assert rx.trace + ACK + Receives(data) + Sends([1, NL]) == rx.trace + (ACK + Receives(data) + Sends([1, NL]));
  }

  lemma FileBytes(t: Tree, preserve: bool, rest: Blob)
    requires t.File?
    ensures Encode(t, preserve) + rest == FileThen(t, preserve, [0] + rest)
  {
    hide FileLine, TimeLine;
  }

  lemma FileOps(t: Tree, preserve: bool, trace: seq<Op>)
    requires t.File?
    ensures trace + Announced(t, preserve) + (ACK + Receives(t.data) + ACK + Receives([0]))
            == trace + SinkOps(t, preserve)
  {
    var p := if preserve then Receives(TimeLine(t.mtime, t.atime)) + ACK else [];
    var (line, data, zero) := (Receives(FileLine(Mode(t.perms), |t.data|, t.name)), Receives(t.data), Receives([0]));
    hide FileLine, TimeLine, Receives;
    assert SinkOps(t, preserve) == p + (line + ACK + data + ACK + zero) && Announced(t, preserve) == p + line;
    Regroup(trace, p, line, ACK + data + ACK + zero);
    assert line + (ACK + data + ACK + zero) == line + ACK + data + ACK + zero;
  }

  lemma Regroup(a: seq<Op>, b: seq<Op>, c: seq<Op>, d: seq<Op>)
    ensures a + (b + c) + d == a + (b + (c + d))
  {
  }

  lemma OverlayFile(fs: Fs, targ: Path, t: Tree, preserve: bool)
    requires t.File?
    ensures Overlay(fs, targ, t, preserve)
            == fs[targ + [t.name] := Regular(t.data, Mode(t.perms), StoredTimes(t, preserve))]
  {
  }

  lemma {:induction false} SinkOnTrees(cfg: Config, rx: Rx, targ: Path, src: Option<Blob>, ts: seq<Tree>,
    preserve: bool, rest: Blob)
    requires cfg.recursive && CleanTrees(ts) && Accepts(cfg, src, ts) && FitsAll(cfg.disk, rx.fs, targ, ts, preserve)
    requires rx.input == EncodeAll(ts, preserve) + rest
    ensures SinkLoop(cfg, rx, targ, true, src, false)
            == SinkLoop(cfg, Rx(OverlayAll(rx.fs, targ, ts, preserve), rest, rx.trace + SinksOps(ts, preserve)), targ,
                        true, src, false)
    decreases ts, 0
  {
    hide SinkLoop, Encode, SinkOps, Overlay, Fits, CleanTree;
    if ts == [] {
      assert rx == Rx(rx.fs, rest, rx.trace + []);
    } else {
      var tail := EncodeAll(ts[1..], preserve) + rest;
      assert rx.input == Encode(ts[0], preserve) + tail;
      assert Accepts(cfg, src, [ts[0]]) && Accepts(cfg, src, ts[1..]);
      SinkOnTree(cfg, rx, targ, src, ts[0], preserve, tail);
      var next := Rx(Overlay(rx.fs, targ, ts[0], preserve), tail, rx.trace + SinkOps(ts[0], preserve));
      SinkOnTrees(cfg, next, targ, src, ts[1..], preserve, rest);
      assert next.trace + SinksOps(ts[1..], preserve) == rx.trace + SinksOps(ts, preserve);
    }
  }

  // ----- the conversation -----

  /** Bytes put on the left and got on the right, one by one. */
  function Transfer(b: Blob): seq<Move> {
    if b == [] then [] else [L(Put(b[0])), R(Get(b[0]))] + Transfer(b[1..])
  }

  const ACK_MOVE: seq<Move> := [R(Put(0)), L(Get(0))]

  /** At the end of a file both sides put their zero byte before either waits for the other's. */
  const FINISH_MOVE: seq<Move> := [L(Put(0)), R(Put(0)), R(Get(0)), L(Get(0))]

  function Moves(t: Tree, preserve: bool): seq<Move>
    decreases t, 1
  {
    match t
    case File(name, perms, mtime, atime, data) =>
      (if preserve then Transfer(TimeLine(mtime, atime)) + ACK_MOVE else [])
      + (Transfer(FileLine(Mode(perms), |data|, name)) + ACK_MOVE + Transfer(data) + FINISH_MOVE)
    case Dir(name, kids) =>
      Transfer(DirLine(name)) + ACK_MOVE + MovesAll(kids, preserve) + Transfer(END_LINE) + ACK_MOVE
  }

  function MovesAll(ts: seq<Tree>, preserve: bool): seq<Move>
    decreases ts, 0
  {
    if ts == [] then [] else Moves(ts[0], preserve) + MovesAll(ts[1..], preserve)
  }

  /** What the two halves of a conversation are, and that it runs from quiet to quiet. */
  ghost predicate Is(ms: seq<Move>, left: seq<Op>, right: seq<Op>) {
    Complete(ms) && LeftOps(ms) == left && RightOps(ms) == right
  }

  lemma IsThen(a: seq<Move>, la: seq<Op>, ra: seq<Op>, b: seq<Move>, lb: seq<Op>, rb: seq<Op>)
    requires Is(a, la, ra) && Is(b, lb, rb)
    ensures Is(a + b, la + lb, ra + rb)
  {
    hide Complete, LeftOps, RightOps;
    CompleteAppend(a, b);
    OpsAppend(a, b);
  }

  lemma IsNothing()
    ensures Is([], [], [])
  {
  }

  lemma ByteMove(b: byte)
    ensures Is([L(Put(b)), R(Get(b))], [Put(b)], [Get(b)])
  {
    hide Play, LeftOps, RightOps;
    NoMoves();
    var last := [R(Get(b))] + [];
    PlayCons(R(Get(b)), [], Wires([b], []));
    OpsCons(R(Get(b)), []);
    PlayCons(L(Put(b)), last, QUIET);
    OpsCons(L(Put(b)), last);
    assert [L(Put(b)), R(Get(b))] == [L(Put(b))] + last;
    assert [] + [b] == [b] && [b][1..] == [];
  }

  lemma NoMoves()
    ensures LeftOps([]) == [] && RightOps([]) == []
    ensures forall w :: Play([], w) == Some(w)
  {
  }

  lemma {:induction false} TransferIs(b: Blob)
    ensures Is(Transfer(b), Sends(b), Receives(b))
  {
    if b == [] {
      IsNothing();
    } else {
      ByteMove(b[0]);
      TransferIs(b[1..]);
      IsThen([L(Put(b[0])), R(Get(b[0]))], [Put(b[0])], [Get(b[0])], Transfer(b[1..]), Sends(b[1..]), Receives(b[1..]));
      assert Sends(b) == [Put(b[0])] + Sends(b[1..]) && Receives(b) == [Get(b[0])] + Receives(b[1..]);
    }
  }

  lemma AckIs()
    ensures Is(ACK_MOVE, AWAIT, ACK)
  {
    hide Play, LeftOps, RightOps;
    NoMoves();
    var last := [L(Get(0))] + [];
    PlayCons(L(Get(0)), [], Wires([], [0]));
    OpsCons(L(Get(0)), []);
    PlayCons(R(Put(0)), last, QUIET);
    OpsCons(R(Put(0)), last);
    assert ACK_MOVE == [R(Put(0))] + last;
    assert [] + [0] == [0] && [0][1..] == [];
  }

  lemma FinishIs()
    ensures Is(FINISH_MOVE, Sends([0]) + AWAIT, ACK + Receives([0]))
  {
    hide Play, LeftOps, RightOps;
    NoMoves();
    var c := [L(Get(0))] + [];
    var b := [R(Get(0))] + c;
    var a := [R(Put(0))] + b;
    PlayCons(L(Get(0)), [], Wires([], [0]));
    OpsCons(L(Get(0)), []);
    PlayCons(R(Get(0)), c, Wires([0], [0]));
    OpsCons(R(Get(0)), c);
    PlayCons(R(Put(0)), b, Wires([0], []));
    OpsCons(R(Put(0)), b);
    PlayCons(L(Put(0)), a, QUIET);
    OpsCons(L(Put(0)), a);
    assert FINISH_MOVE == [L(Put(0))] + a;
    assert [] + [0] == [0] && [0][1..] == [];
    assert Sends([0]) == [Put(0)] && Receives([0]) == [Get(0)];
  }

  /** A line answered by the receiver's zero byte. */
  lemma LineIs(b: Blob)
    ensures Is(Transfer(b) + ACK_MOVE, Sends(b) + AWAIT, Receives(b) + ACK)
  {
    hide Is;
    TransferIs(b);
    AckIs();
    IsThen(Transfer(b), Sends(b), Receives(b), ACK_MOVE, AWAIT, ACK);
  }

  lemma {:induction false} MovesAre(t: Tree, preserve: bool)
    ensures Is(Moves(t, preserve), SourceOps(t, preserve), SinkOps(t, preserve))
    decreases t, 1
  {
    hide Is, Transfer, Sends, Receives, FileLine, DirLine, TimeLine;
    match t
    case File(name, perms, mtime, atime, data) => FileMovesAre(t, preserve);
    case Dir(name, kids) =>
      LineIs(DirLine(name));
      MovesAllAre(kids, preserve);
      LineIs(END_LINE);
      var (l, r) := (Sends(DirLine(name)) + AWAIT, Receives(DirLine(name)) + ACK);
      IsThen(Transfer(DirLine(name)) + ACK_MOVE, l, r,
             MovesAll(kids, preserve), SourcesOps(kids, preserve), SinksOps(kids, preserve));
      IsThen(Transfer(DirLine(name)) + ACK_MOVE + MovesAll(kids, preserve), l + SourcesOps(kids, preserve),
             r + SinksOps(kids, preserve),
             Transfer(END_LINE) + ACK_MOVE, Sends(END_LINE) + AWAIT, Receives(END_LINE) + ACK);
      assert Moves(t, preserve) == Transfer(DirLine(name)) + ACK_MOVE + MovesAll(kids, preserve)
             + (Transfer(END_LINE) + ACK_MOVE);
      assert SourceOps(t, preserve) == l + SourcesOps(kids, preserve) + (Sends(END_LINE) + AWAIT);
      assert SinkOps(t, preserve) == r + SinksOps(kids, preserve) + (Receives(END_LINE) + ACK);
  }

  lemma FileMovesAre(t: Tree, preserve: bool)
    requires t.File?
    ensures Is(Moves(t, preserve), SourceOps(t, preserve), SinkOps(t, preserve))
  {
    hide Is, Transfer, Sends, Receives, FileLine, TimeLine;
    var line := FileLine(Mode(t.perms), |t.data|, t.name);
    LineIs(line);
    TransferIs(t.data);
    FinishIs();
    IsThen(Transfer(t.data), Sends(t.data), Receives(t.data), FINISH_MOVE, Sends([0]) + AWAIT, ACK + Receives([0]));
    IsThen(Transfer(line) + ACK_MOVE, Sends(line) + AWAIT, Receives(line) + ACK,
           Transfer(t.data) + FINISH_MOVE, Sends(t.data) + (Sends([0]) + AWAIT),
           Receives(t.data) + (ACK + Receives([0])));
    var (ms, l, r) := (Transfer(line) + ACK_MOVE + (Transfer(t.data) + FINISH_MOVE),
                       Sends(line) + AWAIT + (Sends(t.data) + (Sends([0]) + AWAIT)),
                       Receives(line) + ACK + (Receives(t.data) + (ACK + Receives([0]))));
    var times := TimeLine(t.mtime, t.atime);
    LineIs(times);
    IsNothing();
    if preserve {
      IsThen(Transfer(times) + ACK_MOVE, Sends(times) + AWAIT, Receives(times) + ACK, ms, l, r);
    } else {
      IsThen([], [], [], ms, l, r);
    }
    assert ms == Transfer(line) + ACK_MOVE + Transfer(t.data) + FINISH_MOVE;
    assert l == Sends(line) + AWAIT + Sends(t.data) + Sends([0]) + AWAIT;
    assert r == Receives(line) + ACK + Receives(t.data) + ACK + Receives([0]);
  }

  lemma {:induction false} MovesAllAre(ts: seq<Tree>, preserve: bool)
    ensures Is(MovesAll(ts, preserve), SourcesOps(ts, preserve), SinksOps(ts, preserve))
    decreases ts, 0
  {
    hide Is, Moves, SourceOps, SinkOps;
    if ts == [] {
      IsNothing();
    } else {
      MovesAre(ts[0], preserve);
      MovesAllAre(ts[1..], preserve);
      IsThen(Moves(ts[0], preserve), SourceOps(ts[0], preserve), SinkOps(ts[0], preserve),
             MovesAll(ts[1..], preserve), SourcesOps(ts[1..], preserve), SinksOps(ts[1..], preserve));
    }
  }

  /** The bytes the sender puts are the encoding of its trees. */
  lemma SendsPuts(b: Blob)
    ensures Puts(Sends(b)) == b && Gets(Receives(b)) == b && Puts(Receives(b)) == [] && Gets(Sends(b)) == []
  {
    if b != [] {
      SendsPuts(b[1..]);
      assert Sends(b) == [Put(b[0])] + Sends(b[1..]) && Receives(b) == [Get(b[0])] + Receives(b[1..]);
      PickCons(Put(b[0]), Sends(b[1..]), PutByte);
      PickCons(Put(b[0]), Sends(b[1..]), GetByte);
      PickCons(Get(b[0]), Receives(b[1..]), PutByte);
      PickCons(Get(b[0]), Receives(b[1..]), GetByte);
    }
  }

  lemma AwaitPuts()
    ensures Puts(AWAIT) == []
  {
    PickOne(Get(0), PutByte);
  }

  /** A line and the wait for its answer, in front of more. */
  lemma LinePuts(line: Blob, ops: seq<Op>)
    ensures Puts(Sends(line) + AWAIT + ops) == line + Puts(ops)
  {
    hide Puts, Sends;
    AwaitPuts();
    SendsPuts(line);
    BytesAppend(Sends(line), AWAIT);
    BytesAppend(Sends(line) + AWAIT, ops);
    assert line + [] == line;
  }

  lemma SendPuts(b: Blob, ops: seq<Op>)
    ensures Puts(Sends(b) + ops) == b + Puts(ops)
  {
    hide Puts, Sends;
    SendsPuts(b);
    BytesAppend(Sends(b), ops);
  }

  lemma {:induction false} SourcePuts(t: Tree, preserve: bool)
    ensures Puts(SourceOps(t, preserve)) == Encode(t, preserve)
    decreases t, 1
  {
    hide Puts, Sends, FileLine, DirLine, TimeLine;
    match t
    case File(name, perms, mtime, atime, data) => FilePuts(t, preserve);
    case Dir(name, kids) =>
      var rest := SourcesOps(kids, preserve) + (Sends(END_LINE) + AWAIT + []);
      LinePuts(DirLine(name), rest);
      SourcesPut(kids, preserve);
      BytesAppend(SourcesOps(kids, preserve), Sends(END_LINE) + AWAIT + []);
      LinePuts(END_LINE, []);
      NoPuts();
      DirPieces(name, kids, preserve);
  }

  lemma NoPuts()
    ensures Puts([]) == []
  {
  }

  lemma DirPieces(name: Blob, kids: seq<Tree>, preserve: bool)
    ensures SourceOps(Dir(name, kids), preserve) == Sends(DirLine(name)) + AWAIT
            + (SourcesOps(kids, preserve) + (Sends(END_LINE) + AWAIT + []))
    ensures Encode(Dir(name, kids), preserve) == DirLine(name) + (EncodeAll(kids, preserve) + (END_LINE + []))
  {
    hide Sends, DirLine, SourcesOps, EncodeAll;
  }

  lemma FilePuts(t: Tree, preserve: bool)
    requires t.File?
    ensures Puts(SourceOps(t, preserve)) == Encode(t, preserve)
  {
    hide Puts, Sends, FileLine, TimeLine;
    var line := FileLine(Mode(t.perms), |t.data|, t.name);
    var mark := Sends([0]) + AWAIT + [];
    NoPuts();
    LinePuts([0], []);
    SendPuts(t.data, mark);
    LinePuts(line, Sends(t.data) + mark);
    var ops := Sends(line) + AWAIT + (Sends(t.data) + mark);
    LinePuts(TimeLine(t.mtime, t.atime), ops);
    assert ops == Sends(line) + AWAIT + Sends(t.data) + Sends([0]) + AWAIT;
    assert line + (t.data + ([0] + [])) == line + t.data + [0];
    assert [] + ops == ops && [] + (line + t.data + [0]) == line + t.data + [0];
  }

  lemma {:induction false} SourcesPut(ts: seq<Tree>, preserve: bool)
    ensures Puts(SourcesOps(ts, preserve)) == EncodeAll(ts, preserve)
    decreases ts, 0
  {
    hide SourceOps, Encode;
    if ts != [] {
      SourcePuts(ts[0], preserve);
      SourcesPut(ts[1..], preserve);
      BytesAppend(SourceOps(ts[0], preserve), SourcesOps(ts[1..], preserve));
    }
  }

  /** The whole copy: the receiver's first zero byte, then every tree. */
  function Session(ts: seq<Tree>, preserve: bool): seq<Move> {
    ACK_MOVE + MovesAll(ts, preserve)
  }

  lemma SessionIs(ts: seq<Tree>, preserve: bool)
    ensures Is(Session(ts, preserve), AWAIT + SourcesOps(ts, preserve), ACK + SinksOps(ts, preserve))
  {
    hide Is;
    AckIs();
    MovesAllAre(ts, preserve);
    IsThen(ACK_MOVE, AWAIT, ACK, MovesAll(ts, preserve), SourcesOps(ts, preserve), SinksOps(ts, preserve));
  }

  lemma SessionPuts(ts: seq<Tree>, preserve: bool)
    ensures Puts(AWAIT + SourcesOps(ts, preserve)) == EncodeAll(ts, preserve)
  {
    hide Puts, SourcesOps, EncodeAll;
    AwaitPuts();
    SourcesPut(ts, preserve);
    BytesAppend(AWAIT, SourcesOps(ts, preserve));
  }

  /** The receiver on the sender's bytes, from its first zero byte to the end of the stream. */
  lemma SinkOnSession(cfg: Config, fs: Fs, targ: Path, src: Option<Blob>, ts: seq<Tree>, preserve: bool)
    requires cfg.recursive && IsFolder(fs, targ) && CleanTrees(ts) && Accepts(cfg, src, ts)
             && FitsAll(cfg.disk, fs, targ, ts, preserve)
    ensures Sink(cfg, Rx(fs, EncodeAll(ts, preserve), []), targ, src)
            == Done(Rx(OverlayAll(fs, targ, ts, preserve), [], ACK + SinksOps(ts, preserve)))
  {
    hide OverlayAll, FitsAll, CleanTrees, Accepts, EncodeAll, SinksOps, SinkLoop;
    var bytes := EncodeAll(ts, preserve);
    var start := AckRx(Rx(fs, bytes, []));
    assert bytes == bytes + [] && [] + ACK == ACK;
    SinkOnTrees(cfg, start, targ, src, ts, preserve, []);
    AtTheEnd(cfg, Rx(OverlayAll(fs, targ, ts, preserve), [], ACK + SinksOps(ts, preserve)), targ, src);
  }

  lemma AtTheEnd(cfg: Config, rx: Rx, targ: Path, src: Option<Blob>)
    requires rx.input == []
    ensures SinkLoop(cfg, rx, targ, true, src, false) == Done(rx)
  {
  }

  /**
   * The copy theorem. The sender's half of the session is the initial wait and its trees, the
   * receiver's half is what the receiver does on exactly the bytes the sender puts, the session is
   * complete, and the receiver ends with the trees laid over its file system. Every schedule of the
   * two processes therefore runs to this end, and each wait is matched by one zero byte.
   */
  lemma CopyTheorem(cfg: Config, fs: Fs, targ: Path, src: Option<Blob>, ts: seq<Tree>, preserve: bool)
    requires cfg.recursive && IsFolder(fs, targ) && CleanTrees(ts) && Accepts(cfg, src, ts)
             && FitsAll(cfg.disk, fs, targ, ts, preserve)
    ensures var ms := Session(ts, preserve);
            && Complete(ms)
            && LeftOps(ms) == AWAIT + SourcesOps(ts, preserve)
            && Sink(cfg, Rx(fs, Puts(LeftOps(ms)), []), targ, src)
               == Done(Rx(OverlayAll(fs, targ, ts, preserve), [], RightOps(ms)))
            && Puts(LeftOps(ms)) == Gets(RightOps(ms)) && Puts(RightOps(ms)) == Gets(LeftOps(ms))
  {
    hide Complete, LeftOps, RightOps, Puts, Gets, OverlayAll, FitsAll, CleanTrees, Accepts, Sink, Session, SourcesOps,
         EncodeAll, SinksOps;
    SessionIs(ts, preserve);
    WholeConversation(Session(ts, preserve));
    SessionPuts(ts, preserve);
    SinkOnSession(cfg, fs, targ, src, ts, preserve);
  }

  // ----- what the receiver then holds -----

  function Lookup(fs: Fs, p: Path): Option<Node> {
    if p in fs then Some(fs[p]) else None
  }

  /** What the tree itself has at a path that starts with its own name. */
  function TreeAt(t: Tree, p: Path, preserve: bool): Option<Node>
    decreases t, 1
  {
    if p == [] || p[0] != t.name then None
    else match t
      case File(_, perms, _, _, data) =>
        if |p| == 1 then Some(Regular(data, Mode(perms), StoredTimes(t, preserve))) else None
      case Dir(_, kids) => if |p| == 1 then Some(Folder) else TreesAt(kids, p[1..], preserve)
  }

  /** Of two siblings of one name the later is the one found. */
  function TreesAt(ts: seq<Tree>, p: Path, preserve: bool): Option<Node>
    decreases ts, 0
  {
    if ts == [] then None
    else match TreesAt(ts[1..], p, preserve)
      case Some(n) => Some(n)
      case None => TreeAt(ts[0], p, preserve)
  }

  lemma {:induction false} NothingAtRoot(ts: seq<Tree>, preserve: bool)
    ensures TreesAt(ts, [], preserve) == None
  {
    if ts != [] {
      NothingAtRoot(ts[1..], preserve);
    }
  }

  /** The node found at q, by the trees below targ if they have one, and otherwise as before. */
  function Expected(fs: Fs, targ: Path, q: Path, found: Path -> Option<Node>): Option<Node> {
    if targ <= q && found(q[|targ|..]).Some? then found(q[|targ|..]) else Lookup(fs, q)
  }

  lemma {:induction false} OverlayIs(fs: Fs, targ: Path, t: Tree, preserve: bool, q: Path)
    ensures Lookup(Overlay(fs, targ, t, preserve), q) == Expected(fs, targ, q, p => TreeAt(t, p, preserve))
    decreases t, 1
  {
    var dest := targ + [t.name];
    match t
    case File(name, perms, mtime, atime, data) =>
      BelowDest(targ, t.name, q);
    case Dir(name, kids) =>
      var fs1 := fs[dest := Folder];
      OverlayAllIs(fs1, dest, kids, preserve, q);
      NothingAtRoot(kids, preserve);
      BelowDest(targ, t.name, q);
      assert Overlay(fs, targ, t, preserve) == OverlayAll(fs1, dest, kids, preserve);
  }

  lemma BelowDest(targ: Path, name: Blob, q: Path)
    ensures var dest := targ + [name];
            && (dest <= q <==> targ <= q && |q| > |targ| && q[|targ|..][0] == name)
            && (dest <= q ==> q[|dest|..] == q[|targ|..][1..])
            && (q == dest <==> dest <= q && |q[|targ|..]| == 1)
            && targ <= dest && dest[|targ|..] == [name]
  {
  }

  lemma {:induction false} OverlayAllIs(fs: Fs, targ: Path, ts: seq<Tree>, preserve: bool, q: Path)
    ensures Lookup(OverlayAll(fs, targ, ts, preserve), q) == Expected(fs, targ, q, p => TreesAt(ts, p, preserve))
    decreases ts, 0
  {
    hide Overlay, TreeAt;
    if ts != [] {
      OverlayIs(fs, targ, ts[0], preserve, q);
      OverlayAllIs(Overlay(fs, targ, ts[0], preserve), targ, ts[1..], preserve, q);
    }
  }

  // ----- a target with nothing in the way -----

  /** The disk takes everything. */
  ghost predicate Healthy(disk: Disk) {
    forall p :: !disk.noDir(p) && !disk.noFile(p) && disk.room(p).None?
  }

  predicate Distinct(t: Tree)
    decreases t, 1
  {
    t.Dir? ==> DistinctAll(t.kids)
  }

  predicate DistinctAll(ts: seq<Tree>)
    decreases ts, 0
  {
    ts == [] || (Distinct(ts[0]) && DistinctAll(ts[1..]) && forall i :: 1 <= i < |ts| ==> ts[i].name != ts[0].name)
  }

  predicate Vacant(fs: Fs, dest: Path) {
    forall p :: p in fs ==> !(dest <= p)
  }

  lemma {:induction false} OverlayVacant(fs: Fs, targ: Path, t: Tree, preserve: bool, name: Blob)
    requires Vacant(fs, targ + [name]) && name != t.name
    ensures Vacant(Overlay(fs, targ, t, preserve), targ + [name])
  {
    hide Overlay;
    forall q | q in Overlay(fs, targ, t, preserve)
      ensures !(targ + [name] <= q)
    {
      OverlayIs(fs, targ, t, preserve, q);
      BelowDest(targ, name, q);
    }
  }

  lemma VacantBelow(fs: Fs, dest: Path, name: Blob)
    requires Vacant(fs, dest)
    ensures Vacant(fs[dest := Folder], dest + [name])
  {
    forall p {:trigger p in fs} | p in fs || p == dest
      ensures !(dest + [name] <= p)
    {
      BelowDest(dest, name, p);
    }
  }

  lemma {:induction false} VacantFits(disk: Disk, fs: Fs, targ: Path, t: Tree, preserve: bool)
    requires Healthy(disk) && Distinct(t) && Vacant(fs, targ + [t.name])
    ensures Fits(disk, fs, targ, t, preserve)
    decreases t, 1
  {
    match t
    case File(_, _, _, _, _) =>
    case Dir(name, kids) =>
      var dest := targ + [name];
      forall i | 0 <= i < |kids|
        ensures Vacant(fs[dest := Folder], dest + [kids[i].name])
      {
        VacantBelow(fs, dest, kids[i].name);
      }
      VacantFitsAll(disk, fs[dest := Folder], dest, kids, preserve);
  }

  lemma {:induction false} VacantFitsAll(disk: Disk, fs: Fs, targ: Path, ts: seq<Tree>, preserve: bool)
    requires Healthy(disk) && DistinctAll(ts) && forall i :: 0 <= i < |ts| ==> Vacant(fs, targ + [ts[i].name])
    ensures FitsAll(disk, fs, targ, ts, preserve)
    decreases ts, 0
  {
    hide Overlay, Fits, Vacant, Distinct;
    if ts != [] {
      VacantFits(disk, fs, targ, ts[0], preserve);
      var next := Overlay(fs, targ, ts[0], preserve);
      forall i | 0 <= i < |ts[1..]|
        ensures Vacant(next, targ + [ts[1..][i].name])
      {
        OverlayVacant(fs, targ, ts[0], preserve, ts[i + 1].name);
      }
      VacantFitsAll(disk, next, targ, ts[1..], preserve);
    }
  }

  /**
   * Into a directory where nothing has any of the copied names, the receiver ends up with exactly
   * the sender's trees there, path by path, and everything else as it was.
   */
  lemma ExactCopy(cfg: Config, fs: Fs, targ: Path, src: Option<Blob>, ts: seq<Tree>, preserve: bool, q: Path)
    requires cfg.recursive && IsFolder(fs, targ) && CleanTrees(ts) && Accepts(cfg, src, ts)
    requires Healthy(cfg.disk) && DistinctAll(ts) && forall i :: 0 <= i < |ts| ==> Vacant(fs, targ + [ts[i].name])
    ensures var end := Sink(cfg, Rx(fs, Puts(LeftOps(Session(ts, preserve))), []), targ, src);
            && end.Done?
            && Lookup(end.rx.fs, q) == if targ <= q && TreesAt(ts, q[|targ|..], preserve).Some?
                                       then TreesAt(ts, q[|targ|..], preserve) else Lookup(fs, q)
  {
    hide Complete, LeftOps, RightOps, Puts, Gets, Sink, Session, OverlayAll, TreesAt, FitsAll, CleanTrees, Accepts,
         DistinctAll, Vacant;
    VacantFitsAll(cfg.disk, fs, targ, ts, preserve);
    CopyTheorem(cfg, fs, targ, src, ts, preserve);
    OverlayAllIs(fs, targ, ts, preserve, q);
  }
}
