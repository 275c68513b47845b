/**
 * The receiver as a process: what it does depends only on the bytes that have arrived. On a prefix
 * of its input it does a prefix of what it does on the whole, and every schedule of a copy ends in
 * the one session.
 */
module ScpPrefix {
  import opened Bytes
  import opened Duplex
  import opened ScpWire
  import opened Text
  import opened Scp
  import opened ScpTheorem

  /** The same receiver with more bytes behind those that have arrived. */
  function More(rx: Rx, b: Blob): Rx {
    rx.(input := rx.input + b)
  }

  lemma {:induction false} FindPrefix(a: Blob, c: byte, b: Blob)
    requires Find(a, c).Some?
    ensures Find(a + b, c) == Find(a, c)
  {
    if a[0] != c {
      FindPrefix(a[1..], c, b);
      assert (a + b)[1..] == a[1..] + b;
    }
  }

  lemma TakeMore(rx: Rx, n: nat, b: Blob)
    requires n <= |rx.input|
    ensures n <= |More(rx, b).input| && Take(More(rx, b), n) == More(Take(rx, n), b)
  {
    assert (rx.input + b)[n..] == rx.input[n..] + b;
    assert (rx.input + b)[..n] == rx.input[..n];
  }

  // ----- nothing done is undone -----

  lemma TakeGrows(rx: Rx, n: nat)
    requires n <= |rx.input|
    ensures rx.trace <= Take(rx, n).trace && |Take(rx, n).input| == |rx.input| - n
  {
    hide Receives;
  }

  lemma {:induction false} ActionGrows(cfg: Config, rx: Rx, buf: Blob, times: Option<Times>)
    ensures rx.trace <= GetAction(cfg, rx, buf, times).rx.trace
    decreases |rx.input|
  {
    hide Find, ParseTimes, ParseEntry, Receives;
    if rx.input != [] && rx.input[0] != NL && Find(rx.input, NL).Some? {
      var k := Find(rx.input, NL).value;
      var r := Take(rx, k + 1);
      var text := buf + rx.input[1..k];
      TakeGrows(rx, k + 1);
      hide Take;
      if rx.input[0] == 1 {
        ActionGrows(cfg, r, text, times);
      } else if rx.input[0] == CHAR_T && ParseTimes(text).Some? {
        ActionGrows(cfg, AckRx(r), [], Some(ParseTimes(text).value));
      }
    }
  }

  lemma ResponseGrows(rx: Rx)
    requires ReadResponse(rx).Some?
    ensures rx.trace <= ReadResponse(rx).value.trace
  {
    hide Find, Receives;
  }

  /** A file is acknowledged first, and nothing done before or then is undone. */
  lemma FileGrows(room: Option<nat>, wrerror: bool, rx: Rx, dest: Path, e: Entry, times: Option<Times>)
    ensures rx.trace <= rx.trace + ACK <= ReceiveFile(room, wrerror, rx, dest, e, times).rx.trace
  {
    hide ReadResponse, Receives;
    var o := AckRx(rx.(fs := rx.fs[dest := Regular([], e.perms, None)]));
    if 0 <= e.size <= |o.input| {
      var d := Take(o, e.size);
      var w := AckRx(d.(fs := d.fs[dest := Regular(o.input[..if wrerror then 0 else Written(room, e.size)], e.perms,
        times)]));
      if ReadResponse(w).Some? {
        ResponseGrows(w);
      }
    }
  }

  lemma {:induction false} SinkGrows(cfg: Config, rx: Rx, targ: Path, src: Option<Blob>)
    ensures rx.trace <= Sink(cfg, rx, targ, src).rx.trace
    decreases |rx.input|, 1
  {
    hide SinkLoop;
    LoopGrows(cfg, AckRx(rx), targ, IsFolder(rx.fs, targ), src, false);
  }

  lemma {:induction false} StoreGrows(cfg: Config, rx: Rx, dest: Path, isDir: bool, e: Entry, times: Option<Times>,
    wrerror: bool)
    ensures rx.trace <= Store(cfg, rx, dest, isDir, e, times, wrerror).rx.trace
    decreases |rx.input|, 2
  {
    hide Sink, ReceiveFile;
    if isDir {
      SinkGrows(cfg, rx.(fs := rx.fs[dest := Folder]), dest, None);
    } else {
      FileGrows(cfg.disk.room(dest), wrerror, rx, dest, e, times);
    }
  }

  lemma {:induction false} LoopGrows(cfg: Config, rx: Rx, targ: Path, targIsDir: bool, src: Option<Blob>, wrerror: bool)
    ensures rx.trace <= GetAction(cfg, rx, [], None).rx.trace <= SinkLoop(cfg, rx, targ, targIsDir, src,
            wrerror).rx.trace
    decreases |rx.input|, 0
  {
    hide GetAction, Destination, Store;
    ActionGrows(cfg, rx, [], None);
    var act := GetAction(cfg, rx, [], None);
    if act.Item? && Destination(cfg, targ, targIsDir, src, act.entry.name).Some? {
      var dest := Destination(cfg, targ, targIsDir, src, act.entry.name).value;
      StoreGrows(cfg, act.rx, dest, act.isDir, act.entry, act.times, wrerror);
      var got := Store(cfg, act.rx, dest, act.isDir, act.entry, act.times, wrerror);
      if got.Done? {
        var fails := WriteFails(cfg, act.rx.fs, dest, act.isDir, act.entry);
        LoopGrows(cfg, got.rx, targ, targIsDir, src, wrerror || fails);
      }
    }
  }

  // ----- more input only prolongs -----

  /** An action that was complete is the same with more behind it; one that was not has only begun. */
  predicate ActionGoes(x: Action, y: Action, b: Blob) {
    && x.rx.trace <= y.rx.trace
    && (x.Item? || x.EndDir? ==> y == x.(rx := More(x.rx, b)))
    && (x.Closed? ==> x.rx.input == [])
  }

  lemma {:induction false} ActionProlonged(cfg: Config, rx: Rx, buf: Blob, times: Option<Times>, b: Blob)
    ensures ActionGoes(GetAction(cfg, rx, buf, times), GetAction(cfg, More(rx, b), buf, times), b)
    decreases |rx.input|
  {
    hide Find, ParseTimes, ParseEntry, Receives;
    ActionGrows(cfg, More(rx, b), buf, times);
    if rx.input != [] && rx.input[0] != NL && Find(rx.input, NL).Some? {
      FindPrefix(rx.input, NL, b);
      var k := Find(rx.input, NL).value;
      TakeMore(rx, k + 1, b);
      assert (rx.input + b)[1..k] == rx.input[1..k];
      var r := Take(rx, k + 1);
      var text := buf + rx.input[1..k];
      assert AckRx(More(r, b)) == More(AckRx(r), b);
      hide Take;
      if rx.input[0] == 1 {
        ActionProlonged(cfg, r, text, times, b);
      } else if rx.input[0] == CHAR_T && ParseTimes(text).Some? {
        ActionProlonged(cfg, AckRx(r), [], Some(ParseTimes(text).value), b);
      }
    }
  }

  lemma ResponseProlonged(rx: Rx, b: Blob)
    requires ReadResponse(rx).Some?
    ensures ReadResponse(More(rx, b)) == Some(More(ReadResponse(rx).value, b))
  {
    hide Find, Receives;
    if rx.input[0] == 0 {
      TakeMore(rx, 1, b);
    } else {
      assert (rx.input + b)[1..] == rx.input[1..] + b;
      if Find(rx.input[1..], NL).Some? {
        FindPrefix(rx.input[1..], NL, b);
      } else {
        FindBeyond(rx.input[1..], NL, b);
      }
      var n := match Find(rx.input[1..], NL) case Some(k) => (if k < 2048 then k + 1 else 2048) case None => 2048;
      TakeMore(rx, 1 + n, b);
    }
  }

  lemma {:induction false} FindBeyond(a: Blob, c: byte, b: Blob)
    requires Find(a, c).None?
    ensures Find(a + b, c).Some? ==> Find(a + b, c).value >= |a|
  {
    if a != [] {
      FindBeyond(a[1..], c, b);
      assert (a + b)[1..] == a[1..] + b;
    }
  }

  lemma FileProlonged(room: Option<nat>, wrerror: bool, rx: Rx, dest: Path, e: Entry, times: Option<Times>, b: Blob)
    ensures var x, y := ReceiveFile(room, wrerror, rx, dest, e, times),
            ReceiveFile(room, wrerror, More(rx, b), dest, e, times);
            && x.rx.trace <= y.rx.trace
            && (x.Done? ==> y == Done(More(x.rx, b)))
  {
    hide ReadResponse, Receives, Take, Written;
    var empty := Regular([], e.perms, None);
    var o := AckRx(rx.(fs := rx.fs[dest := empty]));
    assert AckRx(More(rx, b).(fs := rx.fs[dest := empty])) == More(o, b);
    if 0 <= e.size <= |o.input| {
      TakeMore(o, e.size, b);
      var n := if wrerror then 0 else Written(room, e.size);
      assert (o.input + b)[..n] == o.input[..n];
      var d := Take(o, e.size);
      var v := d.(fs := d.fs[dest := Regular(o.input[..n], e.perms, times)]);
      assert More(d, b).(fs := d.fs[dest := Regular(o.input[..n], e.perms, times)]) == More(v, b);
      assert ReportError(More(v, b)) == More(ReportError(v), b) && AckRx(More(v, b)) == More(AckRx(v), b);
      var w := AckRx(v);
      if ReadResponse(w).Some? {
        ResponseProlonged(w, b);
      } else if ReadResponse(More(w, b)).Some? {
        ResponseGrows(More(w, b));
      }
    } else {
      FileGrows(room, wrerror, More(rx, b), dest, e, times);
    }
  }

  /** A level that ended before its input did ends the same with more; any other has only begun. */
  predicate Goes(x: Result, y: Result, b: Blob) {
    && x.rx.trace <= y.rx.trace
    && (x.Done? && x.rx.input != [] ==> y == Done(More(x.rx, b)))
  }

  lemma {:induction false} SinkProlonged(cfg: Config, rx: Rx, targ: Path, src: Option<Blob>, b: Blob)
    ensures Goes(Sink(cfg, rx, targ, src), Sink(cfg, More(rx, b), targ, src), b)
    decreases |rx.input|, 1
  {
    hide SinkLoop;
    LoopProlonged(cfg, AckRx(rx), targ, IsFolder(rx.fs, targ), src, false, b);
    assert AckRx(More(rx, b)) == More(AckRx(rx), b);
  }

  lemma {:induction false} StoreProlonged(cfg: Config, rx: Rx, dest: Path, isDir: bool, e: Entry,
    times: Option<Times>, wrerror: bool, b: Blob)
    ensures Goes(Store(cfg, rx, dest, isDir, e, times, wrerror),
            Store(cfg, More(rx, b), dest, isDir, e, times, wrerror), b)
    decreases |rx.input|, 2
  {
    hide Sink, ReceiveFile;
    assert ReportError(More(rx, b)) == More(ReportError(rx), b);
    if isDir {
      var inner := rx.(fs := rx.fs[dest := Folder]);
      assert More(rx, b).(fs := rx.fs[dest := Folder]) == More(inner, b);
      SinkProlonged(cfg, inner, dest, None, b);
    } else {
      FileProlonged(cfg.disk.room(dest), wrerror, rx, dest, e, times, b);
    }
  }

  lemma {:induction false} LoopProlonged(cfg: Config, rx: Rx, targ: Path, targIsDir: bool, src: Option<Blob>,
      wrerror: bool,
    b: Blob)
    ensures Goes(SinkLoop(cfg, rx, targ, targIsDir, src, wrerror),
            SinkLoop(cfg, More(rx, b), targ, targIsDir, src, wrerror), b)
    decreases |rx.input|, 0
  {
    hide GetAction, Destination, Store;
    ActionProlonged(cfg, rx, [], None, b);
    LoopGrows(cfg, More(rx, b), targ, targIsDir, src, wrerror);
    var act := GetAction(cfg, rx, [], None);
    if act.Item? && Destination(cfg, targ, targIsDir, src, act.entry.name).Some? {
      var dest := Destination(cfg, targ, targIsDir, src, act.entry.name).value;
      StoreProlonged(cfg, act.rx, dest, act.isDir, act.entry, act.times, wrerror, b);
      var x := Store(cfg, act.rx, dest, act.isDir, act.entry, act.times, wrerror);
      var y := Store(cfg, More(act.rx, b), dest, act.isDir, act.entry, act.times, wrerror);
      var bad := wrerror || WriteFails(cfg, act.rx.fs, dest, act.isDir, act.entry);
      if y.Done? {
        LoopGrows(cfg, y.rx, targ, targIsDir, src, bad);
      }
      if x.Done? {
        if x.rx.input == [] {
          AtTheEndOfInput(cfg, x.rx, targ, targIsDir, src, bad);
        } else {
          LoopProlonged(cfg, x.rx, targ, targIsDir, src, bad, b);
        }
      }
    }
  }

  lemma AtTheEndOfInput(cfg: Config, rx: Rx, targ: Path, targIsDir: bool, src: Option<Blob>, wrerror: bool)
    requires rx.input == []
    ensures SinkLoop(cfg, rx, targ, targIsDir, src, wrerror) == Done(rx)
  {
  }

  /** On a prefix of its input the receiver does a prefix of what it does on the whole. */
  lemma PrefixOfInput(cfg: Config, fs: Fs, targ: Path, src: Option<Blob>, a: Blob, b: Blob)
    ensures Sink(cfg, Rx(fs, a, []), targ, src).rx.trace <= Sink(cfg, Rx(fs, a + b, []), targ, src).rx.trace
  {
    hide Sink;
    SinkProlonged(cfg, Rx(fs, a, []), targ, src, b);
  }

  // ----- every schedule of a copy -----

  lemma SessionCompletes(ts: seq<Tree>, preserve: bool)
    ensures Complete(Session(ts, preserve))
  {
    hide Session;
    SessionIs(ts, preserve);
  }

  /** However far the sender has got, the receiver has done the beginning of its half of the session. */
  lemma ReceiverFollows(cfg: Config, fs: Fs, targ: Path, src: Option<Blob>, ts: seq<Tree>, preserve: bool, i: nat)
    requires cfg.recursive && IsFolder(fs, targ) && CleanTrees(ts) && Accepts(cfg, src, ts)
             && FitsAll(cfg.disk, fs, targ, ts, preserve)
    requires i <= |LeftOps(Session(ts, preserve))|
    ensures var ms := Session(ts, preserve);
            Sink(cfg, Rx(fs, Puts(LeftOps(ms)[..i]), []), targ, src).rx.trace <= RightOps(ms)
  {
    hide Complete, LeftOps, RightOps, Puts, Gets, OverlayAll, FitsAll, CleanTrees, Accepts, Sink, Session;
    CopyTheorem(cfg, fs, targ, src, ts, preserve);
    var ops := LeftOps(Session(ts, preserve));
    assert ops == ops[..i] + ops[i..];
    BytesAppend(ops[..i], ops[i..]);
    PrefixOfInput(cfg, fs, targ, src, Puts(ops[..i]), Puts(ops[i..]));
  }

  /**
   * Wherever sender and receiver have got to in a copy, one of them can go on unless both have
   * finished, and the byte that is read next is the one its reader's half says.
   */
  lemma CopyGoesOn(ts: seq<Tree>, preserve: bool, i: nat, j: nat)
    requires i <= |LeftOps(Session(ts, preserve))| && j <= |RightOps(Session(ts, preserve))|
    ensures var l, r := LeftOps(Session(ts, preserve)), RightOps(Session(ts, preserve));
            && (CanStep(l, i, r, j) || CanStep(r, j, l, i) || (i == |l| && j == |r|))
            && (CanStep(l, i, r, j) && l[i].Get? ==> NextByte(l, i, r, j) == l[i].b)
            && (CanStep(r, j, l, i) && r[j].Get? ==> NextByte(r, j, l, i) == r[j].b)
  {
    hide Complete, LeftOps, RightOps, Session, CanStep, Puts, Gets;
    var ms := Session(ts, preserve);
    SessionCompletes(ts, preserve);
    ExpectedByte(ms, i, j);
    if i < |LeftOps(ms)| || j < |RightOps(ms)| {
      NeverStuck(ms, i, j);
    }
  }

  /** A schedule of a copy that cannot be prolonged has finished it, and none is longer. */
  lemma EveryScheduleOfCopy(ts: seq<Tree>, preserve: bool, path: seq<bool>)
    requires Schedule(Session(ts, preserve), 0, 0, path)
    ensures var ms := Session(ts, preserve);
            && |path| <= |LeftOps(ms)| + |RightOps(ms)|
            && (|path| < |LeftOps(ms)| + |RightOps(ms)| ==>
                  Schedule(ms, 0, 0, path + [true]) || Schedule(ms, 0, 0, path + [false]))
  {
    hide Complete, LeftOps, RightOps, Session, Schedule;
    SessionCompletes(ts, preserve);
    EveryScheduleCompletes(Session(ts, preserve), 0, 0, path);
  }
}
