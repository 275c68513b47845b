/**
 * The SCP1 copy protocol: the sending half over a file tree, and the receiving half over whatever
 * bytes arrive. Each half is a sequence of puts and gets; the receiver also builds a file system.
 */
module Scp {
  import opened Bytes
  import opened Duplex
  import opened ScpWire
  import opened Text

  datatype Tree =
    | File(name: Blob, perms: int, mtime: nat, atime: nat, data: Blob)
    | Dir(name: Blob, kids: seq<Tree>)

  type Path = seq<Blob>

  datatype Node = Folder | Regular(data: Blob, perms: int, times: Option<Times>)

  type Fs = map<Path, Node>

  function Sends(b: Blob): seq<Op> {
    seq(|b|, i requires 0 <= i < |b| => Put(b[i]))
  }

  function Receives(b: Blob): seq<Op> {
    seq(|b|, i requires 0 <= i < |b| => Get(b[i]))
  }

  /** Waiting for the peer's response, which is one zero byte when all is well. */
  const AWAIT: seq<Op> := [Get(0)]

  const ACK: seq<Op> := [Put(0)]

  /** The mode that goes on the wire: a file of unknown mode is sent as 0644. */
  function Mode(perms: int): nat {
    if perms < 0 then 420 else perms % 4096
  }

  // ----- the sender -----

  function SourceOps(t: Tree, preserve: bool): seq<Op> {
    match t
    case File(name, perms, mtime, atime, data) =>
      (if preserve then Sends(TimeLine(mtime, atime)) + AWAIT else [])
      + (Sends(FileLine(Mode(perms), |data|, name)) + AWAIT + Sends(data) + Sends([0]) + AWAIT)
    case Dir(name, kids) =>
      Sends(DirLine(name)) + AWAIT + SourcesOps(kids, preserve) + Sends(END_LINE) + AWAIT
  }

  function SourcesOps(ts: seq<Tree>, preserve: bool): seq<Op> {
    if ts == [] then [] else SourceOps(ts[0], preserve) + SourcesOps(ts[1..], preserve)
  }

  class Sender {
    const preserve: bool
    var trace: seq<Op>

    constructor (preserve: bool)
      ensures this.preserve == preserve && trace == []
    {
      this.preserve := preserve;
      trace := [];
    }

    method Send(b: Blob)
      modifies this
      ensures trace == old(trace) + Sends(b)
    {
      trace := trace + Sends(b);
    }

    method Response()
      modifies this
      ensures trace == old(trace) + AWAIT
    {
      trace := trace + AWAIT;
    }

    /** source: one file in blocks of at most 4096 bytes, or one directory. */
    method Source(t: Tree)
      modifies this
      ensures trace == old(trace) + SourceOps(t, preserve)
      decreases t, 1
    {
      hide Sends, FileLine, DirLine, TimeLine;
      match t
      case File(name, perms, mtime, atime, data) =>
        if preserve {
          Send(TimeLine(mtime, atime));
          Response();
        }
        ghost var mid := trace;
        Send(FileLine(Mode(perms), |data|, name));
        Response();
        SendData(data);
        Send([0]);
        Response();
        assert trace == mid + (Sends(FileLine(Mode(perms), |data|, name)) + AWAIT + Sends(data) + Sends([0]) + AWAIT);
      case Dir(name, kids) => RSource(name, kids);
    }

    method SendData(data: Blob)
      modifies this
      ensures trace == old(trace) + Sends(data)
    {
      var i := 0;
      while i < |data|
        invariant 0 <= i <= |data|
        invariant trace == old(trace) + Sends(data[..i])
      {
        var k := 4096;
        if i + k > |data| {
          k := |data| - i;
        }
        SendsAppend(data[..i], data[i..i + k]);
        assert data[..i] + data[i..i + k] == data[..i + k];
        Send(data[i..i + k]);
        i := i + k;
      }
      assert data[..i] == data;
    }

    /** rsource */
    method RSource(name: Blob, kids: seq<Tree>)
      modifies this
      ensures trace == old(trace) + SourceOps(Dir(name, kids), preserve)
      decreases kids, 2
    {
      hide Sends, DirLine;
      Send(DirLine(name));
      Response();
      ghost var mid := trace;
      SendKids(kids);
      Send(END_LINE);
      Response();
      assert trace == mid + SourcesOps(kids, preserve) + Sends(END_LINE) + AWAIT;
    }

    method SendKids(kids: seq<Tree>)
      modifies this
      ensures trace == old(trace) + SourcesOps(kids, preserve)
      decreases kids, 1
    {
      hide SourceOps;
      for i := 0 to |kids|
        invariant trace == old(trace) + SourcesOps(kids[..i], preserve)
      {
        SourcesAppend(kids[..i], kids[i], preserve);
        assert kids[..i + 1] == kids[..i] + [kids[i]];
        Source(kids[i]);
      }
      assert kids[..|kids|] == kids;
    }
  }

  lemma SendsAppend(a: Blob, b: Blob)
    ensures Sends(a + b) == Sends(a) + Sends(b)
  {
  }

  lemma {:induction false} SourcesAppend(ts: seq<Tree>, t: Tree, preserve: bool)
    ensures SourcesOps(ts + [t], preserve) == SourcesOps(ts, preserve) + SourceOps(t, preserve)
  {
    hide SourceOps;
    if ts == [] {
      assert [t][1..] == [] && ts + [t] == [t];
      assert SourcesOps([t], preserve) == SourceOps(t, preserve) + SourcesOps([], preserve);
    } else {
      SourcesAppend(ts[1..], t, preserve);
      assert (ts + [t])[1..] == ts[1..] + [t] && (ts + [t])[0] == ts[0];
    }
  }

  // ----- the receiver -----

  /** What the local disk refuses: directories, files, and bytes of a file beyond the room it has. */
  datatype Disk = Disk(noDir: Path -> bool, noFile: Path -> bool, room: Path -> Option<nat>)

  datatype Config = Config(recursive: bool, targetShouldBeDirectory: bool, unsafe: bool, disk: Disk)

  datatype Rx = Rx(fs: Fs, input: Blob, trace: seq<Op>)

  /** Done: the level ended normally. Bumped: the program gave up, having done what the trace says. */
  datatype Result = Done(rx: Rx) | Bumped(rx: Rx)

  function AckRx(rx: Rx): Rx {
    rx.(trace := rx.trace + ACK)
  }

  function Take(rx: Rx, n: nat): Rx
    requires n <= |rx.input|
  {
    rx.(input := rx.input[n..], trace := rx.trace + Receives(rx.input[..n]))
  }

  datatype Action =
    | Item(isDir: bool, entry: Entry, times: Option<Times>, rx: Rx)
    | EndDir(rx: Rx)
    | Closed(rx: Rx)
    | Fatal(rx: Rx)

  /** scp_get_sink_action: the text of an error record stays in the buffer, as in the code. */
  function GetAction(cfg: Config, rx: Rx, buf: Blob, times: Option<Times>): (a: Action)
    ensures a.Item? || a.EndDir? ==> |a.rx.input| < |rx.input|
    ensures |a.rx.input| <= |rx.input|
    decreases |rx.input|
  {
    if rx.input == [] then Closed(rx)
    else if rx.input[0] == NL then Fatal(rx)
    else match Find(rx.input, NL)
      case None => Fatal(rx)
      case Some(k) =>
        var r := Take(rx, k + 1);
        var text := buf + rx.input[1..k];
        var c := rx.input[0];
        if c == 1 then GetAction(cfg, r, text, times)
        else if c == CHAR_E then EndDir(AckRx(r))
        else if c == CHAR_T then
          (match ParseTimes(text) case Some(t) => GetAction(cfg, AckRx(r), [], Some(t)) case None => Fatal(r))
        else if c == CHAR_C || (c == CHAR_D && cfg.recursive) then
          (match ParseEntry(text) case Some(e) => Item(c == CHAR_D, e, times, r) case None => Fatal(r))
        else Fatal(r)
  }

  /** The part after the last separator. */
  function AfterLast(name: Blob, sep: byte): Blob
    decreases |name|
  {
    if sep in name then AfterFirst(name, sep) else name
  }

  function AfterFirst(name: Blob, sep: byte): Blob
    requires sep in name
    decreases |name|
  {
    if name[0] == sep then (if sep in name[1..] then AfterFirst(name[1..], sep) else name[1..])
    else AfterFirst(name[1..], sep)
  }

  function AfterColon(name: Blob): Blob {
    if ':' as int !in name then name
    else if name[0] == ':' as int then name[1..]
    else AfterColon(name[1..])
  }

  /** stripslashes on a local name, on Windows: a colon and both slashes separate components. */
  function StripSlashes(name: Blob): Blob {
    AfterLast(AfterLast(AfterColon(name), '/' as int), '\\' as int)
  }

  /** Where an announced item goes; None is the security violation of an all-dots name. */
  function Destination(cfg: Config, targ: Path, targIsDir: bool, src: Option<Blob>, name: Blob): Option<Path> {
    if !targIsDir then Some(targ)
    else
      var strip := StripSlashes(name);
      if Only(strip, '.' as int) then None
      else if src.Some? && strip != StripSlashes(src.value) && !cfg.unsafe then Some(targ + [StripSlashes(src.value)])
      else Some(targ + [strip])
  }

  function IsFolder(fs: Fs, p: Path): bool {
    p in fs && fs[p].Folder?
  }

  /** An error goes to the peer as a record of type 1 (its wording is not modelled). */
  function ReportError(rx: Rx): Rx {
    rx.(trace := rx.trace + Sends([1, NL]))
  }

  /** response on the receiving side; None when the program gives up. */
  function ReadResponse(rx: Rx): Option<Rx> {
    if rx.input == [] then None
    else if rx.input[0] == 0 then Some(Take(rx, 1))
    else if rx.input[0] != 1 then None
    else
      var n := match Find(rx.input[1..], NL) case Some(k) => (if k < 2048 then k + 1 else 2048) case None => 2048;
      if 1 + n <= |rx.input| then Some(Take(rx, 1 + n)) else None
  }

  /** How many bytes of a file get written: all of them, or as many as there is room for. */
  function Written(room: Option<nat>, size: nat): (n: nat)
    ensures n <= size
  {
    if room.Some? && room.value < size then room.value else size
  }

  /**
   * After a write error the rest is received all the same and an error goes to the peer at the end.
   * The flag lasts as long as the level: once it is set, nothing of later files is written either.
   */
  function ReceiveFile(room: Option<nat>, wrerror: bool, rx: Rx, dest: Path, e: Entry,
      times: Option<Times>): (r: Result)
    ensures r.Done? ==> |r.rx.input| <= |rx.input|
  {
    var o := AckRx(rx.(fs := rx.fs[dest := Regular([], e.perms, None)]));
    if e.size < 0 || |o.input| < e.size then Bumped(o)
    else
      var n := if wrerror then 0 else Written(room, e.size);
      var d := Take(o, e.size);
      var w := d.(fs := d.fs[dest := Regular(o.input[..n], e.perms, times)]);
      if wrerror || n < e.size then Done(ReportError(w))
      else match ReadResponse(AckRx(w)) case Some(r) => Done(r) case None => Bumped(AckRx(w))
  }

  function Sink(cfg: Config, rx: Rx, targ: Path, src: Option<Blob>): (r: Result)
    ensures r.Done? ==> |r.rx.input| <= |rx.input|
    decreases |rx.input|, 1
  {
    if cfg.targetShouldBeDirectory && !IsFolder(rx.fs, targ) then Bumped(rx)
    else SinkLoop(cfg, AckRx(rx), targ, IsFolder(rx.fs, targ), src, false)
  }

  /** wrerror is set once a write has failed in this level. */
  function SinkLoop(cfg: Config, rx: Rx, targ: Path, targIsDir: bool, src: Option<Blob>, wrerror: bool): (r: Result)
    ensures r.Done? ==> |r.rx.input| <= |rx.input|
    decreases |rx.input|, 0
  {
    match GetAction(cfg, rx, [], None)
    case Closed(r) => Done(r)
    case EndDir(r) => Done(r)
    case Fatal(r) => Bumped(r)
    case Item(isDir, e, times, r) =>
      match Destination(cfg, targ, targIsDir, src, e.name)
      case None => Bumped(r)
      case Some(dest) =>
        var got := Store(cfg, r, dest, isDir, e, times, wrerror);
        if got.Bumped? then got
        else SinkLoop(cfg, got.rx, targ, targIsDir, src, wrerror || WriteFails(cfg, r.fs, dest, isDir, e))
  }

  /** The item is a file that is opened and for which there is not enough room. */
  predicate WriteFails(cfg: Config, fs: Fs, dest: Path, isDir: bool, e: Entry) {
    && !isDir && !IsFolder(fs, dest) && !cfg.disk.noFile(dest)
    && e.size >= 0 && Written(cfg.disk.room(dest), e.size) < e.size
  }

  /** One announced item: a directory is a level of its own, and what cannot be stored is reported. */
  function Store(cfg: Config, rx: Rx, dest: Path, isDir: bool, e: Entry, times: Option<Times>,
      wrerror: bool): (r: Result)
    ensures r.Done? ==> |r.rx.input| <= |rx.input|
    decreases |rx.input|, 2
  {
    if isDir then
      if dest in rx.fs && !rx.fs[dest].Folder? then Done(ReportError(rx))
      else if dest !in rx.fs && cfg.disk.noDir(dest) then Done(ReportError(rx))
      else Sink(cfg, rx.(fs := rx.fs[dest := Folder]), dest, None)
    else if IsFolder(rx.fs, dest) || cfg.disk.noFile(dest) then Done(ReportError(rx))
    else ReceiveFile(cfg.disk.room(dest), wrerror, rx, dest, e, times)
  }

  class Receiver {
    const cfg: Config
    var fs: Fs
    var input: Blob
    var trace: seq<Op>

    ghost function View(): Rx
      reads this
    {
      Rx(fs, input, trace)
    }

    constructor (cfg: Config, fs: Fs, input: Blob)
      ensures this.cfg == cfg && View() == Rx(fs, input, [])
    {
      this.cfg, this.fs, this.input, trace := cfg, fs, input, [];
    }

    method Load(rx: Rx)
      modifies this
      ensures View() == rx
    {
      fs, input, trace := rx.fs, rx.input, rx.trace;
    }

    /**
     * The transfer loop: blocks of at most 32768 bytes, until the announced size has been received.
     * A block is written as far as there is room; after the first that is cut short, in this file or
     * one before it (failed), nothing is written.
     */
    method ReceiveData(size: nat, room: Option<nat>, failed: bool) returns (ok: bool, written: Blob, wrerror: bool)
      modifies this`input, this`trace
      ensures ok <==> size <= |old(input)|
      ensures old(trace) <= trace
      ensures ok ==> View() == Take(old(View()), size)
      ensures ok ==> written == old(input)[..if failed then 0 else Written(room, size)]
      ensures ok ==> (wrerror <==> failed || Written(room, size) < size)
    {
      hide Receives, Written;
      written, wrerror := [], failed;
      var received := 0;
      ghost var was := View();
      assert input[0..] == input && Receives([]) == [] && Written(room, 0) == 0 by { NothingYet(room); }
      while received < size
        invariant received <= size && received <= |was.input| && input == was.input[received..]
        invariant trace == was.trace + Receives(was.input[..received]) && fs == was.fs
        invariant written == was.input[..if failed then 0 else Written(room, received)]
        invariant wrerror <==> failed || Written(room, received) < received
        decreases size - received
      {
        var blksize := 32768;
        if blksize > size - received {
          blksize := size - received;
        }
        if blksize > |input| {
          return false, written, wrerror;
        }
        var block := input[..blksize];
        OneMoreBlock(was.input, received, blksize, room);
        trace := trace + Receives(block);
        if !wrerror {
          var n := if room.Some? && room.value - |written| < blksize then room.value - |written| else blksize;
          written := written + block[..n];
          wrerror := n < blksize;
        }
        input := input[blksize..];
        received := received + blksize;
      }
      ok := true;
    }

    /** sink: one level of the receiver, which calls itself for each directory. */
    method RunSink(targ: Path, src: Option<Blob>) returns (ok: bool)
      modifies this
      ensures var result := Sink(cfg, old(View()), targ, src);
              if ok then result == Done(View()) else result.Bumped? && result.rx.trace <= trace && result.rx.fs == fs
      decreases |input|, 1
    {
      hide GetAction, Destination, Store;
      ghost var start := View();
      var targIsDir := IsFolder(fs, targ);
      if cfg.targetShouldBeDirectory && !targIsDir {
        return false;
      }
      trace := trace + ACK;
      var wrerror := false;
      ghost var result := SinkLoop(cfg, View(), targ, targIsDir, src, false);
      while true
        invariant SinkLoop(cfg, View(), targ, targIsDir, src, wrerror) == result
        invariant |input| <= |start.input|
        decreases |input|
      {
        var act := GetAction(cfg, Rx(fs, input, trace), [], None);
        if act.Fatal? {
          Load(act.rx);
          return false;
        }
        if act.Closed? || act.EndDir? {
          Load(act.rx);
          return true;
        }
        var dest := Destination(cfg, targ, targIsDir, src, act.entry.name);
        Load(act.rx);
        if dest.None? {
          return false;
        }
        var stored;
        stored, wrerror := RunStore(dest.value, act.isDir, act.entry, act.times, wrerror);
        if !stored {
          return false;
        }
      }
    }

    method RunStore(dest: Path, isDir: bool, e: Entry, times: Option<Times>, failed: bool)
        returns (ok: bool, wrerror: bool)
      modifies this
      ensures ok ==> (wrerror <==> failed || WriteFails(cfg, old(fs), dest, isDir, e))
      ensures var result := Store(cfg, old(View()), dest, isDir, e, times, failed);
              if ok then result == Done(View()) else result.Bumped? && result.rx.trace <= trace && result.rx.fs == fs
      decreases |input|, 2
    {
      hide ReceiveFile, Sink;
      wrerror := failed;
      if isDir {
        if (dest in fs && !fs[dest].Folder?) || (dest !in fs && cfg.disk.noDir(dest)) {
          Load(ReportError(Rx(fs, input, trace)));
          return true, wrerror;
        }
        fs := fs[dest := Folder];
        ok := RunSink(dest, None);
      } else if IsFolder(fs, dest) || cfg.disk.noFile(dest) {
        Load(ReportError(Rx(fs, input, trace)));
        ok := true;
      } else {
        ok, wrerror := RunReceiveFile(dest, e, times, failed);
      }
    }

    method RunReceiveFile(dest: Path, e: Entry, times: Option<Times>, failed: bool) returns (ok: bool, wrerror: bool)
      modifies this
      ensures ok ==> (wrerror <==> failed || (e.size >= 0 && Written(cfg.disk.room(dest), e.size) < e.size))
      ensures var result := ReceiveFile(cfg.disk.room(dest), failed, old(View()), dest, e, times);
              if ok then result == Done(View()) && |input| <= |old(input)|
              else result.Bumped? && result.rx.trace <= trace && result.rx.fs == fs
    {
      fs := fs[dest := Regular([], e.perms, None)];
      trace := trace + ACK;
      wrerror := failed;
      if e.size < 0 {
        return false, wrerror;
      }
      var written;
      ok, written, wrerror := ReceiveData(e.size, cfg.disk.room(dest), failed);
      if !ok {
        return;
      }
      fs := fs[dest := Regular(written, e.perms, times)];
      if wrerror {
        Load(ReportError(Rx(fs, input, trace)));
        return;
      }
      trace := trace + ACK;
      match ReadResponse(Rx(fs, input, trace))
      case Some(r) => Load(r);
      case None => ok := false;
    }
  }

  lemma NothingYet(room: Option<nat>)
    ensures Receives([]) == [] && Written(room, 0) == 0
  {
  }

  /** What a block of size b after the first r bytes adds to what is received and to what is written. */
  lemma OneMoreBlock(input: Blob, r: nat, b: nat, room: Option<nat>)
    requires r + b <= |input|
    ensures var block, w := input[r..][..b], Written(room, r);
            && Receives(input[..r + b]) == Receives(input[..r]) + Receives(block)
            && input[r..][b..] == input[r + b..]
            && (w < r ==> Written(room, r + b) == w)
            && (w == r ==>
                  var n := if room.Some? && room.value - r < b then room.value - r else b;
                  0 <= n <= b && Written(room, r + b) == r + n && input[..r] + block[..n] == input[..r + n])
  {
    var block := input[r..][..b];
    assert input[..r] + block == input[..r + b];
    ReceivesAppend(input[..r], block);
  }

  lemma ReceivesAppend(a: Blob, b: Blob)
    ensures Receives(a + b) == Receives(a) + Receives(b)
  {
  }
}
