/**
 * Two processes joined by a byte stream in each direction. Each process is its own sequence of
 * puts and (blocking) gets. If the two sequences can be merged into one complete conversation,
 * then every way of scheduling the two processes completes that same conversation.
 */
module Duplex {
  import opened Bytes

  datatype Op = Put(b: byte) | Get(b: byte)

  datatype Move = L(op: Op) | R(op: Op)

  /** The images of the elements that have one, in order. */
  function Pick<T, U>(xs: seq<T>, f: T -> Option<U>): seq<U> {
    if xs == [] then []
    else match f(xs[0])
      case Some(u) => [u] + Pick(xs[1..], f)
      case None => Pick(xs[1..], f)
  }

  lemma {:induction false} PickAppend<T, U>(a: seq<T>, b: seq<T>, f: T -> Option<U>)
    ensures Pick(a + b, f) == Pick(a, f) + Pick(b, f)
  {
    if a == [] {
      assert a + b == b;
    } else {
      PickAppend(a[1..], b, f);
      assert (a + b)[1..] == a[1..] + b && (a + b)[0] == a[0];
      match f(a[0])
      case Some(u) => assert [u] + (Pick(a[1..], f) + Pick(b, f)) == [u] + Pick(a[1..], f) + Pick(b, f);
      case None =>
    }
  }

  lemma PickOne<T, U>(x: T, f: T -> Option<U>)
    ensures Pick([x], f) == if f(x).Some? then [f(x).value] else []
  {
    assert [x][1..] == [];
  }

  function PutByte(op: Op): Option<byte> {
    if op.Put? then Some(op.b) else None
  }

  function GetByte(op: Op): Option<byte> {
    if op.Get? then Some(op.b) else None
  }

  function LeftOp(m: Move): Option<Op> {
    if m.L? then Some(m.op) else None
  }

  function RightOp(m: Move): Option<Op> {
    if m.R? then Some(m.op) else None
  }

  function Puts(ops: seq<Op>): Blob {
    Pick(ops, PutByte)
  }

  function Gets(ops: seq<Op>): Blob {
    Pick(ops, GetByte)
  }

  function LeftOps(ms: seq<Move>): seq<Op> {
    Pick(ms, LeftOp)
  }

  function RightOps(ms: seq<Move>): seq<Op> {
    Pick(ms, RightOp)
  }

  /** The bytes in flight: from left to right, and from right to left. */
  datatype Wires = Wires(lr: Blob, rl: Blob)

  function Play(ms: seq<Move>, w: Wires): Option<Wires> {
    if ms == [] then Some(w)
    else match ms[0]
      case L(Put(b)) => Play(ms[1..], w.(lr := w.lr + [b]))
      case R(Put(b)) => Play(ms[1..], w.(rl := w.rl + [b]))
      case L(Get(b)) => if w.rl != [] && w.rl[0] == b then Play(ms[1..], w.(rl := w.rl[1..])) else None
      case R(Get(b)) => if w.lr != [] && w.lr[0] == b then Play(ms[1..], w.(lr := w.lr[1..])) else None
  }

  const QUIET := Wires([], [])

  /** A conversation from start to end: every byte put is got, and is the byte expected. */
  predicate Complete(ms: seq<Move>) {
    Play(ms, QUIET) == Some(QUIET)
  }

  // ----- sequencing conversations -----

  lemma {:induction false} PlayAppend(a: seq<Move>, b: seq<Move>, w: Wires)
    ensures Play(a + b, w) == (match Play(a, w) case Some(v) => Play(b, v) case None => None)
  {
    if a == [] {
      assert a + b == b;
    } else {
      assert (a + b)[1..] == a[1..] + b && (a + b)[0] == a[0];
      match a[0]
      case L(Put(c)) => PlayAppend(a[1..], b, w.(lr := w.lr + [c]));
      case R(Put(c)) => PlayAppend(a[1..], b, w.(rl := w.rl + [c]));
      case L(Get(c)) =>
        if w.rl != [] && w.rl[0] == c {
          PlayAppend(a[1..], b, w.(rl := w.rl[1..]));
        }
      case R(Get(c)) =>
        if w.lr != [] && w.lr[0] == c {
          PlayAppend(a[1..], b, w.(lr := w.lr[1..]));
        }
    }
  }

  lemma PlayCons(m: Move, ms: seq<Move>, w: Wires)
    ensures Play([m] + ms, w) ==
            match m
            case L(Put(b)) => Play(ms, w.(lr := w.lr + [b]))
            case R(Put(b)) => Play(ms, w.(rl := w.rl + [b]))
            case L(Get(b)) => if w.rl != [] && w.rl[0] == b then Play(ms, w.(rl := w.rl[1..])) else None
            case R(Get(b)) => if w.lr != [] && w.lr[0] == b then Play(ms, w.(lr := w.lr[1..])) else None
  {
    assert ([m] + ms)[1..] == ms;
  }

  lemma OpsCons(m: Move, ms: seq<Move>)
    ensures LeftOps([m] + ms) == if m.L? then [m.op] + LeftOps(ms) else LeftOps(ms)
    ensures RightOps([m] + ms) == if m.R? then [m.op] + RightOps(ms) else RightOps(ms)
  {
    PickCons(m, ms, LeftOp);
    PickCons(m, ms, RightOp);
  }

  lemma OpsAppend(a: seq<Move>, b: seq<Move>)
    ensures LeftOps(a + b) == LeftOps(a) + LeftOps(b)
    ensures RightOps(a + b) == RightOps(a) + RightOps(b)
  {
    PickAppend(a, b, LeftOp);
    PickAppend(a, b, RightOp);
  }

  lemma BytesAppend(a: seq<Op>, b: seq<Op>)
    ensures Puts(a + b) == Puts(a) + Puts(b)
    ensures Gets(a + b) == Gets(a) + Gets(b)
  {
    PickAppend(a, b, PutByte);
    PickAppend(a, b, GetByte);
  }

  lemma PickCons<T, U>(x: T, xs: seq<T>, f: T -> Option<U>)
    ensures Pick([x] + xs, f) == if f(x).Some? then [f(x).value] + Pick(xs, f) else Pick(xs, f)
  {
    assert ([x] + xs)[1..] == xs;
  }

  /** The bytes put and got by the two sides, with one more move in front. */
  lemma FirstMove(m: Move, ms: seq<Move>)
    ensures Puts(LeftOps([m] + ms)) == if m.L? && m.op.Put? then [m.op.b] + Puts(LeftOps(ms)) else Puts(LeftOps(ms))
    ensures Gets(LeftOps([m] + ms)) == if m.L? && m.op.Get? then [m.op.b] + Gets(LeftOps(ms)) else Gets(LeftOps(ms))
    ensures Puts(RightOps([m] + ms)) == if m.R? && m.op.Put? then [m.op.b] + Puts(RightOps(ms)) else Puts(RightOps(ms))
    ensures Gets(RightOps([m] + ms)) == if m.R? && m.op.Get? then [m.op.b] + Gets(RightOps(ms)) else Gets(RightOps(ms))
  {
    hide Pick;
    PickCons(m, ms, LeftOp);
    PickCons(m, ms, RightOp);
    PickCons(m.op, LeftOps(ms), PutByte);
    PickCons(m.op, LeftOps(ms), GetByte);
    PickCons(m.op, RightOps(ms), PutByte);
    PickCons(m.op, RightOps(ms), GetByte);
  }

  lemma PutShift(w: Blob, c: byte, p: Blob, g: Blob, v: Blob)
    requires (w + [c]) + p == g + v
    ensures w + ([c] + p) == g + v
  {
    assert w + ([c] + p) == (w + [c]) + p;
  }

  lemma GetShift(w: Blob, c: byte, p: Blob, g: Blob, v: Blob)
    requires w != [] && w[0] == c && w[1..] + p == g + v
    ensures w + p == ([c] + g) + v
  {
    assert w + p == [c] + (w[1..] + p);
    assert ([c] + g) + v == [c] + (g + v);
  }

  lemma CompleteAppend(a: seq<Move>, b: seq<Move>)
    requires Complete(a) && Complete(b)
    ensures Complete(a + b)
  {
    PlayAppend(a, b, QUIET);
  }

  /** What was in flight and is put, is got or still in flight: no byte is lost or reordered. */
  lemma {:induction false} Conservation(ms: seq<Move>, w: Wires)
    requires Play(ms, w).Some?
    ensures var v := Play(ms, w).value;
            && w.lr + Puts(LeftOps(ms)) == Gets(RightOps(ms)) + v.lr
            && w.rl + Puts(RightOps(ms)) == Gets(LeftOps(ms)) + v.rl
  {
    if ms != [] {
      var t := match ms[0]
        case L(Put(c)) => w.(lr := w.lr + [c])
        case R(Put(c)) => w.(rl := w.rl + [c])
        case L(Get(c)) => w.(rl := w.rl[1..])
        case R(Get(c)) => w.(lr := w.lr[1..]);
      assert Play(ms, w) == Play(ms[1..], t);
      Conservation(ms[1..], t);
      assert ms == [ms[0]] + ms[1..];
      FirstMove(ms[0], ms[1..]);
      hide LeftOps, RightOps, Puts, Gets;
      var v := Play(ms, w).value;
      assert Play(ms[1..], t).value == v;
      var (l, r) := (LeftOps(ms[1..]), RightOps(ms[1..]));
      hide Play;
      match ms[0]
      case L(Put(c)) => PutShift(w.lr, c, Puts(l), Gets(r), v.lr);
      case R(Put(c)) => PutShift(w.rl, c, Puts(r), Gets(l), v.rl);
      case L(Get(c)) => GetShift(w.rl, c, Puts(r), Gets(l), v.rl);
      case R(Get(c)) => GetShift(w.lr, c, Puts(l), Gets(r), v.lr);
    }
  }

  lemma WholeConversation(ms: seq<Move>)
    requires Complete(ms)
    ensures Puts(LeftOps(ms)) == Gets(RightOps(ms)) && Puts(RightOps(ms)) == Gets(LeftOps(ms))
  {
    hide LeftOps, RightOps, Puts, Gets, Play;
    Conservation(ms, QUIET);
    assert [] + Puts(LeftOps(ms)) == Puts(LeftOps(ms)) && [] + Puts(RightOps(ms)) == Puts(RightOps(ms));
    assert Gets(LeftOps(ms)) + [] == Gets(LeftOps(ms)) && Gets(RightOps(ms)) + [] == Gets(RightOps(ms));
  }

  // ----- all schedules -----

  /** A process that has done the first i of its operations may do the next. */
  predicate CanStep(mine: seq<Op>, i: nat, peer: seq<Op>, j: nat)
    requires i <= |mine| && j <= |peer|
  {
    i < |mine| && (mine[i].Get? ==> |Gets(mine[..i])| < |Puts(peer[..j])|)
  }

  /** The byte such a process would be given. */
  function NextByte(mine: seq<Op>, i: nat, peer: seq<Op>, j: nat): byte
    requires i <= |mine| && j <= |peer| && CanStep(mine, i, peer, j) && mine[i].Get?
  {
    Puts(peer[..j])[|Gets(mine[..i])|]
  }

  lemma PrefixBytes(ops: seq<Op>, i: nat, j: nat)
    requires i <= j <= |ops|
    ensures Puts(ops[..i]) <= Puts(ops[..j]) && Gets(ops[..i]) <= Gets(ops[..j])
  {
    assert ops[..j] == ops[..i] + ops[i..j];
    BytesAppend(ops[..i], ops[i..j]);
  }

  lemma PrefixOps(ms: seq<Move>, k: nat)
    requires k <= |ms|
    ensures LeftOps(ms[..k]) <= LeftOps(ms) && RightOps(ms[..k]) <= RightOps(ms)
    ensures k < |ms| && ms[k].L? ==>
      |LeftOps(ms[..k])| < |LeftOps(ms)| && LeftOps(ms)[|LeftOps(ms[..k])|] == ms[k].op
    ensures k < |ms| && ms[k].R? ==>
      |RightOps(ms[..k])| < |RightOps(ms)| && RightOps(ms)[|RightOps(ms[..k])|] == ms[k].op
    ensures k < |ms| ==> LeftOps(ms[..k + 1]) == LeftOps(ms[..k]) + (if ms[k].L? then [ms[k].op] else [])
    ensures k < |ms| ==> RightOps(ms[..k + 1]) == RightOps(ms[..k]) + (if ms[k].R? then [ms[k].op] else [])
  {
    assert ms == ms[..k] + ms[k..];
    OpsAppend(ms[..k], ms[k..]);
    if k < |ms| {
      assert ms[..k + 1] == ms[..k] + [ms[k]];
      OpsAppend(ms[..k], [ms[k]]);
      PickOne(ms[k], LeftOp);
      PickOne(ms[k], RightOp);
      assert ms == ms[..k + 1] + ms[k + 1..];
      OpsAppend(ms[..k + 1], ms[k + 1..]);
    }
  }

  /** The next move of the conversation finds its byte already there. */
  lemma NextMoveReady(ms: seq<Move>, k: nat)
    requires Complete(ms) && k < |ms|
    ensures ms[k] == L(ms[k].op) && ms[k].op.Get? ==> |Gets(LeftOps(ms[..k]))| < |Puts(RightOps(ms[..k]))|
    ensures ms[k] == R(ms[k].op) && ms[k].op.Get? ==> |Gets(RightOps(ms[..k]))| < |Puts(LeftOps(ms[..k]))|
  {
    assert ms == ms[..k] + ms[k..];
    PlayAppend(ms[..k], ms[k..], QUIET);
    Conservation(ms[..k], QUIET);
    assert ms[k..][0] == ms[k];
    var v := Play(ms[..k], QUIET).value;
    assert Play(ms[k..], v).Some?;
  }

  /** Wherever the two processes have got to, one of them can go on unless both have finished. */
  lemma {:induction false} NeverStuckFrom(ms: seq<Move>, k: nat, i: nat, j: nat)
    requires Complete(ms) && k <= |ms|
    requires |LeftOps(ms[..k])| <= i <= |LeftOps(ms)| && |RightOps(ms[..k])| <= j <= |RightOps(ms)|
    requires i < |LeftOps(ms)| || j < |RightOps(ms)|
    ensures CanStep(LeftOps(ms), i, RightOps(ms), j) || CanStep(RightOps(ms), j, LeftOps(ms), i)
    decreases |ms| - k
  {
    hide Play, LeftOps, RightOps, Puts, Gets;
    PrefixOps(ms, k);
    assert ms[..|ms|] == ms;
    assert k < |ms|;
    var (a, b) := (LeftOps(ms[..k]), RightOps(ms[..k]));
    if (ms[k].L? && |a| < i) || (ms[k].R? && |b| < j) {
      NeverStuckFrom(ms, k + 1, i, j);
    } else {
      NextMoveReady(ms, k);
      assert LeftOps(ms)[..|a|] == a && RightOps(ms)[..|b|] == b;
      PrefixBytes(RightOps(ms), |b|, j);
      PrefixBytes(LeftOps(ms), |a|, i);
    }
  }

  lemma NeverStuck(ms: seq<Move>, i: nat, j: nat)
    requires Complete(ms) && i <= |LeftOps(ms)| && j <= |RightOps(ms)|
    requires i < |LeftOps(ms)| || j < |RightOps(ms)|
    ensures CanStep(LeftOps(ms), i, RightOps(ms), j) || CanStep(RightOps(ms), j, LeftOps(ms), i)
  {
    NeverStuckFrom(ms, 0, i, j);
  }

  /** Whatever the schedule, the byte a process is given is the one its sequence says. */
  lemma ExpectedByte(ms: seq<Move>, i: nat, j: nat)
    requires Complete(ms) && i <= |LeftOps(ms)| && j <= |RightOps(ms)|
    ensures var (a, b) := (LeftOps(ms), RightOps(ms));
            && (CanStep(a, i, b, j) && a[i].Get? ==> NextByte(a, i, b, j) == a[i].b)
            && (CanStep(b, j, a, i) && b[j].Get? ==> NextByte(b, j, a, i) == b[j].b)
  {
    hide Play, LeftOps, RightOps;
    var (a, b) := (LeftOps(ms), RightOps(ms));
    WholeConversation(ms);
    if CanStep(a, i, b, j) && a[i].Get? {
      GetAt(a, i);
      assert b[..|b|] == b;
      PrefixBytes(b, j, |b|);
    }
    if CanStep(b, j, a, i) && b[j].Get? {
      GetAt(b, j);
      assert a[..|a|] == a;
      PrefixBytes(a, i, |a|);
    }
  }

  lemma GetAt(ops: seq<Op>, i: nat)
    requires i < |ops| && ops[i].Get?
    ensures |Gets(ops[..i])| < |Gets(ops)| && Gets(ops)[|Gets(ops[..i])|] == ops[i].b
  {
    assert ops == ops[..i] + [ops[i]] + ops[i + 1..];
    BytesAppend(ops[..i] + [ops[i]], ops[i + 1..]);
    BytesAppend(ops[..i], [ops[i]]);
    PickOne(ops[i], GetByte);
  }

  /** Every step of the path (true for the left process) is one its process may take. */
  predicate Schedule(ms: seq<Move>, i: nat, j: nat, path: seq<bool>)
    requires i <= |LeftOps(ms)| && j <= |RightOps(ms)|
    decreases |path|
  {
    path == [] ||
    (if path[0] then CanStep(LeftOps(ms), i, RightOps(ms), j) && Schedule(ms, i + 1, j, path[1..])
     else CanStep(RightOps(ms), j, LeftOps(ms), i) && Schedule(ms, i, j + 1, path[1..]))
  }

  /**
   * A schedule that cannot be prolonged has run both processes to their ends, so every maximal
   * schedule has the same length, and there is no infinite one.
   */
  lemma {:induction false} EveryScheduleCompletes(ms: seq<Move>, i: nat, j: nat, path: seq<bool>)
    requires Complete(ms) && i <= |LeftOps(ms)| && j <= |RightOps(ms)| && Schedule(ms, i, j, path)
    ensures |path| <= |LeftOps(ms)| - i + |RightOps(ms)| - j
    ensures |path| < |LeftOps(ms)| - i + |RightOps(ms)| - j ==>
              Schedule(ms, i, j, path + [true]) || Schedule(ms, i, j, path + [false])
    decreases |path|
  {
    hide LeftOps, RightOps, Complete, Puts, Gets;
    if path == [] {
      if i < |LeftOps(ms)| || j < |RightOps(ms)| {
        NeverStuck(ms, i, j);
        assert [true][1..] == [] && [false][1..] == [] && path + [true] == [true] && path + [false] == [false];
      }
    } else {
      assert (path + [true])[1..] == path[1..] + [true] && (path + [false])[1..] == path[1..] + [false];
      if path[0] {
        EveryScheduleCompletes(ms, i + 1, j, path[1..]);
      } else {
        EveryScheduleCompletes(ms, i, j + 1, path[1..]);
      }
    }
  }
}
