/**
 * The line discipline's input queue: bytes waiting beside a list of typed chunks, delivered to a
 * password prompt, to the line editor or to the back end.
 */
module Ldisc {
  import opened Bytes

  datatype InputType = Normal | Dedicated | Noninteractive

  datatype Chunk = Chunk(ty: InputType, size: nat)

  /** A typed byte. */
  datatype Tag = Tag(c: byte, ty: InputType)

  datatype Queue = Queue(bytes: Blob, chunks: seq<Chunk>)

  function Total(chunks: seq<Chunk>): nat {
    if chunks == [] then 0 else chunks[0].size + Total(chunks[1..])
  }

  /** What the queue means: every byte with the type of the chunk it falls in. */
  function Tags(q: Queue): (r: seq<Tag>)
    requires Total(q.chunks) == |q.bytes|
    ensures |r| == |q.bytes|
    decreases |q.chunks|
  {
    if q.chunks == [] then []
    else
      var k := q.chunks[0];
      Tagged(q.bytes[..k.size], k.ty) + Tags(Queue(q.bytes[k.size..], q.chunks[1..]))
  }

  function Tagged(bytes: Blob, ty: InputType): (r: seq<Tag>)
    ensures |r| == |bytes| && forall i :: 0 <= i < |r| ==> r[i] == Tag(bytes[i], ty)
  {
    seq(|bytes|, i requires 0 <= i < |bytes| => Tag(bytes[i], ty))
  }

  /** Chunks are not empty, neighbours differ in type, and the sizes add up to the bytes. */
  predicate Valid(q: Queue): (v: bool)
    ensures v ==> Total(q.chunks) == |q.bytes|
  {
    && Total(q.chunks) == |q.bytes|
    && (forall i :: 0 <= i < |q.chunks| ==> q.chunks[i].size > 0)
    && (forall i :: 0 <= i < |q.chunks| - 1 ==> q.chunks[i].ty != q.chunks[i + 1].ty)
  }

  // ----- adding -----

  function Extend(chunks: seq<Chunk>, ty: InputType, n: nat): seq<Chunk> {
    if chunks != [] && chunks[|chunks| - 1].ty == ty then
      chunks[..|chunks| - 1] + [Chunk(ty, chunks[|chunks| - 1].size + n)]
    else chunks + [Chunk(ty, n)]
  }

  function Add(q: Queue, bytes: Blob, ty: InputType): Queue {
    Queue(q.bytes + bytes, Extend(q.chunks, ty, |bytes|))
  }

  lemma {:induction false} TotalAppend(a: seq<Chunk>, b: seq<Chunk>)
    ensures Total(a + b) == Total(a) + Total(b)
  {
    if a == [] {
      assert a + b == b;
    } else {
      assert (a + b)[1..] == a[1..] + b;
      TotalAppend(a[1..], b);
    }
  }

  lemma {:induction false} TagsAppend(a: Queue, b: Queue)
    requires Total(a.chunks) == |a.bytes| && Total(b.chunks) == |b.bytes|
    ensures Total(a.chunks + b.chunks) == |a.bytes + b.bytes|
    ensures Tags(Queue(a.bytes + b.bytes, a.chunks + b.chunks)) == Tags(a) + Tags(b)
    decreases |a.chunks|
  {
    hide Tagged, Tags;
    TotalAppend(a.chunks, b.chunks);
    var q := Queue(a.bytes + b.bytes, a.chunks + b.chunks);
    if a.chunks == [] {
      assert q == b && Tags(a) == [];
    } else {
      var k := a.chunks[0];
      var rest := Queue(a.bytes[k.size..], a.chunks[1..]);
      TagsStep(a);
      TagsStep(q);
      TagsAppend(rest, b);
      assert q.chunks[1..] == rest.chunks + b.chunks && q.bytes[k.size..] == rest.bytes + b.bytes;
      assert q.bytes[..k.size] == a.bytes[..k.size];
    }
  }

  lemma TagsStep(q: Queue)
    requires Total(q.chunks) == |q.bytes| && q.chunks != []
    ensures var k := q.chunks[0];
            k.size <= |q.bytes|
            && Tags(q) == Tagged(q.bytes[..k.size], k.ty) + Tags(Queue(q.bytes[k.size..], q.chunks[1..]))
  {
  }

  lemma TagsOne(bytes: Blob, ty: InputType)
    ensures Total([Chunk(ty, |bytes|)]) == |bytes| && Tags(Queue(bytes, [Chunk(ty, |bytes|)])) == Tagged(bytes, ty)
  {
    assert [Chunk(ty, |bytes|)][1..] == [] && Total([]) == 0;
    assert bytes[..|bytes|] == bytes;
  }

  /** New bytes go to the end with their type; nothing else changes. */
  lemma AddIs(q: Queue, bytes: Blob, ty: InputType)
    requires Valid(q) && bytes != []
    ensures Valid(Add(q, bytes, ty)) && Tags(Add(q, bytes, ty)) == Tags(q) + Tagged(bytes, ty)
  {
    hide Tagged, Tags, Valid;
    ExtendValid(q, bytes, ty);
    var n := |q.chunks|;
    if n > 0 && q.chunks[n - 1].ty == ty {
      LastGrows(q, bytes);
    } else {
      TagsOne(bytes, ty);
      TagsAppend(q, Queue(bytes, [Chunk(ty, |bytes|)]));
    }
  }

  lemma ExtendValid(q: Queue, bytes: Blob, ty: InputType)
    requires Valid(q) && bytes != []
    ensures Valid(Add(q, bytes, ty))
  {
    hide Total;
    var n := |q.chunks|;
    TotalOne(Chunk(ty, |bytes|));
    if n > 0 && q.chunks[n - 1].ty == ty {
      var (front, last) := (q.chunks[..n - 1], q.chunks[n - 1]);
      assert q.chunks == front + [last];
      TotalOne(last);
      TotalOne(Chunk(ty, last.size + |bytes|));
      TotalAppend(front, [last]);
      TotalAppend(front, [Chunk(ty, last.size + |bytes|)]);
    } else {
      TotalAppend(q.chunks, [Chunk(ty, |bytes|)]);
    }
  }

  lemma LastGrows(q: Queue, bytes: Blob)
    requires Total(q.chunks) == |q.bytes| && q.chunks != []
    ensures var ty := q.chunks[|q.chunks| - 1].ty; var r := Add(q, bytes, ty);
            Total(r.chunks) == |r.bytes| && Tags(r) == Tags(q) + Tagged(bytes, ty)
  {
    hide Tagged, Tags, Total;
    var n := |q.chunks|;
    var (front, last) := (q.chunks[..n - 1], q.chunks[n - 1]);
    assert q.chunks == front + [last];
    TotalAppend(front, [last]);
    TotalOne(last);
    var cut := |q.bytes| - last.size;
    var (a, b) := (Queue(q.bytes[..cut], front), q.bytes[cut..]);
    TagsOne(b, last.ty);
    TagsOne(b + bytes, last.ty);
    TagsAppend(a, Queue(b, [last]));
    TagsAppend(a, Queue(b + bytes, [Chunk(last.ty, |b + bytes|)]));
    assert q.bytes == a.bytes + b && q.bytes + bytes == a.bytes + (b + bytes);
    TaggedAppend(b, bytes, last.ty);
    assert Tags(a) + (Tagged(b, last.ty) + Tagged(bytes, last.ty))
           == Tags(a) + Tagged(b, last.ty) + Tagged(bytes, last.ty);
  }

  lemma TotalOne(k: Chunk)
    ensures Total([k]) == k.size
  {
    assert [k][1..] == [];
  }

  lemma TaggedAppend(a: Blob, b: Blob, ty: InputType)
    ensures Tagged(a + b, ty) == Tagged(a, ty) + Tagged(b, ty)
  {
  }

  // ----- consuming -----

  function Drop(chunks: seq<Chunk>, n: nat): seq<Chunk>
    decreases |chunks|
  {
    if n == 0 || chunks == [] then chunks
    else if n < chunks[0].size then [Chunk(chunks[0].ty, chunks[0].size - n)] + chunks[1..]
    else Drop(chunks[1..], n - chunks[0].size)
  }

  function Consumed(q: Queue, n: nat): Queue
    requires n <= |q.bytes|
  {
    Queue(q.bytes[n..], Drop(q.chunks, n))
  }

  lemma {:induction false} ConsumedIs(q: Queue, n: nat)
    requires Valid(q) && n <= |q.bytes|
    ensures Valid(Consumed(q, n)) && Tags(Consumed(q, n)) == Tags(q)[n..]
    decreases |q.chunks|
  {
    hide Tagged, Tags, Valid;
    if n == 0 || q.chunks == [] {
      NothingConsumed(q);
    } else {
      var k := q.chunks[0];
      ValidTail(q);
      TagsStep(q);
      if n < k.size {
        HeadCut(q, n);
      } else {
        var rest := Queue(q.bytes[k.size..], q.chunks[1..]);
        ConsumedIs(rest, n - k.size);
        assert q.bytes[n..] == rest.bytes[n - k.size..];
        assert Tags(q)[n..] == Tags(rest)[n - k.size..];
      }
    }
  }

  lemma NothingConsumed(q: Queue)
    requires Valid(q)
    ensures Consumed(q, 0) == q && Tags(q)[0..] == Tags(q) && (q.chunks == [] ==> q.bytes == [])
  {
    hide Tags;
    assert q.bytes[0..] == q.bytes;
  }

  lemma HeadCut(q: Queue, n: nat)
    requires Valid(q) && q.chunks != [] && 0 < n < q.chunks[0].size
    ensures n <= |q.bytes| && Valid(Consumed(q, n)) && Tags(Consumed(q, n)) == Tags(q)[n..]
  {
    hide Tags, Tagged;
    var k := q.chunks[0];
    TagsStep(q);
    var d := Consumed(q, n);
    assert d.chunks == [Chunk(k.ty, k.size - n)] + q.chunks[1..] && d.chunks[1..] == q.chunks[1..];
    TagsStep(d);
    assert d.bytes[k.size - n..] == q.bytes[k.size..];
    TaggedDrop(q.bytes, k.size, n, k.ty);
  }

  lemma ValidTail(q: Queue)
    requires Valid(q) && q.chunks != []
    ensures Valid(Queue(q.bytes[q.chunks[0].size..], q.chunks[1..]))
  {
  }

  lemma TaggedDrop(bytes: Blob, size: nat, n: nat, ty: InputType)
    requires n <= size <= |bytes|
    ensures Tagged(bytes[..size], ty)[n..] == Tagged(bytes[n..][..size - n], ty)
  {
  }

  // ----- one pass of the loop -----

  /** Everything outside the queue that one pass depends on. */
  datatype Env = Env(
    prefix: nat,
    taken: nat,
    sendok: bool,
    editing: bool,
    echoing: bool,
    telnet: bool,
    telnetNewline: bool,
    telnetKeyboard: bool)

  datatype Code = EndOfLine | EraseCharacter | Interrupt | Suspend

  datatype Event =
    | ToPrompt(c: byte, dedicated: bool)
    | ToEditor(c: byte, dedicated: bool)
    | Echo(bytes: Blob)
    | Send(bytes: Blob)
    | Special(code: Code)

  /** A pasted carriage return counts as the Return key. */
  predicate IsDedicated(t: Tag) {
    t.ty.Dedicated? || (t.ty.Noninteractive? && t.c == 13)
  }

  /** The stretch of the queue that one pass works on: within one chunk, and contiguous in memory. */
  function Span(q: Queue, e: Env): nat
    requires q.chunks != []
  {
    if e.prefix < q.chunks[0].size then e.prefix else q.chunks[0].size
  }

  /** The prefix is some of the queue, and the prompt takes at most the span. */
  predicate Possible(q: Queue, e: Env) {
    q.chunks != [] && 1 <= e.prefix <= |q.bytes| && e.taken <= Span(q, e)
  }

  predicate ByByte(q: Queue, e: Env)
    requires q.chunks != []
  {
    e.editing || (q.chunks[0].ty.Dedicated? && e.telnet)
  }

  /** The keys that become Telnet specials. Without the option the cases fall through to the default. */
  function TelnetKey(c: byte, e: Env): Event {
    if c == 13 then (if e.telnetNewline then Special(EndOfLine) else Send([13]))
    else if (c == 127 || c == 8) && e.telnetKeyboard then Special(EraseCharacter)
    else if c == 3 && e.telnetKeyboard then Special(Interrupt)
    else if c == 26 && e.telnetKeyboard then Special(Suspend)
    else Send([c])
  }

  /** Bytes given one at a time to the prompt or to the line editor. */
  function Entered(ts: seq<Tag>, prompt: bool): seq<Event> {
    if ts == [] then [] else [Entry(ts[0], prompt)] + Entered(ts[1..], prompt)
  }

  function Entry(t: Tag, prompt: bool): Event {
    if prompt then ToPrompt(t.c, IsDedicated(t)) else ToEditor(t.c, IsDedicated(t))
  }

  function Keyed(bytes: Blob, e: Env): seq<Event> {
    if bytes == [] then [] else [TelnetKey(bytes[0], e)] + Keyed(bytes[1..], e)
  }

  /** What a pass hands on after the prompt has taken its bytes. */
  function Rest(ty: InputType, bytes: Blob, e: Env): seq<Event> {
    if e.editing then Entered(Tagged(bytes, ty), false)
    else
      (if e.echoing then [Echo(bytes)] else [])
      + (if ty.Dedicated? && e.telnet then Keyed(bytes, e) else [Send(bytes)])
  }

  datatype Passed = Passed(events: seq<Event>, queue: Queue, stop: bool)

  /** The bytes of the queue are those its chunks speak of. */
  predicate Counted(q: Queue) {
    Total(q.chunks) == |q.bytes|
  }

  /** One turn of ldisc_input_queue_callback's loop. The last branch consumes only what it sent itself. */
  function Pass(q: Queue, e: Env): Passed
    requires Possible(q, e) && Counted(q)
  {
    var ty := q.chunks[0].ty;
    var len := Span(q, e);
    HeadFits(q);
    var first := Entered(Tagged(q.bytes[..e.taken], ty), true);
    if !e.sendok then Passed(first, Consumed(q, e.taken), true)
    else
      var events := first + Rest(ty, q.bytes[e.taken..len], e);
      Passed(events, Consumed(q, if ByByte(q, e) then len else len - e.taken), false)
  }

  lemma HeadFits(q: Queue)
    requires Counted(q) && q.chunks != []
    ensures q.chunks[0].size <= |q.bytes|
  {
  }

  // ----- what the events carry -----

  /** How many typed bytes an event hands on. An echo hands on none. */
  function Width(e: Event): nat {
    match e
    case ToPrompt(_, _) => 1
    case ToEditor(_, _) => 1
    case Echo(_) => 0
    case Send(bytes) => |bytes|
    case Special(_) => 1
  }

  predicate StandsFor(code: Code, c: byte) {
    match code
    case EndOfLine => c == 13
    case EraseCharacter => c == 127 || c == 8
    case Interrupt => c == 3
    case Suspend => c == 26
  }

  /** The event hands on exactly these typed bytes, with their type where the receiver is told it. */
  predicate Carries(e: Event, ts: seq<Tag>) {
    |ts| == Width(e) &&
    match e
    case ToPrompt(c, dedicated) => ts[0].c == c && IsDedicated(ts[0]) == dedicated
    case ToEditor(c, dedicated) => ts[0].c == c && IsDedicated(ts[0]) == dedicated
    case Echo(_) => true
    case Send(bytes) => forall i :: 0 <= i < |bytes| ==> ts[i].c == bytes[i]
    case Special(code) => ts[0].ty.Dedicated? && StandsFor(code, ts[0].c)
  }

  function Weight(es: seq<Event>): nat {
    if es == [] then 0 else Width(es[0]) + Weight(es[1..])
  }

  /** The events, one after another, hand on exactly these typed bytes. */
  predicate Carried(es: seq<Event>, ts: seq<Tag>): (v: bool)
    ensures v ==> |ts| == Weight(es)
    decreases |es|
  {
    if es == [] then ts == []
    else
      var n := Width(es[0]);
      n <= |ts| && Carries(es[0], ts[..n]) && Carried(es[1..], ts[n..])
  }

  lemma CarriedCons(e: Event, es: seq<Event>, ts: seq<Tag>)
    ensures Carried([e] + es, ts) <==> Width(e) <= |ts| && Carries(e, ts[..Width(e)]) && Carried(es, ts[Width(e)..])
  {
    assert ([e] + es)[1..] == es;
  }

  lemma {:induction false} CarriedAppend(a: seq<Event>, s: seq<Tag>, b: seq<Event>, t: seq<Tag>)
    requires Carried(a, s) && Carried(b, t)
    ensures Carried(a + b, s + t)
    decreases |a|
  {
    hide Carries, Carried, Width;
    if a == [] {
      NothingCarried(s);
      assert a + b == b && s + t == t;
    } else {
      var (n, rest) := (Width(a[0]), a[1..]);
      assert a == [a[0]] + rest && a + b == [a[0]] + (rest + b);
      CarriedCons(a[0], rest, s);
      CarriedAppend(rest, s[n..], b, t);
      CarriedCons(a[0], rest + b, s + t);
      assert (s + t)[..n] == s[..n] && (s + t)[n..] == s[n..] + t;
    }
  }

  lemma NothingCarried(ts: seq<Tag>)
    requires Carried([], ts)
    ensures ts == []
  {
  }

  lemma {:induction false} WeightAppend(a: seq<Event>, b: seq<Event>)
    ensures Weight(a + b) == Weight(a) + Weight(b)
  {
    if a == [] {
      assert a + b == b;
    } else {
      WeightAppend(a[1..], b);
      assert (a + b)[1..] == a[1..] + b;
    }
  }

  lemma CarriedOne(e: Event, ts: seq<Tag>)
    requires Carries(e, ts)
    ensures Carried([e], ts)
  {
    assert ts[..|ts|] == ts && ts[|ts|..] == [] && [e][1..] == [];
  }

  lemma {:induction false} EnteredCarries(ts: seq<Tag>, prompt: bool)
    ensures Carried(Entered(ts, prompt), ts)
  {
    if ts != [] {
      EnteredCarries(ts[1..], prompt);
      assert ts[..1] == [ts[0]];
      assert Carries(Entry(ts[0], prompt), ts[..1]);
    }
  }

  lemma {:induction false} KeyedCarries(bytes: Blob, e: Env)
    ensures Carried(Keyed(bytes, e), Tagged(bytes, Dedicated))
  {
    if bytes != [] {
      KeyedCarries(bytes[1..], e);
      var ts := Tagged(bytes, Dedicated);
      assert ts[1..] == Tagged(bytes[1..], Dedicated) && ts[..1] == [ts[0]];
      KeyCarries(bytes[0], e);
    }
  }

  lemma KeyCarries(c: byte, e: Env)
    ensures Width(TelnetKey(c, e)) == 1 && Carries(TelnetKey(c, e), [Tag(c, Dedicated)])
  {
  }

  lemma RestCarries(ty: InputType, bytes: Blob, e: Env)
    ensures Carried(Rest(ty, bytes, e), Tagged(bytes, ty))
  {
    hide Tagged, Entered, Keyed, Carried;
    if e.editing {
      EnteredCarries(Tagged(bytes, ty), false);
    } else {
      if ty.Dedicated? && e.telnet {
        KeyedCarries(bytes, e);
      } else {
        CarriedOne(Send(bytes), Tagged(bytes, ty));
      }
      var last := if ty.Dedicated? && e.telnet then Keyed(bytes, e) else [Send(bytes)];
      CarriedOne(Echo(bytes), []);
      CarriedAppend([Echo(bytes)], [], last, Tagged(bytes, ty));
      assert [] + Tagged(bytes, ty) == Tagged(bytes, ty) && [] + last == last;
    }
  }

  lemma SpanTags(q: Queue, e: Env, n: nat)
    requires Possible(q, e) && Counted(q) && n <= Span(q, e)
    ensures n <= |q.bytes| && Tagged(q.bytes[..n], q.chunks[0].ty) == Tags(q)[..n]
  {
    hide Tags, Tagged;
    HeadFits(q);
    TagsStep(q);
    var k := q.chunks[0];
    TaggedTake(q.bytes, k.size, n, k.ty);
  }

  lemma TaggedTake(bytes: Blob, size: nat, n: nat, ty: InputType)
    requires n <= size <= |bytes|
    ensures Tagged(bytes[..size], ty)[..n] == Tagged(bytes[..n], ty)
  {
  }

  /** A pass hands on exactly the first bytes of the queue: its span, or what the prompt took. */
  lemma PassCarries(q: Queue, e: Env)
    requires Possible(q, e) && Counted(q)
    ensures var n := if e.sendok then Span(q, e) else e.taken;
            n <= |q.bytes| && Carried(Pass(q, e).events, Tags(q)[..n])
  {
    hide Tags, Tagged, Drop, Entered, Rest, Carried;
    var len := Span(q, e);
    HeadFits(q);
    SpanTags(q, e, len);
    SpanTags(q, e, e.taken);
    var ty := q.chunks[0].ty;
    var (a, b) := (q.bytes[..e.taken], q.bytes[e.taken..len]);
    EnteredCarries(Tagged(a, ty), true);
    if e.sendok {
      RestCarries(ty, b, e);
      CarriedAppend(Entered(Tagged(a, ty), true), Tagged(a, ty), Rest(ty, b, e), Tagged(b, ty));
      TaggedAppend(a, b, ty);
      assert a + b == q.bytes[..len];
    }
  }

  // ----- who gets what -----

  datatype Receiver = Prompt | Editor | Screen | BackEnd

  function ReceiverOf(e: Event): Receiver {
    match e
    case ToPrompt(_, _) => Prompt
    case ToEditor(_, _) => Editor
    case Echo(_) => Screen
    case Send(_) => BackEnd
    case Special(_) => BackEnd
  }

  /** What one receiver gets, in order. */
  function Got(es: seq<Event>, r: Receiver): seq<Event> {
    if es == [] then [] else (if ReceiverOf(es[0]) == r then [es[0]] else []) + Got(es[1..], r)
  }

  /** A byte counts as a key if it comes from a special string, or is a pasted carriage return. */
  predicate IsKey(c: byte, ty: InputType) {
    match ty
    case Normal => false
    case Dedicated => true
    case Noninteractive => c == 13
  }

  /** Bytes as the prompt or the line editor is to be given them. */
  function Keys(bytes: Blob, ty: InputType, prompt: bool): seq<Event> {
    seq(|bytes|, i requires 0 <= i < |bytes| =>
      if prompt then ToPrompt(bytes[i], IsKey(bytes[i], ty)) else ToEditor(bytes[i], IsKey(bytes[i], ty)))
  }

  lemma {:induction false} EnteredIs(bytes: Blob, ty: InputType, prompt: bool)
    ensures Entered(Tagged(bytes, ty), prompt) == Keys(bytes, ty, prompt)
    decreases |bytes|
  {
    if bytes != [] {
      EnteredIs(bytes[1..], ty, prompt);
      assert Tagged(bytes, ty)[1..] == Tagged(bytes[1..], ty);
      assert Keys(bytes, ty, prompt) == Keys(bytes, ty, prompt)[..1] + Keys(bytes[1..], ty, prompt);
    }
  }

  /** The keys for which there is a Telnet command, if the option for it is on. */
  function CommandFor(c: byte, e: Env): Option<Code> {
    if e.telnetNewline && c == 13 then Some(EndOfLine)
    else if !e.telnetKeyboard then None
    else if c == 8 || c == 127 then Some(EraseCharacter)
    else if c == 3 then Some(Interrupt)
    else if c == 26 then Some(Suspend)
    else None
  }

  /** What the back end is to get for each byte of a special string in a Telnet session. */
  function Commands(bytes: Blob, e: Env): seq<Event> {
    seq(|bytes|, i requires 0 <= i < |bytes| =>
      match CommandFor(bytes[i], e) case Some(code) => Special(code) case None => Send([bytes[i]]))
  }

  lemma {:induction false} KeyedIs(bytes: Blob, e: Env)
    ensures Keyed(bytes, e) == Commands(bytes, e)
    decreases |bytes|
  {
    if bytes != [] {
      KeyedIs(bytes[1..], e);
      assert Commands(bytes, e) == Commands(bytes, e)[..1] + Commands(bytes[1..], e);
    }
  }

  lemma GotStep(e: Event, es: seq<Event>, r: Receiver)
    ensures Got([e] + es, r) == (if ReceiverOf(e) == r then [e] else []) + Got(es, r)
  {
    hide ReceiverOf;
    assert ([e] + es)[1..] == es;
  }

  lemma {:induction false} GotAppend(a: seq<Event>, b: seq<Event>, r: Receiver)
    ensures Got(a + b, r) == Got(a, r) + Got(b, r)
  {
    if a == [] {
      assert a + b == b && Got(a, r) == [] && [] + Got(b, r) == Got(b, r);
    } else {
      hide Got, ReceiverOf;
      var (e, rest) := (a[0], a[1..]);
      GotAppend(rest, b, r);
      GotStep(e, rest, r);
      GotStep(e, rest + b, r);
      assert a == [e] + rest && a + b == [e] + (rest + b);
    }
  }

  lemma {:induction false} AllGot(es: seq<Event>, to: Receiver, r: Receiver)
    requires forall i :: 0 <= i < |es| ==> ReceiverOf(es[i]) == to
    ensures Got(es, r) == if r == to then es else []
  {
    if es != [] {
      AllGot(es[1..], to, r);
      assert es == [es[0]] + es[1..];
    }
  }

  /** The part of the span the prompt has left. */
  function Remaining(q: Queue, e: Env): Blob
    requires Possible(q, e) && Counted(q)
  {
    HeadFits(q);
    q.bytes[e.taken..Span(q, e)]
  }

  /** What each receiver gets of the part that is left. */
  function Share(ty: InputType, rest: Blob, e: Env, r: Receiver): seq<Event> {
    match r
    case Prompt => []
    case Editor => if e.editing then Keys(rest, ty, false) else []
    case Screen => if !e.editing && e.echoing then [Echo(rest)] else []
    case BackEnd => if e.editing then [] else Bulk(ty, rest, e)
  }

  /** Nothing is shown after something has been sent. */
  predicate EchoFirst(es: seq<Event>) {
    forall i, j :: 0 <= i < j < |es| && es[j].Echo? ==> ReceiverOf(es[i]) != BackEnd
  }

  lemma EchoThenSend(rest: Blob, last: seq<Event>, r: Receiver)
    requires forall i :: 0 <= i < |last| ==> ReceiverOf(last[i]) == BackEnd
    ensures EchoFirst(last) && EchoFirst([Echo(rest)] + last)
    ensures Got(last, r) == (if r.BackEnd? then last else [])
    ensures Got([Echo(rest)] + last, r) == match r case Screen => [Echo(rest)] case BackEnd => last case _ => []
  {
    hide Got, EchoFirst;
    SendOnly(rest, last);
    AllGot(last, BackEnd, r);
    AllGot([Echo(rest)], Screen, r);
    GotAppend([Echo(rest)], last, r);
    assert [] + last == last && [Echo(rest)] + [] == [Echo(rest)];
  }

  lemma SendOnly(rest: Blob, last: seq<Event>)
    requires forall i :: 0 <= i < |last| ==> ReceiverOf(last[i]) == BackEnd
    ensures EchoFirst(last) && EchoFirst([Echo(rest)] + last)
  {
  }

  lemma KeysAlone(rest: Blob, ty: InputType, r: Receiver)
    ensures var es := Keys(rest, ty, false); Got(es, r) == (if r.Editor? then es else []) && EchoFirst(es)
  {
    AllGot(Keys(rest, ty, false), Editor, r);
  }

  /** What a sending pass hands to the back end. */
  function Bulk(ty: InputType, rest: Blob, e: Env): seq<Event> {
    if ty == Dedicated && e.telnet then Commands(rest, e) else [Send(rest)]
  }

  lemma BulkIsForBackEnd(ty: InputType, rest: Blob, e: Env)
    ensures forall i :: 0 <= i < |Bulk(ty, rest, e)| ==> ReceiverOf(Bulk(ty, rest, e)[i]) == BackEnd
  {
  }

  lemma RestIs(ty: InputType, rest: Blob, e: Env)
    ensures Rest(ty, rest, e)
            == if e.editing then Keys(rest, ty, false)
               else (if e.echoing then [Echo(rest)] else []) + Bulk(ty, rest, e)
  {
    EnteredIs(rest, ty, false);
    KeyedIs(rest, e);
    hide Entered, Keyed, Keys, Commands, Tagged;
  }

  lemma RestRoutes(ty: InputType, rest: Blob, e: Env, r: Receiver)
    ensures Got(Rest(ty, rest, e), r) == Share(ty, rest, e, r) && EchoFirst(Rest(ty, rest, e))
  {
    RestIs(ty, rest, e);
    KeysAlone(rest, ty, r);
    BulkIsForBackEnd(ty, rest, e);
    var last := Bulk(ty, rest, e);
    EchoThenSend(rest, last, r);
    assert [] + last == last;
    hide Got, Keys, Rest, Bulk, EchoFirst, ReceiverOf;
  }

  /** The events of a pass: the prompt's, and if the back end can take more, those of the rest. */
  lemma PassIs(q: Queue, e: Env)
    requires Possible(q, e) && Counted(q)
    ensures e.taken <= |q.bytes|
    ensures Pass(q, e).events == Keys(q.bytes[..e.taken], q.chunks[0].ty, true)
                                 + (if e.sendok then Rest(q.chunks[0].ty, Remaining(q, e), e) else [])
  {
    HeadFits(q);
    EnteredIs(q.bytes[..e.taken], q.chunks[0].ty, true);
    hide Entered, Rest, Tagged, Keys;
    assert Keys(q.bytes[..e.taken], q.chunks[0].ty, true) + [] == Keys(q.bytes[..e.taken], q.chunks[0].ty, true);
  }

  lemma PromptFirst(bytes: Blob, ty: InputType, es: seq<Event>, r: Receiver)
    requires EchoFirst(es)
    ensures var first := Keys(bytes, ty, true);
            EchoFirst(first + es) && Got(first, r) == if r.Prompt? then first else []
  {
    var first := Keys(bytes, ty, true);
    assert forall i :: 0 <= i < |first| ==> first[i].ToPrompt?;
    AllGot(first, Prompt, r);
    hide Keys, Got;
  }

  /**
   * Who gets what in a pass: the prompt the bytes it takes; then, if the back end can take more, the line
   * editor all the rest if editing is on, and otherwise the back end all the rest, key by key in a special
   * string of a Telnet session and else in one piece, after it has been shown on the screen iff echoing is on.
   */
  lemma PassRoutes(q: Queue, e: Env, r: Receiver)
    requires Possible(q, e) && Counted(q)
    ensures var es, ty := Pass(q, e).events, q.chunks[0].ty;
            && e.taken <= |q.bytes| && EchoFirst(es)
            && Got(es, r) == (if r.Prompt? then Keys(q.bytes[..e.taken], ty, true) else [])
                             + (if e.sendok then Share(ty, Remaining(q, e), e, r) else [])
  {
    hide Got, Rest, Keys, Share, Pass, EchoFirst, Remaining;
    PassIs(q, e);
    var ty := q.chunks[0].ty;
    var rest := if e.sendok then Rest(ty, Remaining(q, e), e) else [];
    if e.sendok {
      RestRoutes(ty, Remaining(q, e), e, r);
    } else {
      NothingGot(r);
    }
    PromptFirst(q.bytes[..e.taken], ty, rest, r);
    GotAppend(Keys(q.bytes[..e.taken], ty, true), rest, r);
  }

  lemma NothingGot(r: Receiver)
    ensures Got([], r) == [] && EchoFirst([])
  {
  }

  /** The prompt and the bulk send do not meet in one pass. */
  predicate Disciplined(q: Queue, e: Env)
    requires q.chunks != []
  {
    e.taken == 0 || !e.sendok || ByByte(q, e)
  }

  /** The events hand on the first of the input, each byte once and in order, and the queue holds the rest. */
  predicate Accounts(es: seq<Event>, input: seq<Tag>, q: Queue)
    requires Counted(q)
  {
    var n := Weight(es);
    n <= |input| && Carried(es, input[..n]) && Tags(q) == input[n..]
  }

  /** What a pass takes off the queue. */
  function Gone(q: Queue, e: Env): nat
    requires Possible(q, e)
  {
    if !e.sendok then e.taken else if ByByte(q, e) then Span(q, e) else Span(q, e) - e.taken
  }

  /**
   * A pass hands on the front of the queue and keeps the rest exactly when the prompt and the bulk
   * send do not meet in it. When they do, the bytes the prompt took are not consumed, and as many
   * at the end of the span stay in the queue although they have been sent.
   */
  lemma PassConservesExactly(q: Queue, e: Env)
    requires Possible(q, e) && Valid(q)
    ensures var p := Pass(q, e);
            && Valid(p.queue)
            && (Accounts(p.events, Tags(q), p.queue) <==> Disciplined(q, e))
            && (!Disciplined(q, e) ==>
                  && Span(q, e) <= |q.bytes| && Carried(p.events, Tags(q)[..Span(q, e)])
                  && Tags(p.queue) == Tags(q)[Span(q, e) - e.taken..])
  {
    hide Tags, Tagged, Drop, Entered, Rest, Valid, Carried, Weight;
    var n := if e.sendok then Span(q, e) else e.taken;
    HeadFits(q);
    PassCarries(q, e);
    ConsumedIs(q, Gone(q, e));
    var p := Pass(q, e);
    assert Weight(p.events) == n;
    assert Tags(p.queue) == Tags(q)[Gone(q, e)..];
    assert |Tags(q)[n..]| == |q.bytes| - n && |Tags(p.queue)| == |q.bytes| - Gone(q, e);
    assert Disciplined(q, e) <==> Gone(q, e) == n;
  }

  /** The span is the longest stretch within both the contiguous bytes and the chunk at the head. */
  lemma SpanExactly(q: Queue, e: Env, n: nat)
    requires q.chunks != []
    ensures n <= Span(q, e) <==> n <= e.prefix && n <= q.chunks[0].size
  {
  }

  /**
   * Bytes stay in the queue although they have been handed on exactly when a prompt took some in a pass that
   * then sends the rest in one piece: not to the line editor, and not key by key to Telnet.
   */
  lemma KeptThoughSentExactly(q: Queue, e: Env)
    requires Possible(q, e) && Valid(q)
    ensures var p := Pass(q, e);
            |p.queue.bytes| + Weight(p.events) > |q.bytes|
            <==> e.taken > 0 && e.sendok && !e.editing && !(q.chunks[0].ty == Dedicated && e.telnet)
  {
    HeadFits(q);
    PassCarries(q, e);
    hide Tags, Carried, Weight, Entered, Rest, Drop, Tagged;
  }

  /** A pass that may send makes progress, unless a prompt swallowed the whole span of a bulk send. */
  lemma PassProgresses(q: Queue, e: Env)
    requires Possible(q, e) && Valid(q) && e.sendok
    ensures var p := Pass(q, e);
            |p.queue.bytes| < |q.bytes| <==> (Disciplined(q, e) || e.taken < Span(q, e))
  {
    HeadFits(q);
  }

  datatype Looped = Looped(events: seq<Event>, queue: Queue)

  /** Passes until the queue is empty or the back end cannot take more; the environments say what they meet. */
  function Loop(q: Queue, envs: seq<Env>): Looped
    requires Counted(q)
    decreases |envs|
  {
    if envs == [] || q.bytes == [] || !Possible(q, envs[0]) then Looped([], q)
    else
      PassKeepsCount(q, envs[0]);
      var p := Pass(q, envs[0]);
      if p.stop then Looped(p.events, p.queue)
      else
        var more := Loop(p.queue, envs[1..]);
        Looped(p.events + more.events, more.queue)
  }

  lemma {:induction false} DropTotal(chunks: seq<Chunk>, n: nat)
    requires n <= Total(chunks)
    ensures Total(Drop(chunks, n)) == Total(chunks) - n
    decreases |chunks|
  {
    if n > 0 && chunks != [] {
      if n < chunks[0].size {
        assert ([Chunk(chunks[0].ty, chunks[0].size - n)] + chunks[1..])[1..] == chunks[1..];
      } else {
        DropTotal(chunks[1..], n - chunks[0].size);
      }
    }
  }

  lemma PassKeepsCount(q: Queue, e: Env)
    requires Possible(q, e) && Counted(q)
    ensures Counted(Pass(q, e).queue)
  {
    hide Total, Drop, Entered, Rest, Tagged;
    HeadFits(q);
    DropTotal(q.chunks, Gone(q, e));
  }

  // ----- whole histories -----

  /** A user action: some typed or pasted bytes, or a special string; or one pass of the loop. */
  datatype Step = Typed(bytes: Blob, interactive: bool) | SpecialKey(bytes: Blob) | Turn(env: Env)

  datatype State = State(queue: Queue, events: seq<Event>)

  const EMPTY_STATE := State(Queue([], []), [])

  /** Adding these bytes would not leave a chunk of no bytes. */
  predicate Sound(q: Queue, bytes: Blob, ty: InputType) {
    bytes != [] || (q.chunks != [] && q.chunks[|q.chunks| - 1].ty == ty)
  }

  /** A queue stays in normal form exactly when what is added leaves no empty chunk. */
  lemma AddValidExactly(q: Queue, bytes: Blob, ty: InputType)
    requires Valid(q)
    ensures Valid(Add(q, bytes, ty)) <==> Sound(q, bytes, ty)
    ensures bytes == [] && Sound(q, bytes, ty) ==> Add(q, bytes, ty) == q
  {
    if bytes != [] {
      AddIs(q, bytes, ty);
    } else {
      var n := |q.chunks|;
      assert q.bytes + bytes == q.bytes;
      if Sound(q, bytes, ty) {
        assert q.chunks == q.chunks[..n - 1] + [q.chunks[n - 1]];
      } else {
        assert Add(q, bytes, ty).chunks[n] == Chunk(ty, 0);
      }
    }
  }

  predicate Allowed(st: State, a: Step): (v: bool)
    ensures v && a.Turn? ==> Possible(st.queue, a.env)
  {
    match a
    case Typed(_, _) => true
    case SpecialKey(bytes) => Sound(st.queue, bytes, Dedicated)
    case Turn(e) => Possible(st.queue, e) && Disciplined(st.queue, e)
  }

  /**
   * The histories are those the code can meet: any typing; any special string that leaves no empty chunk; and
   * a turn that sees any stretch of the queue, of which a prompt may take any part that is in the head chunk,
   * but where something is taken, the rest is not sent in one piece.
   */
  lemma AllowedExactly(st: State, bytes: Blob, interactive: bool, e: Env)
    ensures Allowed(st, Typed(bytes, interactive))
    ensures bytes != [] ==> Allowed(st, SpecialKey(bytes))
    ensures st.queue.chunks != [] ==>
              (Allowed(st, Turn(e))
               <==> && 1 <= e.prefix <= |st.queue.bytes|
                    && e.taken <= e.prefix && e.taken <= st.queue.chunks[0].size
                    && (e.taken > 0 && e.sendok ==>
                          e.editing || (st.queue.chunks[0].ty == Dedicated && e.telnet)))
  {
  }

  function TypeOf(a: Step): InputType
    requires !a.Turn?
  {
    if a.SpecialKey? then Dedicated else if a.interactive then Normal else Noninteractive
  }

  function Do(st: State, a: Step): State
    requires Valid(st.queue) && (a.Turn? ==> Possible(st.queue, a.env))
  {
    if a.Turn? then
      var p := Pass(st.queue, a.env);
      State(p.queue, st.events + p.events)
    else if a.Typed? && a.bytes == [] then st
    else st.(queue := Add(st.queue, a.bytes, TypeOf(a)))
  }

  function Input(a: Step): seq<Tag> {
    if a.Turn? then [] else Tagged(a.bytes, TypeOf(a))
  }

  lemma DoIsValid(st: State, a: Step)
    requires Valid(st.queue) && Allowed(st, a)
    ensures Valid(Do(st, a).queue)
  {
    hide Valid, Add, Pass, Tags, Accounts, Carried;
    match a
    case Turn(e) => PassConservesExactly(st.queue, e);
    case Typed(bytes, interactive) => AddValidExactly(st.queue, bytes, TypeOf(a));
    case SpecialKey(bytes) => AddValidExactly(st.queue, bytes, Dedicated);
  }

  lemma AccountsTurn(es: seq<Event>, input: seq<Tag>, q: Queue, more: seq<Event>, r: Queue)
    requires Counted(q) && Counted(r) && Accounts(es, input, q) && Accounts(more, Tags(q), r)
    ensures Accounts(es + more, input, r)
  {
    hide Tags, Carried, Weight;
    var (n, m) := (Weight(es), Weight(more));
    WeightAppend(es, more);
    CarriedAppend(es, input[..n], more, input[n..][..m]);
    assert input[..n] + input[n..][..m] == input[..n + m] && input[n..][m..] == input[n + m..];
  }

  lemma AccountsInput(es: seq<Event>, input: seq<Tag>, q: Queue, ts: seq<Tag>, r: Queue)
    requires Counted(q) && Counted(r) && Accounts(es, input, q) && Tags(r) == Tags(q) + ts
    ensures Accounts(es, input + ts, r)
  {
    hide Tags, Carried, Weight;
    var n := Weight(es);
    assert (input + ts)[..n] == input[..n] && (input + ts)[n..] == input[n..] + ts;
  }

  lemma DoConserves(st: State, input: seq<Tag>, a: Step)
    requires Valid(st.queue) && Allowed(st, a) && Accounts(st.events, input, st.queue)
    ensures Valid(Do(st, a).queue) && Accounts(Do(st, a).events, input + Input(a), Do(st, a).queue)
  {
    hide Tags, Tagged, Valid, Add, Pass, Accounts;
    DoIsValid(st, a);
    match a
    case Turn(e) =>
      PassConservesExactly(st.queue, e);
      var p := Pass(st.queue, e);
      AccountsTurn(st.events, input, st.queue, p.events, p.queue);
      assert input + [] == input;
    case Typed(bytes, interactive) => AddAccounts(st, input, bytes, TypeOf(a));
    case SpecialKey(bytes) => AddAccounts(st, input, bytes, Dedicated);
  }

  lemma AddAccounts(st: State, input: seq<Tag>, bytes: Blob, ty: InputType)
    requires Valid(st.queue) && Accounts(st.events, input, st.queue)
    ensures Accounts(st.events, input + Tagged([], ty), st.queue)
    ensures Sound(st.queue, bytes, ty) ==>
              && Valid(Add(st.queue, bytes, ty))
              && Accounts(st.events, input + Tagged(bytes, ty), Add(st.queue, bytes, ty))
  {
    hide Tags, Tagged, Add, Valid, Accounts;
    assert Tagged([], ty) == [] && input + [] == input;
    AddValidExactly(st.queue, bytes, ty);
    if bytes != [] {
      AddIs(st.queue, bytes, ty);
      AccountsInput(st.events, input, st.queue, Tagged(bytes, ty), Add(st.queue, bytes, ty));
    }
  }

  predicate AllAllowed(st: State, steps: seq<Step>)
    requires Valid(st.queue)
    decreases |steps|
  {
    steps == [] || (Allowed(st, steps[0]) && (DoIsValid(st, steps[0]); AllAllowed(Do(st, steps[0]), steps[1..])))
  }

  function DoAll(st: State, steps: seq<Step>): State
    requires Valid(st.queue) && AllAllowed(st, steps)
    decreases |steps|
  {
    if steps == [] then st else DoIsValid(st, steps[0]); DoAll(Do(st, steps[0]), steps[1..])
  }

  function AllInput(steps: seq<Step>): seq<Tag> {
    if steps == [] then [] else Input(steps[0]) + AllInput(steps[1..])
  }

  /**
   * Over every history of typing and of passes in which the prompt and the bulk send do not meet:
   * the events hand on the first of all that was typed, in order, each byte once and with its own
   * type, and the queue holds the rest.
   */
  lemma {:induction false} EveryByteOnce(st: State, input: seq<Tag>, steps: seq<Step>)
    requires Valid(st.queue) && AllAllowed(st, steps) && Accounts(st.events, input, st.queue)
    ensures var end := DoAll(st, steps);
            Valid(end.queue) && Accounts(end.events, input + AllInput(steps), end.queue)
    decreases |steps|
  {
    hide Tags, Valid, Do, Input, Allowed, Accounts;
    if steps == [] {
      assert input + [] == input;
    } else {
      DoConserves(st, input, steps[0]);
      EveryByteOnce(Do(st, steps[0]), input + Input(steps[0]), steps[1..]);
      assert input + Input(steps[0]) + AllInput(steps[1..]) == input + (Input(steps[0]) + AllInput(steps[1..]));
    }
  }

  lemma EveryByteFromTheStart(steps: seq<Step>)
    requires Valid(EMPTY_STATE.queue) && AllAllowed(EMPTY_STATE, steps)
    ensures var end := DoAll(EMPTY_STATE, steps); Valid(end.queue) && Accounts(end.events, AllInput(steps), end.queue)
  {
    assert Accounts([], [], Queue([], [])) by {
      assert Tags(Queue([], [])) == [];
    }
    hide AllAllowed, DoAll, Accounts, AllInput;
    EveryByteOnce(EMPTY_STATE, [], steps);
    assert [] + AllInput(steps) == AllInput(steps);
  }

  // ----- who gets what over histories -----

  function PassShare(q: Queue, e: Env, r: Receiver): seq<Event>
    requires Possible(q, e) && Counted(q)
  {
    HeadFits(q);
    (if r.Prompt? then Keys(q.bytes[..e.taken], q.chunks[0].ty, true) else [])
    + (if e.sendok then Share(q.chunks[0].ty, Remaining(q, e), e, r) else [])
  }

  /** What a receiver gets from the passes of one loop. */
  function LoopShare(q: Queue, envs: seq<Env>, r: Receiver): seq<Event>
    requires Counted(q)
    decreases |envs|
  {
    if envs == [] || q.bytes == [] || !Possible(q, envs[0]) then []
    else
      PassKeepsCount(q, envs[0]);
      PassShare(q, envs[0], r)
      + (if envs[0].sendok then LoopShare(Pass(q, envs[0]).queue, envs[1..], r) else [])
  }

  lemma {:induction false} LoopRoutes(q: Queue, envs: seq<Env>, r: Receiver)
    requires Counted(q)
    ensures Got(Loop(q, envs).events, r) == LoopShare(q, envs, r)
    decreases |envs|
  {
    if envs != [] && q.bytes != [] && Possible(q, envs[0]) {
      PassKeepsCount(q, envs[0]);
      PassRoutes(q, envs[0], r);
      var p := Pass(q, envs[0]);
      assert p.stop == !envs[0].sendok;
      hide Got, Pass, Share, Keys, Counted, Remaining;
      if !p.stop {
        LoopRoutes(p.queue, envs[1..], r);
        GotAppend(p.events, Loop(p.queue, envs[1..]).events, r);
      }
    }
  }

  /** What a receiver gets over a history: its share of each pass. */
  function HistoryShare(st: State, steps: seq<Step>, r: Receiver): seq<Event>
    requires Valid(st.queue) && AllAllowed(st, steps)
    decreases |steps|
  {
    if steps == [] then []
    else
      DoIsValid(st, steps[0]);
      (if steps[0].Turn? then PassShare(st.queue, steps[0].env, r) else [])
      + HistoryShare(Do(st, steps[0]), steps[1..], r)
  }

  lemma {:induction false} HistoryRoutes(st: State, steps: seq<Step>, r: Receiver)
    requires Valid(st.queue) && AllAllowed(st, steps)
    ensures Got(DoAll(st, steps).events, r) == Got(st.events, r) + HistoryShare(st, steps, r)
    decreases |steps|
  {
    hide Got, Do, PassShare, Valid, Allowed;
    if steps == [] {
      assert Got(st.events, r) + [] == Got(st.events, r);
    } else {
      DoIsValid(st, steps[0]);
      DoRoutes(st, steps[0], r);
      var share := if steps[0].Turn? then PassShare(st.queue, steps[0].env, r) else [];
      var more := HistoryShare(Do(st, steps[0]), steps[1..], r);
      assert HistoryShare(st, steps, r) == share + more;
      HistoryRoutes(Do(st, steps[0]), steps[1..], r);
      assert Got(st.events, r) + share + more == Got(st.events, r) + (share + more);
    }
  }

  lemma DoRoutes(st: State, a: Step, r: Receiver)
    requires Valid(st.queue) && Allowed(st, a)
    ensures Got(Do(st, a).events, r) == Got(st.events, r) + (if a.Turn? then PassShare(st.queue, a.env, r) else [])
  {
    hide Pass, Share, Keys, Valid, Add, Got, Remaining, Span;
    if a.Turn? {
      PassRoutes(st.queue, a.env, r);
      GotAppend(st.events, Pass(st.queue, a.env).events, r);
    } else {
      assert Got(st.events, r) + [] == Got(st.events, r);
    }
  }

  /** The bytes shown on the screen. */
  function Shown(es: seq<Event>): Blob {
    if es == [] then [] else (if es[0].Echo? then es[0].bytes else []) + Shown(es[1..])
  }

  function Chars(ts: seq<Tag>): Blob {
    seq(|ts|, i requires 0 <= i < |ts| => ts[i].c)
  }

  lemma {:induction false} ShownIsGot(es: seq<Event>)
    ensures Shown(es) == Shown(Got(es, Screen))
  {
    if es != [] {
      ShownIsGot(es[1..]);
      var more := Got(es[1..], Screen);
      assert Got(es, Screen) == (if es[0].Echo? then [es[0]] else []) + more;
      assert [] + more == more && ([es[0]] + more)[1..] == more;
    }
  }

  lemma {:induction false} ShownAppend(a: seq<Event>, b: seq<Event>)
    ensures Shown(a + b) == Shown(a) + Shown(b)
  {
    if a == [] {
      assert a + b == b;
    } else {
      ShownAppend(a[1..], b);
      assert (a + b)[1..] == a[1..] + b;
    }
  }

  /** No turn of the history shows anything: echoing is off, or lines are edited locally. */
  predicate NoEcho(steps: seq<Step>) {
    forall i :: 0 <= i < |steps| && steps[i].Turn? ==> !steps[i].env.echoing || steps[i].env.editing
  }

  /** Every turn echoes what it sends: no prompt is open, nothing is edited locally. */
  predicate AllEcho(steps: seq<Step>) {
    forall i :: 0 <= i < |steps| && steps[i].Turn? ==>
      steps[i].env.taken == 0 && steps[i].env.echoing && !steps[i].env.editing
  }

  lemma {:induction false} NothingIsShown(st: State, steps: seq<Step>)
    requires Valid(st.queue) && AllAllowed(st, steps) && NoEcho(steps)
    ensures Shown(DoAll(st, steps).events) == Shown(st.events)
    decreases |steps|
  {
    if steps != [] {
      DoIsValid(st, steps[0]);
      DoRoutes(st, steps[0], Screen);
      ShownIsGot(st.events);
      ShownIsGot(Do(st, steps[0]).events);
      var share := if steps[0].Turn? then PassShare(st.queue, steps[0].env, Screen) else [];
      assert share == [] && Got(st.events, Screen) + [] == Got(st.events, Screen);
      hide Got, Do, Valid, Allowed, Shown, Remaining, Keys;
      NothingIsShown(Do(st, steps[0]), steps[1..]);
    }
  }

  lemma PassShows(q: Queue, e: Env)
    requires Possible(q, e) && Counted(q) && e.taken == 0 && e.echoing && !e.editing
    ensures var n, es := if e.sendok then Span(q, e) else 0, Pass(q, e).events;
            && n <= |q.bytes| && Shown(es) == q.bytes[..n] && Weight(es) == n
            && Tagged(q.bytes[..n], q.chunks[0].ty) == Tags(q)[..n]
  {
    var n := if e.sendok then Span(q, e) else 0;
    HeadFits(q);
    PassCarries(q, e);
    PassRoutes(q, e, Screen);
    SpanTags(q, e, n);
    ShownIsGot(Pass(q, e).events);
    ShownOne(q.bytes[..n]);
    assert [] + [Echo(q.bytes[..n])] == [Echo(q.bytes[..n])];
    hide Tags, Tagged, Carried, Weight, Got, Pass, Shown, Keys;
  }

  lemma ShownOne(bytes: Blob)
    ensures Shown([Echo(bytes)]) == bytes && Shown([]) == []
  {
    assert [Echo(bytes)][1..] == [];
  }

  lemma AccountsIs(es: seq<Event>, input: seq<Tag>, q: Queue)
    requires Counted(q) && Accounts(es, input, q)
    ensures Weight(es) <= |input| && Tags(q) == input[Weight(es)..]
  {
    hide Tags, Weight, Carried;
  }

  lemma MoreChars(input: seq<Tag>, w: nat, bytes: Blob, ty: InputType)
    requires w + |bytes| <= |input| && Tagged(bytes, ty) == input[w..][..|bytes|]
    ensures Chars(input[..w]) + bytes == Chars(input[..w + |bytes|])
  {
    var ts := Tagged(bytes, ty);
    assert forall i :: 0 <= i < |bytes| ==> ts[i].c == input[w + i].c;
    hide Tagged;
  }

  /** In a turn that echoes, what is shown is the front of the queue, as much of it as is handed on. */
  lemma TurnShows(st: State, input: seq<Tag>, e: Env)
    requires Valid(st.queue) && Allowed(st, Turn(e)) && Accounts(st.events, input, st.queue)
    requires e.taken == 0 && e.echoing && !e.editing
    requires Shown(st.events) == Chars(input[..Weight(st.events)])
    ensures var u := Do(st, Turn(e));
            Valid(u.queue) && Accounts(u.events, input, u.queue) && Shown(u.events) == Chars(input[..Weight(u.events)])
  {
    hide Tags, Tagged, Weight, Pass, Shown, Accounts, Valid, Chars, Span;
    var (q, p, w) := (st.queue, Pass(st.queue, e), Weight(st.events));
    var n := if e.sendok then Span(q, e) else 0;
    DoConserves(st, input, Turn(e));
    assert input + Input(Turn(e)) == input;
    AccountsIs(st.events, input, q);
    PassShows(q, e);
    ShownAppend(st.events, p.events);
    WeightAppend(st.events, p.events);
    MoreChars(input, w, q.bytes[..n], q.chunks[0].ty);
  }

  /**
   * In a session that echoes and edits nothing locally, the screen shows exactly what has been handed on of
   * all that was typed, in order; and where echoing is off, nothing (NothingIsShown).
   */
  lemma {:induction false} EchoIsTheInput(st: State, input: seq<Tag>, steps: seq<Step>)
    requires Valid(st.queue) && AllAllowed(st, steps) && AllEcho(steps) && Accounts(st.events, input, st.queue)
    requires Shown(st.events) == Chars(input[..Weight(st.events)])
    ensures var (es, all) := (DoAll(st, steps).events, input + AllInput(steps));
            Weight(es) <= |all| && Shown(es) == Chars(all[..Weight(es)])
    decreases |steps|
  {
    hide Tags, Valid, Do, Input, Allowed, Accounts, Shown, Weight, Chars;
    if steps == [] {
      AccountsIs(st.events, input, st.queue);
      assert input + [] == input;
    } else {
      var a := steps[0];
      DoConserves(st, input, a);
      if a.Turn? {
        TurnShows(st, input, a.env);
      } else {
        AccountsIs(st.events, input, st.queue);
        TypingShowsNothing(st, input, a);
      }
      TurnsAddNothing(a, input);
      assert input + Input(a) + AllInput(steps[1..]) == input + (Input(a) + AllInput(steps[1..]));
      EchoIsTheInput(Do(st, a), input + Input(a), steps[1..]);
    }
  }

  lemma TurnsAddNothing(a: Step, input: seq<Tag>)
    ensures a.Turn? ==> input + Input(a) == input
  {
  }

  lemma TypingShowsNothing(st: State, input: seq<Tag>, a: Step)
    requires !a.Turn? && Valid(st.queue) && Weight(st.events) <= |input|
    ensures Do(st, a).events == st.events
    ensures (input + Input(a))[..Weight(st.events)] == input[..Weight(st.events)]
  {
    hide Add, Valid, Weight, Tagged;
  }

  // ----- the empty special string -----

  /** With a chunk of no bytes at the head a pass consumes nothing and hands nothing on. */
  lemma ZeroHeadBlocks(q: Queue, e: Env)
    requires Counted(q) && Possible(q, e) && q.chunks[0].size == 0
    ensures Pass(q, e).queue == q && Weight(Pass(q, e).events) == 0 && Pass(q, e).stop == !e.sendok
  {
    hide Tags, Tagged, Entered, Rest, Carried, Weight;
    PassCarries(q, e);
    assert q.bytes[0..] == q.bytes;
    assert |Tags(q)[..0]| == 0;
  }

  /** So the loop of the callback never gets past it, however many turns it takes. */
  lemma {:induction false} ZeroHeadStays(q: Queue, envs: seq<Env>)
    requires Counted(q) && q.chunks != [] && q.chunks[0].size == 0
    ensures Loop(q, envs).queue == q
    decreases |envs|
  {
    hide Pass, Possible;
    if envs != [] && q.bytes != [] && Possible(q, envs[0]) {
      ZeroHeadBlocks(q, envs[0]);
      ZeroHeadStays(q, envs[1..]);
    }
  }

  /** What follows an empty special string behind input of another type, once that input is consumed. */
  lemma EmptySpecialBlocks(q: Queue, bytes: Blob, ty: InputType)
    requires Valid(q) && !Sound(q, [], Dedicated) && bytes != [] && ty != Dedicated
    ensures var r := Add(Add(q, [], Dedicated), bytes, ty);
            && |q.bytes| <= |r.bytes|
            && Consumed(r, |q.bytes|) == Queue(bytes, [Chunk(Dedicated, 0), Chunk(ty, |bytes|)])
  {
    var (z, k) := (Chunk(Dedicated, 0), Chunk(ty, |bytes|));
    var q0 := Add(q, [], Dedicated);
    assert q0.bytes == q.bytes && q0.chunks == q.chunks + [z];
    var r := Add(q0, bytes, ty);
    assert r.chunks == q.chunks + [z, k];
    DropAll(q.chunks, [z, k]);
    assert (q.bytes + bytes)[|q.bytes|..] == bytes;
  }

  lemma {:induction false} DropAll(a: seq<Chunk>, b: seq<Chunk>)
    requires forall i :: 0 <= i < |a| ==> a[i].size > 0
    ensures Drop(a + b, Total(a)) == b
    decreases |a|
  {
    if a == [] {
      assert a + b == b;
    } else {
      assert (a + b)[1..] == a[1..] + b && (a + b)[0] == a[0];
      DropAll(a[1..], b);
    }
  }

  /** Only more special input, typed at once, fills the empty chunk. */
  lemma NextSpecialHeals(q: Queue, bytes: Blob)
    ensures Add(Add(q, [], Dedicated), bytes, Dedicated) == Add(q, bytes, Dedicated)
  {
    var n := |q.chunks|;
    assert q.bytes + [] == q.bytes;
    if n > 0 && q.chunks[n - 1].ty == Dedicated {
      var c := Add(q, [], Dedicated).chunks;
      assert c[..|c| - 1] == q.chunks[..n - 1];
    } else {
      assert (q.chunks + [Chunk(Dedicated, 0)])[..n] == q.chunks;
    }
  }

  // ----- the code -----

  class LineDiscipline {
    var inputQueue: Blob
    var chunks: seq<Chunk>
    var events: seq<Event>

    ghost function View(): Queue
      reads this
    {
      Queue(inputQueue, chunks)
    }

    constructor ()
      ensures View() == Queue([], []) && events == [] && Valid(View())
    {
      inputQueue, chunks, events := [], [], [];
    }

    /** ldisc_input_queue_consume */
    method Consume(size: nat)
      requires Counted(View()) && size <= |inputQueue|
      modifies this`inputQueue, this`chunks
      ensures View() == Consumed(old(View()), size)
    {
      inputQueue := inputQueue[size..];
      var left := size;
      while left > 0
        invariant inputQueue == old(inputQueue)[size..]
        invariant 0 <= left <= Total(chunks) && Drop(old(chunks), size) == Drop(chunks, left)
        decreases left, |chunks|
      {
        var head := chunks[0];
        var thissize := if left < head.size then left else head.size;
        ghost var before := chunks;
        chunks := [Chunk(head.ty, head.size - thissize)] + chunks[1..];
        assert chunks[1..] == before[1..];
        left := left - thissize;
        if chunks[0].size == 0 {
          chunks := chunks[1..];
        }
      }
    }

    /** ldisc_send, up to the processing of the queue. A special string has no length of its own. */
    method Enqueue(bytes: Blob, special: bool, interactive: bool)
      requires Valid(View())
      modifies this`inputQueue, this`chunks
      ensures var a := if special then SpecialKey(bytes) else Typed(bytes, interactive);
              View() == Do(State(old(View()), []), a).queue
      ensures Valid(View()) <==> !special || Sound(old(View()), bytes, Dedicated)
    {
      hide Tags, Tagged, Valid;
      ghost var before := View();
      AddValidExactly(before, bytes, if special then Dedicated else if interactive then Normal else Noninteractive);
      var ty;
      if special {
        ty := Dedicated;
      } else if |bytes| > 0 {
        ty := if interactive then Normal else Noninteractive;
      } else {
        return;
      }
      inputQueue := inputQueue + bytes;
      if !(chunks != [] && chunks[|chunks| - 1].ty == ty) {
        chunks := chunks + [Chunk(ty, 0)];
      }
      var last := chunks[|chunks| - 1];
      chunks := chunks[..|chunks| - 1] + [Chunk(last.ty, last.size + |bytes|)];
      assert chunks == Extend(before.chunks, ty, |bytes|);
    }

    /** Bytes given one at a time to the password prompt or to the line editor. */
    method InputLoop(bytes: Blob, ty: InputType, prompt: bool)
      modifies this`events
      ensures events == old(events) + Entered(Tagged(bytes, ty), prompt)
    {
      ghost var all := Tagged(bytes, ty);
      assert all[0..] == all;
      for i := 0 to |bytes|
        invariant events + Entered(all[i..], prompt) == old(events) + Entered(all, prompt)
      {
        assert all[i..][1..] == all[i + 1..] && all[i..][0] == Tag(bytes[i], ty);
        var c := bytes[i];
        var dedicated := IsDedicated(Tag(c, ty));
        events := events + [if prompt then ToPrompt(c, dedicated) else ToEditor(c, dedicated)];
      }
    }

    method TelnetLoop(bytes: Blob, e: Env)
      modifies this`events
      ensures events == old(events) + Keyed(bytes, e)
    {
      for i := 0 to |bytes|
        invariant events + Keyed(bytes[i..], e) == old(events) + Keyed(bytes, e)
      {
        assert bytes[i..][1..] == bytes[i + 1..];
        events := events + [TelnetKey(bytes[i], e)];
      }
    }

    /** The second half of a pass: local editing, Telnet keys, or one bulk send. */
    method HandOn(ty: InputType, rest: Blob, e: Env)
      modifies this`events
      ensures events == old(events) + Rest(ty, rest, e)
    {
      hide Entered, Keyed, Tagged;
      if e.editing {
        InputLoop(rest, ty, false);
      } else {
        if e.echoing {
          events := events + [Echo(rest)];
        }
        if ty == Dedicated && e.telnet {
          TelnetLoop(rest, e);
        } else {
          events := events + [Send(rest)];
        }
      }
    }

    /** One turn of ldisc_input_queue_callback's loop. */
    method RunPass(e: Env) returns (stop: bool)
      requires Counted(View()) && Possible(View(), e)
      modifies this
      ensures var p := Pass(old(View()), e);
              View() == p.queue && events == old(events) + p.events && stop == p.stop
    {
      hide Entered, Rest, Tagged, Consumed, Valid;
      HeadFits(View());
      var ty, len := chunks[0].ty, Span(Queue(inputQueue, chunks), e);
      var bytes := inputQueue[..len];
      assert bytes[..e.taken] == inputQueue[..e.taken] && bytes[e.taken..] == inputQueue[e.taken..len];
      InputLoop(bytes[..e.taken], ty, true);
      if !e.sendok {
        Consume(e.taken);
        return true;
      }
      var rest := bytes[e.taken..];
      HandOn(ty, rest, e);
      if e.editing || (ty == Dedicated && e.telnet) {
        Consume(len);
      } else {
        Consume(|rest|);
      }
      return false;
    }

    /** ldisc_input_queue_callback */
    method Callback(envs: seq<Env>)
      requires Counted(View())
      modifies this
      ensures Counted(View())
      ensures var all := Loop(old(View()), envs); View() == all.queue && events == old(events) + all.events
    {
      hide Counted, Pass, Possible;
      var i := 0;
      ghost var all := Loop(View(), envs);
      assert envs[0..] == envs;
      while i < |envs| && inputQueue != []
        invariant 0 <= i <= |envs| && Counted(View())
        invariant Loop(View(), envs[i..]).queue == all.queue
        invariant events + Loop(View(), envs[i..]).events == old(events) + all.events
      {
        assert envs[i..][0] == envs[i] && envs[i..][1..] == envs[i + 1..];
        if !Possible(Queue(inputQueue, chunks), envs[i]) {
          return;
        }
        PassKeepsCount(View(), envs[i]);
        ghost var p := Pass(View(), envs[i]);
        ghost var before := events;
        var stop := RunPass(envs[i]);
        i := i + 1;
        if stop {
          return;
        }
        assert before + (p.events + Loop(View(), envs[i..]).events) == events + Loop(View(), envs[i..]).events;
      }
    }
  }
}
