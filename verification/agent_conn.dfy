/**
 * One agent connection: a coroutine that cuts the byte stream into messages, and the queue that
 * sends the replies back in the order of the requests.
 */
module AgentConn {
  import opened Bytes
  import Agent

  const AGENT_MAX_MSGLEN: nat := 262144

  // ----- the stream, read as a whole -----

  datatype Frame = Message(body: Blob) | Overlong(length: nat)

  datatype Parsed = Parsed(frames: seq<Frame>, rest: Blob)

  predicate IsReal(length: nat) {
    length < AGENT_MAX_MSGLEN - 4
  }

  /** A complete frame at the front: header and body are all there. */
  predicate HasFrame(s: Blob) {
    |s| >= 4 && |s| >= 4 + GetUint32(s)
  }

  function FrameAt(s: Blob): Frame
    requires HasFrame(s)
  {
    var n := GetUint32(s);
    if IsReal(n) then Message(s[4..4 + n]) else Overlong(n)
  }

  /** The frames of a whole stream, without any notion of how it arrived. */
  function Parse(s: Blob): Parsed
    decreases |s|
  {
    if !HasFrame(s) then Parsed([], s)
    else var p := Parse(s[4 + GetUint32(s)..]); Parsed([FrameAt(s)] + p.frames, p.rest)
  }

  lemma {:induction false} RestHasNoFrame(s: Blob)
    ensures !HasFrame(Parse(s).rest)
    decreases |s|
  {
    if HasFrame(s) {
      RestHasNoFrame(s[4 + GetUint32(s)..]);
    }
  }

  lemma ParseStep(s: Blob)
    requires HasFrame(s)
    ensures var p := Parse(s[4 + GetUint32(s)..]); Parse(s) == Parsed([FrameAt(s)] + p.frames, p.rest)
  {
    hide GetUint32, FrameAt;
  }

  /** One more byte either completes the frame in progress or prolongs it. */
  lemma {:induction false} ParseByte(s: Blob, c: byte)
    ensures var p, q := Parse(s), Parse(s + [c]); var r := p.rest + [c];
            if HasFrame(r) then |r| == 4 + GetUint32(r) && q == Parsed(p.frames + [FrameAt(r)], [])
            else q == Parsed(p.frames, r)
    decreases |s|
  {
    hide GetUint32;
    if |s| >= 4 {
      GetUint32Prefix(s, s + [c]) by {
        assert (s + [c])[..4] == s[..4];
      }
    }
    if HasFrame(s) {
      var k := 4 + GetUint32(s);
      assert (s + [c])[k..] == s[k..] + [c];
      assert (s + [c])[4..k] == s[4..k];
      assert FrameAt(s + [c]) == FrameAt(s) && HasFrame(s + [c]);
      ParseStep(s);
      ParseStep(s + [c]);
      hide Parse, FrameAt;
      ParseByte(s[k..], c);
    } else if HasFrame(s + [c]) {
      assert (s + [c])[|s| + 1..] == [];
    }
  }

  // ----- requests and replies -----

  datatype Request = Request(index: nat, message: Blob)

  /** The messages handed to the agent, each with its place among all the frames. */
  function Handed(frames: seq<Frame>): seq<Request> {
    if frames == [] then []
    else
      var n := |frames| - 1;
      Handed(frames[..n]) + (if frames[n].Message? then [Request(n, frames[n].body)] else [])
  }

  lemma {:induction false} HandedIndices(frames: seq<Frame>, i: nat)
    requires i < |Handed(frames)|
    ensures var r := Handed(frames)[i]; r.index < |frames| && frames[r.index] == Message(r.message)
  {
    var n := |frames| - 1;
    if i < |Handed(frames[..n])| {
      HandedIndices(frames[..n], i);
    }
  }

  /** Every real message is handed on, and nothing else is, in the order of the frames. */
  lemma {:induction false} HandedExactly(frames: seq<Frame>)
    ensures forall n: nat, m :: Request(n, m) in Handed(frames) <==> n < |frames| && frames[n] == Message(m)
    ensures forall i, j :: 0 <= i < j < |Handed(frames)| ==> Handed(frames)[i].index < Handed(frames)[j].index
  {
    if frames != [] {
      var n := |frames| - 1;
      HandedExactly(frames[..n]);
      forall i | 0 <= i < |Handed(frames[..n])| ensures Handed(frames[..n])[i].index < n {
        HandedIndices(frames[..n], i);
      }
      var h := Handed(frames[..n]);
      forall k: nat, m ensures Request(k, m) in Handed(frames) <==> k < |frames| && frames[k] == Message(m) {
        assert Request(k, m) in h <==> k < n && frames[..n][k] == Message(m);
      }
    }
  }

  /** What a client that frames these bodies sends. */
  function Framed(bodies: seq<Blob>): Blob {
    if bodies == [] then [] else PutString(bodies[0]) + Framed(bodies[1..])
  }

  lemma FramedBody(body: Blob, rest: Blob)
    requires |body| < TWO_TO_THE_32
    ensures var s := PutString(body) + rest;
            && HasFrame(s) && s[4 + GetUint32(s)..] == rest
            && FrameAt(s) == if |body| < 262140 then Message(body) else Overlong(|body|)
  {
    var s := PutString(body) + rest;
    assert s == PutUint32(|body|) + (body + rest);
    Uint32RoundTrip(|body|, body + rest);
    assert s[4..4 + |body|] == body && s[4 + |body|..] == rest;
  }

  lemma NoFrame()
    ensures Parse([]) == Parsed([], [])
  {
  }

  /** The frames of a stream are the bodies it was framed from, those of an impossible length by their length. */
  lemma {:induction false} FramesAreBodies(bodies: seq<Blob>)
    requires forall b :: b in bodies ==> |b| < TWO_TO_THE_32
    ensures var p := Parse(Framed(bodies));
            && p.rest == [] && |p.frames| == |bodies|
            && forall i :: 0 <= i < |bodies| ==>
                 p.frames[i] == if |bodies[i]| < 262140 then Message(bodies[i]) else Overlong(|bodies[i]|)
    decreases |bodies|
  {
    hide GetUint32, PutString, HasFrame, FrameAt;
    if bodies == [] {
      NoFrame();
    } else {
      FramedBody(bodies[0], Framed(bodies[1..]));
      FramesAreBodies(bodies[1..]);
      ParseStep(Framed(bodies));
    }
  }

  /**
   * So whatever a client sends in frames of possible lengths is handed on: exactly these bodies, each once,
   * in order, with the place it was sent at. By the contract of Receive this does not depend on how the
   * stream is cut.
   */
  lemma {:induction false} EveryMessageIsHandedOn(bodies: seq<Blob>)
    requires forall b :: b in bodies ==> |b| < 262140
    ensures Handed(Parse(Framed(bodies)).frames) == seq(|bodies|, i requires 0 <= i < |bodies| => Request(i, bodies[i]))
  {
    FramesAreBodies(bodies);
    hide Parse, Framed;
    AllHanded(Parse(Framed(bodies)).frames, bodies);
  }

  lemma {:induction false} AllHanded(frames: seq<Frame>, bodies: seq<Blob>)
    requires |frames| == |bodies| && forall i :: 0 <= i < |bodies| ==> frames[i] == Message(bodies[i])
    ensures Handed(frames) == seq(|bodies|, i requires 0 <= i < |bodies| => Request(i, bodies[i]))
    decreases |frames|
  {
    if frames != [] {
      var n := |frames| - 1;
      AllHanded(frames[..n], bodies[..n]);
    }
  }

  datatype Queued = Queued(index: nat, reply: Option<Blob>)

  /** The requests below the result have all been answered, and it has not (or there are no more). */
  function FirstUnanswered(answers: map<nat, Blob>, from: nat, n: nat): (f: nat)
    requires from <= n
    ensures from <= f <= n
    ensures forall j :: from <= j < f ==> j in answers
    ensures f < n ==> f !in answers
    decreases n - from
  {
    if from < n && from in answers then FirstUnanswered(answers, from + 1, n) else from
  }

  /** The replies to the first n requests, in request order. */
  function Output(answers: map<nat, Blob>, n: nat): Blob
    requires forall j :: 0 <= j < n ==> j in answers
  {
    if n == 0 then [] else Output(answers, n - 1) + PutString(answers[n - 1])
  }

  lemma {:induction false} OutputOnly(a: map<nat, Blob>, b: map<nat, Blob>, n: nat)
    requires forall j :: 0 <= j < n ==> j in a && j in b && a[j] == b[j]
    ensures Output(a, n) == Output(b, n)
  {
    if n > 0 {
      OutputOnly(a, b, n - 1);
    }
  }

  lemma OutputMore(answers: map<nat, Blob>, n: nat)
    requires forall j :: 0 <= j <= n ==> j in answers
    ensures Output(answers, n + 1) == Output(answers, n) + PutString(answers[n])
  {
  }

  lemma {:induction false} FramedMore(bodies: seq<Blob>, b: Blob)
    ensures Framed(bodies + [b]) == Framed(bodies) + PutString(b)
  {
    hide PutString;
    if bodies == [] {
      assert [b][1..] == [] && [] + [b] == [b];
      assert Framed([b]) == PutString(b) + Framed([]);
    } else {
      FramedMore(bodies[1..], b);
      assert (bodies + [b])[1..] == bodies[1..] + [b];
    }
  }

  /** What is written is the replies framed in the order of the requests, for the client to parse. */
  lemma {:induction false} OutputIsFramed(answers: map<nat, Blob>, n: nat)
    requires forall j :: 0 <= j < n ==> j in answers
    ensures Output(answers, n) == Framed(seq(n, j requires 0 <= j < n => answers[j]))
  {
    hide PutString;
    var all := seq(n, j requires 0 <= j < n => answers[j]);
    if n > 0 {
      OutputIsFramed(answers, n - 1);
      assert all == seq(n - 1, j requires 0 <= j < n - 1 => answers[j]) + [answers[n - 1]];
      FramedMore(all[..n - 1], answers[n - 1]);
    }
  }

  /** The entries of requests f to n - 1, each with its reply if there is one. */
  ghost predicate QueueFrom(queue: seq<Queued>, answers: map<nat, Blob>, f: nat, n: nat) {
    && |queue| == n - f
    && (forall i :: 0 <= i < |queue| ==>
          && queue[i].index == f + i
          && (queue[i].reply == if f + i in answers then Some(PutString(answers[f + i])) else None))
  }

  lemma QueueLength(queue: seq<Queued>, answers: map<nat, Blob>, f: nat, n: nat)
    requires QueueFrom(queue, answers, f, n)
    ensures |queue| == n - f
  {
  }

  lemma QueueStore(queue: seq<Queued>, answers: map<nat, Blob>, f: nat, n: nat, index: nat, response: Blob)
    requires QueueFrom(queue, answers, f, n) && f <= index < n
    ensures queue[0].index == f
    ensures QueueFrom(queue[index - f := queue[index - f].(reply := Some(PutString(response)))],
                      answers[index := response], f, n)
  {
    hide PutString;
  }

  lemma QueuePush(queue: seq<Queued>, answers: map<nat, Blob>, f: nat, n: nat)
    requires QueueFrom(queue, answers, f, n) && f <= n && n !in answers
    ensures QueueFrom(queue + [Queued(n, None)], answers, f, n + 1)
  {
    hide PutString;
  }

  lemma QueueSend(queue: seq<Queued>, answers: map<nat, Blob>, f: nat, n: nat)
    requires QueueFrom(queue, answers, f, n) && queue != []
    ensures queue[0].reply.Some? <==> f in answers
    ensures queue[0].reply.Some? ==>
            queue[0].reply == Some(PutString(answers[f])) && QueueFrom(queue[1..], answers, f + 1, n)
  {
    hide PutString;
  }

  class Connection {
    var readingBody: bool
    var lenbuf: array<byte>
    var pktbuf: array<byte>
    var len: nat
    var got: nat
    var reqIndex: nat
    var queue: seq<Queued>
    var written: Blob
    var handed: seq<Request>
    ghost var received: Blob
    ghost var answers: map<nat, Blob>

    /** The coroutine's variables hold exactly the unfinished frame. */
    ghost predicate Framing()
      reads this`received, this`handed, this`reqIndex, this`readingBody, this`len, this`got, this`lenbuf, this`pktbuf
      reads lenbuf, pktbuf
    {
      var p := Parse(received);
      && lenbuf.Length == 4 && pktbuf.Length == AGENT_MAX_MSGLEN
      && handed == Handed(p.frames)
      && reqIndex == |p.frames| + (if readingBody then 1 else 0)
      && (if readingBody then
            && |p.rest| >= 4 && len == GetUint32(p.rest) && got == |p.rest| - 4 < len
            && (IsReal(len) ==> pktbuf[..got] == p.rest[4..])
          else
            got == |p.rest| < 4 && lenbuf[..got] == p.rest)
    }

    /** The queue holds the requests from the first unanswered one on. */
    ghost predicate Queueing()
      reads this`answers, this`reqIndex, this`queue, this`written
    {
      && (forall j :: j in answers ==> j < reqIndex)
      && (var f := FirstUnanswered(answers, 0, reqIndex);
          && QueueFrom(queue, answers, f, reqIndex)
          && written == Output(answers, f))
    }

    ghost predicate Valid()
      reads this, lenbuf, pktbuf
    {
      && lenbuf != pktbuf && Framing() && Queueing()
      && (readingBody ==> (reqIndex - 1 in answers <==> !IsReal(len)))
      && (forall j :: 0 <= j < |Parse(received).frames| && Parse(received).frames[j].Overlong? ==> j in answers)
    }

    constructor ()
      ensures Valid() && received == [] && answers == map[] && written == [] && handed == []
      ensures fresh(lenbuf) && fresh(pktbuf)
    {
      readingBody, len, got, reqIndex, queue, written, handed := false, 0, 0, 0, [], [], [];
      received, answers := [], map[];
      lenbuf := new byte[4];
      pktbuf := new byte[AGENT_MAX_MSGLEN];
    }

    /**
     * pageant_conn_got_response: the reply is stored with its request, then everything at the
     * head of the queue that has its reply is sent. Afterwards the head is unanswered.
     */
    method GotResponse(index: nat, response: Blob)
      requires Queueing() && index < reqIndex && index !in answers
      modifies this`queue, this`written, this`answers
      ensures Queueing() && answers == old(answers)[index := response]
      ensures queue == [] || queue[0].reply.None?
    {
      hide Output, PutString, QueueFrom, FirstUnanswered, Queueing;
      ghost var f := QueueFacts();
      ghost var was := answers;
      QueueLength(queue, answers, f, reqIndex);
      QueueStore(queue, answers, f, reqIndex, index, response);
      var at := index - queue[0].index;
      answers := answers[index := response];
      queue := queue[at := queue[at].(reply := Some(PutString(response)))];
      OutputOnly(was, answers, f);
      ghost var sent := f;
      while queue != [] && queue[0].reply.Some?
        invariant f <= sent <= reqIndex && QueueFrom(queue, answers, sent, reqIndex)
        invariant answers == was[index := response]
        invariant forall j :: 0 <= j < sent ==> j in answers
        invariant written == Output(answers, sent)
        decreases |queue|
      {
        QueueSend(queue, answers, sent, reqIndex);
        OutputMore(answers, sent);
        written := written + queue[0].reply.value;
        queue := queue[1..];
        sent := sent + 1;
        assert sent <= reqIndex by { QueueLength(queue, answers, sent, reqIndex); }
      }
      if queue != [] {
        QueueSend(queue, answers, sent, reqIndex);
      }
      QueueLength(queue, answers, sent, reqIndex);
      IsQueueing(sent);
    }

    lemma QueueFacts() returns (f: nat)
      requires Queueing()
      ensures f <= reqIndex && QueueFrom(queue, answers, f, reqIndex)
      ensures forall j :: j in answers ==> j < reqIndex
      ensures forall j :: 0 <= j < f ==> j in answers
      ensures f < reqIndex ==> f !in answers
      ensures written == Output(answers, f)
      ensures forall j :: 0 <= j < reqIndex && j !in answers ==> f <= j
    {
      hide QueueFrom, Output;
      f := FirstUnanswered(answers, 0, reqIndex);
    }

    lemma IsQueueing(f: nat)
      requires f <= reqIndex && QueueFrom(queue, answers, f, reqIndex)
      requires forall j :: j in answers ==> j < reqIndex
      requires forall j :: 0 <= j < f ==> j in answers
      requires f < reqIndex ==> f !in answers
      requires written == Output(answers, f)
      ensures Queueing()
    {
      hide QueueFrom, Output;
      FirstUnansweredIs(answers, 0, reqIndex, f);
    }

    /** A header has been read: the request gets its place, and an impossible one its failure at once. */
    method BeginBody()
      requires Queueing() && lenbuf.Length == 4
      modifies this`len, this`got, this`queue, this`written, this`answers, this`reqIndex
      ensures Queueing() && reqIndex == old(reqIndex) + 1 && len == GetUint32(lenbuf[..]) && got == 0
      ensures answers == if IsReal(len) then old(answers) else old(answers)[reqIndex - 1 := [Agent.SSH_AGENT_FAILURE]]
    {
      hide GetUint32, Parse;
      hide Output, FirstUnanswered, Queueing, QueueFrom;
      ghost var f := QueueFacts();
      len := GetUint32(lenbuf[..]);
      got := 0;
      QueuePush(queue, answers, f, reqIndex);
      queue := queue + [Queued(reqIndex, None)];
      reqIndex := reqIndex + 1;
      IsQueueing(f);
      if len >= AGENT_MAX_MSGLEN - 4 {
        GotResponse(queue[|queue| - 1].index, [Agent.SSH_AGENT_FAILURE]);
      }
    }

    /** The frame is complete: a real message goes to the agent under the identity of the queue's tail. */
    method FinishFrame(ghost before: Parsed)
      requires Queueing() && reqIndex == |before.frames| + 1 && handed == Handed(before.frames)
      requires lenbuf.Length == 4 && pktbuf.Length == AGENT_MAX_MSGLEN && got == len
      requires var r := if IsReal(len) then Message(pktbuf[..len]) else Overlong(len);
               Parse(received) == Parsed(before.frames + [r], [])
      requires IsReal(len) ==> reqIndex - 1 !in answers
      modifies this`readingBody, this`got, this`handed
      ensures Framing() && Queueing() && !readingBody
    {
      hide GetUint32, Parse;
      if len < AGENT_MAX_MSGLEN - 4 {
        assert queue[|queue| - 1].index == reqIndex - 1;
        handed := handed + [Request(queue[|queue| - 1].index, pktbuf[..len])];
      }
      ghost var q := Parse(received).frames;
      assert q[..|q| - 1] == before.frames;
      readingBody, got := false, 0;
    }

    method HeaderByte(c: byte)
      requires Valid() && !readingBody
      modifies this, lenbuf
      ensures Valid() && received == old(received) + [c] && lenbuf == old(lenbuf) && pktbuf == old(pktbuf)
      ensures reqIndex >= old(reqIndex)
      ensures answers == old(answers) || answers == old(answers)[old(reqIndex) := [Agent.SSH_AGENT_FAILURE]]
    {
      hide GetUint32, Parse, Queueing, Handed;
      ghost var p := Parse(received);
      ParseByte(received, c);
      lenbuf[got] := c;
      got := got + 1;
      received := received + [c];
      assert lenbuf[..got] == p.rest + [c];
      if got == 4 {
        assert lenbuf[..] == p.rest + [c];
        FreshIndex();
        BeginBody();
        if got < len {
          assert pktbuf[..0] == (p.rest + [c])[4..];
          readingBody := true;
        } else {
          assert pktbuf[..0] == (p.rest + [c])[4..4];
          FinishFrame(p);
        }
      }
    }

    lemma FreshIndex()
      requires Queueing()
      ensures reqIndex !in answers
    {
    }

    method BodyByte(c: byte)
      requires Valid() && readingBody
      modifies this, pktbuf
      ensures Valid() && received == old(received) + [c] && lenbuf == old(lenbuf) && pktbuf == old(pktbuf)
      ensures reqIndex == old(reqIndex) && answers == old(answers)
    {
      hide GetUint32, Parse, Queueing, Handed;
      ghost var p := Parse(received);
      ParseByte(received, c);
      GetUint32Prefix(p.rest, p.rest + [c]) by {
        assert (p.rest + [c])[..4] == p.rest[..4];
      }
      if len < AGENT_MAX_MSGLEN - 4 {
        pktbuf[got] := c;
      }
      got := got + 1;
      received := received + [c];
      assert (p.rest + [c])[4..] == p.rest[4..] + [c];
      assert IsReal(len) ==> pktbuf[..got] == p.rest[4..] + [c];
      if got == len {
        assert (p.rest + [c])[4..4 + len] == (p.rest + [c])[4..];
        FinishFrame(p);
      }
    }

    /** What the coroutine does between one byte and the next. */
    method ReceiveByte(c: byte)
      requires Valid()
      modifies this, lenbuf, pktbuf
      ensures Valid() && received == old(received) + [c] && lenbuf == old(lenbuf) && pktbuf == old(pktbuf)
      ensures reqIndex >= old(reqIndex)
      ensures answers == old(answers) || answers == old(answers)[old(reqIndex) := [Agent.SSH_AGENT_FAILURE]]
      ensures old(reqIndex) !in old(answers)
    {
      FreshIndex();
      if readingBody {
        BodyByte(c);
      } else {
        HeaderByte(c);
      }
    }

    /** pageant_conn_receive: however the stream is cut, the result depends on the whole of it only. */
    method Receive(data: Blob)
      requires Valid()
      modifies this, lenbuf, pktbuf
      ensures Valid() && received == old(received) + data && lenbuf == old(lenbuf) && pktbuf == old(pktbuf)
      ensures handed == Handed(Parse(old(received) + data).frames)
      ensures forall j :: j in old(answers) ==> j in answers && answers[j] == old(answers)[j]
      ensures forall j :: j in answers && j !in old(answers) ==>
                j >= old(reqIndex) && answers[j] == [Agent.SSH_AGENT_FAILURE]
      ensures var frames := Parse(received).frames;
              forall j :: 0 <= j < |frames| && frames[j].Overlong? ==> j in answers
    {
      hide GetUint32, Parse;
      for i := 0 to |data|
        invariant Valid() && received == old(received) + data[..i]
        invariant lenbuf == old(lenbuf) && pktbuf == old(pktbuf) && reqIndex >= old(reqIndex)
        invariant forall j :: j in old(answers) ==> j in answers && answers[j] == old(answers)[j]
        invariant forall j :: j in answers && j !in old(answers) ==>
                    j >= old(reqIndex) && answers[j] == [Agent.SSH_AGENT_FAILURE]
      {
        ReceiveByte(data[i]);
        assert data[..i + 1] == data[..i] + [data[i]];
      }
      assert data[..|data|] == data;
    }

    /** The agent answers a message it was handed: it has not answered it before. */
    method Answer(r: Request, response: Blob)
      requires Valid() && r in handed && r.index !in answers
      modifies this`queue, this`written, this`answers
      ensures Valid() && answers == old(answers)[r.index := response]
      ensures queue == [] || queue[0].reply.None?
    {
      var i :| 0 <= i < |handed| && handed[i] == r;
      HandedIndices(Parse(received).frames, i);
      GotResponse(r.index, response);
    }
  }

  lemma {:induction false} FirstUnansweredIs(answers: map<nat, Blob>, from: nat, n: nat, f: nat)
    requires from <= f <= n && (forall j :: from <= j < f ==> j in answers) && (f < n ==> f !in answers)
    ensures FirstUnanswered(answers, from, n) == f
    decreases f - from
  {
    if from < f {
      FirstUnansweredIs(answers, from + 1, n, f);
    }
  }
}
