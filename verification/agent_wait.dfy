/**
 * How long one request can wait while new ones keep arriving. The requests without a dialog of
 * their own stand in one line, part of it on the dialog's list and part of it in the queue: the
 * steps of the machine only take requests out of the line or put new ones at its end.
 */
module AgentWait {
  import opened Bytes
  import opened Agent
  import opened AgentKeeps
  import opened AgentRuns
  import KS = KeyStore

  predicate Contends(ops: map<OpId, Op>, id: OpId) {
    id in ops && ops[id].SignOp? && ops[id].at != AtKey
  }

  /** Those of the queue that will contend for the dialog when they run. */
  function Contenders(ops: map<OpId, Op>, q: seq<OpId>): (r: seq<OpId>)
    ensures forall id :: id in r <==> id in q && Contends(ops, id)
  {
    if q == [] then [] else (if Contends(ops, q[0]) then [q[0]] else []) + Contenders(ops, q[1..])
  }

  /** The order in which the dialog is come by: those on its list not woken yet, then those in the queue. */
  function Line(s: State): seq<OpId> {
    Without(s.guiBlocked, IdSet(s.callbacks)) + Contenders(s.ops, s.callbacks)
  }

  // ----- sequences -----

  lemma {:induction false} ContendersFrame(ops: map<OpId, Op>, other: map<OpId, Op>, q: seq<OpId>)
    requires forall id :: id in q ==> (Contends(ops, id) <==> Contends(other, id))
    ensures Contenders(ops, q) == Contenders(other, q)
  {
    hide Contends;
    if q != [] {
      ContendersFrame(ops, other, q[1..]);
    }
  }

  lemma {:induction false} AllContend(ops: map<OpId, Op>, q: seq<OpId>)
    requires forall id :: id in q ==> Contends(ops, id)
    ensures Contenders(ops, q) == q
  {
    hide Contends;
    if q != [] {
      AllContend(ops, q[1..]);
    }
  }

  lemma NoneContends(ops: map<OpId, Op>, q: seq<OpId>)
    requires forall id :: id in q ==> !Contends(ops, id)
    ensures Contenders(ops, q) == []
  {
    hide Contends;
    EmptyOrHasOne(Contenders(ops, q));
  }

  lemma EmptyOrHasOne(q: seq<OpId>)
    ensures q == [] || exists id :: id in q
  {
    if q != [] {
      assert q[0] in q;
    }
  }

  lemma WithoutCons(x: OpId, q: seq<OpId>, gone: set<OpId>)
    ensures Without([x] + q, gone) == (if x in gone then [] else [x]) + Without(q, gone)
  {
    assert ([x] + q)[1..] == q;
  }

  lemma ContendersCons(ops: map<OpId, Op>, x: OpId, q: seq<OpId>)
    ensures Contenders(ops, [x] + q) == (if Contends(ops, x) then [x] else []) + Contenders(ops, q)
  {
    hide Contends;
    assert ([x] + q)[1..] == q;
  }

  lemma {:induction false} ContendersDrop(ops: map<OpId, Op>, q: seq<OpId>, gone: set<OpId>)
    ensures Contenders(ops - gone, Without(q, gone)) == Without(Contenders(ops, q), gone)
  {
    if q != [] {
      var x, rest := q[0], q[1..];
      assert q == [x] + rest;
      assert x !in gone ==> (Contends(ops - gone, x) <==> Contends(ops, x));
      ContendersDrop(ops, rest, gone);
      hide Contenders, Without, Contends;
      ContendersCons(ops, x, rest);
      WithoutCons(x, rest, gone);
      if Contends(ops, x) {
        WithoutCons(x, Contenders(ops, rest), gone);
      } else {
        assert Contenders(ops, q) == Contenders(ops, rest);
      }
      if x in gone {
        assert Without(q, gone) == Without(rest, gone);
      } else {
        ContendersCons(ops - gone, x, Without(rest, gone));
      }
    }
  }

  lemma Assoc(a: seq<OpId>, b: seq<OpId>, c: seq<OpId>)
    ensures a + (b + c) == a + b + c
  {
  }

  lemma {:induction false} ContendersAppend(ops: map<OpId, Op>, a: seq<OpId>, b: seq<OpId>)
    ensures Contenders(ops, a + b) == Contenders(ops, a) + Contenders(ops, b)
  {
    if a == [] {
      assert a + b == b;
    } else {
      var x, rest := a[0], a[1..];
      var own := if Contends(ops, x) then [x] else [];
      assert (a + b)[0] == x && (a + b)[1..] == rest + b;
      assert Contenders(ops, a + b) == own + Contenders(ops, rest + b);
      assert Contenders(ops, a) == own + Contenders(ops, rest);
      hide Contenders, Contends;
      ContendersAppend(ops, rest, b);
      Assoc(own, Contenders(ops, rest), Contenders(ops, b));
    }
  }

  lemma {:induction false} WithoutAppend(a: seq<OpId>, b: seq<OpId>, gone: set<OpId>)
    ensures Without(a + b, gone) == Without(a, gone) + Without(b, gone)
  {
    if a == [] {
      assert a + b == b;
    } else {
      var x, rest := a[0], a[1..];
      var own := if x in gone then [] else [x];
      assert (a + b)[0] == x && (a + b)[1..] == rest + b;
      assert Without(a + b, gone) == own + Without(rest + b, gone);
      assert Without(a, gone) == own + Without(rest, gone);
      hide Without;
      WithoutAppend(rest, b, gone);
      Assoc(own, Without(rest, gone), Without(b, gone));
    }
  }

  /** Those ahead of a request. */
  function Ahead(q: seq<OpId>, id: OpId): set<OpId> {
    if q == [] || q[0] == id then {} else {q[0]} + Ahead(q[1..], id)
  }

  lemma {:induction false} AheadIn(q: seq<OpId>, id: OpId)
    ensures forall x :: x in Ahead(q, id) ==> x in q && x != id
  {
    if q != [] && q[0] != id {
      AheadIn(q[1..], id);
    }
  }

  lemma AheadCons(x: OpId, q: seq<OpId>, id: OpId)
    ensures Ahead([x] + q, id) == if x == id then {} else {x} + Ahead(q, id)
  {
    assert ([x] + q)[1..] == q;
  }

  /** Taking some out and putting others at the end puts nobody ahead of a request who was not there. */
  lemma {:induction false} AheadShrinks(q: seq<OpId>, gone: set<OpId>, late: seq<OpId>, id: OpId)
    requires id in Without(q, gone) && id !in late
    ensures Ahead(Without(q, gone) + late, id) <= Ahead(q, id)
  {
    var x, rest := q[0], q[1..];
    assert q == [x] + rest;
    hide Without, Ahead;
    WithoutCons(x, rest, gone);
    AheadCons(x, rest, id);
    if x in gone {
      assert Without(q, gone) == Without(rest, gone);
      AheadShrinks(rest, gone, late, id);
    } else {
      assert Without(q, gone) + late == [x] + (Without(rest, gone) + late);
      AheadCons(x, Without(rest, gone) + late, id);
      if x != id {
        AheadShrinks(rest, gone, late, id);
      }
    }
  }

  // ----- the queue's head -----

  /** What a resumed request leaves behind: it is freed, has its own dialog, or waits for one again. */
  ghost predicate Resumed(s: State, t: State)
    requires s.callbacks != []
  {
    var id := s.callbacks[0];
    && t.callbacks == s.callbacks[1..] && t.next == s.next
    && (forall x :: x != id ==> (x in t.ops <==> x in s.ops) && (x in s.ops ==> t.ops[x] == s.ops[x]))
    && (if Waits(t, id, AtGui)
        then s.guiBusy && Contends(s.ops, id) && t.guiBlocked == Without(s.guiBlocked, {id}) + [id]
        else (id in t.ops ==> Waits(t, id, AtKey)) && t.guiBlocked == Without(s.guiBlocked, {id}))
    && (!Contends(s.ops, id) ==> t.guiBusy == s.guiBusy && id !in t.ops)
  }

  lemma RespondFrame(s: State, id: OpId, r: Reply)
    requires id !in s.callbacks
    ensures var t := Respond(s, id, r);
            t.callbacks == s.callbacks && t.ops == s.ops - {id} && t.guiBlocked == s.guiBlocked
            && t.next == s.next && t.guiBusy == s.guiBusy
  {
    WithoutNothing(s.callbacks, {id});
  }

  lemma FinishFrame(s: State, id: OpId, v: Verdict)
    requires id !in s.callbacks && id in s.ops && s.ops[id].SignOp? && Finish(s, id, v).Ok?
    ensures var t := Finish(s, id, v).state;
            t.callbacks == s.callbacks && t.ops == s.ops - {id} && t.guiBlocked == s.guiBlocked
            && t.next == s.next && t.guiBusy == s.guiBusy
  {
    hide Respond;
    match v
    case UnsupportedFlags => RespondFrame(s, id, Failure(BadFlags));
    case Invalid => RespondFrame(s, id, Failure(InvalidKey));
    case Acceptable =>
      RespondFrame(s, id, Signature(s.store.privs[s.ops[id].key].clear.value, s.ops[id].data, s.ops[id].flags));
  }

  lemma ContendFrame(s: State, id: OpId, opens: bool, v: Verdict)
    requires id !in s.callbacks && id in s.ops && s.ops[id].SignOp? && Contend(s, id, opens, v).Ok?
    ensures var t := Contend(s, id, opens, v).state;
            && t.callbacks == s.callbacks && t.next == s.next
            && (forall x :: x != id ==> (x in t.ops <==> x in s.ops) && (x in s.ops ==> t.ops[x] == s.ops[x]))
            && (if Waits(t, id, AtGui) then s.guiBusy && t.guiBlocked == s.guiBlocked + [id]
                else (id in t.ops ==> Waits(t, id, AtKey)) && t.guiBlocked == s.guiBlocked)
  {
    hide Respond, Finish, Unlinked;
    if s.store.privs[s.ops[id].key].clear.Some? {
      FinishFrame(s, id, v);
    } else {
      RespondFrame(s, id, Failure(CannotPrompt));
    }
  }

  lemma HeadResumed(s: State, opens: bool, v: Verdict)
    requires Inv(s) && s.callbacks != [] && RunHead(s, opens, v).Ok?
    ensures Resumed(s, RunHead(s, opens, v).state)
  {
    var id, t := s.callbacks[0], s.(callbacks := s.callbacks[1..]);
    assert s.callbacks == [id] + t.callbacks;
    assert id in s.ops && id !in t.callbacks;
    OffTheList(s, id);
    hide Inv, Contend, Finish, Respond, Without, Unlink, Resumed;
    match s.ops[id]
    case ReplyOp(_, body) =>
      RespondFrame(t, id, Immediate(body));
      FreedResumes(s, RunHead(s, opens, v).state, id);
    case SignOp(_, _, _, _, at) =>
      UnlinkIs(t, id);
      match at
      case Start => ContendResumes(s, t, id, opens, v);
      case AtGui => ContendResumes(s, Unlink(t, id), id, opens, v);
      case AtKey =>
        FinishFrame(Unlink(t, id), id, v);
        FreedResumes(s, RunHead(s, opens, v).state, id);
  }

  lemma FreedResumes(s: State, t: State, id: OpId)
    requires s.callbacks != [] && s.callbacks[0] == id && t.callbacks == s.callbacks[1..] && t.next == s.next
    requires t.ops == s.ops - {id} && t.guiBlocked == Without(s.guiBlocked, {id}) && t.guiBusy == s.guiBusy
    ensures Resumed(s, t)
  {
    hide Without;
  }

  lemma ContendResumes(s: State, u: State, id: OpId, opens: bool, v: Verdict)
    requires s.callbacks != [] && s.callbacks[0] == id && u.callbacks == s.callbacks[1..] && id !in u.callbacks
    requires u.ops == s.ops && u.next == s.next && u.guiBusy == s.guiBusy && Contends(s.ops, id)
    requires u.guiBlocked == Without(s.guiBlocked, {id}) && Contend(u, id, opens, v).Ok?
    ensures Resumed(s, Contend(u, id, opens, v).state)
  {
    hide Without, Contend;
    ContendFrame(u, id, opens, v);
  }

  lemma OffTheList(s: State, id: OpId)
    requires Inv(s)
    ensures !Waits(s, id, AtGui) ==> Without(s.guiBlocked, {id}) == s.guiBlocked
  {
    hide NoDup, KS.Valid;
    if !Waits(s, id, AtGui) {
      WithoutNothing(s.guiBlocked, {id});
    }
  }

  lemma UnlinkIs(t: State, id: OpId)
    requires id in t.ops && t.ops[id].SignOp?
    ensures var u := Unlink(t, id);
            && u.ops == t.ops && u.callbacks == t.callbacks && u.next == t.next && u.guiBusy == t.guiBusy
            && u.guiBlocked == Without(t.guiBlocked, {id})
  {
    hide Without;
  }

  /** A resumed request keeps its place in the line or leaves it. */
  lemma ResumedLine(s: State, t: State)
    requires Inv(s) && s.callbacks != [] && Resumed(s, t)
    ensures Line(t) == if Waits(t, s.callbacks[0], AtGui) then Line(s) else Without(Line(s), {s.callbacks[0]})
  {
    var id, rest := s.callbacks[0], s.callbacks[1..];
    assert s.callbacks == [id] + rest && id !in rest;
    hide Inv, Without, Contenders, IdSet;
    ContendersFrame(s.ops, t.ops, rest);
    hide Contends;
    if Waits(t, id, AtGui) {
      LinkedAgain(s, t, id, rest);
    } else {
      LeftTheLine(s, t, id, rest);
    }
  }

  lemma HeadOfLine(s: State, id: OpId, rest: seq<OpId>)
    requires s.callbacks == [id] + rest
    ensures Line(s) == Without(s.guiBlocked, {id} + IdSet(rest))
                       + ((if Contends(s.ops, id) then [id] else []) + Contenders(s.ops, rest))
  {
    hide Without, Contends, Contenders;
    assert IdSet([id] + rest) == {id} + IdSet(rest);
    ContendersCons(s.ops, id, rest);
  }

  lemma LinkedAgain(s: State, t: State, id: OpId, rest: seq<OpId>)
    requires s.callbacks == [id] + rest && id !in rest && t.callbacks == rest && Contends(s.ops, id)
    requires Contenders(s.ops, rest) == Contenders(t.ops, rest) && t.guiBlocked == Without(s.guiBlocked, {id}) + [id]
    ensures Line(t) == Line(s)
  {
    hide Without, Contenders, Contends;
    HeadOfLine(s, id, rest);
    WithoutTwice(s.guiBlocked, {id}, IdSet(rest));
    WithoutAppend(Without(s.guiBlocked, {id}), [id], IdSet(rest));
    WithoutNothing([id], IdSet(rest));
  }

  lemma LeftTheLine(s: State, t: State, id: OpId, rest: seq<OpId>)
    requires s.callbacks == [id] + rest && id !in rest && t.callbacks == rest
    requires Contenders(s.ops, rest) == Contenders(t.ops, rest) && t.guiBlocked == Without(s.guiBlocked, {id})
    ensures Line(t) == Without(Line(s), {id})
  {
    hide Without, Contenders, Contends, IdSet;
    HeadOfLine(s, id, rest);
    WithoutTwice(s.guiBlocked, {id}, IdSet(rest));
    var before, after := Without(s.guiBlocked, {id} + IdSet(rest)), Contenders(s.ops, rest);
    var own := if Contends(s.ops, id) then [id] else [];
    WithoutAppend(before, own + after, {id});
    WithoutAppend(own, after, {id});
    WithoutNothing(before, {id});
    WithoutNothing(after, {id});
    EmptyOrHasOne(Without(own, {id}));
  }

  // ----- the line over every event but an answer -----

  predicate Answers(e: Event) {
    e.Passphrase? || e.Refuse?
  }

  predicate NextIsNew(s: State) {
    s.next !in s.ops && s.next !in s.callbacks && s.next !in s.guiBlocked
  }

  lemma NextIsNewIn(s: State)
    requires Inv(s)
    ensures NextIsNew(s)
  {
    hide KS.Valid, NoDup;
    assert s.next in s.guiBlocked ==> Waits(s, s.next, AtGui);
  }

  lemma NewOpLine(s: State, op: Op)
    requires NextIsNew(s) && (op.SignOp? ==> op.at == Start)
    ensures Line(NewOp(s, op)) == Line(s) + (if op.SignOp? then [s.next] else [])
  {
    var t := NewOp(s, op);
    hide Without, Contenders, IdSet;
    IdSetIs(s.callbacks);
    IdSetIs(t.callbacks);
    WithoutAs(s.guiBlocked, IdSet(s.callbacks), IdSet(t.callbacks));
    ContendersAppend(t.ops, s.callbacks, [s.next]);
    ContendersFrame(s.ops, t.ops, s.callbacks);
    OneContender(t.ops, s.next);
  }

  lemma OneContender(ops: map<OpId, Op>, id: OpId)
    ensures Contenders(ops, [id]) == if Contends(ops, id) then [id] else []
  {
    assert [id][1..] == [] && Contenders(ops, []) == [];
  }

  lemma {:induction false} WithoutAs(q: seq<OpId>, a: set<OpId>, b: set<OpId>)
    requires forall id :: id in q ==> (id in a <==> id in b)
    ensures Without(q, a) == Without(q, b)
  {
    if q != [] {
      WithoutAs(q[1..], a, b);
    }
  }

  lemma DropOpsLine(s: State, gone: set<OpId>)
    ensures Line(DropOps(s, gone)) == Without(Line(s), gone)
  {
    hide Without, Contenders;
    var t := DropOps(s, gone);
    ContendersDrop(s.ops, s.callbacks, gone);
    WithoutAppend(Without(s.guiBlocked, IdSet(s.callbacks)), Contenders(s.ops, s.callbacks), gone);
    WithoutTwice(s.guiBlocked, IdSet(s.callbacks), gone);
    WithoutTwice(s.guiBlocked, gone, IdSet(t.callbacks));
    assert IdSet(s.callbacks) + gone == gone + IdSet(t.callbacks);
  }

  /** A change of the store answers only requests that have left the line. */
  lemma ChangeLine(s: State, change: KS.Op)
    requires ListsOk(s, {})
    ensures Line(Change(s, change)) == Line(s)
  {
    hide Change, Without, Contenders, Deleted, ListsOk, IdSet;
    ChangeSpares(s, change);
    ChangeLeaves(s, change);
    var t, gone := Change(s, change), Deleted(s, change);
    ContendersDrop(s.ops, s.callbacks, gone);
    WithoutNothing(Contenders(s.ops, s.callbacks), gone);
    IdSetIs(s.callbacks);
    IdSetIs(t.callbacks);
    WithoutAs(s.guiBlocked, IdSet(t.callbacks), IdSet(s.callbacks));
  }

  lemma ChangeNextIsNew(s: State, change: KS.Op)
    requires ListsOk(s, {}) && NextIsNew(s)
    ensures NextIsNew(Change(s, change)) && Change(s, change).next == s.next
  {
    hide Change, Without, Deleted, ListsOk;
    ChangeSpares(s, change);
    ChangeLeaves(s, change);
  }

  /** Whatever happens before the next answer: some leave the line and new ones join at its end. */
  ghost predicate Moves(s: State, t: State, gone: set<OpId>, late: seq<OpId>) {
    && Line(t) == Without(Line(s), gone) + late
    && s.next <= t.next && forall x :: x in late ==> x >= s.next
  }

  lemma LineGrew(s: State, t: State, late: seq<OpId>)
    requires Line(t) == Line(s) + late && s.next <= t.next && forall x :: x in late ==> x >= s.next
    ensures Moves(s, t, {}, late)
  {
    hide Line, Without;
    WithoutNothing(Line(s), {});
  }

  lemma MovedOn(s: State, t: State)
    requires Line(t) == Line(s) && s.next <= t.next
    ensures Moves(s, t, {}, [])
  {
    hide Line;
    assert Line(s) + [] == Line(s);
    LineGrew(s, t, []);
  }

  lemma RequestMoves(s: State, e: Event) returns (gone: set<OpId>, late: seq<OpId>)
    requires ListsOk(s, {}) && NextIsNew(s) && (e.RequestSign? || e.RequestOther?) && Step(s, e).Ok?
    ensures Moves(s, Step(s, e).state, gone, late)
  {
    hide KS.Find, Change, Line, NewOp, Without, NextIsNew, ListsOk;
    var op, u := ReplyOp(e.client, []), s;
    gone, late := {}, [];
    if e.RequestSign? {
      var k := KS.PrivSort(2, e.base);
      if KS.Find(s.store.pubs, KS.PubSort(k, e.full)).Some? {
        op, late := SignOp(e.client, k, e.data, e.flags, Start), [s.next];
      } else {
        op := ReplyOp(e.client, [SSH_AGENT_FAILURE]);
      }
    } else {
      op := ReplyOp(e.client, e.body);
      if e.storeOp.Some? {
        u := Change(s, e.storeOp.value);
        ChangeLine(s, e.storeOp.value);
        ChangeNextIsNew(s, e.storeOp.value);
      }
    }
    assert Step(s, e) == Ok(NewOp(u, op));
    NewOpLine(u, op);
    NewOpNext(u, op);
    LineGrew(s, Step(s, e).state, late);
  }

  lemma NewOpNext(s: State, op: Op)
    ensures NewOp(s, op).next == s.next + 1
  {
  }

  lemma StepMoves(s: State, e: Event) returns (gone: set<OpId>, late: seq<OpId>)
    requires Inv(s) && Disciplined(s, e) && !Answers(e) && Step(s, e).Ok?
    ensures Moves(s, Step(s, e).state, gone, late)
  {
    var t := Step(s, e).state;
    assert ListsOk(s, {});
    hide Inv, Disciplined, RunHead, Resumed, Line, Change, ListsOk;
    gone, late := {}, [];
    match e
    case RunCallback(opens, v) =>
      if s.callbacks != [] {
        HeadResumed(s, opens, v);
        StepIs(s, e);
        hide Step;
        ResumedLine(s, t);
        gone := if Waits(t, s.callbacks[0], AtGui) then {} else {s.callbacks[0]};
        ResumedNext(s, t);
      } else {
        assert t == s by { EmptyRuns(s, opens, v); }
      }
      if gone == {} {
        WithoutNothing(Line(s), gone);
      }
      assert Without(Line(s), gone) + [] == Without(Line(s), gone);
    case Disconnect(c) =>
      gone := OpsOf(s, c);
      DropOpsLine(s, gone);
      OtherFields(s, DropOps(s, gone), t);
      assert Without(Line(s), gone) + [] == Without(Line(s), gone);
    case RequestSign(_, _, _, _, _) =>
      NextIsNewIn(s);
      gone, late := RequestMoves(s, e);
    case RequestOther(_, _, _) =>
      NextIsNewIn(s);
      gone, late := RequestMoves(s, e);
    case Connect(_) =>
      OtherFields(s, s, t);
      MovedOn(s, t);
    case LocalChange(change) =>
      ChangeLine(s, change);
      ChangeLeaves(s, change);
      MovedOn(s, t);
  }

  lemma ResumedNext(s: State, t: State)
    requires s.callbacks != [] && Resumed(s, t)
    ensures t.next == s.next
  {
    hide Without, Contends;
  }

  lemma EmptyRuns(s: State, opens: bool, v: Verdict)
    requires s.callbacks == []
    ensures Step(s, RunCallback(opens, v)) == Ok(s)
  {
  }

  lemma OtherFields(s: State, u: State, t: State)
    requires t == u.(clients := t.clients)
    ensures Line(t) == Line(u)
  {
    hide Without, Contenders;
  }

  predicate NoAnswers(es: seq<Event>) {
    forall i :: 0 <= i < |es| ==> !Answers(es[i])
  }

  /** Until the next answer nobody gets ahead of a request who was not ahead of it before. */
  lemma {:induction false} BurstMoves(s: State, es: seq<Event>, id: OpId)
    requires Inv(s) && DisciplinedRun(s, es) && NoAnswers(es) && id < s.next
    ensures Run(s, es).Ok? && Inv(Run(s, es).state) && s.next <= Run(s, es).state.next
    ensures var t := Run(s, es).state; id in Line(t) ==> id in Line(s) && Ahead(Line(t), id) <= Ahead(Line(s), id)
    decreases es
  {
    hide Inv, Disciplined, Step, Line, Ahead;
    if es != [] {
      StepKeeps(s, es[0]);
      var t := Step(s, es[0]).state;
      var gone, late := StepMoves(s, es[0]);
      assert NoAnswers(es[1..]);
      BurstMoves(t, es[1..], id);
      if id in Line(t) {
        AheadShrinks(Line(s), gone, late, id);
      }
    }
  }

  // ----- the first in the line is served -----

  /** The lock is free and h, in the queue, is the first that will contend for it. */
  ghost predicate First(s: State, h: OpId) {
    !s.guiBusy && h in s.callbacks && h < s.next && Line(s) != [] && Line(s)[0] == h
  }

  /** A request at the head of the queue that is not the first in the line does not contend. */
  lemma OnlyFirstContends(s: State, h: OpId)
    requires First(s, h)
    ensures s.callbacks[0] == h || !Contends(s.ops, s.callbacks[0])
  {
    var id, rest := s.callbacks[0], s.callbacks[1..];
    assert s.callbacks == [id] + rest;
    hide Without, Contenders;
    HeadOfLine(s, id, rest);
    var before := Without(s.guiBlocked, {id} + IdSet(rest));
    assert before != [] ==> Line(s)[0] == before[0] && before[0] in before;
  }

  /** The head of the queue, when it is the first in the line, cannot go back to wait: the lock is free. */
  lemma HeadFirst(s: State, t: State, h: OpId)
    requires Inv(s) && First(s, h) && Resumed(s, t) && h in Line(t)
    ensures !t.guiBusy && h in t.callbacks
  {
    var id := s.callbacks[0];
    ResumedLine(s, t);
    HeadSplits(s, t, h);
    hide Inv, Line, Resumed, First, Contends, Without;
    assert h !in Without(Line(s), {h});
    OnlyFirstContends(s, h);
  }

  lemma HeadSplits(s: State, t: State, h: OpId)
    requires First(s, h) && Resumed(s, t)
    ensures !Waits(t, s.callbacks[0], AtGui)
    ensures s.callbacks[0] != h ==> h in t.callbacks
    ensures !Contends(s.ops, s.callbacks[0]) ==> !t.guiBusy
  {
    hide Line, Without, Contends;
    assert s.callbacks == [s.callbacks[0]] + s.callbacks[1..];
  }

  lemma StillFirst(s: State, e: Event, h: OpId)
    requires Inv(s) && Disciplined(s, e) && !Answers(e) && Step(s, e).Ok? && First(s, h) && h in Line(Step(s, e).state)
    ensures !Step(s, e).state.guiBusy && h in Step(s, e).state.callbacks
  {
    var t := Step(s, e).state;
    hide Inv, Disciplined, RunHead, Resumed, Line;
    match e
    case RunCallback(opens, v) =>
      HeadResumed(s, opens, v);
      StepIs(s, e);
      hide Step;
      HeadFirst(s, t, h);
    case Disconnect(c) =>
      DropOpsLine(s, OpsOf(s, c));
      OtherFields(s, DropOps(s, OpsOf(s, c)), t);
      hide OpsOf;
    case _ =>
      FirstContends(s, h);
      QueueKeeps(s, e);
  }

  lemma FirstContends(s: State, h: OpId)
    requires First(s, h)
    ensures Contends(s.ops, h)
  {
    hide Without, Contenders, Contends, IdSet;
    IdSetIs(s.callbacks);
    assert h in Line(s);
  }

  /** The other events take no contender out of the queue. */
  lemma QueueKeeps(s: State, e: Event)
    requires Inv(s) && Step(s, e).Ok? && !Answers(e) && !e.RunCallback? && !e.Disconnect?
    ensures var t := Step(s, e).state;
            t.guiBusy == s.guiBusy && forall id :: id in s.callbacks && !Waits(s, id, AtKey) ==> id in t.callbacks
  {
    assert ListsOk(s, {});
    hide Inv, ListsOk, Change, KS.Find, Without, Deleted;
    match e
    case LocalChange(change) =>
      ChangeSpares(s, change);
      ChangeLeaves(s, change);
    case RequestOther(_, change, _) =>
      if change.Some? {
        ChangeSpares(s, change.value);
        ChangeLeaves(s, change.value);
      }
    case _ =>
  }

  lemma WithoutHead(q: seq<OpId>, gone: set<OpId>)
    requires q != [] && q[0] !in gone
    ensures Without(q, gone) != [] && Without(q, gone)[0] == q[0]
  {
  }

  /** Before the next answer the first in the line stays first or leaves it. */
  lemma FirstStep(s: State, e: Event, h: OpId)
    requires Inv(s) && Disciplined(s, e) && !Answers(e) && Step(s, e).Ok? && First(s, h)
    ensures First(Step(s, e).state, h) || h !in Line(Step(s, e).state)
  {
    hide Inv, Disciplined, Step, Line, Without;
    var t := Step(s, e).state;
    var gone, late := StepMoves(s, e);
    if h in Line(t) {
      StillFirst(s, e, h);
      WithoutHead(Line(s), gone);
    }
  }

  /** So once the queue is drained it has left the line: it is served, has its own dialog, or is gone. */
  lemma {:induction false} FirstIsServed(s: State, es: seq<Event>, h: OpId)
    requires Inv(s) && DisciplinedRun(s, es) && NoAnswers(es) && h < s.next
    requires First(s, h) || h !in Line(s)
    ensures Run(s, es).Ok? && (Run(s, es).state.callbacks == [] ==> h !in Line(Run(s, es).state))
    decreases es
  {
    hide Inv, Disciplined, Step, Line;
    if es != [] {
      StepKeeps(s, es[0]);
      var t := Step(s, es[0]).state;
      var gone, late := StepMoves(s, es[0]);
      if First(s, h) {
        FirstStep(s, es[0], h);
      }
      hide First;
      assert NoAnswers(es[1..]);
      FirstIsServed(t, es[1..], h);
    }
  }

  // ----- a woken key waiter is answered -----

  predicate WokenOrGone(s: State, id: OpId) {
    id < s.next && (id in s.ops ==> Waits(s, id, AtKey) && id in s.callbacks)
  }

  lemma WokenStep(s: State, e: Event, id: OpId)
    requires Inv(s) && Disciplined(s, e) && !Answers(e) && Step(s, e).Ok? && WokenOrGone(s, id)
    ensures WokenOrGone(Step(s, e).state, id)
  {
    hide Inv, Disciplined, RunHead, Resumed;
    if e.RunCallback? {
      if s.callbacks != [] {
        HeadResumed(s, e.opens, e.verdict);
        StepIs(s, e);
        hide Step;
        ResumedWoken(s, Step(s, e).state, id);
      } else {
        EmptyRuns(s, e.opens, e.verdict);
      }
    } else {
      NextIsNewIn(s);
      WokenFrame(s, e, id);
    }
  }

  lemma ResumedWoken(s: State, t: State, id: OpId)
    requires s.callbacks != [] && Resumed(s, t) && WokenOrGone(s, id)
    ensures WokenOrGone(t, id)
  {
    hide Without;
    assert s.callbacks == [s.callbacks[0]] + s.callbacks[1..];
  }

  lemma WokenFrame(s: State, e: Event, id: OpId)
    requires NextIsNew(s) && !Answers(e) && !e.RunCallback? && Step(s, e).Ok? && WokenOrGone(s, id)
    ensures WokenOrGone(Step(s, e).state, id)
  {
    hide KS.Apply, KS.Find, Without;
  }

  lemma {:induction false} WokenIsAnswered(s: State, es: seq<Event>, id: OpId)
    requires Inv(s) && DisciplinedRun(s, es) && NoAnswers(es) && WokenOrGone(s, id)
    ensures Run(s, es).Ok? && (Run(s, es).state.callbacks == [] ==> id !in Run(s, es).state.ops)
    decreases es
  {
    hide Inv, Disciplined, Step;
    if es != [] {
      StepKeeps(s, es[0]);
      WokenStep(s, es[0], id);
      hide WokenOrGone;
      assert NoAnswers(es[1..]);
      WokenIsAnswered(Step(s, es[0]).state, es[1..], id);
    }
  }

  // ----- turns -----

  lemma KeyWaiters(s: State, k: KeyId)
    requires Inv(s) && s.callbacks == [] && k in s.prompting
    ensures forall id :: Waits(s, id, AtKey) <==> id in BlockedOn(s, k)
    ensures forall id :: Waits(s, id, AtGui) <==> id in s.guiBlocked
    ensures forall id :: id in s.ops ==> id < s.next
  {
    hide KS.Valid, NoDup;
    forall id ensures Waits(s, id, AtKey) <==> id in BlockedOn(s, k) {
      assert id in BlockedOn(s, k) <==> Waits(s, id, AtKey) && s.ops[id].key == k;
    }
  }

  /** A settled prompt of k, with nothing queued: the waiters of k are woken or freed, all others woken. */
  lemma SettledIs(s: State, e: Event)
    requires s.callbacks == [] && (e.Refuse? || (e.Passphrase? && e.load.Loaded?)) && Step(s, e).Ok?
    ensures var t, q := Step(s, e).state, BlockedOn(s, e.key);
            && !t.guiBusy && t.next == s.next && t.guiBlocked == s.guiBlocked
            && t.callbacks == (if e.Refuse? then [] else q) + s.guiBlocked
            && t.ops == if e.Refuse? then s.ops - IdSet(q) else s.ops
  {
    hide IdSet;
    StepIs(s, e);
    hide Step;
    if e.Refuse? {
      RefusalIs(s, e.key);
      RefusalNext(s, e.key);
      assert Without([], IdSet(BlockedOn(s, e.key))) == [];
    }
  }

  lemma RefusalNext(s: State, k: KeyId)
    requires GotRefusal(s, k).Ok?
    ensures GotRefusal(s, k).state.next == s.next
  {
  }

  /** What a settled prompt does to the line when the queue was drained: everybody in it is woken. */
  lemma SettledLine(s: State, e: Event)
    requires Inv(s) && s.callbacks == [] && Settles(s, e) && Step(s, e).Ok?
    ensures var t := Step(s, e).state;
            && Line(s) == s.guiBlocked && Line(t) == s.guiBlocked && !t.guiBusy && t.next == s.next
            && (forall id :: id in s.guiBlocked ==> id in t.callbacks)
            && (forall id :: Waits(s, id, AtKey) ==> WokenOrGone(t, id))
  {
    var t, q := Step(s, e).state, BlockedOn(s, e.key);
    assert e.key in s.prompting;
    hide Inv, Step, Line, IdSet, WokenOrGone, BlockedOn;
    KeyWaiters(s, e.key);
    SettledIs(s, e);
    hide Settles;
    DrainedLine(s);
    WaitersWoken(s, t, q, e.Refuse?);
    AllWokenLine(t, if e.Refuse? then [] else q, s.guiBlocked);
  }

  lemma WaitersWoken(s: State, t: State, q: seq<OpId>, refused: bool)
    requires forall id :: Waits(s, id, AtKey) <==> id in q
    requires forall id :: Waits(s, id, AtGui) <==> id in s.guiBlocked
    requires forall id :: id in s.ops ==> id < s.next
    requires t.next == s.next && t.callbacks == (if refused then [] else q) + s.guiBlocked
    requires t.ops == if refused then s.ops - IdSet(q) else s.ops
    ensures forall id :: id in s.guiBlocked ==> id in t.callbacks && Contends(t.ops, id)
    ensures forall id :: Waits(s, id, AtKey) ==> WokenOrGone(t, id)
    ensures !refused ==> forall id :: id in q ==> !Contends(t.ops, id)
  {
    IdSetIs(q);
    hide IdSet;
    forall id | id in s.guiBlocked ensures Contends(t.ops, id) {
      assert Waits(s, id, AtGui) && !Waits(s, id, AtKey);
    }
    forall id | id in q ensures Waits(s, id, AtKey) {
    }
  }

  lemma DrainedLine(s: State)
    requires s.callbacks == []
    ensures Line(s) == s.guiBlocked
  {
    WithoutNothing(s.guiBlocked, IdSet(s.callbacks));
    assert Contenders(s.ops, []) == [];
  }

  lemma AllWokenLine(t: State, woken: seq<OpId>, g: seq<OpId>)
    requires t.callbacks == woken + g && t.guiBlocked == g
    requires (forall id :: id in woken ==> !Contends(t.ops, id)) && (forall id :: id in g ==> Contends(t.ops, id))
    ensures Line(t) == g
  {
    hide Without, Contenders, Contends;
    EmptyOrHasOne(Without(g, IdSet(t.callbacks)));
    ContendersAppend(t.ops, woken, g);
    NoneContends(t.ops, woken);
    AllContend(t.ops, g);
  }

  /** An answer that settles the open prompt, and everything until the queue is drained again. */
  datatype Turn = Turn(answer: Event, rest: seq<Event>)

  predicate IsTurn(s: State, turn: Turn) {
    && Settles(s, turn.answer) && Step(s, turn.answer).Ok?
    && var t := Step(s, turn.answer).state;
       DisciplinedRun(t, turn.rest) && NoAnswers(turn.rest) && Run(t, turn.rest).Ok?
       && Run(t, turn.rest).state.callbacks == []
  }

  function AfterTurn(s: State, turn: Turn): State
    requires IsTurn(s, turn)
  {
    Run(Step(s, turn.answer).state, turn.rest).state
  }

  /** How many turns a pending request can still see: one with its own dialog, more behind others. */
  function Rank(s: State, id: OpId): nat {
    if Waits(s, id, AtKey) then 1 else 2 + |Ahead(Line(s), id)|
  }

  /** With the queue drained every pending request waits for a dialog. */
  lemma DrainedWaits(s: State, id: OpId)
    requires Inv(s) && s.callbacks == [] && id in s.ops
    ensures id < s.next && (Waits(s, id, AtKey) || id in s.guiBlocked)
  {
    hide KS.Valid, NoDup;
    assert Waits(s, id, AtGui) ==> id in s.guiBlocked;
  }

  /** Each turn, whatever new requests arrive in it, serves a request or brings it closer. */
  lemma TurnLowers(s: State, turn: Turn, id: OpId)
    requires Inv(s) && s.callbacks == [] && IsTurn(s, turn) && id in s.ops
    ensures var u := AfterTurn(s, turn);
            Inv(u) && u.callbacks == [] && (id in u.ops ==> Rank(u, id) < Rank(s, id))
  {
    var t, u := Step(s, turn.answer).state, AfterTurn(s, turn);
    DrainedWaits(s, id);
    StepKeeps(s, turn.answer);
    SettledLine(s, turn.answer);
    hide Inv, Step, Settles, Line, DisciplinedRun, WokenOrGone, Ahead, IsTurn, AfterTurn, Run;
    BurstMoves(t, turn.rest, id);
    if Waits(s, id, AtKey) {
      WokenIsAnswered(t, turn.rest, id);
    } else if id in u.ops {
      DrainedWaits(u, id);
      DrainedLine(u);
      if !Waits(u, id, AtKey) {
        var h := s.guiBlocked[0];
        assert h in t.callbacks;
        HeadIsOld(s, h);
        FirstIsServed(t, turn.rest, h);
        AheadDropped(Line(s), Line(u), h, id);
      }
    }
  }

  lemma HeadIsOld(s: State, h: OpId)
    requires Inv(s) && h in s.guiBlocked
    ensures h < s.next
  {
    hide KS.Valid, NoDup;
    assert Waits(s, h, AtGui);
  }

  lemma AheadDropped(q: seq<OpId>, r: seq<OpId>, h: OpId, id: OpId)
    requires q != [] && q[0] == h && h !in r && id in r && Ahead(r, id) <= Ahead(q, id)
    ensures |Ahead(r, id)| < |Ahead(q, id)|
  {
    AheadIn(r, id);
    assert h in Ahead(q, id);
    SubsetSize(Ahead(r, id), Ahead(q, id));
  }

  /** The request is pending at the start of each of the turns. */
  predicate PendingTurns(s: State, turns: seq<Turn>, id: OpId)
    decreases |turns|
  {
    turns == [] ||
    (id in s.ops && IsTurn(s, turns[0]) && PendingTurns(AfterTurn(s, turns[0]), turns[1..], id))
  }

  /**
   * No request waits for ever, however many new ones arrive. If each prompt is settled and the
   * queue drained before the next answer, a request is answered or gone within one turn if its key
   * has the dialog, and otherwise within two turns more than there are requests ahead of it.
   */
  lemma {:induction false} ServedInTurn(s: State, turns: seq<Turn>, id: OpId)
    requires Inv(s) && s.callbacks == [] && PendingTurns(s, turns, id)
    ensures |turns| <= Rank(s, id)
    decreases |turns|
  {
    hide Inv, IsTurn, AfterTurn, Rank;
    if turns != [] {
      TurnLowers(s, turns[0], id);
      var u := AfterTurn(s, turns[0]);
      if turns[1..] != [] {
        ServedInTurn(u, turns[1..], id);
      } else {
        RankPositive(s, id);
      }
    }
  }

  lemma RankPositive(s: State, id: OpId)
    ensures Rank(s, id) >= 1
  {
  }
}
