/** What the sign-request machine guarantees over whole runs, and where it stops guaranteeing it. */
module AgentRuns {
  import opened Bytes
  import opened Agent
  import opened AgentKeeps
  import KS = KeyStore

  function Run(s: State, es: seq<Event>): Outcome
    decreases es
  {
    if es == [] then Ok(s)
    else match Step(s, es[0])
      case Ok(t) => Run(t, es[1..])
      case Crash(line) => Crash(line)
  }

  predicate DisciplinedRun(s: State, es: seq<Event>)
    decreases es
  {
    es == [] ||
    (Disciplined(s, es[0]) && (Step(s, es[0]).Ok? ==> DisciplinedRun(Step(s, es[0]).state, es[1..])))
  }

  /** Nobody on the dialog's list is forgotten: it has been woken, or a dialog is still open. */
  predicate NoStarve(s: State) {
    forall id :: id in s.guiBlocked ==> id in s.callbacks || s.guiBusy
  }

  /** The three early returns of the passphrase handler, which do not wake the dialog's list. */
  predicate Abandons(s: State, e: Event) {
    && e.Passphrase?
    && e.key in s.store.privs && s.store.privs[e.key].clear.None?
    && (e.load.Unloadable? || (e.load.WrongPassphrase? && (BlockedOn(s, e.key) == [] || !e.opens)))
  }

  /** Somebody waits for the dialog and has not been woken. */
  ghost predicate SomeoneUnwoken(s: State) {
    exists id :: id in s.guiBlocked && id !in s.callbacks
  }

  lemma InitInv()
    ensures Inv(INIT) && NoStarve(INIT)
  {
    assert KS.Valid(KS.EMPTY);
    assert forall j :: BlockedOn(INIT, j) == [];
  }

  // ----- runs, event by event -----

  lemma RunOneMore(s: State, t: State, e: Event, rest: seq<Event>)
    requires Step(s, e) == Ok(t)
    ensures Run(s, [e] + rest) == Run(t, rest)
  {
    hide Step;
    assert ([e] + rest)[1..] == rest;
  }

  lemma RunTwo(s: State, t: State, e: Event, f: Event)
    requires Step(s, e) == Ok(t)
    ensures Run(s, [e, f]) == Step(t, f)
  {
    hide Step;
    assert [e, f][1..] == [f] && [f][1..] == [];
    assert Step(t, f).Ok? ==> Run(Step(t, f).state, []) == Step(t, f);
    assert Run(t, [f]) == Step(t, f);
  }

  lemma {:induction false} ExtendRun(s: State, es: seq<Event>, t: State, e: Event, u: State)
    requires DisciplinedRun(s, es) && Run(s, es) == Ok(t) && Disciplined(t, e) && Step(t, e) == Ok(u)
    ensures DisciplinedRun(s, es + [e]) && Run(s, es + [e]) == Ok(u)
    decreases es
  {
    hide Step, Disciplined;
    if es == [] {
      assert [e][1..] == [] && es + [e] == [e];
      assert Run(u, []) == Ok(u) && DisciplinedRun(u, []);
    } else {
      ExtendRun(Step(s, es[0]).state, es[1..], t, e, u);
      assert (es + [e])[1..] == es[1..] + [e];
    }
  }

  lemma NoEvents(s: State)
    ensures DisciplinedRun(s, []) && Run(s, []) == Ok(s)
  {
  }

  // ----- safety -----

  /** In every disciplined run no assertion fails and the invariant holds at the end. */
  lemma {:induction false} EveryRunIsSafe(s: State, es: seq<Event>)
    requires Inv(s) && DisciplinedRun(s, es)
    ensures Run(s, es).Ok? && Inv(Run(s, es).state)
    decreases es
  {
    hide Inv, Step, Disciplined;
    if es != [] {
      StepKeeps(s, es[0]);
      EveryRunIsSafe(Step(s, es[0]).state, es[1..]);
    }
  }

  /** The passphrase dialog itself only ever produces failures. */
  lemma PromptsOnlyFail(s: State, k: KeyId, reason: Reason, i: nat)
    requires i < |FailRequests(s, k, reason).replies|
    ensures i >= |s.replies| ==> FailRequests(s, k, reason).replies[i].reply == Failure(reason)
    ensures i < |s.replies| ==> FailRequests(s, k, reason).replies[i] == s.replies[i]
  {
  }

  lemma OnlyCallbacksSign(s: State, e: Event, i: nat)
    requires Step(s, e).Ok? && |s.replies| <= i < |Step(s, e).state.replies| && !e.RunCallback?
    ensures Step(s, e).state.replies[i].reply.Failure?
  {
    hide KS.Apply, KS.Find, Without, FailRequests;
    match e
    case Passphrase(k, load, opens) =>
      var t := Step(s, e).state;
      var d := DropPrompt(s, k);
      if t == FailRequests(d, k, Undecryptable) {
        PromptsOnlyFail(d, k, Undecryptable, i);
      } else if t == FailRequests(d, k, PromptsEnded) {
        PromptsOnlyFail(d, k, PromptsEnded, i);
      }
    case Refuse(k) => PromptsOnlyFail(DropPrompt(s, k), k, UserRefused, i);
    case _ =>
  }

  /** The answer is a signature made with the request's own key, in clear, over its own data and flags. */
  predicate Genuine(s: State, a: Answered) {
    && a.id in s.ops && s.ops[a.id].SignOp? && a.reply.Signature?
    && s.ops[a.id].key in s.store.privs
    && s.store.privs[s.ops[a.id].key].clear == Some(a.reply.secret)
    && a.reply.data == s.ops[a.id].data && a.reply.flags == s.ops[a.id].flags
  }

  lemma FinishSigns(s: State, id: OpId, v: Verdict, i: nat)
    requires id in s.ops && s.ops[id].SignOp? && Finish(s, id, v).Ok?
    requires |s.replies| <= i < |Finish(s, id, v).state.replies| && Finish(s, id, v).state.replies[i].reply.Signature?
    ensures var a := Finish(s, id, v).state.replies[i]; a.id == id && Genuine(s, a)
  {
    hide Without;
  }

  lemma ContendSigns(s: State, id: OpId, opens: bool, v: Verdict, i: nat)
    requires id in s.ops && s.ops[id].SignOp? && Contend(s, id, opens, v).Ok?
    requires |s.replies| <= i < |Contend(s, id, opens, v).state.replies|
    requires Contend(s, id, opens, v).state.replies[i].reply.Signature?
    ensures var a := Contend(s, id, opens, v).state.replies[i]; a.id == id && Genuine(s, a)
  {
    hide Finish, Without, Unlinked, Genuine;
    if s.store.privs[s.ops[id].key].clear.Some? {
      FinishSigns(s, id, v, i);
    }
  }

  /** A signature is made only with the key's own clear form, over the data of that very request. */
  lemma SignaturesAreGenuine(s: State, e: Event, i: nat)
    requires Step(s, e).Ok? && |s.replies| <= i < |Step(s, e).state.replies|
    requires Step(s, e).state.replies[i].reply.Signature?
    ensures var a := Step(s, e).state.replies[i]; s.callbacks != [] && a.id == s.callbacks[0] && Genuine(s, a)
  {
    hide RunHead, Genuine;
    if e.RunCallback? {
      CallbacksSign(s, e.opens, e.verdict, i);
    } else {
      OnlyCallbacksSign(s, e, i);
    }
  }

  lemma CallbacksSign(s: State, opens: bool, v: Verdict, i: nat)
    requires RunHead(s, opens, v).Ok? && |s.replies| <= i < |RunHead(s, opens, v).state.replies|
    requires RunHead(s, opens, v).state.replies[i].reply.Signature?
    ensures var a := RunHead(s, opens, v).state.replies[i]; s.callbacks != [] && a.id == s.callbacks[0] && Genuine(s, a)
  {
    hide Without, Contend, Finish;
    var id, t := s.callbacks[0], s.(callbacks := s.callbacks[1..]);
    match s.ops[id].at
    case Start => ContendSigns(t, id, opens, v, i);
    case AtGui => ContendSigns(Unlink(t, id), id, opens, v, i);
    case AtKey => FinishSigns(Unlink(t, id), id, v, i);
  }

  /** Replies are only ever appended, so an answer once given is never repeated or taken back. */
  lemma RepliesGrow(s: State, e: Event)
    requires Step(s, e).Ok?
    ensures s.replies <= Step(s, e).state.replies
  {
    hide Change, KS.Find, Without, IdSet, OpsOf, Unlinked, RunHead, GotPassphrase, GotRefusal;
    match e
    case RunCallback(opens, v) => RunHeadGrows(s, opens, v);
    case Passphrase(k, load, opens) => PromptGrows(s, e);
    case Refuse(k) => PromptGrows(s, e);
    case LocalChange(change) => ChangeLeaves(s, change);
    case RequestOther(_, change, _) =>
      if change.Some? {
        ChangeLeaves(s, change.value);
      }
    case _ =>
  }

  lemma RunHeadGrows(s: State, opens: bool, v: Verdict)
    requires RunHead(s, opens, v).Ok?
    ensures s.replies <= RunHead(s, opens, v).state.replies
  {
    hide Without, Unlinked, Contend, Finish;
    if s.callbacks != [] {
      var id, t := s.callbacks[0], s.(callbacks := s.callbacks[1..]);
      if s.ops[id].SignOp? {
        FinishGrows(Unlink(t, id), id, v);
        ContendGrows(t, id, opens, v);
        ContendGrows(Unlink(t, id), id, opens, v);
      }
    }
  }

  lemma FinishGrows(s: State, id: OpId, v: Verdict)
    requires id in s.ops && s.ops[id].SignOp?
    ensures Finish(s, id, v).Ok? ==> s.replies <= Finish(s, id, v).state.replies
  {
    hide Without;
  }

  lemma ContendGrows(s: State, id: OpId, opens: bool, v: Verdict)
    requires id in s.ops && s.ops[id].SignOp?
    ensures Contend(s, id, opens, v).Ok? ==> s.replies <= Contend(s, id, opens, v).state.replies
  {
    hide Without, Unlinked, Finish;
    FinishGrows(s, id, v);
  }

  lemma PromptGrows(s: State, e: Event)
    requires (e.Passphrase? || e.Refuse?) && Step(s, e).Ok?
    ensures s.replies <= Step(s, e).state.replies
  {
    hide Without, IdSet;
  }

  /** Over every disciplined run the answers given stand, and none is for a request answered before. */
  lemma {:induction false} AnswersStand(s: State, es: seq<Event>)
    requires Inv(s) && DisciplinedRun(s, es)
    ensures Run(s, es).Ok?
    ensures var r := Run(s, es).state.replies;
            && s.replies <= r
            && forall i, j :: 0 <= i < j < |r| ==> r[i].id != r[j].id
    decreases es
  {
    if es == [] {
      hide KS.Valid, NoDup;
    } else {
      hide Inv, Step, Disciplined;
      StepKeeps(s, es[0]);
      RepliesGrow(s, es[0]);
      AnswersStand(Step(s, es[0]).state, es[1..]);
    }
  }

  lemma LockIsExclusive(s: State)
    requires Inv(s)
    ensures s.guiBusy <==> |s.prompting| == 1
    ensures |s.prompting| <= 1
    ensures forall id :: id in s.guiBlocked ==> forall k :: id !in BlockedOn(s, k)
    ensures forall id, j, k :: id in BlockedOn(s, j) && id in BlockedOn(s, k) ==> j == k
  {
    hide KS.Valid;
    if s.prompting != {} {
      var k :| k in s.prompting;
      assert s.prompting == {k};
    }
    forall id, j, k | id in BlockedOn(s, j) && id in BlockedOn(s, k) ensures j == k {
      assert s.ops[id].key == j && s.ops[id].key == k;
    }
  }

  // ----- nobody is forgotten -----

  /**
   * Starting from a state where nobody is forgotten, a step forgets somebody iff it is one of the
   * three early returns and somebody who waits for the dialog has not been woken yet.
   */
  lemma NoStarveExactly(s: State, e: Event)
    requires Inv(s) && Disciplined(s, e) && NoStarve(s)
    ensures Step(s, e).Ok?
    ensures NoStarve(Step(s, e).state) <==> !(Abandons(s, e) && SomeoneUnwoken(s))
  {
    StepKeeps(s, e);
    StepIs(s, e);
    hide Inv, Step, Disciplined, NoStarve, SomeoneUnwoken;
    match e
    case RunCallback(opens, v) => RunHeadNoStarve(s, opens, v);
    case Refuse(k) => RefusalNoStarve(s, k);
    case Passphrase(k, load, opens) => PassphraseNoStarve(s, e);
    case _ => QuietNoStarve(s, e);
  }

  lemma QuietNoStarve(s: State, e: Event)
    requires ListsOk(s, {}) && NoStarve(s) && Step(s, e).Ok? && !e.RunCallback? && !e.Passphrase? && !e.Refuse?
    ensures NoStarve(Step(s, e).state)
  {
    hide KS.Find, Change, Without, OpsOf, ListsOk;
    match e
    case LocalChange(change) => ChangeNoStarve(s, change);
    case RequestOther(c, change, body) =>
      if change.Some? {
        ChangeNoStarve(s, change.value);
      }
    case _ =>
  }

  lemma ChangeNoStarve(s: State, change: KS.Op)
    requires ListsOk(s, {}) && NoStarve(s)
    ensures NoStarve(Change(s, change))
  {
    hide Change, Without, Deleted, ListsOk;
    ChangeSpares(s, change);
    ChangeLeaves(s, change);
  }

  lemma RefusalNoStarve(s: State, k: KeyId)
    requires GotRefusal(s, k).Ok?
    ensures NoStarve(GotRefusal(s, k).state)
  {
    hide Without, IdSet;
  }

  /** Only the lists, the queue and the lock matter. */
  lemma NoStarveFrame(s: State, t: State, id: OpId)
    requires NoStarve(s) && (s.guiBusy ==> t.guiBusy)
    requires forall x :: x in t.guiBlocked ==> x in s.guiBlocked && x != id
    requires forall x :: x in s.callbacks && x != id ==> x in t.callbacks
    ensures NoStarve(t)
  {
  }

  lemma ContendNoStarve(s: State, u: State, id: OpId, opens: bool, v: Verdict)
    requires NoStarve(s) && id in u.ops && u.ops[id].SignOp? && Contend(u, id, opens, v).Ok?
    requires u.guiBusy == s.guiBusy
    requires forall x :: x in u.guiBlocked ==> x in s.guiBlocked && x != id
    requires forall x :: x in s.callbacks && x != id ==> x in u.callbacks
    ensures NoStarve(Contend(u, id, opens, v).state)
  {
    hide Finish, Without, Unlinked;
    NoStarveFrame(s, u, id);
    if u.store.privs[u.ops[id].key].clear.Some? {
      FinishNoStarve(s, u, id, v);
    } else if !u.guiBusy && u.ops[id].key !in u.prompting && !opens {
      NoStarveFrame(s, Respond(u, id, Failure(CannotPrompt)), id);
    }
  }

  lemma FinishNoStarve(s: State, u: State, id: OpId, v: Verdict)
    requires NoStarve(s) && id in u.ops && u.ops[id].SignOp? && Finish(u, id, v).Ok?
    requires u.guiBusy == s.guiBusy
    requires forall x :: x in u.guiBlocked ==> x in s.guiBlocked && x != id
    requires forall x :: x in s.callbacks && x != id ==> x in u.callbacks
    ensures NoStarve(Finish(u, id, v).state)
  {
    hide Without, NoStarve;
    NoStarveFrame(s, Finish(u, id, v).state, id);
  }

  lemma RunHeadNoStarve(s: State, opens: bool, v: Verdict)
    requires Inv(s) && NoStarve(s) && RunHead(s, opens, v).Ok?
    ensures NoStarve(RunHead(s, opens, v).state)
  {
    if s.callbacks != [] {
      var id := s.callbacks[0];
      var t := s.(callbacks := s.callbacks[1..]);
      assert s.callbacks == [id] + t.callbacks;
      assert id in s.ops && (id in s.guiBlocked <==> Waits(s, id, AtGui));
      hide Inv, Contend, Finish, NoStarve, Without;
      match s.ops[id]
      case ReplyOp(_, body) => NoStarveFrame(s, Respond(t, id, Immediate(body)), id);
      case SignOp(_, _, _, _, at) =>
        match at
        case Start => ContendNoStarve(s, t, id, opens, v);
        case AtGui => ContendNoStarve(s, Unlink(t, id), id, opens, v);
        case AtKey => FinishNoStarve(s, Unlink(t, id), id, v);
    }
  }

  lemma PassphraseNoStarve(s: State, e: Event)
    requires Inv(s) && Disciplined(s, e) && NoStarve(s) && e.Passphrase? && Step(s, e).Ok?
    ensures NoStarve(Step(s, e).state) <==> !(Abandons(s, e) && SomeoneUnwoken(s))
  {
    var k := e.key;
    WaitersAreApart(s, k);
    assert k in s.prompting && s.guiBusy && k in s.store.privs;
    hide Inv, Disciplined, IdSet, BlockedOn, Without;
    StepIs(s, e);
    hide Step;
    if Abandons(s, e) {
      AbandoningStarves(s, e);
    } else {
      hide FailRequests;
    }
  }

  lemma AbandoningStarves(s: State, e: Event)
    requires Abandons(s, e) && GotPassphrase(s, e.key, e.load, e.opens).Ok?
    requires forall id :: id in s.guiBlocked ==> id !in IdSet(BlockedOn(s, e.key))
    ensures NoStarve(GotPassphrase(s, e.key, e.load, e.opens).state) <==> !SomeoneUnwoken(s)
  {
    hide Without, IdSet;
    var k := e.key;
    var t := GotPassphrase(s, k, e.load, e.opens).state;
    assert BlockedOn(DropPrompt(s, k), k) == BlockedOn(s, k);
    assert BlockedOn(s, k)[..|BlockedOn(s, k)|] == BlockedOn(s, k);
    assert t.guiBlocked == s.guiBlocked && !t.guiBusy;
    assert forall id :: id in s.guiBlocked ==> (id in t.callbacks <==> id in s.callbacks);
  }

  lemma WaitersAreApart(s: State, k: KeyId)
    requires ListsOk(s, {})
    ensures forall id :: id in s.guiBlocked ==> id !in IdSet(BlockedOn(s, k))
  {
    hide NoDup;
    forall id | id in s.guiBlocked ensures id !in BlockedOn(s, k) {
      assert Waits(s, id, AtGui);
    }
  }

  /** No step of the run abandons somebody who waits for the dialog. */
  ghost predicate NeverAbandons(s: State, es: seq<Event>)
    decreases es
  {
    es == [] ||
    (&& !(Abandons(s, es[0]) && SomeoneUnwoken(s))
     && (Step(s, es[0]).Ok? ==> NeverAbandons(Step(s, es[0]).state, es[1..])))
  }

  lemma {:induction false} RunNoStarve(s: State, es: seq<Event>)
    requires Inv(s) && NoStarve(s) && DisciplinedRun(s, es) && NeverAbandons(s, es)
    ensures Run(s, es).Ok? && Inv(Run(s, es).state) && NoStarve(Run(s, es).state)
    decreases es
  {
    hide Inv, Step, Disciplined, NoStarve, Abandons, SomeoneUnwoken;
    if es != [] {
      StepKeeps(s, es[0]);
      NoStarveExactly(s, es[0]);
      RunNoStarve(Step(s, es[0]).state, es[1..]);
    }
  }

  /** With the queue drained, a request can only be pending because a dialog is on screen. */
  lemma PendingNeedsDialog(s: State, id: OpId)
    requires Inv(s) && NoStarve(s) && s.callbacks == [] && id in s.ops
    ensures s.guiBusy
    ensures s.ops[id].SignOp? && (s.ops[id].at == AtKey ==> s.ops[id].key in s.prompting)
  {
    hide KS.Valid, NoDup;
    if Waits(s, id, AtGui) {
      assert id in s.guiBlocked;
    } else {
      assert Waits(s, id, AtKey);
    }
  }

  /** With the queue drained and no dialog open, every request ever made is answered or dropped. */
  lemma QuiescentMeansAnswered(s: State)
    requires Inv(s) && NoStarve(s) && s.callbacks == [] && !s.guiBusy
    ensures s.ops == map[]
    ensures forall id: OpId :: id < s.next && id !in s.dropped ==> Replied(s, id)
  {
    hide KS.Valid, NoDup;
    if id :| id in s.ops {
      PendingNeedsDialog(s, id);
    }
  }

  /**
   * From the empty agent: after any disciplined run that abandons nobody, a drained queue and no
   * dialog mean that every request has been answered or has left with its client.
   */
  lemma AnsweredFromTheStart(es: seq<Event>)
    requires DisciplinedRun(INIT, es) && NeverAbandons(INIT, es)
    ensures Run(INIT, es).Ok?
    ensures var s := Run(INIT, es).state;
            s.callbacks == [] && !s.guiBusy ==> forall id: OpId :: id < s.next && id !in s.dropped ==> Replied(s, id)
  {
    InitInv();
    hide Inv, NoStarve, Run, DisciplinedRun, NeverAbandons;
    RunNoStarve(INIT, es);
    var s := Run(INIT, es).state;
    if s.callbacks == [] && !s.guiBusy {
      QuiescentMeansAnswered(s);
    }
  }

  // ----- waiting comes to an end -----

  /** Sign requests that have not got as far as a dialog for their own key. */
  function Unserved(s: State): set<OpId> {
    set id | id in s.ops && s.ops[id].SignOp? && s.ops[id].at != AtKey
  }

  /** Pending requests, those without a dialog of their own counted twice. */
  function Load(s: State): nat {
    |s.ops| + |Unserved(s)|
  }

  lemma SubsetSize(a: set<OpId>, b: set<OpId>)
    requires a <= b
    ensures |a| <= |b| && (a != b ==> |a| < |b|)
  {
    assert b == a + (b - a);
    assert |b| == |a| + |b - a|;
    if b - a == {} {
      assert a == b;
    }
  }

  /** Freeing requests and leaving the others alone. */
  lemma FreedLoad(s: State, t: State, gone: set<OpId>)
    requires t.ops == s.ops - gone
    ensures Load(t) <= Load(s) && ((exists id :: id in s.ops && id in gone) ==> Load(t) < Load(s))
  {
    assert t.ops.Keys == s.ops.Keys - gone;
    assert |t.ops.Keys| == |t.ops| && |s.ops.Keys| == |s.ops|;
    SubsetSize(t.ops.Keys, s.ops.Keys);
    SubsetSize(Unserved(t), Unserved(s));
    if id :| id in s.ops && id in gone {
      assert id !in t.ops.Keys;
    }
  }

  /** Linking one request to a list. */
  lemma LinkedLoad(s: State, t: State, id: OpId, at: Resume)
    requires id in Unserved(s) && t.ops == s.ops[id := s.ops[id].(at := at)]
    ensures Load(t) == if at == AtKey then Load(s) - 1 else Load(s)
  {
    assert t.ops.Keys == s.ops.Keys;
    assert |t.ops.Keys| == |t.ops| && |s.ops.Keys| == |s.ops|;
    assert Unserved(t) == if at == AtKey then Unserved(s) - {id} else Unserved(s);
  }

  lemma RespondWorks(s: State, id: OpId, r: Reply)
    requires InvWith(s, {id}) && id in s.ops
    ensures var t := Respond(s, id, r); t.callbacks == s.callbacks && Load(t) < Load(s)
  {
    hide KS.Valid, NoDup, Without, Load;
    WithoutNothing(s.callbacks, {id});
    FreedLoad(s, Respond(s, id, r), {id});
  }

  lemma FinishWorks(s: State, id: OpId, v: Verdict)
    requires InvWith(s, {id}) && id in s.ops && s.ops[id].SignOp? && Finish(s, id, v).Ok?
    ensures var t := Finish(s, id, v).state; t.callbacks == s.callbacks && Load(t) < Load(s)
  {
    hide InvWith, Respond, Load;
    var op := s.ops[id];
    match v
    case UnsupportedFlags => RespondWorks(s, id, Failure(BadFlags));
    case Invalid => RespondWorks(s, id, Failure(InvalidKey));
    case Acceptable => RespondWorks(s, id, Signature(s.store.privs[op.key].clear.value, op.data, op.flags));
  }

  lemma ContendWorks(s: State, id: OpId, opens: bool, v: Verdict)
    requires InvWith(s, {id}) && id in s.ops && s.ops[id].SignOp? && s.ops[id].at != AtKey
             && Contend(s, id, opens, v).Ok?
    ensures var t := Contend(s, id, opens, v).state;
            t.callbacks == s.callbacks && Load(t) <= Load(s) && (!s.guiBusy ==> Load(t) < Load(s))
  {
    hide InvWith, Respond, Finish, Load, Unlinked;
    var t := Contend(s, id, opens, v).state;
    var k := s.ops[id].key;
    if s.store.privs[k].clear.Some? {
      FinishWorks(s, id, v);
    } else if s.guiBusy {
      LinkedLoad(s, t, id, AtGui);
    } else if k !in s.prompting && !opens {
      RespondWorks(s, id, Failure(CannotPrompt));
    } else {
      LinkedLoad(s, t, id, AtKey);
    }
  }

  /** Running one callback never adds work; it does some unless it goes back to wait for a dialog. */
  lemma RunHeadWorks(s: State, opens: bool, v: Verdict)
    requires Inv(s) && s.callbacks != []
    ensures var o := RunHead(s, opens, v);
            && o.Ok? && Inv(o.state)
            && o.state.callbacks == s.callbacks[1..]
            && Load(o.state) <= Load(s)
            && (!s.guiBusy ==> Load(o.state) < Load(s))
  {
    RunHeadKeeps(s, opens, v);
    assert s.callbacks[0] in s.ops;
    var id := s.callbacks[0];
    var t := s.(callbacks := s.callbacks[1..]);
    assert Load(t) == Load(s) && (s.ops[id].SignOp? ==> Load(Unlink(t, id)) == Load(s));
    hide Inv, InvWith, Contend, Finish, Respond, Without, Load;
    if s.ops[id].ReplyOp? {
      DetachNewKeeps(s);
      RespondWorks(t, id, Immediate(s.ops[id].body));
    } else if s.ops[id].at == Start {
      DetachNewKeeps(s);
      ContendWorks(t, id, opens, v);
    } else {
      DetachWaiterKeeps(s, s.ops[id].key);
      if s.ops[id].at == AtGui {
        ContendWorks(Unlink(t, id), id, opens, v);
      } else {
        FinishWorks(Unlink(t, id), id, v);
      }
    }
  }

  function Callbacks(envs: seq<(bool, Verdict)>): seq<Event> {
    if envs == [] then [] else [RunCallback(envs[0].0, envs[0].1)] + Callbacks(envs[1..])
  }

  /** Draining the queue, whatever the dialogs and the algorithms say on the way. */
  lemma {:induction false} DrainWorks(s: State, envs: seq<(bool, Verdict)>)
    requires Inv(s) && |envs| == |s.callbacks|
    ensures var o := Run(s, Callbacks(envs));
            && o.Ok? && Inv(o.state) && o.state.callbacks == []
            && Load(o.state) <= Load(s)
            && (!s.guiBusy && s.callbacks != [] ==> Load(o.state) < Load(s))
    ensures NoStarve(s) ==> NoStarve(Run(s, Callbacks(envs)).state)
    decreases |envs|
  {
    hide KS.Valid, NoDup, Without, Inv, RunHead, Load;
    if envs != [] {
      RunHeadWorks(s, envs[0].0, envs[0].1);
      if NoStarve(s) {
        RunHeadNoStarve(s, envs[0].0, envs[0].1);
      }
      hide NoStarve;
      var t := RunHead(s, envs[0].0, envs[0].1).state;
      DrainWorks(t, envs[1..]);
      assert Callbacks(envs)[1..] == Callbacks(envs[1..]);
      assert Callbacks(envs)[0] == RunCallback(envs[0].0, envs[0].1);
    }
  }

  /** The user settles a prompt: by refusing it or by giving the right passphrase. */
  predicate Settles(s: State, e: Event) {
    Disciplined(s, e) && (e.Refuse? || (e.Passphrase? && e.load.Loaded?))
  }

  lemma DrainedWaiters(s: State, k: KeyId)
    requires Inv(s) && s.callbacks == [] && k in s.prompting
    ensures forall id :: id in s.ops ==> id in BlockedOn(s, k) || id in s.guiBlocked
  {
    hide KS.Valid, NoDup;
    forall id | id in s.ops ensures id in BlockedOn(s, k) || id in s.guiBlocked {
      if Waits(s, id, AtKey) {
        assert s.ops[id].key == k;
      } else {
        assert Waits(s, id, AtGui);
      }
    }
  }

  lemma RefuseSettles(s: State, k: KeyId)
    requires Inv(s) && s.callbacks == [] && k in s.prompting && GotRefusal(s, k).Ok?
    ensures var t := GotRefusal(s, k).state;
            && !t.guiBusy && Load(t) <= Load(s) && t.ops.Keys <= s.ops.Keys
            && (forall id :: id in t.ops ==> t.ops[id] == s.ops[id])
            && (s.ops != map[] ==> Load(t) < Load(s) || t.callbacks != [])
  {
    hide Inv, GotRefusal, BlockedOn, Load;
    DrainedWaiters(s, k);
    RefusalIs(s, k);
    var q := BlockedOn(s, k);
    IdSetIs(q);
    FreedLoad(s, GotRefusal(s, k).state, IdSet(q));
    if s.ops != map[] {
      var id :| id in s.ops;
      if id in q {
        assert id in IdSet(q);
      } else {
        assert id in s.guiBlocked;
      }
    }
  }

  lemma RefusalIs(s: State, k: KeyId)
    requires GotRefusal(s, k).Ok?
    ensures var t := GotRefusal(s, k).state;
            && !t.guiBusy && t.ops == s.ops - IdSet(BlockedOn(s, k)) && t.guiBlocked == s.guiBlocked
            && t.callbacks == Without(s.callbacks, IdSet(BlockedOn(s, k))) + s.guiBlocked
  {
    hide Without, IdSet;
    assert BlockedOn(DropPrompt(s, k), k) == BlockedOn(s, k);
    assert BlockedOn(s, k)[..|BlockedOn(s, k)|] == BlockedOn(s, k);
  }

  lemma LoadedSettles(s: State, k: KeyId, secret: Blob, opens: bool)
    requires Inv(s) && s.callbacks == [] && k in s.prompting && GotPassphrase(s, k, Loaded(secret), opens).Ok?
    ensures var t := GotPassphrase(s, k, Loaded(secret), opens).state;
            && !t.guiBusy && Load(t) == Load(s) && t.ops == s.ops
            && (s.ops != map[] ==> t.callbacks != [])
  {
    DrainedWaiters(s, k);
    assert k in s.store.privs;
    hide Inv, FailRequests, Without, IdSet, BlockedOn, Load;
    var t := GotPassphrase(s, k, Loaded(secret), opens).state;
    assert t.ops == s.ops && !t.guiBusy && t.callbacks == s.callbacks + BlockedOn(s, k) + s.guiBlocked;
    hide GotPassphrase;
    LoadIs(s, t);
    if s.ops != map[] {
      var id :| id in s.ops;
      assert id in BlockedOn(s, k) + s.guiBlocked;
    }
  }

  lemma LoadIs(s: State, t: State)
    requires s.ops == t.ops
    ensures Load(s) == Load(t)
  {
    assert Unserved(t) == Unserved(s);
  }

  lemma SettleStep(s: State, e: Event)
    requires Inv(s) && NoStarve(s) && s.callbacks == [] && Settles(s, e)
    ensures var o := Step(s, e);
            && o.Ok? && Inv(o.state) && NoStarve(o.state) && !o.state.guiBusy
            && Load(o.state) <= Load(s)
            && (s.ops != map[] ==> Load(o.state) < Load(s) || o.state.callbacks != [])
  {
    hide Inv, GotRefusal, GotPassphrase, Load, NoStarve, RunHead, Step;
    StepKeeps(s, e);
    NoStarveExactly(s, e);
    DrainedWaiters(s, e.key);
    StepIs(s, e);
    match e
    case Refuse(k) => RefuseSettles(s, k);
    case Passphrase(k, load, opens) => LoadedSettles(s, k, load.secret, opens);
  }

  lemma StepIs(s: State, e: Event)
    ensures e.RunCallback? ==> Step(s, e) == RunHead(s, e.opens, e.verdict)
    ensures e.Passphrase? ==> Step(s, e) == GotPassphrase(s, e.key, e.load, e.opens)
    ensures e.Refuse? ==> Step(s, e) == GotRefusal(s, e.key)
  {
    hide RunHead, GotPassphrase, GotRefusal;
  }

  /** One settled prompt, then the queue drained. */
  function Round(e: Event, envs: seq<(bool, Verdict)>): seq<Event> {
    [e] + Callbacks(envs)
  }

  lemma RoundWorks(s: State, e: Event, envs: seq<(bool, Verdict)>)
    requires Inv(s) && NoStarve(s) && s.callbacks == [] && Settles(s, e)
    requires Step(s, e).Ok? ==> |envs| == |Step(s, e).state.callbacks|
    ensures var o := Run(s, Round(e, envs));
            && o.Ok? && Inv(o.state) && NoStarve(o.state) && o.state.callbacks == []
            && Load(o.state) <= Load(s) && (s.ops != map[] ==> Load(o.state) < Load(s))
  {
    hide Inv, Load, NoStarve, Settles, Step;
    SettleStep(s, e);
    DrainWorks(Step(s, e).state, envs);
    assert Round(e, envs)[0] == e && Round(e, envs)[1..] == Callbacks(envs);
  }

  datatype Answer = Answer(event: Event, envs: seq<(bool, Verdict)>)

  /** A sequence of rounds, each starting with something still pending. */
  predicate PendingRounds(s: State, rounds: seq<Answer>)
    decreases rounds
  {
    rounds == [] ||
    (&& s.ops != map[]
     && Settles(s, rounds[0].event)
     && Step(s, rounds[0].event).Ok?
     && |rounds[0].envs| == |Step(s, rounds[0].event).state.callbacks|
     && (var o := Run(s, Round(rounds[0].event, rounds[0].envs));
         o.Ok? && PendingRounds(o.state, rounds[1..])))
  }

  /**
   * None waits for ever: however the prompts are settled, something can stay pending for at most
   * as many rounds as there were requests, those waiting for the dialog counted twice.
   */
  lemma {:induction false} WaitingEnds(s: State, rounds: seq<Answer>)
    requires Inv(s) && NoStarve(s) && s.callbacks == [] && PendingRounds(s, rounds)
    ensures |rounds| <= Load(s)
    decreases rounds
  {
    hide Inv, Load, NoStarve, Settles, Step, Run, Round;
    if rounds != [] {
      RoundWorks(s, rounds[0].event, rounds[0].envs);
      WaitingEnds(Run(s, Round(rounds[0].event, rounds[0].envs)).state, rounds[1..]);
    }
  }
}
