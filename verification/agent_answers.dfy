/**
 * What became of each request: the events of a run, read on their own, against the machine's answers.
 * The n-th request of a run is the one with id n; what it asked for and whether its key was there is
 * all that the reading keeps of it.
 */
module AgentAnswers {
  import opened Bytes
  import opened Agent
  import opened AgentKeeps
  import opened AgentRuns
  import KS = KeyStore

  datatype Ask = Ask(request: Event, known: bool)

  predicate IsRequest(e: Event) {
    e.RequestSign? || e.RequestOther?
  }

  ghost predicate Holds(st: KS.Store, base: Blob, full: Blob) {
    exists p :: p in st.pubs && p.sort == KS.PubSort(KS.PrivSort(2, base), full)
  }

  ghost function NewAsk(s: State, e: Event): seq<Ask> {
    if IsRequest(e) then [Ask(e, e.RequestSign? && Holds(s.store, e.base, e.full))] else []
  }

  /** The requests of a run in the order they were made. */
  ghost function AskedIn(s: State, es: seq<Event>): seq<Ask>
    decreases es
  {
    if es == [] || Step(s, es[0]).Crash? then []
    else NewAsk(s, es[0]) + AskedIn(Step(s, es[0]).state, es[1..])
  }

  /** The event brings this clear form of this private key. */
  predicate Gives(e: Event, k: KeyId, secret: Blob) {
    match e
    case LocalChange(AddClear(sort, _, x)) => sort.priv == k && x == secret
    case RequestOther(_, Some(AddClear(sort, _, x)), _) => sort.priv == k && x == secret
    case Passphrase(j, Loaded(x), _) => j == k && x == secret
    case _ => false
  }

  ghost predicate Given(es: seq<Event>, k: KeyId, secret: Blob) {
    exists i :: 0 <= i < |es| && Gives(es[i], k, secret)
  }

  /** A live request is what was asked: same client, and the same data, flags and key, or the same body. */
  predicate Matches(op: Op, a: Ask) {
    match a.request
    case RequestSign(c, base, _, data, flags) =>
      op.client == c &&
      if a.known then op.SignOp? && op.key == KS.PrivSort(2, base) && op.data == data && op.flags == flags
      else op.ReplyOp? && op.body == [5]
    case RequestOther(c, _, body) => op == ReplyOp(c, body)
    case _ => false
  }

  /** The answer is one to what was asked, and a signature is made with a form that was given for that key. */
  ghost predicate Fits(r: Reply, a: Ask, es: seq<Event>) {
    match r
    case Signature(secret, data, flags) =>
      a.request.RequestSign? && a.known && data == a.request.data && flags == a.request.flags
      && Given(es, KS.PrivSort(2, a.request.base), secret)
    case Failure(_) => a.request.RequestSign? && a.known
    case Immediate(body) =>
      match a.request
      case RequestOther(_, _, x) => body == x
      case RequestSign(_, _, _, _, _) => !a.known && body == [5]
      case _ => false
  }

  /** The client went away after its n-th request. */
  ghost predicate Left(s: State, es: seq<Event>, n: nat, c: ClientId) {
    exists i :: 0 <= i < |es| && es[i] == Disconnect(c) && n < |AskedIn(s, es[..i])|
  }

  // ----- one step -----

  /** The same request, wherever it resumes. */
  predicate SameRequest(a: Op, b: Op) {
    a == b || (a.SignOp? && b.SignOp? && b == a.(at := b.at))
  }

  /** No request changes what it asks for, and only requests that arrive are new. */
  ghost predicate Continues(s: State, t: State) {
    && t.next == s.next && t.dropped == s.dropped
    && (forall id :: id in t.ops ==> id in s.ops && SameRequest(s.ops[id], t.ops[id]))
  }

  lemma FinishContinues(s: State, id: OpId, v: Verdict)
    requires id in s.ops && s.ops[id].SignOp? && Finish(s, id, v).Ok?
    ensures Continues(s, Finish(s, id, v).state) && Finish(s, id, v).state.store == s.store
  {
    hide Without;
  }

  lemma ContendContinues(s: State, id: OpId, opens: bool, v: Verdict)
    requires id in s.ops && s.ops[id].SignOp? && Contend(s, id, opens, v).Ok?
    ensures Continues(s, Contend(s, id, opens, v).state) && Contend(s, id, opens, v).state.store == s.store
  {
    hide Without, Unlinked, Finish;
    if s.store.privs[s.ops[id].key].clear.Some? {
      FinishContinues(s, id, v);
    }
  }

  lemma RunHeadContinues(s: State, opens: bool, v: Verdict)
    requires RunHead(s, opens, v).Ok?
    ensures Continues(s, RunHead(s, opens, v).state) && RunHead(s, opens, v).state.store == s.store
  {
    hide Without, Contend, Finish;
    if s.callbacks != [] {
      var id, t := s.callbacks[0], s.(callbacks := s.callbacks[1..]);
      if s.ops[id].SignOp? {
        match s.ops[id].at
        case Start => ContendContinues(t, id, opens, v);
        case AtGui => ContendContinues(Unlink(t, id), id, opens, v);
        case AtKey => FinishContinues(Unlink(t, id), id, v);
      }
    }
  }

  lemma PromptContinues(s: State, e: Event)
    requires (e.Passphrase? || e.Refuse?) && Step(s, e).Ok?
    ensures Continues(s, Step(s, e).state)
  {
    hide Without, IdSet;
  }

  /**
   * What a passphrase does to the keys: one that was locked gets the form loaded from its file, if it
   * is the prompt's; every other form, every file and every public key stay.
   */
  lemma PassphraseUnlocksExactly(s: State, k: KeyId, load: Load, opens: bool)
    requires GotPassphrase(s, k, load, opens).Ok?
    ensures var u, t := s.store, GotPassphrase(s, k, load, opens).state.store;
            && t.pubs == u.pubs && t.privs.Keys == u.privs.Keys && k in u.privs
            && forall j :: j in u.privs ==>
                 && t.privs[j].file == u.privs[j].file
                 && t.privs[j].clear ==
                      if j == k && load.Loaded? && u.privs[k].clear.None? then Some(load.secret)
                      else u.privs[j].clear
  {
    hide Without, IdSet;
  }

  /** Every clear form in a store after a change was there before or came with the change. */
  lemma ChangeGives(st: KS.Store, change: KS.Op, e: Event, k: KeyId)
    requires e == LocalChange(change) || (e.RequestOther? && e.storeOp == Some(change))
    requires var t := KS.Apply(st, change); k in t.privs && t.privs[k].clear.Some?
    ensures var x := KS.Apply(st, change).privs[k].clear;
            (k in st.privs && st.privs[k].clear == x) || Gives(e, k, x.value)
  {
    hide KS.Find, KS.InsertPub, KS.NotOfVersion, KS.PrivsOf, KS.WithoutPos;
  }

  /** A form that is new after a step was given by it. */
  lemma StepGives(s: State, e: Event, k: KeyId)
    requires Step(s, e).Ok? && k in Step(s, e).state.store.privs
    requires Step(s, e).state.store.privs[k].clear.Some?
    ensures var x := Step(s, e).state.store.privs[k].clear;
            (k in s.store.privs && s.store.privs[k].clear == x) || Gives(e, k, x.value)
  {
    hide KS.Apply, KS.Find, Change, RunHead, GotPassphrase, GotRefusal, Without, OpsOf;
    match e
    case LocalChange(change) =>
      ChangeLeaves(s, change);
      ChangeGives(s.store, change, e, k);
    case RequestOther(_, change, _) =>
      if change.Some? {
        ChangeLeaves(s, change.value);
        ChangeGives(s.store, change.value, e, k);
      }
    case RunCallback(opens, v) => RunHeadContinues(s, opens, v);
    case Passphrase(j, load, opens) => PassphraseUnlocksExactly(s, j, load, opens);
    case Refuse(j) => RefusalKeepsStore(s, j);
    case _ =>
  }

  lemma RefusalKeepsStore(s: State, k: KeyId)
    requires GotRefusal(s, k).Ok?
    ensures GotRefusal(s, k).state.store == s.store
  {
    hide Without, IdSet;
  }

  /** The keys change only by what is asked for: at once by a change, one form by a right passphrase. */
  lemma StoreChangesExactly(s: State, e: Event)
    requires Step(s, e).Ok?
    ensures var u := Step(s, e).state.store;
            match e
            case LocalChange(change) => u == KS.Apply(s.store, change)
            case RequestOther(_, Some(change), _) => u == KS.Apply(s.store, change)
            case Passphrase(k, Loaded(secret), _) =>
              && u.pubs == s.store.pubs && k in s.store.privs
              && u.privs == if s.store.privs[k].clear.Some? then s.store.privs
                            else s.store.privs[k := KS.Forms(Some(secret), s.store.privs[k].file)]
            case _ => u == s.store
  {
    hide KS.Apply, KS.Find, Change, RunHead, GotPassphrase, GotRefusal, Without, OpsOf;
    match e
    case LocalChange(change) => ChangeLeaves(s, change);
    case RequestOther(_, change, _) =>
      if change.Some? {
        ChangeLeaves(s, change.value);
      }
    case RunCallback(opens, v) => RunHeadContinues(s, opens, v);
    case Passphrase(j, load, opens) => PassphraseUnlocksExactly(s, j, load, opens);
    case Refuse(j) => RefusalKeepsStore(s, j);
    case _ =>
  }

  /** A client that goes away takes its own requests with it and disturbs no other. */
  lemma DisconnectExactly(s: State, c: ClientId)
    requires Inv(s)
    ensures var o := Step(s, Disconnect(c));
            && o.Ok? && Inv(o.state)
            && var t := o.state;
               && t.clients == s.clients - {c} && t.replies == s.replies && t.store == s.store
               && t.prompting == s.prompting && t.next == s.next
               && (forall id :: id in t.ops <==> id in s.ops && s.ops[id].client != c)
               && (forall id :: id in t.ops ==> t.ops[id] == s.ops[id] && (id in t.callbacks <==> id in s.callbacks))
  {
    StepKeeps(s, Disconnect(c));
    hide Inv, Without;
  }

  /** Linking a request that is still on some list fails the code's assertion. */
  lemma LinkedTwiceCrashes(s: State, id: OpId, opens: bool, v: Verdict)
    requires id in s.ops && s.ops[id].SignOp? && s.ops[id].key in s.store.privs
    requires s.store.privs[s.ops[id].key].clear.None? && s.store.privs[s.ops[id].key].file.Some?
    requires s.guiBusy || s.ops[id].key in s.prompting || opens
    requires id in s.guiBlocked || exists k :: id in BlockedOn(s, k)
    ensures Contend(s, id, opens, v) == Crash(if s.guiBusy then 627 else 616)
  {
  }

  // ----- why a request failed -----

  /** What must have happened for a request to be answered with this failure. */
  predicate Because(s: State, e: Event, t: State, id: OpId, reason: Reason)
    requires id in s.ops && s.ops[id].SignOp?
  {
    var k := s.ops[id].key;
    match reason
    case CannotPrompt =>
      e.RunCallback? && !e.opens && !s.guiBusy && k in s.store.privs && s.store.privs[k].clear.None?
    case BadFlags => e.RunCallback? && e.verdict.UnsupportedFlags?
    case InvalidKey => e.RunCallback? && e.verdict.Invalid?
    case Undecryptable => e.Passphrase? && e.key == k && e.load.Unloadable?
    case PromptsEnded => e.Passphrase? && e.key == k && e.load.WrongPassphrase? && !e.opens
    case UserRefused => e.Refuse? && e.key == k
    case KeyDeleted => k in s.store.privs && k !in t.store.privs
  }

  /** What a signing request whose key is usable is answered with. */
  function Answer(op: Op, secret: Blob, v: Verdict): Reply
    requires op.SignOp?
  {
    match v
    case Acceptable => Signature(secret, op.data, op.flags)
    case UnsupportedFlags => Failure(BadFlags)
    case Invalid => Failure(InvalidKey)
  }

  /** What became of the request that was resumed. */
  predicate Resumed(s: State, id: OpId, op: Op, opens: bool, v: Verdict, t: State)
    requires op.SignOp? && op.key in s.store.privs
  {
    var clear := s.store.privs[op.key].clear;
    && (id !in t.ops <==> clear.Some? || (!s.guiBusy && !opens))
    && t.replies == s.replies +
         (if clear.Some? then [Answered(id, Answer(op, clear.value, v))]
          else if !s.guiBusy && !opens then [Answered(id, Failure(CannotPrompt))] else [])
    && (Waits(t, id, AtGui) <==> clear.None? && s.guiBusy)
    && (Waits(t, id, AtKey) <==> clear.None? && !s.guiBusy && opens)
    && t.prompting == s.prompting + (if Waits(t, id, AtKey) then {op.key} else {})
  }

  lemma FinishResumed(s: State, id: OpId, opens: bool, v: Verdict)
    requires id in s.ops && s.ops[id].SignOp? && Finish(s, id, v).Ok?
    ensures s.ops[id].key in s.store.privs && Resumed(s, id, s.ops[id], opens, v, Finish(s, id, v).state)
  {
    hide Without;
  }

  lemma ContendResumed(s: State, id: OpId, opens: bool, v: Verdict)
    requires id in s.ops && s.ops[id].SignOp? && Contend(s, id, opens, v).Ok?
    requires s.ops[id].key in s.prompting ==> s.guiBusy
    ensures s.ops[id].key in s.store.privs && Resumed(s, id, s.ops[id], opens, v, Contend(s, id, opens, v).state)
  {
    hide Without, Unlinked, Finish;
    if s.store.privs[s.ops[id].key].clear.Some? {
      FinishResumed(s, id, opens, v);
      hide Resumed;
    }
  }

  /**
   * A resumed request is answered iff its key is in clear or it has to ask and cannot. It signs iff the
   * key is in clear and its algorithm accepts; otherwise it waits, for the open dialog or for its own.
   */
  lemma ResumedExactly(s: State, opens: bool, v: Verdict)
    requires Inv(s) && s.callbacks != [] && s.callbacks[0] in s.ops && s.ops[s.callbacks[0]].SignOp?
    ensures var id, o := s.callbacks[0], RunHead(s, opens, v);
            o.Ok? && s.ops[id].key in s.store.privs && Resumed(s, id, s.ops[id], opens, v, o.state)
  {
    var id, t := s.callbacks[0], s.(callbacks := s.callbacks[1..]);
    RunHeadKeeps(s, opens, v);
    assert s.ops[id].key in s.prompting ==> s.guiBusy;
    hide Inv, Without, Unlinked, Contend, Finish, Resumed;
    match s.ops[id].at
    case Start => ContendResumed(t, id, opens, v);
    case AtGui => ContendResumed(Unlink(t, id), id, opens, v);
    case AtKey => FinishResumed(Unlink(t, id), id, opens, v);
    ResumedFrame(s, t, id, s.ops[id], opens, v, RunHead(s, opens, v).state);
    ResumedFrame(s, Unlink(t, id), id, s.ops[id], opens, v, RunHead(s, opens, v).state);
  }

  lemma ResumedFrame(s: State, u: State, id: OpId, op: Op, opens: bool, v: Verdict, t: State)
    requires u.store == s.store && u.guiBusy == s.guiBusy && u.replies == s.replies && u.prompting == s.prompting
    requires op.SignOp? && op.key in s.store.privs
    ensures Resumed(s, id, op, opens, v, t) == Resumed(u, id, op, opens, v, t)
  {
  }

  /** A reply answers the live request: with its own signature, its own failure or its own body. */
  predicate Answers(s: State, a: Answered) {
    a.id in s.ops &&
    match a.reply
    case Signature(_, _, _) => Genuine(s, a)
    case Failure(_) => s.ops[a.id].SignOp?
    case Immediate(body) => s.ops[a.id].ReplyOp? && s.ops[a.id].body == body
  }

  /** The reply is one to a live request, and a failure has the reason it gives. */
  predicate Justified(s: State, e: Event, t: State, a: Answered) {
    Answers(s, a) && (a.reply.Failure? ==> Because(s, e, t, a.id, a.reply.reason))
  }

  lemma ListFailsTruly(s: State, t: State, e: Event, k: KeyId, reason: Reason, i: nat)
    requires Inv(s)
    requires t.replies == s.replies + FailureReplies(BlockedOn(s, k), reason) && |s.replies| <= i < |t.replies|
    requires forall id :: Waits(s, id, AtKey) && s.ops[id].key == k ==> Because(s, e, t, id, reason)
    ensures Justified(s, e, t, t.replies[i])
  {
    hide Because, KS.Valid, NoDup;
    var id := t.replies[i].id;
    assert t.replies[i] == Answered(BlockedOn(s, k)[i - |s.replies|], Failure(reason));
    assert id in BlockedOn(s, k);
  }

  lemma ResumedJustified(s: State, id: OpId, opens: bool, v: Verdict, t: State, i: nat)
    requires id in s.ops && s.ops[id].SignOp? && s.ops[id].key in s.store.privs
    requires Resumed(s, id, s.ops[id], opens, v, t) && |s.replies| <= i < |t.replies|
    ensures Justified(s, RunCallback(opens, v), t, t.replies[i])
  {
  }

  lemma ImmediateJustified(s: State, opens: bool, v: Verdict, i: nat)
    requires RunHead(s, opens, v).Ok? && |s.replies| <= i < |RunHead(s, opens, v).state.replies|
    requires s.callbacks != [] && s.callbacks[0] in s.ops && s.ops[s.callbacks[0]].ReplyOp?
    ensures var t := RunHead(s, opens, v).state; Justified(s, RunCallback(opens, v), t, t.replies[i])
  {
    hide Without, Contend, Finish, Unlink, Because;
  }

  lemma CallbackJustified(s: State, opens: bool, v: Verdict, i: nat)
    requires Inv(s) && RunHead(s, opens, v).Ok? && |s.replies| <= i < |RunHead(s, opens, v).state.replies|
    ensures var t := RunHead(s, opens, v).state; Justified(s, RunCallback(opens, v), t, t.replies[i])
  {
    assert s.callbacks != [] && s.callbacks[0] in s.ops;
    hide Inv, RunHead, Justified, Resumed;
    var id := s.callbacks[0];
    if s.ops[id].SignOp? {
      ResumedExactly(s, opens, v);
      ResumedJustified(s, id, opens, v, RunHead(s, opens, v).state, i);
    } else {
      ImmediateJustified(s, opens, v, i);
    }
  }

  /** The failure with which an answered prompt fails the requests on its key's list, if it does. */
  function PromptReason(e: Event): Reason
    requires e.Passphrase? || e.Refuse?
  {
    if e.Refuse? then UserRefused else if e.load.Unloadable? then Undecryptable else PromptsEnded
  }

  lemma PromptFails(s: State, e: Event, t: State)
    requires (e.Passphrase? || e.Refuse?) && Step(s, e) == Ok(t) && |s.replies| < |t.replies|
    ensures t.replies == s.replies + FailureReplies(BlockedOn(s, e.key), PromptReason(e))
    ensures e.Passphrase? ==> e.load.Unloadable? || (e.load.WrongPassphrase? && !e.opens)
  {
    StepIs(s, e);
    FailRequestsIs(s, e.key, PromptReason(e));
    hide Step, FailRequests, FailureReplies, BlockedOn, Without, IdSet;
  }

  lemma PromptBecause(s: State, e: Event, t: State, id: OpId)
    requires id in s.ops && s.ops[id].SignOp? && (e.Passphrase? || e.Refuse?) && s.ops[id].key == e.key
    requires e.Passphrase? ==> e.load.Unloadable? || (e.load.WrongPassphrase? && !e.opens)
    ensures Because(s, e, t, id, PromptReason(e))
  {
  }

  lemma PromptJustified(s: State, e: Event, t: State, i: nat)
    requires Inv(s) && (e.Passphrase? || e.Refuse?) && Step(s, e) == Ok(t) && |s.replies| <= i < |t.replies|
    ensures Justified(s, e, t, t.replies[i])
  {
    hide Inv, Step, FailureReplies, BlockedOn, Because, PromptReason;
    PromptFails(s, e, t);
    forall id | Waits(s, id, AtKey) && s.ops[id].key == e.key ensures Because(s, e, t, id, PromptReason(e)) {
      PromptBecause(s, e, t, id);
    }
    ListFailsTruly(s, t, e, e.key, PromptReason(e), i);
  }

  lemma DeletedBecause(s: State, e: Event, t: State, a: Answered)
    requires a.reply == Failure(KeyDeleted) && a.id in s.ops && s.ops[a.id].SignOp?
    requires s.ops[a.id].key in s.store.privs && s.ops[a.id].key !in t.store.privs
    ensures Justified(s, e, t, a)
  {
  }

  lemma ChangeJustified(s: State, change: KS.Op, e: Event, t: State, i: nat)
    requires Inv(s) && KS.Admissible(change)
    requires t.replies == Change(s, change).replies && t.store == Change(s, change).store
    requires |s.replies| <= i < |t.replies|
    ensures Justified(s, e, t, t.replies[i])
  {
    ChangeFrees(s, change);
    KeysAreHeld(s);
    hide Inv, Change, WaitersOf, KS.Apply, KS.Valid, NoDup, IdSet, Without, KS.Freed, Justified, Waits;
    var ids := WaitersOf(s, KS.Freed(s.store.pubs, t.store.privs));
    assert t.replies[i] == Answered(ids[i - |s.replies|], Failure(KeyDeleted));
    assert ids[i - |s.replies|] in ids;
    DeletedBecause(s, e, t, t.replies[i]);
  }

  lemma KeysAreHeld(s: State)
    requires Inv(s)
    ensures forall id :: id in s.ops && s.ops[id].SignOp? ==> s.ops[id].key in s.store.privs
  {
  }

  /** Every answer given is to a request that was live, and every failure has its reason. */
  lemma AnswersAreJustified(s: State, e: Event, i: nat)
    requires Inv(s) && Disciplined(s, e) && Step(s, e).Ok? && |s.replies| <= i < |Step(s, e).state.replies|
    ensures var t := Step(s, e).state; Justified(s, e, t, t.replies[i])
  {
    hide Inv, KS.Find, Change, Justified, OpsOf, Without, RunHead, GotPassphrase, GotRefusal, Undisturbed;
    match e
    case RunCallback(opens, v) => CallbackJustified(s, opens, v, i);
    case Passphrase(_, _, _) => PromptJustified(s, e, Step(s, e).state, i);
    case Refuse(_) => PromptJustified(s, e, Step(s, e).state, i);
    case LocalChange(change) => ChangeJustified(s, change, e, Step(s, e).state, i);
    case RequestOther(_, change, _) =>
      if change.Some? {
        ChangeJustified(s, change.value, e, Step(s, e).state, i);
      }
    case _ =>
  }

  // ----- whole runs -----

  /** A run is a shorter run and one more event. */
  lemma {:induction false} LastEvent(s: State, es: seq<Event>, e: Event)
    requires Inv(s) && DisciplinedRun(s, es + [e])
    ensures DisciplinedRun(s, es) && Run(s, es).Ok? && Inv(Run(s, es).state)
    ensures var u := Run(s, es).state;
            Disciplined(u, e) && Run(s, es + [e]) == Step(u, e) && AskedIn(s, es + [e]) == AskedIn(s, es) + NewAsk(u, e)
    decreases es
  {
    hide Inv, Step, Disciplined, NewAsk;
    if es == [] {
      assert [] + [e] == [e] && [e][1..] == [];
      StepKeeps(s, e);
      var t := Step(s, e).state;
      assert Run(t, []) == Ok(t) && AskedIn(t, []) == [] && AskedIn(s, [e]) == NewAsk(s, e) + [];
      assert AskedIn(s, []) == [] && Run(s, [e]) == Run(t, []);
    } else {
      assert (es + [e])[0] == es[0] && (es + [e])[1..] == es[1..] + [e];
      StepKeeps(s, es[0]);
      LastEvent(Step(s, es[0]).state, es[1..], e);
    }
  }

  /** Every clear form that is held was given for its key. */
  ghost predicate AllGiven(es: seq<Event>, st: KS.Store) {
    forall k :: k in st.privs && st.privs[k].clear.Some? ==> Given(es, k, st.privs[k].clear.value)
  }

  ghost predicate LiveAsAsked(asked: seq<Ask>, s: State) {
    s.next == |asked| && forall id :: id in s.ops ==> id < |asked| && Matches(s.ops[id], asked[id])
  }

  ghost predicate AnswersFit(asked: seq<Ask>, es: seq<Event>, replies: seq<Answered>) {
    forall i :: 0 <= i < |replies| ==> replies[i].id < |asked| && Fits(replies[i].reply, asked[replies[i].id], es)
  }

  ghost predicate DroppedLeft(s0: State, asked: seq<Ask>, es: seq<Event>, dropped: set<OpId>) {
    forall id :: id in dropped ==>
      id < |asked| && IsRequest(asked[id].request) && Left(s0, es, id, asked[id].request.client)
  }

  /** Every request made so far is live as it was asked, answered fittingly, or left with its client. */
  ghost predicate Recorded(s0: State, es: seq<Event>, s: State) {
    var asked := AskedIn(s0, es);
    LiveAsAsked(asked, s) && AnswersFit(asked, es, s.replies) && DroppedLeft(s0, asked, es, s.dropped)
    && AllGiven(es, s.store)
  }

  lemma MoreGiven(es: seq<Event>, e: Event, k: KeyId, secret: Blob)
    ensures Given(es, k, secret) || Gives(e, k, secret) ==> Given(es + [e], k, secret)
  {
    hide Gives;
    if i :| 0 <= i < |es| && Gives(es[i], k, secret) {
      assert (es + [e])[i] == es[i];
    }
    assert (es + [e])[|es|] == e;
  }

  lemma FitsLater(r: Reply, a: Ask, es: seq<Event>, e: Event)
    requires Fits(r, a, es)
    ensures Fits(r, a, es + [e])
  {
    hide Given;
    if r.Signature? {
      MoreGiven(es, e, KS.PrivSort(2, a.request.base), r.secret);
    }
  }

  lemma LeftLater(s: State, es: seq<Event>, e: Event, n: nat, c: ClientId)
    requires Left(s, es, n, c) || (e == Disconnect(c) && n < |AskedIn(s, es)|)
    ensures Left(s, es + [e], n, c)
  {
    hide AskedIn;
    if i :| 0 <= i < |es| && es[i] == Disconnect(c) && n < |AskedIn(s, es[..i])| {
      assert (es + [e])[i] == es[i] && (es + [e])[..i] == es[..i];
    } else {
      assert (es + [e])[|es|] == e && (es + [e])[..|es|] == es;
    }
  }

  /** A reply to a live request that is as it was asked fits what was asked. */
  lemma AnswerFits(s: State, a: Answered, asked: Ask, es: seq<Event>)
    requires Answers(s, a) && Matches(s.ops[a.id], asked)
    requires AllGiven(es, s.store)
    ensures Fits(a.reply, asked, es)
  {
    hide Given;
  }

  /** The requests alive after an event: the one it makes, and otherwise those that were there. */
  ghost predicate Alive(s: State, e: Event, t: State) {
    var new_ := NewAsk(s, e);
    && t.next == s.next + |new_|
    && (forall id :: id in t.ops && id in s.ops ==> SameRequest(s.ops[id], t.ops[id]))
    && (forall id :: id in t.ops && id !in s.ops ==> id == s.next && |new_| == 1 && Matches(t.ops[id], new_[0]))
    && (forall id :: id in t.dropped ==> id in s.dropped || (id in s.ops && e == Disconnect(s.ops[id].client)))
  }

  lemma StepRequests(s: State, e: Event)
    requires Inv(s) && Disciplined(s, e) && Step(s, e).Ok?
    ensures Alive(s, e, Step(s, e).state)
  {
    hide Inv, Disciplined, KS.Find, Change, NewOp, Without, RunHead, GotPassphrase, GotRefusal, Alive, Holds;
    match e
    case RunCallback(opens, v) => RunHeadContinues(s, opens, v); ContinuesIsAlive(s, e, Step(s, e).state);
    case Passphrase(_, _, _) => PromptContinues(s, e); ContinuesIsAlive(s, e, Step(s, e).state);
    case Refuse(_) => PromptContinues(s, e); ContinuesIsAlive(s, e, Step(s, e).state);
    case LocalChange(change) => ChangeContinues(s, change); ContinuesIsAlive(s, e, Step(s, e).state);
    case RequestOther(c, change, body) =>
      if change.Some? {
        ChangeContinues(s, change.value);
      }
      Unchanged(s);
      FreshId(s);
      NewOpIsAlive(s, e, if change.Some? then Change(s, change.value) else s, ReplyOp(c, body));
    case RequestSign(_, _, _, _, _) => NewSign(s, e);
    case Disconnect(c) => DisconnectIsAlive(s, c);
    case Connect(c) => ContinuesIsAlive(s, e, Step(s, e).state);
  }

  lemma ContinuesIsAlive(s: State, e: Event, t: State)
    requires Continues(s, t) && !IsRequest(e)
    ensures Alive(s, e, t)
  {
  }

  lemma NewOpIsAlive(s: State, e: Event, u: State, op: Op)
    requires IsRequest(e) && Continues(s, u) && s.next !in s.ops && Matches(op, NewAsk(s, e)[0])
    ensures Alive(s, e, NewOp(u, op))
  {
    hide Matches, Holds, SameRequest;
    assert forall id :: id in u.ops ==> SameRequest(s.ops[id], u.ops[id]);
  }

  lemma NewSign(s: State, e: Event)
    requires Inv(s) && e.RequestSign? && Step(s, e).Ok?
    ensures Alive(s, e, Step(s, e).state)
  {
    assert s.next !in s.ops && KS.Sorted(s.store.pubs);
    KS.FindFinds(s.store.pubs, KS.PubSort(KS.PrivSort(2, e.base), e.full));
    hide Inv, KS.Find, KS.Sorted, Alive, NewOp;
    var k := KS.PrivSort(2, e.base);
    Unchanged(s);
    if KS.Find(s.store.pubs, KS.PubSort(k, e.full)).None? {
      NewOpIsAlive(s, e, s, ReplyOp(e.client, [SSH_AGENT_FAILURE]));
    } else {
      NewOpIsAlive(s, e, s, SignOp(e.client, k, e.data, e.flags, Start));
    }
  }

  lemma FreshId(s: State)
    requires Inv(s)
    ensures s.next !in s.ops
  {
  }

  lemma Unchanged(s: State)
    ensures Continues(s, s)
  {
  }

  lemma DisconnectIsAlive(s: State, c: ClientId)
    ensures Alive(s, Disconnect(c), Step(s, Disconnect(c)).state)
  {
    hide Without;
    DisconnectDrops(s, c);
  }

  lemma DisconnectDrops(s: State, c: ClientId)
    ensures forall id :: id in OpsOf(s, c) <==> id in s.ops && s.ops[id].client == c
  {
  }

  lemma ChangeContinues(s: State, change: KS.Op)
    ensures Continues(s, Change(s, change))
  {
    hide KS.Apply, Without, IdSet, WaitersOf, KS.Freed;
  }

  /** The answers of a step fit their requests, and those given before still do. */
  lemma StepFits(asked: seq<Ask>, es: seq<Event>, s: State, e: Event)
    requires Inv(s) && Disciplined(s, e) && Step(s, e).Ok?
    requires LiveAsAsked(asked, s) && AnswersFit(asked, es, s.replies) && AllGiven(es, s.store)
    ensures AnswersFit(asked + NewAsk(s, e), es + [e], Step(s, e).state.replies)
  {
    var t := Step(s, e).state;
    RepliesGrow(s, e);
    hide Inv, Disciplined, Step, Fits, AllGiven, Matches, NewAsk;
    forall i | 0 <= i < |t.replies|
      ensures t.replies[i].id < |asked| && Fits(t.replies[i].reply, asked[t.replies[i].id], es + [e])
    {
      if i >= |s.replies| {
        AnswersAreJustified(s, e, i);
        AnswerFits(s, t.replies[i], asked[t.replies[i].id], es);
      }
      FitsLater(t.replies[i].reply, asked[t.replies[i].id], es, e);
    }
  }

  lemma StepGivesAll(es: seq<Event>, s: State, e: Event)
    requires Step(s, e).Ok? && AllGiven(es, s.store)
    ensures AllGiven(es + [e], Step(s, e).state.store)
  {
    hide Step, Given, Gives;
    var st := Step(s, e).state.store;
    forall k | k in st.privs && st.privs[k].clear.Some? ensures Given(es + [e], k, st.privs[k].clear.value) {
      StepGives(s, e, k);
      MoreGiven(es, e, k, st.privs[k].clear.value);
    }
  }

  lemma StepLeaves(s0: State, es: seq<Event>, s: State, e: Event, t: State)
    requires Alive(s, e, t) && LiveAsAsked(AskedIn(s0, es), s) && DroppedLeft(s0, AskedIn(s0, es), es, s.dropped)
    ensures DroppedLeft(s0, AskedIn(s0, es) + NewAsk(s, e), es + [e], t.dropped)
  {
    hide AskedIn, Left, Matches, NewAsk, SameRequest;
    var asked := AskedIn(s0, es);
    forall id | id in t.dropped
      ensures id < |asked| && IsRequest(asked[id].request) && Left(s0, es + [e], id, asked[id].request.client)
    {
      if id !in s.dropped {
        MatchedClient(s.ops[id], asked[id]);
      }
      LeftLater(s0, es, e, id, asked[id].request.client);
    }
  }

  lemma StepLives(asked: seq<Ask>, s: State, e: Event, t: State)
    requires Alive(s, e, t) && LiveAsAsked(asked, s)
    ensures LiveAsAsked(asked + NewAsk(s, e), t)
  {
    hide Matches, NewAsk, SameRequest;
    forall id | id in t.ops && id in s.ops ensures id < |asked| && Matches(t.ops[id], asked[id]) {
      StillMatches(s.ops[id], t.ops[id], asked[id]);
    }
  }

  lemma StepRecords(s0: State, es: seq<Event>, s: State, e: Event)
    requires Inv(s) && Disciplined(s, e) && Step(s, e).Ok? && Recorded(s0, es, s)
    requires AskedIn(s0, es + [e]) == AskedIn(s0, es) + NewAsk(s, e)
    ensures Recorded(s0, es + [e], Step(s, e).state)
  {
    hide Inv, Disciplined, Step, AskedIn, NewAsk, AllGiven, LiveAsAsked, AnswersFit, DroppedLeft, Alive;
    StepRequests(s, e);
    StepFits(AskedIn(s0, es), es, s, e);
    StepGivesAll(es, s, e);
    StepLeaves(s0, es, s, e, Step(s, e).state);
    StepLives(AskedIn(s0, es), s, e, Step(s, e).state);
  }

  lemma MatchedClient(op: Op, a: Ask)
    requires Matches(op, a)
    ensures IsRequest(a.request) && op.client == a.request.client
  {
  }

  lemma StillMatches(op: Op, now: Op, a: Ask)
    requires Matches(op, a) && SameRequest(op, now)
    ensures Matches(now, a)
  {
  }

  lemma {:induction false} EveryRunRecords(es: seq<Event>)
    requires DisciplinedRun(INIT, es)
    ensures Run(INIT, es).Ok? && Inv(Run(INIT, es).state) && Recorded(INIT, es, Run(INIT, es).state)
    decreases es
  {
    InitInv();
    if es == [] {
      assert AskedIn(INIT, []) == [];
    } else {
      hide Inv, DisciplinedRun, Run, Recorded, Step, Disciplined, NewAsk, AskedIn;
      var (most, e) := (es[..|es| - 1], es[|es| - 1]);
      assert es == most + [e];
      LastEvent(INIT, most, e);
      EveryRunRecords(most);
      var u := Run(INIT, most).state;
      StepKeeps(u, e);
      StepRecords(INIT, most, u, e);
    }
  }

  /**
   * The account of a whole run of the empty agent: every request made is live exactly as it was asked,
   * or its client left after making it, or it has one answer; and every answer fits its own request: a
   * signature is over the data and flags of that request, made with a form of the key it named that was
   * given to the agent for that key; a body is the one asked for; an unknown key gets the failure byte.
   */
  lemma EveryRequestAccounted(es: seq<Event>, id: OpId)
    requires DisciplinedRun(INIT, es) && id < |AskedIn(INIT, es)|
    ensures Run(INIT, es).Ok?
    ensures var s, a := Run(INIT, es).state, AskedIn(INIT, es)[id];
            && (id in s.ops || id in s.dropped || Replied(s, id))
            && (id in s.ops ==> Matches(s.ops[id], a))
            && (id in s.dropped ==> IsRequest(a.request) && Left(INIT, es, id, a.request.client))
            && (forall i :: 0 <= i < |s.replies| && s.replies[i].id == id ==> Fits(s.replies[i].reply, a, es))
  {
    EveryRunRecords(es);
    hide AskedIn, Fits, Left, Matches, Run, DisciplinedRun, KS.Valid, ListsOk, QueueOk;
  }
}
