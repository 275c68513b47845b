/** What the discipline of the callers is needed for: exactly what it keeps, and runs that break it. */
module AgentDiscipline {
  import opened Bytes
  import opened Agent
  import opened AgentKeeps
  import opened AgentRuns
  import KS = KeyStore

  /** Adding keys never disturbs a prompt or a live request. */
  lemma AddingIsAlwaysPermitted(s: State, op: KS.Op)
    requires Inv(s) && KS.Admissible(op) && (op.AddClear? || op.AddFile?)
    ensures Permitted(s, op)
  {
    hide ListsOk, QueueOk, KeyWaitersOk, LedgerOk, KS.InsertPub;
    match op
    case AddClear(sort, comment, secret) =>
      KS.AddKeyKeepsValid(s.store, KS.Pub(sort, comment), KS.Forms(Some(secret), None));
    case AddFile(sort, comment, file) =>
      KS.AddKeyKeepsValid(s.store, KS.Pub(sort, comment), KS.Forms(None, Some(file)));
  }

  /**
   * A refusal keeps every request in the queue at most once iff no request waiting for the dialog
   * was in the queue already: waking the list does not look whether they were woken before.
   */
  lemma RefusalDoublesExactly(s: State, k: KeyId)
    requires Inv(s) && k in s.prompting
    ensures GotRefusal(s, k).Ok?
    ensures NoDup(GotRefusal(s, k).state.callbacks) <==> forall id :: id in s.guiBlocked ==> id !in s.callbacks
  {
    hide KS.Valid, NoDup;
    var q := BlockedOn(s, k);
    var t := FailRequests(DropPrompt(s, k), k, UserRefused);
    IdSetIs(q);
    assert q[..|q|] == q;
    assert t.callbacks == Without(s.callbacks, IdSet(q)) && t.guiBlocked == s.guiBlocked;
    WithoutKeepsNoDup(s.callbacks, IdSet(q));
    forall id | id in s.guiBlocked ensures id !in q {
      assert Waits(s, id, AtGui);
    }
    if forall id :: id in s.guiBlocked ==> id !in s.callbacks {
      NoDupAppend(t.callbacks, s.guiBlocked);
    } else {
      var id :| id in s.guiBlocked && id in s.callbacks;
      AppendDoubles(t.callbacks, s.guiBlocked, id);
    }
  }

  lemma AppendDoubles(q: seq<OpId>, r: seq<OpId>, id: OpId)
    requires id in q && id in r
    ensures !NoDup(q + r)
  {
    var i :| 0 <= i < |q| && q[i] == id;
    var j :| 0 <= j < |r| && r[j] == id;
    assert (q + r)[i] == (q + r)[|q| + j];
  }

  /**
   * The same of a passphrase that makes the key usable: it also wakes the key's own list, so no
   * request of either list may be in the queue already.
   */
  lemma PassphraseDoublesExactly(s: State, k: KeyId, load: Load, opens: bool)
    requires Inv(s) && k in s.prompting && Wakes(s, k, load)
    ensures GotPassphrase(s, k, load, opens).Ok?
    ensures NoDup(GotPassphrase(s, k, load, opens).state.callbacks) <==> NoWaiterQueued(s, k)
  {
    assert KS.FormsOk(k, s.store.privs[k]) && s.guiBusy;
    assert NoDup(s.callbacks) && NoDup(s.guiBlocked) && NoDup(BlockedOn(s, k)) by { NoDupEmpty(); }
    WaitersAreApart(s, k);
    IdSetIs(BlockedOn(s, k));
    hide Inv, NoDup, IdSet, BlockedOn, NoWaiterQueued;
    WokenQueue(s, k, load, opens);
    ThreeListsExactly(s.callbacks, BlockedOn(s, k), s.guiBlocked);
    QueuedIs(s, k);
  }

  lemma QueuedIs(s: State, k: KeyId)
    ensures NoWaiterQueued(s, k) <==> forall id :: id in s.callbacks ==> id !in BlockedOn(s, k) && id !in s.guiBlocked
  {
    hide BlockedOn;
  }

  lemma WokenQueue(s: State, k: KeyId, load: Load, opens: bool)
    requires s.guiBusy && k in s.store.privs && Wakes(s, k, load)
    requires s.store.privs[k].clear.Some? || s.store.privs[k].file.Some?
    ensures var o := GotPassphrase(s, k, load, opens);
            o.Ok? && o.state.callbacks == s.callbacks + BlockedOn(s, k) + s.guiBlocked
  {
    hide FailRequests;
  }

  lemma ThreeListsExactly(a: seq<OpId>, b: seq<OpId>, c: seq<OpId>)
    requires NoDup(a) && NoDup(b) && NoDup(c) && forall id :: id in c ==> id !in b
    ensures NoDup(a + b + c) <==> forall id :: id in a ==> id !in b && id !in c
  {
    hide NoDup;
    if forall id :: id in a ==> id !in b && id !in c {
      NoDupAppend(a, b);
      NoDupAppend(a + b, c);
    } else if id :| id in a && id in c {
      AppendDoubles(a + b, c, id);
    } else {
      var id :| id in a && id in b;
      assert a + b + c == a + (b + c);
      AppendDoubles(a, b + c, id);
    }
  }

  /** A change of the key store keeps the invariant exactly when the discipline permits it. */
  lemma ChangePermittedExactly(s: State, change: KS.Op)
    requires Inv(s) && KS.Admissible(change)
    ensures Inv(Change(s, change)) <==> Permitted(s, change)
  {
    hide Change, Undisturbed;
    if Permitted(s, change) {
      ChangeKeeps(s, change);
    } else {
      hide KS.Apply, LockOk, KeysOk, ListsOk, QueueOk, LedgerOk, KeyWaitersOk;
      KeptChangeIsPermitted(s, change);
    }
  }

  lemma KeptChangeIsPermitted(s: State, change: KS.Op)
    requires Inv(s) && KS.Admissible(change)
    ensures LockOk(Change(s, change)) && KeysOk(Change(s, change)) ==> Permitted(s, change)
  {
    ChangeFrees(s, change);
    ChangeLeaves(s, change);
    var t := Change(s, change);
    var ids := WaitersOf(s, KS.Freed(s.store.pubs, t.store.privs));
    IdSetIs(ids);
    hide Inv, Change, KS.Apply, KS.Valid, KS.Freed, IdSet, WaitersOf, Without;
    if LockOk(t) && KeysOk(t) {
      assert forall id :: id in s.ops ==> id in ids || (id in t.ops && t.ops[id] == s.ops[id]);
    }
  }

  /** One of the replies from place n on is this request's failure. */
  ghost predicate FailedSince(replies: seq<Answered>, n: nat, id: OpId) {
    exists i :: n <= i < |replies| && replies[i] == Answered(id, Failure(KeyDeleted))
  }

  /**
   * What a change answers: exactly the requests that wait on the list of a key it deletes,
   * each once and with a failure, and no request else is touched.
   */
  lemma DeletionAnswersExactly(s: State, change: KS.Op)
    requires Inv(s) && KS.Admissible(change)
    ensures var t := Change(s, change);
            && s.replies <= t.replies
            && (forall id :: id in s.ops ==>
                  if Waits(s, id, AtKey) && s.ops[id].key !in t.store.privs
                  then id !in t.ops && id !in t.callbacks && FailedSince(t.replies, |s.replies|, id)
                  else id in t.ops && t.ops[id] == s.ops[id] && (id in t.callbacks <==> id in s.callbacks))
            && (forall i :: |s.replies| <= i < |t.replies| ==>
                  t.replies[i].reply == Failure(KeyDeleted) && Waits(s, t.replies[i].id, AtKey)
                  && s.ops[t.replies[i].id].key !in t.store.privs)
            && (forall i, j :: |s.replies| <= i < j < |t.replies| ==> t.replies[i].id != t.replies[j].id)
  {
    hide Inv, Change, KS.Apply, KS.Valid, KS.Freed, IdSet, WaitersOf, Without, NoDup, FailedSince;
    ChangeFrees(s, change);
    var t := Change(s, change);
    var ids := WaitersOf(s, KS.Freed(s.store.pubs, t.store.privs));
    IdSetIs(ids);
    FailedOnce(s.replies, ids);
  }

  lemma FailedOnce(before: seq<Answered>, ids: seq<OpId>)
    requires NoDup(ids)
    ensures var n, r := |before|, before + FailureReplies(ids, KeyDeleted);
            && (forall id :: id in ids ==> FailedSince(r, n, id))
            && (forall i :: n <= i < |r| ==> r[i].reply == Failure(KeyDeleted) && r[i].id in ids)
            && (forall i, j :: n <= i < j < |r| ==> r[i].id != r[j].id)
  {
    var n, r := |before|, before + FailureReplies(ids, KeyDeleted);
    forall i | n <= i < |r| ensures r[i] == Answered(ids[i - n], Failure(KeyDeleted)) && r[i].id in ids {
    }
    forall id | id in ids ensures FailedSince(r, n, id) {
      var m :| 0 <= m < |ids| && ids[m] == id;
      assert r[n + m] == Answered(id, Failure(KeyDeleted));
    }
  }

  /** Answering a dialog that is not open fails an assertion or leaves the lock wrong. */
  lemma NoSuchPrompt(s: State, e: Event)
    requires Inv(s) && (e.Refuse? || e.Passphrase?) && e.key !in s.prompting
    ensures !(Step(s, e).Ok? && Inv(Step(s, e).state))
  {
    var k := e.key;
    StepIs(s, e);
    if s.guiBusy && k in s.store.privs {
      assert s.prompting - {k} == s.prompting != {};
      if s.store.privs[k].clear.None? {
        NobodyWaitsFor(s, k);
      }
      hide Inv, LockOk, Step, Without, IdSet, BlockedOn;
      assert e.Refuse? ==> LockFree(GotRefusal(s, k).state);
      assert e.Passphrase? && Step(s, e).Ok? ==> LockFree(GotPassphrase(s, k, e.load, e.opens).state);
      if Step(s, e).Ok? {
        LockFreeBreaks(Step(s, e).state);
      }
    }
  }

  predicate LockFree(s: State) {
    !s.guiBusy && s.prompting != {}
  }

  lemma LockFreeBreaks(s: State)
    requires LockFree(s)
    ensures !Inv(s)
  {
    hide KS.Valid, ListsOk, QueueOk, KeyWaitersOk, LedgerOk;
  }

  lemma NobodyWaitsFor(s: State, k: KeyId)
    requires Inv(s) && k !in s.prompting && k in s.store.privs && s.store.privs[k].clear.None?
    ensures BlockedOn(s, k) == []
  {
    hide KS.Valid, NoDup;
    forall id ensures id !in BlockedOn(s, k) {
      assert id in BlockedOn(s, k) <==> Waits(s, id, AtKey) && s.ops[id].key == k;
    }
    NonEmptyHas(BlockedOn(s, k));
  }

  lemma NonEmptyHas(q: seq<OpId>)
    ensures q != [] ==> exists id :: id in q
  {
    if q != [] {
      assert q[0] in q;
    }
  }

  lemma PromptExactly(s: State, e: Event)
    requires Inv(s) && (e.Refuse? || e.Passphrase?)
    ensures Disciplined(s, e) <==> Step(s, e).Ok? && Inv(Step(s, e).state)
  {
    if e.key !in s.prompting {
      NoSuchPrompt(s, e);
    } else if e.Refuse? {
      RefusalDoublesExactly(s, e.key);
    } else if Wakes(s, e.key, e.load) {
      PassphraseDoublesExactly(s, e.key, e.load, e.opens);
    }
    StepIs(s, e);
    if Disciplined(s, e) {
      StepKeeps(s, e);
    }
    hide KS.Valid, NoDup, ListsOk, KeysOk, KeyWaitersOk, LedgerOk, LockOk, GotRefusal, GotPassphrase, Step, BlockedOn;
  }

  /** What a request's own arrival adds cannot repair the lock or the keys of the state it arrives in. */
  lemma ArrivalHidesNothing(u: State, op: Op)
    requires u.next !in u.ops && Inv(NewOp(u, op))
    ensures LockOk(u) && KeysOk(u) && op.client in u.clients
  {
    hide KS.Valid, ListsOk, KeyWaitersOk, NoDup;
    var t := NewOp(u, op);
    assert t.ops[u.next] == op;
    assert forall id :: id in u.ops ==> id in t.ops && t.ops[id] == u.ops[id];
    assert forall id :: id in u.callbacks ==> id in t.callbacks;
  }

  lemma KeptRequestIsDisciplined(s: State, e: Event)
    requires Inv(s) && (e.RequestSign? || e.RequestOther?) && Step(s, e).Ok? && Inv(Step(s, e).state)
    requires e.RequestOther? && e.storeOp.Some? ==> KS.Admissible(e.storeOp.value)
    ensures Disciplined(s, e)
  {
    assert s.next !in s.ops && ListsOk(s, {});
    hide Inv, NewOp, Change, KS.Find, Permitted, ListsOk, Deleted, Without;
    if e.RequestSign? {
      var k := KS.PrivSort(2, e.base);
      if KS.Find(s.store.pubs, KS.PubSort(k, e.full)).None? {
        ArrivalHidesNothing(s, ReplyOp(e.client, [SSH_AGENT_FAILURE]));
      } else {
        ArrivalHidesNothing(s, SignOp(e.client, k, e.data, e.flags, Start));
      }
    } else if e.storeOp.None? {
      ArrivalHidesNothing(s, ReplyOp(e.client, e.body));
    } else {
      var u := Change(s, e.storeOp.value);
      ChangeSpares(s, e.storeOp.value);
      ChangeLeaves(s, e.storeOp.value);
      ArrivalHidesNothing(u, ReplyOp(e.client, e.body));
      KeptChangeIsPermitted(s, e.storeOp.value);
    }
  }

  lemma RequestExactly(s: State, e: Event)
    requires Inv(s) && (e.RequestSign? || e.RequestOther?)
    requires e.RequestOther? && e.storeOp.Some? ==> KS.Admissible(e.storeOp.value)
    ensures Disciplined(s, e) <==> Step(s, e).Ok? && Inv(Step(s, e).state)
  {
    hide Inv, Disciplined, Step;
    if Disciplined(s, e) {
      StepKeeps(s, e);
    } else if Step(s, e).Ok? && Inv(Step(s, e).state) {
      KeptRequestIsDisciplined(s, e);
    }
  }

  /**
   * The discipline is exactly what keeps the machine safe: for every event, with a store change of
   * a known version, the step fails no assertion and keeps the invariant iff the event is disciplined.
   */
  lemma DisciplineIsExact(s: State, e: Event)
    requires Inv(s)
    requires e.LocalChange? ==> KS.Admissible(e.change)
    requires e.RequestOther? && e.storeOp.Some? ==> KS.Admissible(e.storeOp.value)
    ensures Disciplined(s, e) <==> Step(s, e).Ok? && Inv(Step(s, e).state)
  {
    hide Inv, Permitted, GotRefusal, GotPassphrase, RunHead, NoWaiterQueued, NoneQueued, Wakes, DropOps, Change;
    match e
    case RequestSign(_, _, _, _, _) => RequestExactly(s, e);
    case RequestOther(_, _, _) => RequestExactly(s, e);
    case LocalChange(change) => ChangePermittedExactly(s, change);
    case Passphrase(_, _, _) => PromptExactly(s, e);
    case Refuse(_) => PromptExactly(s, e);
    case _ => StepKeeps(s, e);
  }

  /**
   * What a doubled callback leads to. One request waits for the dialog, has been woken but has not
   * run yet, and its key is only held encrypted. If the open prompt is refused now, the request runs
   * twice: the first run opens its own prompt, the second resumes as if that had been answered.
   */
  lemma DoubledCallbackCrashes(s: State, k: KeyId, id: OpId, v: Verdict)
    requires Inv(s) && k in s.prompting && s.callbacks == [id] && s.guiBlocked == [id]
    requires id in s.ops && s.ops[id].SignOp? && s.ops[id].key in s.store.privs
             && s.store.privs[s.ops[id].key].clear.None?
    ensures Run(s, [Refuse(k), RunCallback(true, v), RunCallback(true, v)]) == Crash(703)
  {
    assert KS.FormsOk(s.ops[id].key, s.store.privs[s.ops[id].key]) && s.ops[id].key.version == 2;
    hide Inv, NoDup, KS.Valid, GotRefusal, RunHead, Step, Run;
    var t := DoublingRefusal(s, k, id);
    var u := FirstRunPrompts(t, id, v);
    SecondRunCrashes(u, id, true, v);
    StepIs(s, Refuse(k));
    StepIs(t, RunCallback(true, v));
    StepIs(u, RunCallback(true, v));
    RunTwo(t, u, RunCallback(true, v), RunCallback(true, v));
    RunOneMore(s, t, Refuse(k), [RunCallback(true, v), RunCallback(true, v)]);
  }

  lemma DoublingRefusal(s: State, k: KeyId, id: OpId) returns (t: State)
    requires Inv(s) && k in s.prompting && s.callbacks == [id] && s.guiBlocked == [id]
    ensures GotRefusal(s, k) == Ok(t)
    ensures t.callbacks == [id, id] && !t.guiBusy && t.prompting == {} && t.store == s.store
    ensures id in s.ops && id in t.ops && t.ops[id] == s.ops[id] && s.ops[id].SignOp? && s.ops[id].at == AtGui
    ensures forall j :: j in t.blocked ==> id !in t.blocked[j]
  {
    assert Waits(s, id, AtGui);
    var q := BlockedOn(s, k);
    IdSetIs(q);
    assert q[..|q|] == q;
    assert id !in q;
    WithoutNothing([id], IdSet(q));
    assert s.prompting == {k} && s.guiBusy;
    t := GotRefusal(s, k).state;
    forall j | j in t.blocked ensures id !in t.blocked[j] {
      assert id !in BlockedOn(s, j);
    }
  }

  lemma FirstRunPrompts(t: State, id: OpId, v: Verdict) returns (u: State)
    requires t.callbacks == [id, id] && !t.guiBusy && t.prompting == {} && id in t.ops && t.ops[id].SignOp?
    requires t.ops[id].at == AtGui && t.ops[id].key in t.store.privs
    requires forall j :: j in t.blocked ==> id !in t.blocked[j]
    requires t.store.privs[t.ops[id].key].clear.None? && t.store.privs[t.ops[id].key].file.Some?
    ensures RunHead(t, true, v) == Ok(u)
    ensures u.callbacks == [id] && id in u.ops && u.ops[id] == t.ops[id].(at := AtKey) && u.store == t.store
  {
    u := RunHead(t, true, v).state;
    assert [id, id][1..] == [id];
  }

  lemma SecondRunCrashes(u: State, id: OpId, opens: bool, v: Verdict)
    requires u.callbacks != [] && u.callbacks[0] == id && id in u.ops && u.ops[id].SignOp? && u.ops[id].at == AtKey
    requires u.ops[id].key in u.store.privs ==> u.store.privs[u.ops[id].key].clear.None?
    ensures RunHead(u, opens, v) == Crash(703)
  {
  }

  /** A store whose keys j and k are both held in encrypted form only. */
  ghost predicate TwoLocked(st: KS.Store, j: KS.PubSort, k: KS.PubSort) {
    && KS.Valid(st) && j.priv != k.priv && j.priv.version == 2 && k.priv.version == 2
    && KS.Find(st.pubs, j).Some? && KS.Find(st.pubs, k).Some?
    && j.priv in st.privs && st.privs[j.priv].clear.None? && st.privs[j.priv].file.Some?
    && k.priv in st.privs && st.privs[k.priv].clear.None? && st.privs[k.priv].file.Some?
  }

  function Ask(key: KS.PubSort): Event {
    RequestSign(0, key.priv.base, key.full, [], 0)
  }

  const RUN_HEAD := RunCallback(true, Acceptable)

  // One step of the queue, for a request whose key is held in encrypted form only.

  predicate Locked(s: State, k: KeyId) {
    k in s.store.privs && s.store.privs[k].clear.None? && s.store.privs[k].file.Some?
  }

  lemma NewRequestPrompts(s: State, id: OpId, k: KeyId, rest: seq<OpId>)
    requires s.callbacks == [id] + rest && Waits(s, id, Start) && s.ops[id].key == k && Locked(s, k)
    requires !s.guiBusy && k !in s.prompting && Unlinked(s, id)
    ensures Step(s, RUN_HEAD) == Ok(s.(callbacks := rest, guiBusy := true, prompting := s.prompting + {k},
                                   blocked := s.blocked[k := BlockedOn(s, k) + [id]],
                                   ops := s.ops[id := s.ops[id].(at := AtKey)]))
  {
    hide Finish, Respond, Unlink;
    assert s.callbacks[1..] == rest;
    StepIs(s, RUN_HEAD);
  }

  lemma NewRequestWaits(s: State, id: OpId, k: KeyId, rest: seq<OpId>)
    requires s.callbacks == [id] + rest && Waits(s, id, Start) && s.ops[id].key == k && Locked(s, k)
    requires s.guiBusy && Unlinked(s, id)
    ensures Step(s, RUN_HEAD) == Ok(s.(callbacks := rest, guiBlocked := s.guiBlocked + [id],
                                   ops := s.ops[id := s.ops[id].(at := AtGui)]))
  {
    hide Finish, Respond, Unlink;
    assert s.callbacks[1..] == rest;
    StepIs(s, RUN_HEAD);
  }

  lemma HeadResumes(s: State, id: OpId, rest: seq<OpId>)
    requires s.callbacks == [id] + rest && id in s.ops && s.ops[id].SignOp? && s.ops[id].at != Start
    ensures var u := Unlink(s.(callbacks := rest), id);
            && u.ops == s.ops
            && Step(s, RUN_HEAD) == if s.ops[id].at == AtGui then Contend(u, id, true, Acceptable)
                                    else Finish(u, id, Acceptable)
  {
    hide Contend, Finish, Without;
    assert s.callbacks[1..] == rest;
    StepIs(s, RUN_HEAD);
  }

  lemma WokenRequestSigns(s: State, id: OpId, k: KeyId, rest: seq<OpId>, secret: Blob)
    requires s.callbacks == [id] + rest && Waits(s, id, AtKey) && s.ops[id].key == k && k in s.store.privs
    requires s.store.privs[k].clear == Some(secret) && id !in rest && id !in s.guiBlocked && s.blocked == map[k := [id]]
    ensures Step(s, RUN_HEAD) == Ok(s.(callbacks := rest, blocked := map[k := []], ops := s.ops - {id},
                                   replies := s.replies
                                     + [Answered(id, Signature(secret, s.ops[id].data, s.ops[id].flags))]))
  {
    HeadResumes(s, id, rest);
    var u := s.(callbacks := rest, blocked := map[k := []]);
    assert Unlink(s.(callbacks := rest), id) == u by {
      WithoutNothing(s.guiBlocked, {id});
      assert Without([id], {id}) == [];
    }
    hide Step, Unlink, Without;
    WithoutNothing(rest, {id});
  }

  lemma WokenRequestPrompts(s: State, id: OpId, k: KeyId, rest: seq<OpId>)
    requires s.callbacks == [id] + rest && Waits(s, id, AtGui) && s.ops[id].key == k && Locked(s, k)
    requires !s.guiBusy && k !in s.prompting && k !in s.blocked && s.guiBlocked == [id] + rest && id !in rest
    requires forall j :: j in s.blocked ==> id !in s.blocked[j]
    ensures Step(s, RUN_HEAD) == Ok(s.(callbacks := rest, guiBusy := true, prompting := s.prompting + {k},
                                   guiBlocked := rest, blocked := s.blocked[k := [id]],
                                   ops := s.ops[id := s.ops[id].(at := AtKey)]))
  {
    HeadResumes(s, id, rest);
    var u := s.(callbacks := rest, guiBlocked := rest);
    assert Unlink(s.(callbacks := rest), id) == u by {
      WithoutNothing(rest, {id});
      assert ([id] + rest)[1..] == rest;
    }
    hide Step, Unlink, Without, Respond, Finish;
    assert BlockedOn(u, k) + [id] == [id];
  }

  /** One request for j opens the dialog; two for k queue up behind it. */
  lemma ReachWaiting(st: KS.Store, j: KS.PubSort, k: KS.PubSort) returns (es: seq<Event>, s: State)
    requires TwoLocked(st, j, k)
    ensures var s0 := INIT.(store := st); DisciplinedRun(s0, es) && Run(s0, es) == Ok(s)
    ensures s.store == st && Waiting(s, j.priv, k.priv)
  {
    hide KS.Valid, KS.Find, Run, DisciplinedRun, RunHead;
    var s0 := INIT.(store := st);
    var a, b := SignOp(0, j.priv, [], 0, Start), SignOp(0, k.priv, [], 0, Start);
    var s1 := s0.(clients := {0});
    assert DisciplinedRun(s0, []) && Run(s0, []) == Ok(s0) by { NoEvents(s0); }
    ExtendRun(s0, [], s0, Connect(0), s1);
    es := [] + [Connect(0)];
    var s2 := NewOp(s1, a);
    ExtendRun(s0, es, s1, Ask(j), s2);
    es := es + [Ask(j)];
    var s3 := NewOp(s2, b);
    ExtendRun(s0, es, s2, Ask(k), s3);
    es := es + [Ask(k)];
    var s4 := NewOp(s3, b);
    ExtendRun(s0, es, s3, Ask(k), s4);
    es := es + [Ask(k)];
    assert s4.callbacks == [0] + [1, 2] && s4.ops[0] == a && s4.ops[1] == b && s4.ops[2] == b && s4.blocked == map[];
    hide Step;
    NewRequestPrompts(s4, 0, j.priv, [1, 2]);
    var s5 := Step(s4, RUN_HEAD).state;
    ExtendRun(s0, es, s4, RUN_HEAD, s5);
    es := es + [RUN_HEAD];
    assert s5.callbacks == [1] + [2];
    NewRequestWaits(s5, 1, k.priv, [2]);
    var s6 := Step(s5, RUN_HEAD).state;
    ExtendRun(s0, es, s5, RUN_HEAD, s6);
    es := es + [RUN_HEAD];
    assert s6.callbacks == [2] + [];
    NewRequestWaits(s6, 2, k.priv, []);
    s := Step(s6, RUN_HEAD).state;
    ExtendRun(s0, es, s6, RUN_HEAD, s);
    es := es + [RUN_HEAD];
    assert s.blocked == s5.blocked && s5.blocked == map[j.priv := [0]] by {
      assert BlockedOn(s4, j.priv) + [0] == [0];
    }
  }

  /** The state that ReachWaiting reaches. */
  predicate Waiting(s: State, j: KeyId, k: KeyId) {
    && Locked(s, j) && Locked(s, k) && j != k && s.guiBusy && s.prompting == {j} && s.callbacks == []
    && s.guiBlocked == [1, 2] && s.blocked == map[j := [0]]
    && Waits(s, 0, AtKey) && s.ops[0].key == j
    && Waits(s, 1, AtGui) && Waits(s, 2, AtGui) && s.ops[1].key == s.ops[2].key == k
  }

  /** The state once j's dialog has been answered. */
  function Woken(s: State, j: KeyId, secret: Blob): State
    requires j in s.store.privs
  {
    SetClear(s.(guiBusy := false, prompting := {}, callbacks := [0, 1, 2]), j, secret)
  }

  lemma PassphraseWakes(s: State, j: KeyId, k: KeyId, secret: Blob)
    requires Waiting(s, j, k)
    ensures Disciplined(s, Passphrase(j, Loaded(secret), true))
    ensures Step(s, Passphrase(j, Loaded(secret), true)) == Ok(Woken(s, j, secret))
  {
    hide RunHead;
    assert s.prompting - {j} == {} && [] + [0] + [1, 2] == [0, 1, 2];
    StepIs(s, Passphrase(j, Loaded(secret), true));
  }

  /** After the dialog is answered the first request signs and the second opens a dialog for k. */
  lemma ReachHalfway(s: State, j: KeyId, k: KeyId, secret: Blob) returns (u: State, w: State)
    requires Waiting(s, j, k)
    ensures Step(Woken(s, j, secret), RUN_HEAD) == Ok(u) && Step(u, RUN_HEAD) == Ok(w)
    ensures w.prompting == {k} && w.callbacks == [2] && w.guiBlocked == [2]
    ensures Waits(w, 2, AtGui) && w.ops[2].key == k && Locked(w, k)
  {
    var t := Woken(s, j, secret);
    hide Step;
    assert t.callbacks == [0] + [1, 2] && Locked(t, k);
    WokenRequestSigns(t, 0, j, [1, 2], secret);
    u := Step(t, RUN_HEAD).state;
    assert u.callbacks == [1] + [2] && u.guiBlocked == [1] + [2] && Locked(u, k);
    WokenRequestPrompts(u, 1, k, [2]);
    w := Step(u, RUN_HEAD).state;
  }

  /**
   * The discipline is needed: from any store holding two keys in encrypted form only, a disciplined
   * run reaches a state in which refusing the open prompt before the queue is drained leads to a
   * request that resumes, as if unlocked, on a key that is still encrypted.
   */
  lemma UndisciplinedRefusalCrashes(st: KS.Store, j: KS.PubSort, k: KS.PubSort, secret: Blob)
    returns (es: seq<Event>, s: State)
    requires TwoLocked(st, j, k)
    ensures var s0 := INIT.(store := st); Inv(s0) && DisciplinedRun(s0, es) && Run(s0, es) == Ok(s)
    ensures k.priv in s.prompting && !Disciplined(s, Refuse(k.priv))
    ensures Run(s, [Refuse(k.priv), RUN_HEAD, RUN_HEAD]) == Crash(703)
  {
    var s0 := INIT.(store := st);
    StoredInv(st);
    hide KS.Valid, KS.Find, Inv, Run, DisciplinedRun, Step;
    hide Waits, Locked, Disciplined, Waiting, Woken;
    var s7, s9;
    es, s7 := ReachWaiting(st, j, k);
    assert j.priv in s7.store.privs;
    var s8 := Woken(s7, j.priv, secret);
    s9, s := ReachHalfway(s7, j.priv, k.priv, secret);
    PassphraseWakes(s7, j.priv, k.priv, secret);
    CallbacksAllowed(s8);
    CallbacksAllowed(s9);
    ExtendRun(s0, es, s7, Passphrase(j.priv, Loaded(secret), true), s8);
    es := es + [Passphrase(j.priv, Loaded(secret), true)];
    ExtendRun(s0, es, s8, RUN_HEAD, s9);
    es := es + [RUN_HEAD];
    ExtendRun(s0, es, s9, RUN_HEAD, s);
    es := es + [RUN_HEAD];
    EveryRunIsSafe(s0, es);
    HalfwayCrashes(s, k.priv);
  }

  lemma CallbacksAllowed(s: State)
    ensures Disciplined(s, RUN_HEAD)
  {
  }

  lemma HalfwayCrashes(s: State, k: KeyId)
    requires Inv(s) && s.prompting == {k} && s.callbacks == [2] && s.guiBlocked == [2]
    requires Waits(s, 2, AtGui) && s.ops[2].key == k && Locked(s, k)
    ensures !Disciplined(s, Refuse(k)) && Run(s, [Refuse(k), RUN_HEAD, RUN_HEAD]) == Crash(703)
  {
    hide Inv, Run;
    DoubledCallbackCrashes(s, k, 2, Acceptable);
    assert 2 in s.guiBlocked && 2 in s.callbacks;
  }

  lemma StoredInv(st: KS.Store)
    requires KS.Valid(st)
    ensures Inv(INIT.(store := st))
  {
    hide KS.Valid;
    assert forall i :: BlockedOn(INIT.(store := st), i) == [];
  }

  lemma ReencryptIs(s: State, key: KS.PubSort)
    requires Inv(s) && KS.Find(s.store.pubs, key).Some?
    ensures Step(s, LocalChange(KS.Reencrypt(key)))
            == Ok(s.(store := s.store.(privs := KS.Reencrypted(s.store.privs, {key.priv}))))
  {
    assert KS.PrivsOf(s.store.pubs) <= s.store.privs.Keys by {
      hide LockOk, ListsOk, QueueOk, KeyWaitersOk, LedgerOk, KS.PrivsOf, KS.Sorted;
    }
    hide Inv, KS.Find, KS.Reencrypted, KS.PrivsOf, Change;
    KS.ReencryptedKeys(s.store.privs, {key.priv});
    ChangeOfStoreOnly(s, KS.Reencrypt(key));
  }

  /** A queued key waiter whose key is re-encrypted meanwhile resumes without a usable key. */
  lemma ReencryptUnderWaiterCrashes(s: State, id: OpId, full: Blob, opens: bool, v: Verdict)
    requires Inv(s) && s.callbacks != [] && s.callbacks[0] == id && Waits(s, id, AtKey)
    requires KS.Find(s.store.pubs, KS.PubSort(s.ops[id].key, full)).Some?
    requires s.ops[id].key in s.store.privs && s.store.privs[s.ops[id].key].file.Some?
    ensures Run(s, [LocalChange(KS.Reencrypt(KS.PubSort(s.ops[id].key, full))), RunCallback(opens, v)]) == Crash(703)
  {
    var k := s.ops[id].key;
    var e := LocalChange(KS.Reencrypt(KS.PubSort(k, full)));
    assert k.version == 2;
    hide Inv, KS.Find, KS.Valid, RunHead, Step, Run;
    var t := s.(store := s.store.(privs := KS.Reencrypted(s.store.privs, {k})));
    ReencryptIs(s, KS.PubSort(k, full));
    SecondRunCrashes(t, id, opens, v);
    StepIs(t, RunCallback(opens, v));
    RunTwo(s, t, e, RunCallback(opens, v));
  }

  /**
   * Removing the private half of a key whose prompt is on screen, even with no request left for it,
   * leaves the lock held for a key that no longer exists; answering that prompt is then an error.
   */
  lemma RemovalUnderPromptBreaksLock(s: State, k: KeyId, pos: nat)
    requires Inv(s) && k in s.prompting && pos < |s.store.pubs| && s.store.pubs[pos].sort.priv == k
    requires KS.Find(s.store.pubs, s.store.pubs[pos].sort) == Some(pos)
    requires forall j :: 0 <= j < |s.store.pubs| && j != pos ==> s.store.pubs[j].sort.priv != k
    ensures var t := Change(s, KS.Remove(s.store.pubs[pos].sort));
            !LockOk(t) && Step(t, Refuse(k)) == Crash(847)
  {
    assert s.guiBusy && KS.Valid(s.store);
    hide Inv, LockOk, Step, KS.Valid, KS.Find, KS.RemovePos;
    KS.RemovePosKeepsValid(s.store, pos);
    hide Change;
    var t := Change(s, KS.Remove(s.store.pubs[pos].sort));
    ChangeLeaves(s, KS.Remove(s.store.pubs[pos].sort));
    assert t.store == KS.RemovePos(s.store, pos);
    assert k !in t.store.privs;
    GoneKeyCrashes(t, k);
  }

  lemma GoneKeyCrashes(t: State, k: KeyId)
    requires t.guiBusy && k in t.prompting && k !in t.store.privs
    ensures !LockOk(t) && Step(t, Refuse(k)) == Crash(847)
  {
    StepIs(t, Refuse(k));
  }

  /** The state after the first passphrase: request 0 has been woken and its key is in clear. */
  lemma ReachWoken(st: KS.Store, j: KS.PubSort, k: KS.PubSort, secret: Blob) returns (es: seq<Event>, t: State)
    requires TwoLocked(st, j, k)
    ensures var s0 := INIT.(store := st); DisciplinedRun(s0, es) && Run(s0, es) == Ok(t) && Inv(t)
    ensures t.store.pubs == st.pubs && t.callbacks == [0, 1, 2] && Waits(t, 0, AtKey) && t.ops[0].key == j.priv
    ensures j.priv in t.store.privs && t.store.privs[j.priv].file.Some? && k.priv in t.store.privs
    ensures t.prompting == {} && t.guiBlocked == [1, 2] && t.blocked == map[j.priv := [0]]
    ensures Waits(t, 1, AtGui) && Waits(t, 2, AtGui) && t.ops[1].key == t.ops[2].key == k.priv
  {
    var s0 := INIT.(store := st);
    StoredInv(st);
    hide KS.Valid, KS.Find, Inv, Run, DisciplinedRun, Step, Disciplined;
    var s;
    es, s := ReachWaiting(st, j, k);
    t := Woken(s, j.priv, secret);
    PassphraseWakes(s, j.priv, k.priv, secret);
    assert Waits(t, 0, AtKey) && Waits(t, 1, AtGui) && Waits(t, 2, AtGui);
    hide Waiting, Woken, Waits, TwoLocked;
    ExtendRun(s0, es, s, Passphrase(j.priv, Loaded(secret), true), t);
    es := es + [Passphrase(j.priv, Loaded(secret), true)];
    EveryRunIsSafe(s0, es);
  }

  /** The discipline for changes is needed: re-encrypting a key at the wrong moment of a run crashes. */
  lemma UndisciplinedReencryptCrashes(st: KS.Store, j: KS.PubSort, k: KS.PubSort, secret: Blob)
    returns (es: seq<Event>, s: State)
    requires TwoLocked(st, j, k)
    ensures var s0 := INIT.(store := st); Inv(s0) && DisciplinedRun(s0, es) && Run(s0, es) == Ok(s)
    ensures !Disciplined(s, LocalChange(KS.Reencrypt(j)))
    ensures Run(s, [LocalChange(KS.Reencrypt(j)), RUN_HEAD]) == Crash(703)
  {
    StoredInv(st);
    hide KS.Valid, KS.Find, Inv, Run, DisciplinedRun, Step, Disciplined;
    es, s := ReachWoken(st, j, k, secret);
    ReencryptUnderWaiterCrashes(s, 0, j.full, true, Acceptable);
    TwoStepsAreSafe(s, LocalChange(KS.Reencrypt(j)));
  }

  lemma TwoStepsAreSafe(s: State, e: Event)
    requires Inv(s)
    ensures Disciplined(s, e) ==> Run(s, [e, RUN_HEAD]).Ok?
  {
    hide Inv, Disciplined, Step, Run;
    if Disciplined(s, e) {
      StepKeeps(s, e);
      var t := Step(s, e).state;
      CallbacksAllowed(t);
      StepKeeps(t, RUN_HEAD);
      RunTwo(s, t, e, RUN_HEAD);
    }
  }

  /** And removing the only public key of a private half whose prompt is on screen. */
  lemma UndisciplinedRemovalCrashes(st: KS.Store, j: KS.PubSort, k: KS.PubSort)
    returns (es: seq<Event>, s: State)
    requires TwoLocked(st, j, k) && forall p :: p in st.pubs && p.sort.priv == j.priv ==> p.sort == j
    ensures var s0 := INIT.(store := st); Inv(s0) && DisciplinedRun(s0, es) && Run(s0, es) == Ok(s)
    ensures !Disciplined(s, LocalChange(KS.Remove(j)))
    ensures Run(s, [LocalChange(KS.Remove(j)), Refuse(j.priv)]) == Crash(847)
  {
    var s0 := INIT.(store := st);
    StoredInv(st);
    KS.FindFinds(st.pubs, j);
    hide KS.Valid, KS.Find, Inv, Run, DisciplinedRun, Step, Disciplined;
    es, s := ReachWaiting(st, j, k);
    EveryRunIsSafe(s0, es);
    var pos := KS.Find(st.pubs, j).value;
    RemovalUnderPromptBreaksLock(s, j.priv, pos);
    var e := LocalChange(KS.Remove(j));
    var t := Change(s, KS.Remove(j));
    assert Step(s, e) == Ok(t) by { ChangeIs(s, KS.Remove(j)); }
    RunTwo(s, t, e, Refuse(j.priv));
    KeptLock(s, e, t);
  }

  /** But once the prompt is answered the same key can go: the woken request is answered with a failure. */
  lemma WokenKeyCanBeRemoved(st: KS.Store, j: KS.PubSort, k: KS.PubSort, secret: Blob)
    returns (es: seq<Event>, s: State)
    requires TwoLocked(st, j, k) && forall p :: p in st.pubs && p.sort.priv == j.priv ==> p.sort == j
    ensures var s0 := INIT.(store := st); Inv(s0) && DisciplinedRun(s0, es) && Run(s0, es) == Ok(s)
    ensures var e, t := LocalChange(KS.Remove(j)), Change(s, KS.Remove(j));
            && Waits(s, 0, AtKey) && s.callbacks == [0, 1, 2]
            && Disciplined(s, e) && Step(s, e) == Ok(t) && Inv(t)
            && 0 !in t.ops && FailedSince(t.replies, |s.replies|, 0)
  {
    StoredInv(st);
    KS.FindFinds(st.pubs, j);
    hide KS.Valid, KS.Find, Inv, Run, DisciplinedRun, Step, Disciplined;
    es, s := ReachWoken(st, j, k, secret);
    var e, t := LocalChange(KS.Remove(j)), Change(s, KS.Remove(j));
    ValidStore(s);
    OnlyPrivateGoes(s.store, j);
    WokenRequests(s, j.priv);
    ChangeLeaves(s, KS.Remove(j));
    RemovalAllowed(s, j, k.priv);
    StepKeeps(s, e);
    ChangeIs(s, KS.Remove(j));
    hide Change, Woken, Waiting;
    DeletionAnswersExactly(s, KS.Remove(j));
  }

  lemma ValidStore(s: State)
    requires Inv(s)
    ensures KS.Valid(s.store)
  {
  }

  lemma OnlyPrivateGoes(st: KS.Store, j: KS.PubSort)
    requires KS.Valid(st) && KS.Find(st.pubs, j).Some?
    requires forall p :: p in st.pubs && p.sort.priv == j.priv ==> p.sort == j
    ensures KS.Apply(st, KS.Remove(j)).privs == st.privs - {j.priv}
  {
    hide KS.Find, KS.PrivsOf, KS.Sorted;
    KS.FindFinds(st.pubs, j);
    var pos := KS.Find(st.pubs, j).value;
    KS.RemovePosKeepsValid(st, pos);
    hide KS.Valid;
    assert forall i :: 0 <= i < |st.pubs| && i != pos ==> st.pubs[i].sort.priv != j.priv;
    OnlyOneGoes(st, pos);
  }

  lemma OnlyOneGoes(st: KS.Store, pos: nat)
    requires pos < |st.pubs| && st.pubs[pos].sort.priv !in KS.RemovePos(st, pos).privs
    ensures KS.RemovePos(st, pos).privs == st.privs - {st.pubs[pos].sort.priv}
  {
    hide KS.PrivsOf;
  }

  /** Requests 0, 1 and 2 are the only ones. */
  lemma WokenRequests(s: State, j: KeyId)
    requires Inv(s) && s.callbacks == [0, 1, 2] && s.guiBlocked == [1, 2] && s.blocked == map[j := [0]]
    ensures forall id :: id in s.ops ==> id == 0 || id == 1 || id == 2
  {
    hide KS.Valid, NoDup;
    forall id | id in s.ops ensures id in [0, 1, 2] {
      if Waits(s, id, AtKey) {
        assert id in BlockedOn(s, s.ops[id].key);
      } else if Waits(s, id, AtGui) {
        assert id in s.guiBlocked;
      }
    }
  }

  lemma RemovalAllowed(s: State, j: KS.PubSort, k: KeyId)
    requires KS.Apply(s.store, KS.Remove(j)).privs == s.store.privs - {j.priv}
    requires s.prompting == {} && k in s.store.privs && k != j.priv
    requires forall id :: id in s.ops ==> id == 0 || id == 1 || id == 2
    requires Waits(s, 0, AtKey) && s.ops[0].key == j.priv
    requires Waits(s, 1, AtGui) && Waits(s, 2, AtGui) && s.ops[1].key == s.ops[2].key == k
    ensures Disciplined(s, LocalChange(KS.Remove(j)))
  {
    hide KS.Apply;
  }

  lemma ChangeIs(s: State, change: KS.Op)
    ensures Step(s, LocalChange(change)) == Ok(Change(s, change))
  {
    hide KS.Apply;
  }

  lemma KeptLock(s: State, e: Event, t: State)
    requires Inv(s) && Step(s, e) == Ok(t)
    ensures Disciplined(s, e) ==> LockOk(t)
  {
    hide Disciplined, Step;
    if Disciplined(s, e) {
      StepKeeps(s, e);
    }
  }

  /**
   * The early return for an undecryptable file starves somebody: a disciplined run ends with the
   * queue drained, no dialog open, and a request still waiting for one.
   */
  lemma StarvingReached(st: KS.Store, j: KS.PubSort, k: KS.PubSort, opens: bool) returns (es: seq<Event>, s: State)
    requires TwoLocked(st, j, k)
    ensures var s0 := INIT.(store := st); Inv(s0) && DisciplinedRun(s0, es) && Run(s0, es) == Ok(s)
    ensures s.callbacks == [] && !s.guiBusy && Waits(s, 1, AtGui) && !NoStarve(s)
  {
    var s0 := INIT.(store := st);
    StoredInv(st);
    hide KS.Valid, KS.Find, Inv, Run, DisciplinedRun, RunHead;
    hide Step, Disciplined;
    var t;
    es, t := ReachWaiting(st, j, k);
    var e := Passphrase(j.priv, Unloadable, opens);
    s := UnloadableStarves(t, j.priv, k.priv, opens);
    ExtendRun(s0, es, t, e, s);
    es := es + [e];
  }

  lemma UnloadableStarves(t: State, j: KeyId, k: KeyId, opens: bool) returns (s: State)
    requires Waiting(t, j, k)
    ensures Disciplined(t, Passphrase(j, Unloadable, opens)) && Step(t, Passphrase(j, Unloadable, opens)) == Ok(s)
    ensures s.callbacks == [] && !s.guiBusy && Waits(s, 1, AtGui) && !NoStarve(s)
  {
    hide RunHead;
    var e := Passphrase(j, Unloadable, opens);
    StepIs(t, e);
    s := GotPassphrase(t, j, Unloadable, opens).state;
    assert [0][..1] == [0];
    assert 1 in s.guiBlocked;
  }
}
