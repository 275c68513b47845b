/** Every event keeps the invariant of the sign-request machine. */
module AgentKeeps {
  import opened Bytes
  import opened Agent
  import KS = KeyStore

  lemma MoreRepliesLedger(s: State, t: State, ids: seq<OpId>, gone: set<OpId>)
    requires LedgerOk(s) && NoDup(ids) && gone == IdSet(ids) && gone <= s.ops.Keys
    requires t.ops == s.ops - gone && t.next == s.next && t.dropped == s.dropped && t.clients == s.clients
    requires |t.replies| == |s.replies| + |ids|
    requires forall i :: 0 <= i < |s.replies| ==> t.replies[i] == s.replies[i]
    requires forall i :: 0 <= i < |ids| ==> t.replies[|s.replies| + i].id == ids[i]
    ensures LedgerOk(t)
  {
    forall i | 0 <= i < |t.replies|
      ensures t.replies[i].id == if i < |s.replies| then s.replies[i].id else ids[i - |s.replies|]
    {
      if i >= |s.replies| {
        assert t.replies[|s.replies| + (i - |s.replies|)].id == ids[i - |s.replies|];
      }
    }
    forall i | 0 <= i < |ids| ensures ids[i] in gone {
    }
    forall x: OpId | x < t.next && x !in t.ops && x !in t.dropped ensures Replied(t, x) {
      if x in gone {
        var j :| 0 <= j < |ids| && ids[j] == x;
        assert t.replies[|s.replies| + j].id == x;
      } else {
        assert Replied(s, x);
        var i :| 0 <= i < |s.replies| && s.replies[i].id == x;
        assert t.replies[i].id == x;
      }
    }
  }

  /** The lists only depend on the lists and the requests. */
  lemma ListsFrame(s: State, t: State, r: set<OpId>)
    requires ListsOk(s, r)
    requires t.guiBlocked == s.guiBlocked && t.blocked == s.blocked && t.ops == s.ops
    ensures ListsOk(t, r)
  {
    assert forall x, at :: Waits(t, x, at) <==> Waits(s, x, at);
    assert forall j :: BlockedOn(t, j) == BlockedOn(s, j);
  }

  /** A request that was running and is freed leaves the lists as they are. */
  lemma FreedLists(s: State, t: State, id: OpId)
    requires ListsOk(s, {id})
    requires t.guiBlocked == s.guiBlocked && t.blocked == s.blocked && t.ops == s.ops - {id}
    ensures ListsOk(t, {})
  {
    hide NoDup;
    assert forall x, at :: Waits(t, x, at) <==> Waits(s, x, at) && x != id;
    assert forall j :: BlockedOn(t, j) == BlockedOn(s, j);
  }

  lemma RespondKeeps(s: State, id: OpId, r: Reply)
    requires InvWith(s, {id}) && id in s.ops
    ensures Inv(Respond(s, id, r))
  {
    hide KS.Valid, Without, NoDup;
    var t := Respond(s, id, r);
    assert t.callbacks == s.callbacks by {
      WithoutNothing(s.callbacks, {id});
    }
    assert LedgerOk(t) by {
      NoDupSingle(id);
      assert IdSet([id]) == {id};
      MoreRepliesLedger(s, t, [id], {id});
    }
    FreedLists(s, t, id);
    hide LedgerOk, ListsOk;
    assert LockOk(t) && KeyWaitersOk(t, {}) by { hide QueueOk, KeysOk; }
    assert QueueOk(t, {}) by { hide KeyWaitersOk, KeysOk; }
    assert KeysOk(t) by { hide KeyWaitersOk, QueueOk; }
  }

  lemma LinkToGuiLists(s: State, id: OpId)
    requires ListsOk(s, {id}) && id in s.ops && s.ops[id].SignOp?
    ensures ListsOk(LinkToGui(s, id), {})
  {
    hide NoDup;
    NoDupSingle(id);
    NoDupAppend(s.guiBlocked, [id]);
    var t := LinkToGui(s, id);
    assert forall x :: Waits(t, x, AtKey) <==> Waits(s, x, AtKey) && x != id;
    assert forall x :: Waits(t, x, AtGui) <==> Waits(s, x, AtGui) || x == id;
    assert forall k :: BlockedOn(t, k) == BlockedOn(s, k);
  }

  lemma LinkToGuiKeeps(s: State, id: OpId)
    requires InvWith(s, {id}) && id in s.ops && s.ops[id].SignOp? && s.guiBusy
    ensures Inv(LinkToGui(s, id))
  {
    hide KS.Valid, NoDup;
    var t := LinkToGui(s, id);
    LinkToGuiLists(s, id);
    hide ListsOk;
    assert LedgerOk(t) && LockOk(t) by { hide QueueOk, KeysOk, KeyWaitersOk; }
    hide LedgerOk;
    assert QueueOk(t, {}) by { hide KeyWaitersOk, KeysOk; }
    assert KeysOk(t) by { hide KeyWaitersOk; }
    assert KeyWaitersOk(t, {}) by { hide QueueOk, KeysOk; }
  }

  lemma NoDupSingle(id: OpId)
    ensures NoDup([id])
  {
  }

  lemma LinkToKeyLists(s: State, id: OpId)
    requires ListsOk(s, {id}) && id in s.ops && s.ops[id].SignOp?
    ensures ListsOk(LinkToKey(s, id), {})
  {
    hide NoDup;
    var k := s.ops[id].key;
    NoDupSingle(id);
    assert NoDup(BlockedOn(s, k)) by { NoDupEmpty(); }
    NoDupAppend(BlockedOn(s, k), [id]);
    var t := LinkToKey(s, id);
    assert forall x :: Waits(t, x, AtKey) <==> Waits(s, x, AtKey) || x == id;
    assert forall x :: Waits(t, x, AtGui) <==> Waits(s, x, AtGui) && x != id;
    assert forall j :: BlockedOn(t, j) == if j == k then BlockedOn(s, j) + [id] else BlockedOn(s, j);
  }

  lemma LinkToKeyKeeps(s: State, id: OpId)
    requires InvWith(s, {id}) && id in s.ops && s.ops[id].SignOp? && s.ops[id].key in s.prompting
    ensures Inv(LinkToKey(s, id))
  {
    hide KS.Valid, NoDup;
    var t := LinkToKey(s, id);
    LinkToKeyLists(s, id);
    hide ListsOk;
    assert LedgerOk(t) && LockOk(t) by { hide QueueOk, KeysOk, KeyWaitersOk; }
    hide LedgerOk;
    assert QueueOk(t, {}) by { hide KeyWaitersOk, KeysOk; }
    assert KeysOk(t) by { hide KeyWaitersOk; }
    assert KeyWaitersOk(t, {}) by { hide QueueOk, KeysOk; }
  }

  lemma NoDupEmpty()
    ensures NoDup([])
  {
  }

  lemma FinishKeeps(s: State, id: OpId, v: Verdict)
    requires InvWith(s, {id}) && id in s.ops && s.ops[id].SignOp?
    requires s.ops[id].key in s.store.privs && s.store.privs[s.ops[id].key].clear.Some?
    ensures var o := Finish(s, id, v); o.Ok? && Inv(o.state)
  {
    hide KS.Valid, InvWith, Inv, Respond;
    match v
    case UnsupportedFlags => RespondKeeps(s, id, Failure(BadFlags));
    case Invalid => RespondKeeps(s, id, Failure(InvalidKey));
    case Acceptable =>
      RespondKeeps(s, id, Signature(s.store.privs[s.ops[id].key].clear.value, s.ops[id].data, s.ops[id].flags));
  }

  lemma UnlinkLists(s: State, id: OpId)
    requires ListsOk(s, {}) && id in s.ops && s.ops[id].SignOp?
    ensures ListsOk(Unlink(s, id), {id})
  {
    hide Without, NoDup;
    var u := Unlink(s, id);
    var k := s.ops[id].key;
    WithoutKeepsNoDup(s.guiBlocked, {id});
    if k in s.blocked {
      WithoutKeepsNoDup(s.blocked[k], {id});
    }
    forall j, x ensures x in BlockedOn(u, j) <==> x in BlockedOn(s, j) && (j != k || x != id) {
    }
    UnlinkedLists(s, u, id);
  }

  lemma UnlinkedLists(s: State, u: State, id: OpId)
    requires ListsOk(s, {}) && id in s.ops && s.ops[id].SignOp? && u.ops == s.ops
    requires NoDup(u.guiBlocked) && forall k :: k in u.blocked ==> NoDup(u.blocked[k])
    requires forall x :: x in u.guiBlocked <==> x in s.guiBlocked && x != id
    requires forall j, x :: x in BlockedOn(u, j) <==> x in BlockedOn(s, j) && (j != s.ops[id].key || x != id)
    ensures ListsOk(u, {id})
  {
    hide NoDup, BlockedOn;
    assert forall x, at :: Waits(u, x, at) <==> Waits(s, x, at);
    forall j, x ensures x in BlockedOn(u, j) <==> Waits(u, x, AtKey) && u.ops[x].key == j && x !in {id} {
      assert x in BlockedOn(s, j) <==> Waits(s, x, AtKey) && s.ops[x].key == j;
    }
  }

  /** Taking a woken waiter off the queue and off its list leaves only that request running. */
  lemma DetachWaiterKeeps(s: State, k: KeyId)
    requires Inv(s) && s.callbacks != [] && s.callbacks[0] in s.ops && s.ops[s.callbacks[0]].SignOp?
    requires s.ops[s.callbacks[0]].at != Start && s.ops[s.callbacks[0]].key == k
    ensures InvWith(Unlink(s.(callbacks := s.callbacks[1..]), s.callbacks[0]), {s.callbacks[0]})
  {
    hide KS.Valid, Without, NoDup;
    var id := s.callbacks[0];
    var u := Unlink(s.(callbacks := s.callbacks[1..]), id);
    NoDupTail(s.callbacks);
    UnlinkLists(s, id);
    ListsFrame(Unlink(s, id), u, {id});
    hide ListsOk;
    assert LedgerOk(u) && LockOk(u) by { hide QueueOk, KeysOk, KeyWaitersOk; }
    hide LedgerOk, LockOk;
    assert KeyWaitersOk(u, {id}) by { hide QueueOk, KeysOk; }
    assert QueueOk(u, {id}) by { hide KeyWaitersOk, KeysOk; }
    assert KeysOk(u) by { hide KeyWaitersOk, QueueOk; }
  }

  lemma NoDupTail(q: seq<OpId>)
    requires NoDup(q) && q != []
    ensures NoDup(q[1..]) && forall x :: x in q[1..] <==> x in q && x != q[0]
  {
  }

  /** A running request is on no list, so the assertions made when it is linked hold. */
  lemma RunningIsUnlinked(s: State, id: OpId)
    requires ListsOk(s, {id})
    ensures Unlinked(s, id)
  {
    hide NoDup;
    forall k | k in s.blocked ensures id !in s.blocked[k] {
      assert id !in BlockedOn(s, k);
    }
  }

  lemma ContendKeeps(s: State, id: OpId, opens: bool, v: Verdict)
    requires InvWith(s, {id}) && id in s.ops && s.ops[id].SignOp?
    ensures var o := Contend(s, id, opens, v); o.Ok? && Inv(o.state)
  {
    var k := s.ops[id].key;
    assert KS.FormsOk(k, s.store.privs[k]) by { hide LockOk, ListsOk, QueueOk, LedgerOk; }
    RunningIsUnlinked(s, id);
    hide KS.Valid, Inv, ListsOk, LedgerOk, QueueOk, KeyWaitersOk, Respond, LinkToGui, LinkToKey, Finish, Unlinked;
    if s.store.privs[k].clear.Some? {
      FinishKeeps(s, id, v);
    } else if s.guiBusy {
      LinkToGuiKeeps(s, id);
    } else if !opens {
      RespondKeeps(s, id, Failure(CannotPrompt));
    } else {
      var t := s.(guiBusy := true, prompting := s.prompting + {k});
      TakeLockKeeps(s, id);
      LinkToKeyKeeps(t, id);
    }
  }

  lemma TakeLockKeeps(s: State, id: OpId)
    requires InvWith(s, {id}) && id in s.ops && s.ops[id].SignOp? && !s.guiBusy
    ensures InvWith(s.(guiBusy := true, prompting := s.prompting + {s.ops[id].key}), {id})
  {
    hide KS.Valid, NoDup, Without;
    var t := s.(guiBusy := true, prompting := s.prompting + {s.ops[id].key});
    ListsFrame(s, t, {id});
  }

  lemma RunHeadKeeps(s: State, opens: bool, v: Verdict)
    requires Inv(s)
    ensures var o := RunHead(s, opens, v); o.Ok? && Inv(o.state)
  {
    if s.callbacks != [] {
      var id := s.callbacks[0];
      assert id in s.ops;
      var t := s.(callbacks := s.callbacks[1..]);
      if s.ops[id].SignOp? {
        if s.ops[id].at == Start {
          DetachNewKeeps(s);
        } else {
          DetachWaiterKeeps(s, s.ops[id].key);
        }
        var u := Unlink(t, id);
        assert u.ops == s.ops && u.store == s.store;
        assert s.ops[id].at == AtKey ==> s.store.privs[s.ops[id].key].clear.Some?;
        assert s.ops[id].key in s.store.privs;
        hide Inv, InvWith, Unlink, Contend, Finish;
        match s.ops[id].at
        case Start => ContendKeeps(t, id, opens, v);
        case AtGui => ContendKeeps(u, id, opens, v);
        case AtKey => FinishKeeps(u, id, v);
      } else {
        DetachNewKeeps(s);
        hide Inv, InvWith, Respond;
        RespondKeeps(t, id, Immediate(s.ops[id].body));
      }
    }
  }

  lemma DetachNewKeeps(s: State)
    requires Inv(s) && s.callbacks != [] && s.callbacks[0] in s.ops
    requires s.ops[s.callbacks[0]].ReplyOp? || s.ops[s.callbacks[0]].at == Start
    ensures InvWith(s.(callbacks := s.callbacks[1..]), {s.callbacks[0]})
  {
    hide KS.Valid, Without, NoDup;
    var id := s.callbacks[0];
    var t := s.(callbacks := s.callbacks[1..]);
    NoDupTail(s.callbacks);
    assert ListsOk(s, {id}) by { hide LockOk, QueueOk, KeysOk, KeyWaitersOk, LedgerOk; }
    ListsFrame(s, t, {id});
    hide ListsOk;
    assert LedgerOk(t) && LockOk(t) by { hide QueueOk, KeysOk, KeyWaitersOk; }
    hide LedgerOk, LockOk;
    assert KeyWaitersOk(t, {id}) by { hide QueueOk, KeysOk; }
    assert QueueOk(t, {id}) by { hide KeyWaitersOk, KeysOk; }
    assert KeysOk(t) by { hide KeyWaitersOk, QueueOk; }
  }

  lemma IdSetIs(ids: seq<OpId>)
    ensures forall x :: x in IdSet(ids) <==> x in ids
  {
  }

  lemma FailRequestsLists(s: State, t: State, k: KeyId)
    requires ListsOk(s, {})
    requires t.guiBlocked == s.guiBlocked && t.blocked == s.blocked[k := []] && t.ops == s.ops - IdSet(BlockedOn(s, k))
    ensures ListsOk(t, {})
  {
    hide NoDup, IdSet;
    var q := BlockedOn(s, k);
    IdSetIs(q);
    NoDupEmpty();
    assert forall x, at :: Waits(t, x, at) <==> Waits(s, x, at) && x !in q;
    assert forall j :: BlockedOn(t, j) == if j == k then [] else BlockedOn(s, j);
    forall j | j in t.blocked ensures NoDup(t.blocked[j]) {
    }
    forall j, x ensures x in BlockedOn(t, j) <==> Waits(t, x, AtKey) && t.ops[x].key == j {
      assert x in BlockedOn(s, k) <==> Waits(s, x, AtKey) && s.ops[x].key == k;
      assert x in BlockedOn(s, j) <==> Waits(s, x, AtKey) && s.ops[x].key == j;
    }
    forall x ensures x in t.guiBlocked <==> Waits(t, x, AtGui) {
      assert x in BlockedOn(s, k) <==> Waits(s, x, AtKey) && s.ops[x].key == k;
    }
  }

  lemma FailRequestsIs(s: State, k: KeyId, reason: Reason)
    ensures var t, q := FailRequests(DropPrompt(s, k), k, reason), BlockedOn(s, k);
            t == s.(guiBusy := false, prompting := s.prompting - {k}, replies := s.replies + FailureReplies(q, reason),
                    blocked := s.blocked[k := []], ops := s.ops - IdSet(q), callbacks := Without(s.callbacks, IdSet(q)))
  {
    hide Without, IdSet;
    var q := BlockedOn(s, k);
    assert BlockedOn(DropPrompt(s, k), k) == q && q[..|q|] == q && q[|q|..] == [];
  }

  lemma FailRequestsKeeps(s: State, k: KeyId, reason: Reason)
    requires Inv(s) && k in s.prompting
    ensures var t := FailRequests(DropPrompt(s, k), k, reason);
            && Inv(t) && t.guiBlocked == s.guiBlocked && !t.guiBusy
            && t.callbacks == Without(s.callbacks, IdSet(BlockedOn(s, k)))
  {
    hide KS.Valid, Without, NoDup, IdSet, FailRequests;
    var q := BlockedOn(s, k);
    IdSetIs(q);
    var t := FailRequests(DropPrompt(s, k), k, reason);
    FailRequestsIs(s, k, reason);
    FailedAreTheWaiters(s, k);
    WithoutKeepsNoDup(s.callbacks, IdSet(q));
    assert ListsOk(t, {}) by { FailRequestsLists(s, t, k); }
    assert NoDup(q) by { NoDupEmpty(); }
    hide ListsOk, BlockedOn;
    assert LedgerOk(t) by {
      hide QueueOk, KeysOk, KeyWaitersOk;
      MoreRepliesLedger(s, t, q, IdSet(q));
    }
    hide LedgerOk;
    assert LockOk(t) by { hide QueueOk, KeysOk, KeyWaitersOk; }
    assert QueueOk(t, {}) by { hide KeyWaitersOk, KeysOk; }
    assert KeysOk(t) by { hide KeyWaitersOk; }
    assert KeyWaitersOk(t, {}) by { hide KeysOk; }
  }

  lemma FailedAreTheWaiters(s: State, k: KeyId)
    requires ListsOk(s, {})
    ensures forall id :: id in BlockedOn(s, k) <==> Waits(s, id, AtKey) && s.ops[id].key == k
  {
    hide NoDup;
  }

  lemma UnblockKeeps(s: State, k: KeyId, t: State)
    requires Inv(s) && k in s.prompting && NoWaiterQueued(s, k)
    requires t == s.(guiBusy := false, prompting := s.prompting - {k}, store := t.store)
    requires KS.Valid(t.store) && t.store.privs.Keys == s.store.privs.Keys
    requires forall j :: j in s.store.privs && s.store.privs[j].clear.Some? ==> t.store.privs[j].clear.Some?
    requires k in t.store.privs && t.store.privs[k].clear.Some?
    ensures Inv(UnblockKeyAndGui(t, k))
  {
    hide KS.Valid, NoDup;
    var u := UnblockKeyAndGui(t, k);
    assert BlockedOn(t, k) == BlockedOn(s, k);
    assert NoDup(u.callbacks) by {
      assert NoDup(BlockedOn(s, k)) by { NoDupEmpty(); }
      NoDupAppend(s.callbacks, BlockedOn(s, k));
      NoDupAppend(s.callbacks + BlockedOn(s, k), s.guiBlocked);
    }
    assert forall x :: x in u.callbacks <==> x in s.callbacks || x in BlockedOn(s, k) || x in s.guiBlocked;
    ListsFrame(s, u, {});
    assert LedgerOk(u);
    hide LedgerOk;
    assert LockOk(u) && QueueOk(u, {});
    assert KeysOk(u) && KeyWaitersOk(u, {});
  }

  lemma WakeGuiKeeps(s: State)
    requires Inv(s) && NoneQueued(s, s.guiBlocked)
    ensures Inv(s.(callbacks := s.callbacks + s.guiBlocked))
  {
    hide KS.Valid, NoDup;
    var u := s.(callbacks := s.callbacks + s.guiBlocked);
    NoDupAppend(s.callbacks, s.guiBlocked);
    ListsFrame(s, u, {});
    assert LedgerOk(u) && LockOk(u) && QueueOk(u, {}) && KeysOk(u) && KeyWaitersOk(u, {});
  }

  lemma GotRefusalKeeps(s: State, k: KeyId)
    requires Inv(s) && k in s.prompting && NoneQueued(s, s.guiBlocked)
    ensures var o := GotRefusal(s, k); o.Ok? && Inv(o.state)
  {
    FailRequestsKeeps(s, k, UserRefused);
    assert s.guiBusy && k in s.store.privs;
    var t := FailRequests(DropPrompt(s, k), k, UserRefused);
    hide Inv, FailRequests;
    WakeGuiKeeps(t);
  }

  /** Forgetting a prompt nobody waits for any more. */
  lemma DropPromptKeeps(s: State, k: KeyId)
    requires Inv(s) && k in s.prompting && BlockedOn(s, k) == []
    ensures Inv(DropPrompt(s, k))
  {
    hide KS.Valid, NoDup;
    var t := DropPrompt(s, k);
    ListsFrame(s, t, {});
    assert LedgerOk(t) && LockOk(t) && QueueOk(t, {}) && KeysOk(t) && KeyWaitersOk(t, {});
  }

  lemma GotPassphraseKeeps(s: State, k: KeyId, load: Load, opens: bool)
    requires Inv(s) && k in s.prompting && (Wakes(s, k, load) ==> NoWaiterQueued(s, k))
    ensures var o := GotPassphrase(s, k, load, opens); o.Ok? && Inv(o.state)
  {
    assert s.guiBusy && k in s.store.privs && KS.Valid(s.store) && s.prompting == {k};
    assert KS.FormsOk(k, s.store.privs[k]);
    var t := DropPrompt(s, k);
    hide Inv, FailRequests, UnblockKeyAndGui;
    if s.store.privs[k].clear.Some? {
      UnblockKeeps(s, k, t);
    } else {
      match load
      case Unloadable => FailRequestsKeeps(s, k, Undecryptable);
      case WrongPassphrase =>
        if BlockedOn(s, k) == [] {
          DropPromptKeeps(s, k);
        } else if opens {
          assert t.(guiBusy := true, prompting := t.prompting + {k}) == s;
        } else {
          FailRequestsKeeps(s, k, PromptsEnded);
        }
      case Loaded(secret) =>
        SetClearKeepsValid(s.store, k, secret);
        UnblockKeeps(s, k, SetClear(t, k, secret));
    }
  }

  lemma SetClearKeepsValid(st: KS.Store, k: KeyId, secret: Blob)
    requires KS.Valid(st) && k in st.privs
    ensures KS.Valid(st.(privs := st.privs[k := st.privs[k].(clear := Some(secret))]))
  {
    hide KS.Sorted, KS.PrivsOf;
  }

  lemma DropOpsLists(s: State, c: ClientId)
    requires ListsOk(s, {})
    ensures ListsOk(DropOps(s, OpsOf(s, c)).(clients := s.clients - {c}), {})
  {
    hide NoDup, Without;
    var gone := OpsOf(s, c);
    var t := DropOps(s, gone).(clients := s.clients - {c});
    WithoutKeepsNoDup(s.guiBlocked, gone);
    forall k | k in s.blocked ensures NoDup(Without(s.blocked[k], gone)) {
      WithoutKeepsNoDup(s.blocked[k], gone);
    }
    assert forall x, at :: Waits(t, x, at) <==> Waits(s, x, at) && x !in gone;
    forall j, x ensures x in BlockedOn(t, j) <==> x in BlockedOn(s, j) && x !in gone {
      if j in s.blocked {
        assert t.blocked[j] == Without(s.blocked[j], gone);
      }
    }
  }

  lemma DropOpsKeeps(s: State, c: ClientId)
    requires Inv(s)
    ensures Inv(DropOps(s, OpsOf(s, c)).(clients := s.clients - {c}))
  {
    hide KS.Valid, NoDup, Without;
    var t := DropOps(s, OpsOf(s, c)).(clients := s.clients - {c});
    WithoutKeepsNoDup(s.callbacks, OpsOf(s, c));
    DropOpsLists(s, c);
    DropOpsLedger(s, c);
    hide LedgerOk, ListsOk;
    assert LockOk(t) && KeyWaitersOk(t, {}) by { hide QueueOk, KeysOk; }
    assert QueueOk(t, {}) by { hide KeyWaitersOk, KeysOk; }
    assert KeysOk(t) by { hide KeyWaitersOk, QueueOk; }
  }

  lemma DropOpsLedger(s: State, c: ClientId)
    requires LedgerOk(s)
    ensures LedgerOk(DropOps(s, OpsOf(s, c)).(clients := s.clients - {c}))
  {
    hide Without;
    var t := DropOps(s, OpsOf(s, c)).(clients := s.clients - {c});
    forall x: OpId | x < t.next && x !in t.ops && x !in t.dropped ensures Replied(t, x) {
      assert Replied(s, x);
    }
  }

  lemma NewOpLists(s: State, op: Op)
    requires ListsOk(s, {}) && s.next !in s.ops
    requires op.SignOp? ==> op.at == Start
    ensures ListsOk(NewOp(s, op), {})
  {
    hide NoDup;
    var t := NewOp(s, op);
    assert forall x, at :: Waits(t, x, at) <==> Waits(s, x, at) || (x == s.next && op.SignOp? && at == Start);
    forall j, x ensures x in BlockedOn(t, j) <==> Waits(t, x, AtKey) && t.ops[x].key == j {
      assert BlockedOn(t, j) == BlockedOn(s, j);
      assert x in BlockedOn(s, j) <==> Waits(s, x, AtKey) && s.ops[x].key == j;
      assert Waits(t, x, AtKey) <==> Waits(s, x, AtKey);
    }
    forall x ensures x in t.guiBlocked <==> Waits(t, x, AtGui) {
      assert Waits(t, x, AtGui) <==> Waits(s, x, AtGui);
    }
  }

  lemma NewOpKeeps(s: State, op: Op)
    requires Inv(s) && op.client in s.clients
    requires op.SignOp? ==> op.at == Start && op.key in s.store.privs && op.key.version == 2
    ensures Inv(NewOp(s, op))
  {
    hide KS.Valid, NoDup;
    var t := NewOp(s, op);
    assert NoDup(t.callbacks) && s.next !in s.ops by {
      assert s.next !in s.ops && s.next !in s.callbacks;
      NoDupSingle(s.next);
      NoDupAppend(s.callbacks, [s.next]);
    }
    NewOpLists(s, op);
    NewOpLedger(s, op);
    hide LedgerOk, ListsOk;
    assert LockOk(t);
    assert KeyWaitersOk(t, {}) by { hide QueueOk, KeysOk; }
    assert QueueOk(t, {}) by { hide KeyWaitersOk, KeysOk; }
    assert KeysOk(t) by { hide KeyWaitersOk, QueueOk; }
  }

  lemma NewOpLedger(s: State, op: Op)
    requires LedgerOk(s) && op.client in s.clients
    ensures LedgerOk(NewOp(s, op))
  {
    var t := NewOp(s, op);
    forall x: OpId | x < t.next && x !in t.ops && x !in t.dropped ensures Replied(t, x) {
      assert Replied(s, x);
    }
  }

  /** The requests on these keys' lists are those that wait for one of them, each once. */
  lemma {:induction false} WaitersAre(s: State, ks: seq<KeyId>)
    requires ListsOk(s, {}) && NoRepeat(ks)
    ensures NoDup(WaitersOf(s, ks))
    ensures forall id :: id in WaitersOf(s, ks) <==> Waits(s, id, AtKey) && s.ops[id].key in ks
  {
    hide NoDup, ListsOk, NoRepeat;
    NoDupEmpty();
    if ks != [] {
      var k, rest := ks[0], ks[1..];
      assert ks == [k] + rest;
      NoRepeatTail(ks);
      WaitersAre(s, rest);
      ListIs(s, k);
      NoDupAppend(BlockedOn(s, k), WaitersOf(s, rest));
    }
  }

  lemma ListIs(s: State, k: KeyId)
    requires ListsOk(s, {})
    ensures NoDup(BlockedOn(s, k))
    ensures forall id :: id in BlockedOn(s, k) <==> Waits(s, id, AtKey) && s.ops[id].key == k
  {
    hide NoDup;
    NoDupEmpty();
  }

  lemma PurgeLists(s: State, t: State, ks: seq<KeyId>)
    requires ListsOk(s, {}) && forall id :: id in WaitersOf(s, ks) <==> Waits(s, id, AtKey) && s.ops[id].key in ks
    requires t.guiBlocked == s.guiBlocked && t.blocked == s.blocked - KeySet(ks)
    requires t.ops == s.ops - IdSet(WaitersOf(s, ks))
    ensures ListsOk(t, {})
  {
    hide NoDup, IdSet, WaitersOf;
    var q := WaitersOf(s, ks);
    IdSetIs(q);
    assert forall x, at :: Waits(t, x, at) <==> Waits(s, x, at) && x !in q;
    assert forall j :: BlockedOn(t, j) == if j in ks then [] else BlockedOn(s, j);
    forall j, x ensures x in BlockedOn(t, j) <==> Waits(t, x, AtKey) && t.ops[x].key == j {
      assert x in BlockedOn(s, j) <==> Waits(s, x, AtKey) && s.ops[x].key == j;
    }
    forall x ensures x in t.guiBlocked <==> Waits(t, x, AtGui) {
    }
  }

  /** What a change of the store does to the requests: those that wait for a deleted key are answered. */
  lemma ChangeFrees(s: State, change: KS.Op)
    requires Inv(s) && KS.Admissible(change)
    ensures var t, ids := Change(s, change), WaitersOf(s, KS.Freed(s.store.pubs, KS.Apply(s.store, change).privs));
            && t.store == KS.Apply(s.store, change) && KS.Valid(t.store)
            && NoDup(ids) && t.ops == s.ops - IdSet(ids) && t.callbacks == Without(s.callbacks, IdSet(ids))
            && t.replies == s.replies + FailureReplies(ids, KeyDeleted)
            && forall id :: id in ids <==> Waits(s, id, AtKey) && s.ops[id].key !in t.store.privs
  {
    hide NoDup, KS.Apply, IdSet, Without;
    var st := KS.Apply(s.store, change);
    KS.ApplyKeepsValid(s.store, change);
    KS.FreedIs(s.store.pubs, st.privs);
    var ks := KS.Freed(s.store.pubs, st.privs);
    WaitersAre(s, ks);
    SameWaiters(s, s.(store := st), ks);
    assert forall id :: Waits(s, id, AtKey) ==> s.ops[id].key in KS.PrivsOf(s.store.pubs);
    hide Inv, KS.Valid;
  }

  /** The requests a change of the store answers and frees. */
  function Deleted(s: State, change: KS.Op): set<OpId> {
    IdSet(WaitersOf(s, KS.Freed(s.store.pubs, KS.Apply(s.store, change).privs)))
  }

  /** A change that deletes no private key does nothing but change the store. */
  lemma ChangeOfStoreOnly(s: State, change: KS.Op)
    requires KS.PrivsOf(s.store.pubs) <= KS.Apply(s.store, change).privs.Keys
    ensures Change(s, change) == s.(store := KS.Apply(s.store, change))
  {
    hide KS.Apply, KS.PrivsOf;
    KS.FreedNothing(s.store.pubs, KS.Apply(s.store, change).privs);
    PurgeNothing(s.(store := KS.Apply(s.store, change)));
  }

  lemma PurgeNothing(s: State)
    ensures Purge(s, []) == s
  {
    WithoutNothing(s.callbacks, IdSet([]));
    assert s.replies + FailureReplies([], KeyDeleted) == s.replies;
    assert s.blocked - KeySet([]) == s.blocked && s.ops - IdSet([]) == s.ops;
  }

  /** Nothing but requests on a key's own list is touched. */
  lemma ChangeSpares(s: State, change: KS.Op)
    requires ListsOk(s, {})
    ensures var t := Change(s, change);
            t.ops == s.ops - Deleted(s, change) && t.callbacks == Without(s.callbacks, Deleted(s, change))
    ensures forall id :: id in Deleted(s, change) ==> Waits(s, id, AtKey) && id !in s.guiBlocked
  {
    hide KS.Apply, Without, KS.Freed, IdSet, NoDup;
    var st := KS.Apply(s.store, change);
    var ks := KS.Freed(s.store.pubs, st.privs);
    SameWaiters(s, s.(store := st), ks);
    IdSetIs(WaitersOf(s, ks));
    WaitersWait(s, ks);
    forall id | id in Deleted(s, change) ensures Waits(s, id, AtKey) && id !in s.guiBlocked {
      assert id in s.guiBlocked ==> Waits(s, id, AtGui);
    }
  }

  lemma {:induction false} WaitersWait(s: State, ks: seq<KeyId>)
    requires ListsOk(s, {})
    ensures forall id :: id in WaitersOf(s, ks) ==> Waits(s, id, AtKey)
  {
    hide NoDup, ListsOk;
    if ks != [] {
      WaitersWait(s, ks[1..]);
      ListIs(s, ks[0]);
    }
  }

  lemma {:induction false} SameWaiters(s: State, t: State, ks: seq<KeyId>)
    requires t.blocked == s.blocked
    ensures WaitersOf(s, ks) == WaitersOf(t, ks)
  {
    if ks != [] {
      SameWaiters(s, t, ks[1..]);
    }
  }

  /** The rest of the state after a change. */
  lemma ChangeLeaves(s: State, change: KS.Op)
    ensures var t := Change(s, change);
            && t.store == KS.Apply(s.store, change) && s.replies <= t.replies
            && t.guiBusy == s.guiBusy && t.prompting == s.prompting && t.guiBlocked == s.guiBlocked
            && t.clients == s.clients && t.dropped == s.dropped && t.next == s.next
            && t.blocked == s.blocked - KeySet(KS.Freed(s.store.pubs, KS.Apply(s.store, change).privs))
  {
    hide KS.Apply, Without, IdSet, WaitersOf;
  }

  lemma ChangeKeeps(s: State, change: KS.Op)
    requires Inv(s) && Permitted(s, change)
    ensures Inv(Change(s, change))
  {
    hide NoDup, NoRepeat, KS.Apply, KS.Valid, IdSet, Without, Change, WaitersOf, KS.Freed;
    var t := Change(s, change);
    ChangeFrees(s, change);
    ChangeLeaves(s, change);
    var ks := KS.Freed(s.store.pubs, t.store.privs);
    var ids := WaitersOf(s, ks);
    KS.FreedIs(s.store.pubs, t.store.privs);
    assert ListsOk(t, {}) && LedgerOk(t) by {
      hide LockOk, QueueOk, KeysOk, KeyWaitersOk;
      WaitersAre(s, ks);
      PurgeLists(s, t, ks);
      MoreRepliesLedger(s, t, ids, IdSet(ids)) by { IdSetIs(ids); }
    }
    IdSetIs(ids);
    WithoutKeepsNoDup(s.callbacks, IdSet(ids));
    hide ListsOk, LedgerOk;
    assert LockOk(t) by { hide QueueOk, KeysOk, KeyWaitersOk; }
    assert QueueOk(t, {}) && KeysOk(t) && KeyWaitersOk(t, {}) by { DeletedAreWaiters(s, t, ids); }
  }

  /** Without some key waiters, and with the store of a permitted change. */
  lemma DeletedAreWaiters(s: State, t: State, ids: seq<OpId>)
    requires QueueOk(s, {}) && KeysOk(s) && KeyWaitersOk(s, {}) && KS.Valid(t.store) && Undisturbed(s, t.store)
    requires t.prompting == s.prompting && NoDup(t.callbacks)
    requires forall x :: x in t.ops <==> x in s.ops && x !in ids
    requires forall x :: x in t.ops ==> t.ops[x] == s.ops[x]
    requires forall x :: x in t.callbacks <==> x in s.callbacks && x !in ids
    requires forall x :: x in ids <==> Waits(s, x, AtKey) && s.ops[x].key !in t.store.privs
    ensures QueueOk(t, {}) && KeysOk(t) && KeyWaitersOk(t, {})
  {
    hide NoDup, KS.Valid;
    assert QueueOk(t, {}) by { hide KeyWaitersOk, KeysOk, Undisturbed; }
    assert KeysOk(t) by { hide KeyWaitersOk, QueueOk; }
    assert KeyWaitersOk(t, {}) by { hide KeysOk, QueueOk, Undisturbed; }
  }

  lemma FoundKeyHasPrivate(st: KS.Store, base: Blob, full: Blob)
    requires KS.Valid(st) && KS.Find(st.pubs, KS.PubSort(KS.PrivSort(2, base), full)).Some?
    ensures KS.PrivSort(2, base) in st.privs
  {
    var i := KS.Find(st.pubs, KS.PubSort(KS.PrivSort(2, base), full)).value;
    assert st.pubs[i] in st.pubs;
  }

  lemma ConnectKeeps(s: State, c: ClientId)
    requires Inv(s)
    ensures Inv(s.(clients := s.clients + {c}))
  {
    hide KS.Valid, NoDup;
    var t := s.(clients := s.clients + {c});
    ListsFrame(s, t, {});
    hide ListsOk;
    assert forall x :: Replied(s, x) ==> Replied(t, x);
    assert LedgerOk(t);
    hide LedgerOk;
    assert LockOk(t) && QueueOk(t, {}) && KeysOk(t) && KeyWaitersOk(t, {});
  }

  lemma RequestSignKeeps(s: State, e: Event)
    requires Inv(s) && e.RequestSign? && e.client in s.clients
    ensures Step(s, e).Ok? && Inv(Step(s, e).state)
  {
    assert KS.Valid(s.store);
    hide Inv, NewOp, KS.Valid, KS.Find;
    var k := KS.PrivSort(2, e.base);
    if KS.Find(s.store.pubs, KS.PubSort(k, e.full)).None? {
      NewOpKeeps(s, ReplyOp(e.client, [SSH_AGENT_FAILURE]));
    } else {
      FoundKeyHasPrivate(s.store, e.base, e.full);
      NewOpKeeps(s, SignOp(e.client, k, e.data, e.flags, Start));
    }
  }

  lemma RequestOtherKeeps(s: State, e: Event)
    requires Inv(s) && e.RequestOther? && Disciplined(s, e)
    ensures Step(s, e).Ok? && Inv(Step(s, e).state)
  {
    hide Inv, NewOp, KS.Valid, Permitted;
    if e.storeOp.Some? {
      ChangeKeeps(s, e.storeOp.value);
      NewOpKeeps(Change(s, e.storeOp.value), ReplyOp(e.client, e.body));
    } else {
      NewOpKeeps(s, ReplyOp(e.client, e.body));
    }
  }

  /** No assertion fails and the invariant survives, whatever the event, if the callers are disciplined. */
  lemma StepKeeps(s: State, e: Event)
    requires Inv(s) && Disciplined(s, e)
    ensures Step(s, e).Ok? && Inv(Step(s, e).state)
  {
    hide Inv, NewOp, DropOps, GotPassphrase, GotRefusal, RunHead, Change, Permitted, NoWaiterQueued, NoneQueued, Wakes;
    match e
    case Connect(c) => ConnectKeeps(s, c);
    case Disconnect(c) => DropOpsKeeps(s, c);
    case RequestSign(_, _, _, _, _) => RequestSignKeeps(s, e);
    case RequestOther(_, _, _) => RequestOtherKeeps(s, e);
    case LocalChange(change) => ChangeKeeps(s, change);
    case RunCallback(opens, verdict) => RunHeadKeeps(s, opens, verdict);
    case Passphrase(k, load, opens) => GotPassphraseKeeps(s, k, load, opens);
    case Refuse(k) => GotRefusalKeeps(s, k);
  }
}
