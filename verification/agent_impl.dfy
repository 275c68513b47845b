/**
 * The agent's routines as they update their lists in place. Each is proved to do exactly the
 * step of the machine it stands for; the assert statements are the assertions of the code.
 */
module AgentImpl {
  import opened Bytes
  import opened Agent
  import opened AgentKeeps
  import KS = KeyStore

  class Server {
    var store: KS.Store
    var guiBusy: bool
    var prompting: set<KeyId>
    var guiBlocked: seq<OpId>
    var blocked: map<KeyId, seq<OpId>>
    var ops: map<OpId, Op>
    var callbacks: seq<OpId>
    var clients: set<ClientId>
    var replies: seq<Answered>
    var dropped: set<OpId>
    var next: OpId

    ghost function View(): State
      reads this
    {
      State(store, guiBusy, prompting, guiBlocked, blocked, ops, callbacks, clients, replies, dropped, next)
    }

    constructor ()
      ensures View() == INIT
    {
      store, guiBusy, prompting, guiBlocked, blocked, ops := KS.EMPTY, false, {}, [], map[], map[];
      callbacks, clients, replies, dropped, next := [], {}, [], {}, 0;
    }

    method SignopUnlink(id: OpId)
      requires id in ops && ops[id].SignOp?
      modifies this`guiBlocked, this`blocked
      ensures View() == Unlink(old(View()), id)
    {
      var k := ops[id].key;
      guiBlocked := Without(guiBlocked, {id});
      if k in blocked {
        blocked := blocked[k := Without(blocked[k], {id})];
      }
    }

    /** request_passphrase: false iff the client could not put up a dialog. */
    method RequestPassphrase(k: KeyId, opens: bool) returns (shown: bool)
      requires k in prompting || !guiBusy
      modifies this`guiBusy, this`prompting
      ensures shown == (k in old(prompting) || opens)
      ensures k in old(prompting) || !opens ==> guiBusy == old(guiBusy) && prompting == old(prompting)
      ensures k !in old(prompting) && opens ==> guiBusy && prompting == old(prompting) + {k}
    {
      if k !in prompting {
        assert !guiBusy;
        if !opens {
          return false;
        }
        guiBusy := true;
        prompting := prompting + {k};
      }
      return true;
    }

    /** Deliver the reply and free the request (pageant_async_op_unlink_and_free). */
    method RespondAndFree(id: OpId, r: Reply)
      requires id in ops
      modifies this`replies, this`ops, this`callbacks
      ensures View() == Respond(old(View()), id, r)
    {
      replies := replies + [Answered(id, r)];
      ops := ops - {id};
      callbacks := Without(callbacks, {id});
    }

    method FinishSigning(id: OpId, verdict: Verdict)
      requires id in ops && ops[id].SignOp? && Finish(View(), id, verdict).Ok?
      modifies this
      ensures Finish(old(View()), id, verdict) == Ok(View())
    {
      var op := ops[id];
      assert op.key in store.privs && store.privs[op.key].clear.Some?;
      if verdict.UnsupportedFlags? {
        RespondAndFree(id, Failure(BadFlags));
      } else if verdict.Invalid? {
        RespondAndFree(id, Failure(InvalidKey));
      } else {
        RespondAndFree(id, Signature(store.privs[op.key].clear.value, op.data, op.flags));
      }
    }

    /** The coroutine from the top of its waiting loop. */
    method ContendForDialog(id: OpId, opens: bool, verdict: Verdict)
      requires id in ops && ops[id].SignOp? && Contend(View(), id, opens, verdict).Ok?
      requires !guiBusy ==> prompting == {}
      modifies this
      ensures Contend(old(View()), id, opens, verdict) == Ok(View())
    {
      hide Without;
      var op := ops[id];
      if store.privs[op.key].clear.None? && guiBusy {
        assert Unlinked(View(), id);
        guiBlocked := guiBlocked + [id];
        ops := ops[id := op.(at := AtGui)];
        return;
      }
      if store.privs[op.key].clear.None? {
        assert store.privs[op.key].file.Some?;
        var shown := RequestPassphrase(op.key, opens);
        if !shown {
          RespondAndFree(id, Failure(CannotPrompt));
          return;
        }
        assert Unlinked(View(), id);
        blocked := blocked[op.key := (if op.key in blocked then blocked[op.key] else []) + [id]];
        ops := ops[id := op.(at := AtKey)];
        return;
      }
      FinishSigning(id, verdict);
    }

    /** signop_coroutine, resumed where the request says. */
    method SignopCoroutine(id: OpId, opens: bool, verdict: Verdict)
      requires id in ops && ops[id].SignOp? && (!guiBusy ==> prompting == {})
      requires match ops[id].at
               case Start => Contend(View(), id, opens, verdict).Ok?
               case AtGui => Contend(Unlink(View(), id), id, opens, verdict).Ok?
               case AtKey => Finish(Unlink(View(), id), id, verdict).Ok?
      modifies this
      ensures var s := old(View());
              match s.ops[id].at
              case Start => Contend(s, id, opens, verdict) == Ok(View())
              case AtGui => Contend(Unlink(s, id), id, opens, verdict) == Ok(View())
              case AtKey => Finish(Unlink(s, id), id, verdict) == Ok(View())
    {
      hide Contend, Finish, Without;
      if ops[id].at == Start {
        ContendForDialog(id, opens, verdict);
      } else if ops[id].at == AtGui {
        SignopUnlink(id);
        ContendForDialog(id, opens, verdict);
      } else {
        SignopUnlink(id);
        FinishSigning(id, verdict);
      }
    }

    /** run_toplevel_callbacks for the agent's own callbacks. */
    method RunCallbackHead(opens: bool, verdict: Verdict)
      requires Inv(View())
      modifies this
      ensures Step(old(View()), RunCallback(opens, verdict)) == Ok(View()) && Inv(View())
    {
      RunHeadKeeps(View(), opens, verdict);
      if callbacks != [] {
        ghost var s := View();
        var id := callbacks[0];
        assert id in ops && (!guiBusy ==> prompting == {});
        hide Inv, Contend, Finish, Unlink, Without;
        callbacks := callbacks[1..];
        assert View() == s.(callbacks := s.callbacks[1..]);
        if ops[id].ReplyOp? {
          RespondAndFree(id, Immediate(ops[id].body));
        } else {
          SignopCoroutine(id, opens, verdict);
        }
      }
    }

    method FailHead(k: KeyId, reason: Reason)
      requires k in blocked && blocked[k] != []
      modifies this
      ensures View() == FailOne(old(View()), k, reason)
    {
      hide Without;
      var id := blocked[k][0];
      blocked := blocked[k := blocked[k][1..]];
      replies := replies + [Answered(id, Failure(reason))];
      ops := ops - {id};
      callbacks := Without(callbacks, {id});
    }

    /** fail_requests_for_key: answers and frees the head of the key's list until it is empty. */
    method FailRequestsForKey(k: KeyId, reason: Reason)
      modifies this
      ensures View() == FailRequests(old(View()), k, reason)
    {
      hide FailFirst, FailOne;
      ghost var s := View();
      ghost var q := BlockedOn(s, k);
      ghost var n := 0;
      FailNone(s, k, reason);
      if k !in blocked {
        blocked := blocked[k := []];
      }
      FailFirstLists(s, k, n, reason);
      while blocked[k] != []
        invariant n <= |q| && k in blocked && blocked[k] == q[n..]
        invariant View() == FailFirst(s, k, n, reason)
        decreases |blocked[k]|
      {
        FailOneMore(s, k, n, reason);
        FailHead(k, reason);
        n := n + 1;
        FailFirstLists(s, k, n, reason);
      }
    }

    /** unblock_requests_for_key: every request on the list is queued, none is unlinked. */
    method UnblockRequestsForKey(k: KeyId)
      modifies this`callbacks
      ensures callbacks == old(callbacks) + BlockedOn(old(View()), k)
    {
      var q := if k in blocked then blocked[k] else [];
      for i := 0 to |q|
        invariant callbacks == old(callbacks) + q[..i]
      {
        callbacks := callbacks + [q[i]];
      }
      assert q[..|q|] == q;
    }

    method UnblockPendingGuiRequests()
      modifies this`callbacks
      ensures callbacks == old(callbacks) + guiBlocked
    {
      for i := 0 to |guiBlocked|
        invariant callbacks == old(callbacks) + guiBlocked[..i]
      {
        callbacks := callbacks + [guiBlocked[i]];
      }
      assert guiBlocked[..|guiBlocked|] == guiBlocked;
    }

    /** After a wrong passphrase: another prompt for the first request still waiting, if there is one. */
    method AskAgain(k: KeyId, opens: bool)
      requires !guiBusy && k !in prompting
      modifies this
      ensures View() == AskedAgain(old(View()), k, opens)
    {
      hide FailRequests;
      if k !in blocked || blocked[k] == [] {
        return;
      }
      assert prompting - {k} == prompting;
      prompting := prompting - {k};
      ghost var s := View();
      var shown := RequestPassphrase(k, opens);
      if !shown {
        assert View() == s;
        FailRequestsForKey(k, PromptsEnded);
      }
    }

    /** The requests that wait for the key, and those that wait for the dialog, go into the queue. */
    method WakeWaiters(k: KeyId)
      modifies this`callbacks
      ensures View() == UnblockKeyAndGui(old(View()), k)
    {
      UnblockRequestsForKey(k);
      UnblockPendingGuiRequests();
    }

    /** pageant_passphrase_request_success */
    method PassphraseSuccess(k: KeyId, load: Load, opens: bool)
      requires Inv(View()) && Disciplined(View(), Passphrase(k, load, opens))
      modifies this
      ensures Step(old(View()), Passphrase(k, load, opens)) == Ok(View()) && Inv(View())
    {
      hide NoDup, FailRequests, UnblockKeyAndGui, Step, AskedAgain;
      StepKeeps(View(), Passphrase(k, load, opens));
      PromptFacts(View(), k);
      SuccessIs(View(), k, load, opens);
      hide Inv, Disciplined;
      ghost var s := View();
      assert guiBusy;
      guiBusy := false;
      prompting := prompting - {k};
      assert View() == DropPrompt(s, k);
      if store.privs[k].clear.None? {
        if load.Unloadable? {
          FailRequestsForKey(k, Undecryptable);
          return;
        } else if load.WrongPassphrase? {
          AskAgain(k, opens);
          return;
        } else {
          store := store.(privs := store.privs[k := store.privs[k].(clear := Some(load.secret))]);
        }
      }
      WakeWaiters(k);
    }

    /** pageant_passphrase_request_refused */
    method PassphraseRefused(k: KeyId)
      requires Inv(View()) && Disciplined(View(), Refuse(k))
      modifies this
      ensures Step(old(View()), Refuse(k)) == Ok(View()) && Inv(View())
    {
      hide NoDup, FailRequests;
      GotRefusalKeeps(View(), k);
      PromptFacts(View(), k);
      hide Inv;
      ghost var s := View();
      guiBusy := false;
      prompting := prompting - {k};
      assert View() == DropPrompt(s, k);
      FailRequestsForKey(k, UserRefused);
      UnblockPendingGuiRequests();
    }

    /** pk_priv_free, of a key that has left its tree: the requests on its own list go with it. */
    method FreePrivate(k: KeyId)
      modifies this
      ensures View() == Purge(old(View()), [k])
    {
      hide FailRequests, Purge;
      PurgeOne(View(), k);
      FailRequestsForKey(k, KeyDeleted);
      blocked := blocked - {k};
    }

    /** del_pubkey_pos, with the cleanup after it; what it does to the two trees is KeyStore.RemovePos. */
    method DelPubkeyPos(pos: nat)
      requires pos < |store.pubs|
      modifies this
      ensures store == KS.RemovePos(old(store), pos)
      ensures var s, k := old(View()), old(store).pubs[pos].sort.priv;
              View() == Purge(s.(store := store), if k in store.privs then [] else [k])
    {
      hide Purge, KS.RemovePos;
      var k := store.pubs[pos].sort.priv;
      store := KS.RemovePos(store, pos);
      PurgeNothing(View());
      PurgeStore(View(), [k]);
      if k !in store.privs {
        FreePrivate(k);
      }
    }

    method RemoveKey(key: KS.PubSort)
      requires KS.Valid(store)
      modifies this
      ensures View() == Change(old(View()), KS.Remove(key))
    {
      hide Purge, KS.Valid, KS.LowerBound, KS.RemovePos;
      ghost var s := View();
      match KS.Find(store.pubs, key)
      case None =>
        assert KS.PrivsOf(store.pubs) <= store.privs.Keys by { KS.ValidHolds(store); }
        ChangeOfStoreOnly(s, KS.Remove(key));
      case Some(i) =>
        KS.FreedByOne(store, i);
        DelPubkeyPos(i);
    }

    /** remove_all_keys: from the last key of the version back to its first. */
    method RemoveAllKeys(version: int)
      requires KS.Valid(store)
      modifies this
      ensures View() == Change(old(View()), KS.RemoveAll(version))
    {
      hide Purge, KS.Valid, KS.FirstOfVersion, KS.RemovePos, KS.RemoveVersion, KS.NotOfVersion, KS.OfVersion, KS.Freed;
      ghost var s, was := View(), store;
      KS.StartOfRemoval(was, version);
      var start := KS.FirstOfVersion(store.pubs, version);
      var end := KS.FirstOfVersion(store.pubs, version + 1);
      ghost var stop := end;
      PurgeNothing(s);
      while end > start
        invariant start <= end <= stop <= |was.pubs| && KS.Valid(store)
        invariant KS.Between(was, store, end, stop)
        invariant View() == Purge(s.(store := store), KS.Freed(was.pubs, store.privs))
      {
        end := end - 1;
        ghost var before, u := store, View();
        KS.RemovalStep(was, before, end, stop);
        DelPubkeyPos(end);
        PurgeStep(s, u, store, KS.Freed(was.pubs, before.privs), was.pubs[end].sort.priv);
      }
      KS.RemovalEnds(was, store, start, stop, version);
    }

    /** The routines that change the store: those that only add or re-encrypt leave every list alone. */
    method ApplyChange(change: KS.Op)
      requires KS.Valid(store)
      modifies this
      ensures View() == Change(old(View()), change)
    {
      hide Change, KS.Valid, KS.Apply;
      match change
      case Remove(key) => RemoveKey(key);
      case RemoveAll(version) => RemoveAllKeys(version);
      case _ =>
        KS.KeepsPrivates(store, change);
        ChangeOfStoreOnly(View(), change);
        store := KS.Apply(store, change);
    }

    method HandleOther(c: ClientId, change: Option<KS.Op>, body: Blob)
      requires Inv(View()) && Disciplined(View(), RequestOther(c, change, body))
      modifies this
      ensures Step(old(View()), RequestOther(c, change, body)) == Ok(View()) && Inv(View())
    {
      StepKeeps(View(), RequestOther(c, change, body));
      assert KS.Valid(store);
      hide Inv, Change, NewOp, Disciplined, KS.Valid;
      if change.Some? {
        ApplyChange(change.value);
      }
      Enqueue(ReplyOp(c, body));
    }

    /** The same from the agent's own window (pageant_delete_nth_ssh2_key and its like). */
    method ChangeLocally(change: KS.Op)
      requires Inv(View()) && Permitted(View(), change)
      modifies this
      ensures Step(old(View()), LocalChange(change)) == Ok(View()) && Inv(View())
    {
      ChangeKeeps(View(), change);
      assert KS.Valid(store);
      hide Inv, Change, KS.Valid;
      ApplyChange(change);
    }

    /** A new request of any kind is queued at once (pageant_handle_msg). */
    method Enqueue(op: Op)
      modifies this`ops, this`callbacks, this`next
      ensures View() == NewOp(old(View()), op)
    {
      ops := ops[next := op];
      callbacks := callbacks + [next];
      next := next + 1;
    }

    method HandleSign(c: ClientId, base: Blob, full: Blob, data: Blob, flags: nat)
      requires Inv(View()) && c in clients
      modifies this
      ensures Step(old(View()), RequestSign(c, base, full, data, flags)) == Ok(View()) && Inv(View())
    {
      StepKeeps(View(), RequestSign(c, base, full, data, flags));
      hide Inv, NewOp;
      var k := KS.PrivSort(2, base);
      if KS.Find(store.pubs, KS.PubSort(k, full)).None? {
        Enqueue(ReplyOp(c, [SSH_AGENT_FAILURE]));
      } else {
        assert k in store.privs;
        Enqueue(SignOp(c, k, data, flags, Start));
      }
    }

    /** One request of a client that goes away: off every list, out of the queue, unanswered. */
    method DropOp(id: OpId)
      modifies this
      ensures View() == DropOps(old(View()), {id})
    {
      hide Without;
      guiBlocked := Without(guiBlocked, {id});
      blocked := map k | k in blocked :: Without(blocked[k], {id});
      ops := ops - {id};
      callbacks := Without(callbacks, {id});
      dropped := dropped + {id};
    }

    /** pageant_unregister_client: each request of the client is unlinked and freed in turn. */
    method UnregisterClient(c: ClientId)
      requires Inv(View())
      modifies this
      ensures Step(old(View()), Disconnect(c)) == Ok(View()) && Inv(View())
    {
      hide Inv, Without, DropOps;
      ghost var s := View();
      DropOpsKeeps(s, c);
      ghost var gone: set<OpId> := {};
      DropNothing(s);
      var mine := set id | id in ops && ops[id].client == c;
      assert mine == OpsOf(s, c);
      hide OpsOf;
      while mine != {}
        invariant gone <= OpsOf(s, c) && mine == OpsOf(s, c) - gone
        invariant View() == DropOps(s, gone)
        decreases |mine|
      {
        var id :| id in mine;
        DropOneMore(s, gone, id);
        DropOp(id);
        mine := mine - {id};
        gone := gone + {id};
      }
      assert gone == OpsOf(s, c);
      assert clients == s.clients by { DropKeepsClients(s, gone); }
      clients := clients - {c};
    }
  }

  lemma PurgeOne(s: State, k: KeyId)
    ensures var t := FailRequests(s, k, KeyDeleted); Purge(s, [k]) == t.(blocked := t.blocked - {k})
  {
    hide Without, IdSet;
    var q := BlockedOn(s, k);
    assert [k][1..] == [] && WaitersOf(s, []) == [];
    assert WaitersOf(s, [k]) == q + [] == q;
    assert q[..|q|] == q;
  }

  /** Purging looks at the lists, not at the store. */
  lemma PurgeStore(s: State, ks: seq<KeyId>)
    ensures Purge(s, ks).store == s.store
  {
    hide Without, IdSet, WaitersOf;
  }

  lemma PurgeOtherStore(s: State, ks: seq<KeyId>, st: KS.Store)
    ensures Purge(s.(store := st), ks) == Purge(s, ks).(store := st)
  {
    hide Without, IdSet, WaitersOf;
    SameWaiters(s, s.(store := st), ks);
  }

  lemma {:induction false} WaitersAppend(s: State, ks: seq<KeyId>, k: KeyId)
    ensures WaitersOf(s, ks + [k]) == WaitersOf(s, ks) + BlockedOn(s, k)
  {
    hide BlockedOn;
    if ks == [] {
      assert ks + [k] == [k] && [k][1..] == [];
      assert WaitersOf(s, [k]) == BlockedOn(s, k) + WaitersOf(s, []);
    } else {
      WaitersAppend(s, ks[1..], k);
      assert (ks + [k])[1..] == ks[1..] + [k] && (ks + [k])[0] == ks[0];
      assert BlockedOn(s, ks[0]) + (WaitersOf(s, ks[1..]) + BlockedOn(s, k))
          == BlockedOn(s, ks[0]) + WaitersOf(s, ks[1..]) + BlockedOn(s, k);
    }
  }

  lemma FailuresAppend(a: seq<OpId>, b: seq<OpId>)
    ensures FailureReplies(a + b, KeyDeleted) == FailureReplies(a, KeyDeleted) + FailureReplies(b, KeyDeleted)
    ensures IdSet(a + b) == IdSet(a) + IdSet(b)
  {
  }

  /** These keys freed, with these requests on their lists. */
  function PurgeWith(s: State, ks: set<KeyId>, ids: seq<OpId>): State {
    s.(replies := s.replies + FailureReplies(ids, KeyDeleted),
       blocked := s.blocked - ks,
       ops := s.ops - IdSet(ids),
       callbacks := Without(s.callbacks, IdSet(ids)))
  }

  lemma PurgeWithTwice(s: State, ks: set<KeyId>, a: seq<OpId>, js: set<KeyId>, b: seq<OpId>)
    ensures PurgeWith(PurgeWith(s, ks, a), js, b) == PurgeWith(s, ks + js, a + b)
  {
    hide Without, IdSet, FailureReplies;
    FailuresAppend(a, b);
    WithoutTwice(s.callbacks, IdSet(a), IdSet(b));
    assert s.blocked - ks - js == s.blocked - (ks + js);
    assert s.ops - IdSet(a) - IdSet(b) == s.ops - (IdSet(a) + IdSet(b));
    assert s.replies + FailureReplies(a, KeyDeleted) + FailureReplies(b, KeyDeleted)
        == s.replies + (FailureReplies(a, KeyDeleted) + FailureReplies(b, KeyDeleted));
  }

  lemma PurgeIs(s: State, ks: seq<KeyId>)
    ensures Purge(s, ks) == PurgeWith(s, KeySet(ks), WaitersOf(s, ks))
  {
    hide Without, IdSet, FailureReplies, WaitersOf;
  }

  /** Freeing one more key. */
  lemma PurgeMore(s: State, ks: seq<KeyId>, k: KeyId)
    requires k !in ks
    ensures Purge(Purge(s, ks), [k]) == Purge(s, ks + [k])
  {
    var t := Purge(s, ks);
    assert BlockedOn(t, k) == BlockedOn(s, k) by { hide Without, IdSet, FailureReplies, WaitersOf; }
    PurgeIs(s, ks);
    PurgeIs(t, [k]);
    PurgeIs(s, ks + [k]);
    hide Purge, PurgeWith, WaitersOf, BlockedOn;
    WaitersAppend(s, ks, k);
    WaitersAppend(t, [], k);
    NoWaiters(t);
    assert [] + [k] == [k] && [] + BlockedOn(s, k) == BlockedOn(s, k);
    assert KeySet(ks + [k]) == KeySet(ks) + KeySet([k]);
    PurgeWithTwice(s, KeySet(ks), WaitersOf(s, ks), KeySet([k]), BlockedOn(s, k));
  }

  lemma NoWaiters(s: State)
    ensures WaitersOf(s, []) == []
  {
  }

  /** One deletion of remove_all_keys: u is the state before it and st the store after it. */
  lemma PurgeStep(s: State, u: State, st: KS.Store, ks: seq<KeyId>, k: KeyId)
    requires u == Purge(s.(store := u.store), ks) && k !in ks
    ensures Purge(u.(store := st), []) == Purge(s.(store := st), ks)
    ensures Purge(u.(store := st), [k]) == Purge(s.(store := st), ks + [k])
  {
    hide Purge;
    PurgeOtherStore(s, ks, u.store);
    PurgeOtherStore(s, ks, st);
    PurgeNothing(u.(store := st));
    PurgeMore(s.(store := st), ks, k);
  }

  lemma DropKeepsClients(s: State, gone: set<OpId>)
    ensures DropOps(s, gone).clients == s.clients
  {
  }

  lemma PromptFacts(s: State, k: KeyId)
    requires Inv(s) && k in s.prompting
    ensures s.guiBusy && s.prompting == {k} && k in s.store.privs && NoDup(BlockedOn(s, k))
    ensures s.store.privs[k].clear.Some? || s.store.privs[k].file.Some?
    ensures BlockedOn(DropPrompt(s, k), k) == BlockedOn(s, k)
  {
    NoDupEmpty();
    assert KS.FormsOk(k, s.store.privs[k]);
  }

  function AskedAgain(s: State, k: KeyId, opens: bool): State {
    if BlockedOn(s, k) == [] then s
    else if opens then s.(guiBusy := true, prompting := s.prompting + {k})
    else FailRequests(s, k, PromptsEnded)
  }

  /** The passphrase handler's step, path by path. */
  lemma SuccessIs(s: State, k: KeyId, load: Load, opens: bool)
    requires s.guiBusy && k in s.store.privs && (s.store.privs[k].clear.Some? || s.store.privs[k].file.Some?)
    ensures var t, known := DropPrompt(s, k), s.store.privs[k].clear.Some?;
            Step(s, Passphrase(k, load, opens))
            == Ok(if known then UnblockKeyAndGui(t, k)
                  else match load
                    case Unloadable => FailRequests(t, k, Undecryptable)
                    case WrongPassphrase => AskedAgain(t, k, opens)
                    case Loaded(secret) => UnblockKeyAndGui(SetClear(t, k, secret), k))
  {
    hide FailRequests, UnblockKeyAndGui;
    assert BlockedOn(DropPrompt(s, k), k) == BlockedOn(s, k);
  }

  lemma FailNone(s: State, k: KeyId, reason: Reason)
    ensures FailFirst(s, k, 0, reason) == s.(blocked := s.blocked[k := BlockedOn(s, k)])
    ensures k in s.blocked ==> FailFirst(s, k, 0, reason) == s
  {
    var q := BlockedOn(s, k);
    assert q[..0] == [] && q[0..] == q;
    assert IdSet(q[..0]) == {};
    WithoutNothing(s.callbacks, IdSet(q[..0]));
    assert s.replies + FailureReplies(q[..0], reason) == s.replies;
    assert s.ops - IdSet(q[..0]) == s.ops;
  }

  /** The head of the key's list is answered with a failure and freed. */
  function FailOne(s: State, k: KeyId, reason: Reason): State
    requires k in s.blocked && s.blocked[k] != []
  {
    var id := s.blocked[k][0];
    s.(blocked := s.blocked[k := s.blocked[k][1..]],
       replies := s.replies + [Answered(id, Failure(reason))],
       ops := s.ops - {id},
       callbacks := Without(s.callbacks, {id}))
  }

  lemma FailFirstLists(s: State, k: KeyId, n: nat, reason: Reason)
    requires n <= |BlockedOn(s, k)|
    ensures var t := FailFirst(s, k, n, reason); k in t.blocked && t.blocked[k] == BlockedOn(s, k)[n..]
  {
  }

  lemma FailureRepliesAppend(ids: seq<OpId>, id: OpId, reason: Reason)
    ensures FailureReplies(ids + [id], reason) == FailureReplies(ids, reason) + [Answered(id, Failure(reason))]
    ensures IdSet(ids + [id]) == IdSet(ids) + {id}
  {
  }

  lemma FailOneMore(s: State, k: KeyId, n: nat, reason: Reason)
    requires n < |BlockedOn(s, k)|
    ensures var t := FailFirst(s, k, n, reason);
            && k in t.blocked && t.blocked[k] != []
            && FailFirst(s, k, n + 1, reason) == FailOne(t, k, reason)
  {
    hide Without, IdSet;
    var q := BlockedOn(s, k);
    assert q[..n + 1] == q[..n] + [q[n]];
    FailureRepliesAppend(q[..n], q[n], reason);
    WithoutTwice(s.callbacks, IdSet(q[..n]), {q[n]});
    assert q[n..][1..] == q[n + 1..];
  }

  lemma DropNothing(s: State)
    ensures DropOps(s, {}) == s
  {
    WithoutNothing(s.guiBlocked, {});
    WithoutNothing(s.callbacks, {});
    forall k | k in s.blocked ensures Without(s.blocked[k], {}) == s.blocked[k] {
      WithoutNothing(s.blocked[k], {});
    }
  }

  lemma DropOneMore(s: State, gone: set<OpId>, id: OpId)
    ensures DropOps(DropOps(s, gone), {id}) == DropOps(s, gone + {id})
  {
    hide Without;
    WithoutTwice(s.guiBlocked, gone, {id});
    WithoutTwice(s.callbacks, gone, {id});
    forall k | k in s.blocked
      ensures Without(Without(s.blocked[k], gone), {id}) == Without(s.blocked[k], gone + {id})
    {
      WithoutTwice(s.blocked[k], gone, {id});
    }
  }
}
