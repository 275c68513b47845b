/**
 * The agent's sign requests as a state machine. A request is a coroutine that is started
 * from the callback queue, may wait for the one global passphrase dialog or for its own
 * key's dialog, and is answered once. Every assertion and pointer use of the code that
 * could fail is an explicit Crash outcome, so that safety can be stated, not assumed.
 */
module Agent {
  import opened Bytes
  import KS = KeyStore

  type OpId = nat
  type ClientId = nat
  type KeyId = KS.PrivSort

  /** Where the coroutine resumes (crLine). */
  datatype Resume = Start | AtGui | AtKey

  datatype Reason = CannotPrompt | BadFlags | InvalidKey | Undecryptable | PromptsEnded | UserRefused | KeyDeleted

  datatype Reply =
    | Signature(secret: Blob, data: Blob, flags: nat)
    | Failure(reason: Reason)
    | Immediate(body: Blob)

  datatype Op =
    | SignOp(client: ClientId, key: KeyId, data: Blob, flags: nat, at: Resume)
    | ReplyOp(client: ClientId, body: Blob)

  datatype Answered = Answered(id: OpId, reply: Reply)

  /**
   * prompting holds the keys whose decryption_prompt_active flag is set, guiBlocked is the
   * list of requests waiting for the dialog, and blocked has one list for each key.
   */
  datatype State = State(
    store: KS.Store,
    guiBusy: bool,
    prompting: set<KeyId>,
    guiBlocked: seq<OpId>,
    blocked: map<KeyId, seq<OpId>>,
    ops: map<OpId, Op>,
    callbacks: seq<OpId>,
    clients: set<ClientId>,
    replies: seq<Answered>,
    dropped: set<OpId>,
    next: OpId)

  /** Crash(line) is a failed assertion or a use of a missing key at that source line. */
  datatype Outcome = Ok(state: State) | Crash(line: nat)

  /** What the key's algorithm says about a signing request. */
  datatype Verdict = Acceptable | UnsupportedFlags | Invalid

  /** The result of decrypting a key file. */
  datatype Load = Unloadable | WrongPassphrase | Loaded(secret: Blob)

  datatype Event =
    | Connect(client: ClientId)
    | Disconnect(client: ClientId)
    | RequestSign(client: ClientId, base: Blob, full: Blob, data: Blob, flags: nat)
    | RequestOther(client: ClientId, storeOp: Option<KS.Op>, body: Blob)
    | LocalChange(change: KS.Op)
    | RunCallback(opens: bool, verdict: Verdict)
    | Passphrase(key: KeyId, load: Load, opens: bool)
    | Refuse(key: KeyId)

  const SSH_AGENT_FAILURE: byte := 5

  const INIT := State(KS.EMPTY, false, {}, [], map[], map[], [], {}, [], {}, 0)

  // ----- lists of requests -----

  function Without(q: seq<OpId>, gone: set<OpId>): (r: seq<OpId>)
    ensures forall id :: id in r <==> id in q && id !in gone
  {
    if q == [] then [] else (if q[0] in gone then [] else [q[0]]) + Without(q[1..], gone)
  }

  ghost predicate NoDup(q: seq<OpId>) {
    forall i, j :: 0 <= i < j < |q| ==> q[i] != q[j]
  }

  lemma {:induction false} WithoutKeepsNoDup(q: seq<OpId>, gone: set<OpId>)
    requires NoDup(q)
    ensures NoDup(Without(q, gone))
  {
    if q != [] {
      WithoutKeepsNoDup(q[1..], gone);
      assert q[0] !in q[1..];
      assert q[0] !in Without(q[1..], gone);
    }
  }

  lemma {:induction false} WithoutNothing(q: seq<OpId>, gone: set<OpId>)
    requires forall id :: id in q ==> id !in gone
    ensures Without(q, gone) == q
  {
    if q != [] {
      WithoutNothing(q[1..], gone);
    }
  }

  lemma {:induction false} WithoutTwice(q: seq<OpId>, a: set<OpId>, b: set<OpId>)
    ensures Without(Without(q, a), b) == Without(q, a + b)
  {
    if q != [] {
      WithoutTwice(q[1..], a, b);
      if q[0] in a {
        assert Without(q, a) == Without(q[1..], a);
      } else {
        assert Without(q, a)[1..] == Without(q[1..], a);
      }
    }
  }

  lemma NoDupAppend(q: seq<OpId>, r: seq<OpId>)
    requires NoDup(q) && NoDup(r) && forall id :: id in r ==> id !in q
    ensures NoDup(q + r)
  {
    forall i, j | 0 <= i < j < |q + r| ensures (q + r)[i] != (q + r)[j] {
      if i < |q| <= j {
        assert q[i] in q && r[j - |q|] in r;
      }
    }
  }

  function BlockedOn(s: State, k: KeyId): seq<OpId> {
    if k in s.blocked then s.blocked[k] else []
  }

  // ----- the steps of the code -----

  /** A request that is on no list: both of its links are null. */
  predicate Unlinked(s: State, id: OpId) {
    id !in s.guiBlocked && forall k :: k in s.blocked ==> id !in s.blocked[k]
  }

  /** The reply goes out and the request is freed, together with any callback it still has. */
  function Respond(s: State, id: OpId, r: Reply): State {
    s.(replies := s.replies + [Answered(id, r)], ops := s.ops - {id}, callbacks := Without(s.callbacks, {id}))
  }

  function LinkToGui(s: State, id: OpId): State
    requires id in s.ops && s.ops[id].SignOp?
  {
    s.(guiBlocked := s.guiBlocked + [id], ops := s.ops[id := s.ops[id].(at := AtGui)])
  }

  function LinkToKey(s: State, id: OpId): State
    requires id in s.ops && s.ops[id].SignOp?
  {
    var k := s.ops[id].key;
    s.(blocked := s.blocked[k := BlockedOn(s, k) + [id]], ops := s.ops[id := s.ops[id].(at := AtKey)])
  }

  /** Leaving whichever list the request is on; it counts as running until it is linked again. */
  function Unlink(s: State, id: OpId): State
    requires id in s.ops && s.ops[id].SignOp?
  {
    var k := s.ops[id].key;
    s.(guiBlocked := Without(s.guiBlocked, {id}),
       blocked := if k in s.blocked then s.blocked[k := Without(s.blocked[k], {id})] else s.blocked)
  }

  /** From the top of the waiting loop to the end of the coroutine or the next wait. */
  function Contend(s: State, id: OpId, opens: bool, verdict: Verdict): Outcome
    requires id in s.ops && s.ops[id].SignOp?
  {
    var k := s.ops[id].key;
    if k !in s.store.privs then Crash(681)
    else if s.store.privs[k].clear.Some? then Finish(s, id, verdict)
    else if s.guiBusy then if Unlinked(s, id) then Ok(LinkToGui(s, id)) else Crash(627)
    else if s.store.privs[k].file.None? then Crash(688)
    else if k !in s.prompting && !opens then Ok(Respond(s, id, Failure(CannotPrompt)))
    else if !Unlinked(s, id) then Crash(616)
    else if k in s.prompting then Ok(LinkToKey(s, id))
    else Ok(LinkToKey(s.(guiBusy := true, prompting := s.prompting + {k}), id))
  }

  function Finish(s: State, id: OpId, verdict: Verdict): Outcome
    requires id in s.ops && s.ops[id].SignOp?
  {
    var op := s.ops[id];
    if op.key !in s.store.privs || s.store.privs[op.key].clear.None? then Crash(703)
    else match verdict
      case UnsupportedFlags => Ok(Respond(s, id, Failure(BadFlags)))
      case Invalid => Ok(Respond(s, id, Failure(InvalidKey)))
      case Acceptable => Ok(Respond(s, id, Signature(s.store.privs[op.key].clear.value, op.data, op.flags)))
  }

  /** run_toplevel_callbacks: the head leaves the queue before it runs. */
  function RunHead(s: State, opens: bool, verdict: Verdict): Outcome {
    if s.callbacks == [] then Ok(s)
    else
      var id := s.callbacks[0];
      var t := s.(callbacks := s.callbacks[1..]);
      if id !in s.ops then Crash(86)
      else match s.ops[id]
        case ReplyOp(_, body) => Ok(Respond(t, id, Immediate(body)))
        case SignOp(_, _, _, _, at) =>
          match at
          case Start => Contend(t, id, opens, verdict)
          case AtGui => Contend(Unlink(t, id), id, opens, verdict)
          case AtKey => Finish(Unlink(t, id), id, verdict)
  }

  function FailureReplies(ids: seq<OpId>, reason: Reason): (r: seq<Answered>)
    ensures |r| == |ids| && forall i :: 0 <= i < |ids| ==> r[i] == Answered(ids[i], Failure(reason))
  {
    if ids == [] then [] else [Answered(ids[0], Failure(reason))] + FailureReplies(ids[1..], reason)
  }

  function IdSet(ids: seq<OpId>): set<OpId> {
    set id | id in ids
  }

  /** The first n requests on the key's own list answered with a failure and freed. */
  function FailFirst(s: State, k: KeyId, n: nat, reason: Reason): State
    requires n <= |BlockedOn(s, k)|
  {
    var q := BlockedOn(s, k);
    s.(replies := s.replies + FailureReplies(q[..n], reason),
       blocked := s.blocked[k := q[n..]],
       ops := s.ops - IdSet(q[..n]),
       callbacks := Without(s.callbacks, IdSet(q[..n])))
  }

  function FailRequests(s: State, k: KeyId, reason: Reason): State {
    FailFirst(s, k, |BlockedOn(s, k)|, reason)
  }

  function DropPrompt(s: State, k: KeyId): State {
    s.(guiBusy := false, prompting := s.prompting - {k})
  }

  function SetClear(s: State, k: KeyId, secret: Blob): State
    requires k in s.store.privs
  {
    s.(store := s.store.(privs := s.store.privs[k := s.store.privs[k].(clear := Some(secret))]))
  }

  function UnblockKeyAndGui(s: State, k: KeyId): State {
    s.(callbacks := s.callbacks + BlockedOn(s, k) + s.guiBlocked)
  }

  function GotPassphrase(s: State, k: KeyId, load: Load, opens: bool): Outcome {
    if !s.guiBusy then Crash(786)
    else if k !in s.store.privs then Crash(788)
    else
      var t := DropPrompt(s, k);
      if s.store.privs[k].clear.Some? then Ok(UnblockKeyAndGui(t, k))
      else if s.store.privs[k].file.None? then Crash(795)
      else match load
        case Unloadable => Ok(FailRequests(t, k, Undecryptable))
        case WrongPassphrase =>
          if BlockedOn(s, k) == [] then Ok(t)
          else if opens then Ok(t.(guiBusy := true, prompting := t.prompting + {k}))
          else Ok(FailRequests(t, k, PromptsEnded))
        case Loaded(secret) => Ok(UnblockKeyAndGui(SetClear(t, k, secret), k))
  }

  function GotRefusal(s: State, k: KeyId): Outcome {
    if !s.guiBusy then Crash(845)
    else if k !in s.store.privs then Crash(847)
    else
      var t := FailRequests(DropPrompt(s, k), k, UserRefused);
      Ok(t.(callbacks := t.callbacks + t.guiBlocked))
  }

  function OpsOf(s: State, c: ClientId): set<OpId> {
    set id | id in s.ops && s.ops[id].client == c
  }

  /** A client that goes away takes its requests with it, off every list and out of the queue. */
  function DropOps(s: State, gone: set<OpId>): State {
    s.(ops := s.ops - gone,
       guiBlocked := Without(s.guiBlocked, gone),
       blocked := map k | k in s.blocked :: Without(s.blocked[k], gone),
       callbacks := Without(s.callbacks, gone),
       dropped := s.dropped + gone)
  }

  function NewOp(s: State, op: Op): State {
    s.(ops := s.ops[s.next := op], callbacks := s.callbacks + [s.next], next := s.next + 1)
  }

  function KeySet(ks: seq<KeyId>): set<KeyId> {
    set k | k in ks
  }

  /** The lists of these keys one after another. */
  function WaitersOf(s: State, ks: seq<KeyId>): seq<OpId> {
    if ks == [] then [] else BlockedOn(s, ks[0]) + WaitersOf(s, ks[1..])
  }

  /** Private keys that are freed take their lists with them: every request on one is answered and freed. */
  function Purge(s: State, ks: seq<KeyId>): State {
    var ids := WaitersOf(s, ks);
    s.(replies := s.replies + FailureReplies(ids, KeyDeleted),
       blocked := s.blocked - KeySet(ks),
       ops := s.ops - IdSet(ids),
       callbacks := Without(s.callbacks, IdSet(ids)))
  }

  /** A change of the key store; private keys that it deletes are freed (pk_priv_free). */
  function Change(s: State, change: KS.Op): State {
    var st := KS.Apply(s.store, change);
    Purge(s.(store := st), KS.Freed(s.store.pubs, st.privs))
  }

  function Step(s: State, e: Event): Outcome {
    match e
    case Connect(c) => Ok(s.(clients := s.clients + {c}))
    case Disconnect(c) => Ok(DropOps(s, OpsOf(s, c)).(clients := s.clients - {c}))
    case RequestSign(c, base, full, data, flags) =>
      var k := KS.PrivSort(2, base);
      if KS.Find(s.store.pubs, KS.PubSort(k, full)).None? then Ok(NewOp(s, ReplyOp(c, [SSH_AGENT_FAILURE])))
      else if k !in s.store.privs then Crash(263)
      else Ok(NewOp(s, SignOp(c, k, data, flags, Start)))
    case RequestOther(c, change, body) =>
      Ok(NewOp(if change.Some? then Change(s, change.value) else s, ReplyOp(c, body)))
    case LocalChange(change) => Ok(Change(s, change))
    case RunCallback(opens, verdict) => RunHead(s, opens, verdict)
    case Passphrase(k, load, opens) => GotPassphrase(s, k, load, opens)
    case Refuse(k) => GotRefusal(s, k)
  }

  // ----- what the callers must respect -----

  /**
   * The change leaves every open prompt its key, every live request its key unless the request is on
   * that key's own list, and every woken request the clear form of a key that stays.
   */
  predicate Undisturbed(s: State, st: KS.Store) {
    && s.prompting <= st.privs.Keys
    && forall id :: id in s.ops && s.ops[id].SignOp? ==>
        if s.ops[id].key in st.privs
        then s.ops[id].at == AtKey && id in s.callbacks ==> st.privs[s.ops[id].key].clear.Some?
        else s.ops[id].at == AtKey
  }

  predicate NoneQueued(s: State, q: seq<OpId>) {
    forall id :: id in q ==> id !in s.callbacks
  }

  predicate NoWaiterQueued(s: State, k: KeyId) {
    NoneQueued(s, s.guiBlocked) && NoneQueued(s, BlockedOn(s, k))
  }

  /** The passphrase handler wakes waiting requests only if the key is usable afterwards. */
  predicate Wakes(s: State, k: KeyId, load: Load) {
    load.Loaded? || (k in s.store.privs && s.store.privs[k].clear.Some?)
  }

  predicate Disciplined(s: State, e: Event) {
    match e
    case Connect(_) => true
    case Disconnect(_) => true
    case RequestSign(c, _, _, _, _) => c in s.clients
    case RequestOther(c, change, _) =>
      c in s.clients && (change.Some? ==> Permitted(s, change.value))
    case LocalChange(change) => Permitted(s, change)
    case RunCallback(_, _) => true
    case Passphrase(k, load, _) => k in s.prompting && (Wakes(s, k, load) ==> NoWaiterQueued(s, k))
    case Refuse(k) => k in s.prompting && NoneQueued(s, s.guiBlocked)
  }

  predicate Permitted(s: State, change: KS.Op) {
    KS.Admissible(change) && Undisturbed(s, KS.Apply(s.store, change))
  }

  // ----- the invariant -----

  /** The lock is held iff exactly one key has a prompt on screen. */
  ghost predicate LockOk(s: State) {
    && (s.guiBusy <==> s.prompting != {})
    && (forall j, k :: j in s.prompting && k in s.prompting ==> j == k)
    && s.prompting <= s.store.privs.Keys
  }

  predicate Waits(s: State, id: OpId, at: Resume) {
    id in s.ops && s.ops[id].SignOp? && s.ops[id].at == at
  }

  /**
   * A request is on the list its resume point says, once, and on no other. The requests
   * in r are running: they have left their lists and the queue.
   */
  ghost predicate ListsOk(s: State, r: set<OpId>) {
    && NoDup(s.guiBlocked)
    && (forall id :: id in s.guiBlocked <==> Waits(s, id, AtGui) && id !in r)
    && (forall k :: k in s.blocked ==> NoDup(s.blocked[k]))
    && (forall k, id :: id in BlockedOn(s, k) <==> Waits(s, id, AtKey) && s.ops[id].key == k && id !in r)
  }

  /** No request is queued twice, and one that waits for nobody is queued. */
  ghost predicate QueueOk(s: State, r: set<OpId>) {
    && NoDup(s.callbacks)
    && (forall id :: id in s.callbacks ==> id in s.ops && id !in r)
    && (forall id :: id in s.ops && id !in r && (s.ops[id].ReplyOp? || s.ops[id].at == Start) ==> id in s.callbacks)
  }

  /** The trees agree, live requests refer to existing keys, and a woken key waiter finds its key usable. */
  ghost predicate KeysOk(s: State) {
    && KS.Valid(s.store)
    && (forall id :: id in s.ops && s.ops[id].SignOp? ==>
          && s.ops[id].key in s.store.privs && s.ops[id].key.version == 2
          && (s.ops[id].at == AtKey && id in s.callbacks ==> s.store.privs[s.ops[id].key].clear.Some?))
  }

  /** A request waiting for its key's prompt has been woken, or the prompt is there. */
  ghost predicate KeyWaitersOk(s: State, r: set<OpId>) {
    forall id :: Waits(s, id, AtKey) && id !in s.callbacks && id !in r ==> s.ops[id].key in s.prompting
  }

  ghost predicate Replied(s: State, id: OpId) {
    exists i :: 0 <= i < |s.replies| && s.replies[i].id == id
  }

  /** Every request ever made is live, answered once or dropped with its client: never two of these. */
  ghost predicate LedgerOk(s: State) {
    && (forall id :: id in s.ops ==> id < s.next && id !in s.dropped && s.ops[id].client in s.clients)
    && (forall id :: id in s.dropped ==> id < s.next)
    && (forall i :: 0 <= i < |s.replies| ==>
          s.replies[i].id < s.next && s.replies[i].id !in s.ops && s.replies[i].id !in s.dropped)
    && (forall i, j :: 0 <= i < j < |s.replies| ==> s.replies[i].id != s.replies[j].id)
    && (forall id :: 0 <= id < s.next && id !in s.ops && id !in s.dropped ==> Replied(s, id))
  }

  ghost predicate InvWith(s: State, r: set<OpId>) {
    LockOk(s) && ListsOk(s, r) && QueueOk(s, r) && KeysOk(s) && KeyWaitersOk(s, r) && LedgerOk(s)
  }

  ghost predicate Inv(s: State) {
    InvWith(s, {})
  }
}
