/**
 * The agent's keys without trees: which public keys there are, and what is held of each private half. The
 * two sorted trees do what this description says, for every operation and over every history.
 */
module KeyRing {
  import opened Bytes
  import opened KeyStore

  datatype Ring = Ring(pubs: set<Pub>, held: map<PrivSort, Forms>)

  predicate Has(pubs: set<Pub>, key: PubSort) {
    exists p :: p in pubs && p.sort == key
  }

  predicate Shared(pubs: set<Pub>, k: PrivSort) {
    exists p :: p in pubs && p.sort.priv == k
  }

  /** What is held of a private half, and nothing if it is unknown. */
  function HeldOf(r: Ring, k: PrivSort): Forms {
    if k in r.held then r.held[k] else Forms(None, None)
  }

  function Either<T>(a: Option<T>, b: Option<T>): Option<T> {
    if a.Some? then a else b
  }

  /** A private half is held only as long as a public key has it. */
  function Keeping(pubs: set<Pub>, held: map<PrivSort, Forms>): Ring {
    Ring(pubs, map k | k in held && Shared(pubs, k) :: held[k])
  }

  /** A key with an encrypted file can be locked. */
  function Locked(f: Forms): Forms {
    if f.file.Some? then f.(clear := None) else f
  }

  function Added(r: Ring, sort: PubSort, comment: string, f: Forms): Ring {
    var was := HeldOf(r, sort.priv);
    Ring(if Has(r.pubs, sort) then r.pubs else r.pubs + {Pub(sort, comment)},
         r.held[sort.priv := Forms(Either(was.clear, f.clear), Either(was.file, f.file))])
  }

  function Does(r: Ring, op: Op): Ring {
    match op
    case AddClear(sort, comment, secret) => Added(r, sort, comment, Forms(Some(secret), None))
    case AddFile(sort, comment, file) => Added(r, sort, comment, Forms(None, Some(file)))
    case Remove(key) => Keeping((set p | p in r.pubs && p.sort != key), r.held)
    case RemoveAll(version) => Keeping((set p | p in r.pubs && p.sort.priv.version != version), r.held)
    case Reencrypt(key) =>
      if Has(r.pubs, key)
      then Ring(r.pubs, map k | k in r.held :: if k == key.priv then Locked(r.held[k]) else r.held[k])
      else r
    case ReencryptAll => Ring(r.pubs, map k | k in r.held :: Locked(r.held[k]))
  }

  ghost function Abs(s: Store): Ring {
    Ring((set p | p in s.pubs), s.privs)
  }

  lemma HasIsFind(s: Store, key: PubSort)
    requires Valid(s)
    ensures Has(Abs(s).pubs, key) <==> Find(s.pubs, key).Some?
  {
    FindFinds(s.pubs, key);
    hide Find;
  }

  lemma InsertDoes(s: Store, p: Pub)
    requires Valid(s)
    ensures (set q | q in InsertPub(s.pubs, p))
            == if Has(Abs(s).pubs, p.sort) then Abs(s).pubs else Abs(s).pubs + {p}
  {
    HasIsFind(s, p.sort);
    InsertMembers(s.pubs, LowerBound(s.pubs, p.sort), p);
    hide Find, Valid, LowerBound, Has;
  }

  lemma AddDoes(s: Store, sort: PubSort, comment: string, f: Forms)
    requires Valid(s) && FormsOk(sort.priv, f)
    ensures Abs(AddKey(s, Pub(sort, comment), f)) == Added(Abs(s), sort, comment, f)
  {
    InsertDoes(s, Pub(sort, comment));
    assert sort.priv in s.privs ==> FormsOk(sort.priv, s.privs[sort.priv]);
    hide Valid, InsertPub, Has;
  }

  /** Of all places in the tree only one has the key. */
  lemma OnePlace(s: Store, key: PubSort, pos: nat)
    requires Valid(s) && Find(s.pubs, key) == Some(pos)
    ensures pos < |s.pubs| && s.pubs[pos].sort == key
    ensures forall p :: p in WithoutPos(s.pubs, pos) <==> p in s.pubs && p.sort != key
  {
    FindFinds(s.pubs, key);
    WithoutPosMembers(s.pubs, pos);
    hide Find, Sorted, WithoutPos;
    forall p ensures p in WithoutPos(s.pubs, pos) <==> p in s.pubs && p.sort != key {
      if p in s.pubs && p.sort != key {
        assert p != s.pubs[pos];
      }
    }
  }

  lemma RemoveDoes(s: Store, key: PubSort)
    requires Valid(s)
    ensures Abs(Apply(s, Remove(key))) == Does(Abs(s), Remove(key))
  {
    HasIsFind(s, key);
    if Find(s.pubs, key).Some? {
      RemoveFound(s, key, Find(s.pubs, key).value);
    } else {
      SharedIsPriv(s.pubs);
      NothingToRemove(s, key);
    }
    hide Find, Valid, RemovePos, Keeping, Has;
  }

  lemma NothingToRemove(s: Store, key: PubSort)
    requires Valid(s) && !Has(Abs(s).pubs, key)
    ensures Keeping((set p | p in Abs(s).pubs && p.sort != key), s.privs) == Abs(s)
  {
    SharedIsPriv(s.pubs);
    var pubs := Abs(s).pubs;
    assert (set p | p in pubs && p.sort != key) == pubs;
    assert forall k :: k in s.privs ==> Shared(pubs, k);
    hide Sorted, PrivsOf, Shared, Has;
  }

  lemma KeepingIs(pubs: set<Pub>, held: map<PrivSort, Forms>, privs: map<PrivSort, Forms>)
    requires forall k :: k in privs <==> k in held && Shared(pubs, k)
    requires forall k :: k in privs ==> privs[k] == held[k]
    ensures Keeping(pubs, held) == Ring(pubs, privs)
  {
    hide Shared;
  }

  lemma RemoveFound(s: Store, key: PubSort, pos: nat)
    requires Valid(s) && Find(s.pubs, key) == Some(pos) && pos < |s.pubs|
    ensures Abs(RemovePos(s, pos)) == Keeping((set p | p in Abs(s).pubs && p.sort != key), s.privs)
  {
    OnePlace(s, key, pos);
    OnlyThatPrivate(s, pos);
    var t := RemovePos(s, pos);
    assert t.pubs == WithoutPos(s.pubs, pos);
    SharedIsPriv(t.pubs);
    hide Find, Valid, RemovePos, WithoutPos, Shared, PrivsOf, Keeping;
    assert (set p | p in t.pubs) == (set p | p in Abs(s).pubs && p.sort != key);
    KeepingIs((set p | p in t.pubs), s.privs, t.privs);
  }

  lemma OnlyThatPrivate(s: Store, pos: nat)
    requires Valid(s) && pos < |s.pubs|
    ensures var t := RemovePos(s, pos);
            && (forall k :: k in t.privs <==> k in s.privs && k in PrivsOf(t.pubs))
            && forall k :: k in t.privs ==> t.privs[k] == s.privs[k]
  {
    RemovePosKeepsValid(s, pos);
    RemovePosShrinks(s, pos);
    hide RemovePos, PrivsOf, Sorted;
  }

  lemma SharedIsPriv(pubs: seq<Pub>)
    ensures forall k :: k in PrivsOf(pubs) <==> Shared((set p | p in pubs), k)
  {
  }

  lemma OtherVersions(s: Store, version: int)
    requires Valid(s)
    ensures var t := RemoveVersion(s, version);
            && (set p | p in t.pubs) == (set p | p in Abs(s).pubs && p.sort.priv.version != version)
            && (forall k :: k in t.privs <==> k in s.privs && k in PrivsOf(t.pubs))
            && forall k :: k in t.privs ==> t.privs[k] == s.privs[k]
  {
    NotOfVersionMembers(s.pubs, version);
    RemoveVersionKeepsValid(s, version);
    hide NotOfVersion, Sorted, PrivsOf;
  }

  lemma RemoveAllDoes(s: Store, version: int)
    requires Valid(s)
    ensures Abs(Apply(s, RemoveAll(version))) == Does(Abs(s), RemoveAll(version))
  {
    var t := RemoveVersion(s, version);
    OtherVersions(s, version);
    SharedIsPriv(t.pubs);
    hide RemoveVersion, Valid, PrivsOf, Shared, Keeping;
    KeepingIs((set p | p in t.pubs), s.privs, t.privs);
  }

  /** Each operation of the trees does what its description says. */
  lemma TreesDoExactly(s: Store, op: Op)
    requires Valid(s) && Admissible(op)
    ensures Valid(Apply(s, op)) && Abs(Apply(s, op)) == Does(Abs(s), op)
  {
    ApplyKeepsValid(s, op);
    match op
    case AddClear(sort, comment, secret) => AddDoes(s, sort, comment, Forms(Some(secret), None));
    case AddFile(sort, comment, file) => AddDoes(s, sort, comment, Forms(None, Some(file)));
    case Remove(key) => RemoveDoes(s, key);
    case RemoveAll(version) => RemoveAllDoes(s, version);
    case Reencrypt(key) => LockDoes(s, key);
    case ReencryptAll => LockAllDoes(s);
  }

  /** Locking some of the private halves. */
  lemma LockedForms(s: Store, ks: set<PrivSort>)
    requires Valid(s)
    ensures Reencrypted(s.privs, ks) == map k | k in s.privs :: if k in ks then Locked(s.privs[k]) else s.privs[k]
  {
    assert forall k :: k in s.privs ==> FormsOk(k, s.privs[k]);
    hide Valid;
  }

  lemma LockDoes(s: Store, key: PubSort)
    requires Valid(s)
    ensures Abs(Apply(s, Reencrypt(key))) == Does(Abs(s), Reencrypt(key))
  {
    HasIsFind(s, key);
    LockedForms(s, {key.priv});
    hide Find, Valid, Reencrypted, Has, Locked;
  }

  lemma LockAllDoes(s: Store)
    requires Valid(s)
    ensures Abs(Apply(s, ReencryptAll)) == Does(Abs(s), ReencryptAll)
  {
    LockedForms(s, PrivsOf(s.pubs));
    assert PrivsOf(s.pubs) == s.privs.Keys;
    hide Valid, Reencrypted, Locked, PrivsOf;
  }

  function DoesAll(r: Ring, ops: seq<Op>): Ring
    decreases ops
  {
    if ops == [] then r else DoesAll(Does(r, ops[0]), ops[1..])
  }

  /** And so over every history. */
  lemma {:induction false} EveryHistoryDoesExactly(s: Store, ops: seq<Op>)
    requires Valid(s) && forall op :: op in ops ==> Admissible(op)
    ensures Valid(ApplyAll(s, ops)) && Abs(ApplyAll(s, ops)) == DoesAll(Abs(s), ops)
    decreases ops
  {
    hide Valid, Apply, Does, Abs;
    if ops != [] {
      TreesDoExactly(s, ops[0]);
      EveryHistoryDoesExactly(Apply(s, ops[0]), ops[1..]);
    }
  }

  // ----- what a key list says -----

  /**
   * The two flags of a listed key say what can be done with it: one is set iff it cannot be used without a
   * passphrase, the other, of an SSH-2 key, iff it can be locked; and a listed key that cannot be used can be unlocked.
   */
  lemma ListTells(s: Store, p: Pub)
    requires Valid(s) && p in s.pubs && p.sort.priv in s.privs
    ensures var f := s.privs[p.sort.priv]; var e := EntryOf(p, f);
            && e.full == p.sort.full && e.comment == p.comment
            && (e.noClear <==> f.clear == None)
            && (e.hasFile <==> CanReencrypt(p.sort.priv, f))
            && (e.noClear ==> e.hasFile)
  {
  }
}
