/**
 * The two key trees of the agent. Public keys are kept sorted, so that all the
 * public keys sharing a private half are adjacent; a private entry lives exactly
 * as long as one of its public keys does.
 */
module KeyStore {
  import opened Bytes

  datatype PrivSort = PrivSort(version: int, base: Blob)

  datatype PubSort = PubSort(priv: PrivSort, full: Blob)

  datatype Pub = Pub(sort: PubSort, comment: string)

  datatype KeyFile = KeyFile(contents: Blob, comment: string)

  /** What is held of a private key: a usable copy, an encrypted file, or both. */
  datatype Forms = Forms(clear: Option<Blob>, file: Option<KeyFile>)

  datatype Store = Store(pubs: seq<Pub>, privs: map<PrivSort, Forms>)

  function PrivCmp(a: PrivSort, b: PrivSort): int {
    if a.version != b.version then (if a.version < b.version then -1 else 1)
    else StrCmp(a.base, b.base)
  }

  function PubCmp(a: PubSort, b: PubSort): int {
    var c := PrivCmp(a.priv, b.priv);
    if c != 0 then c else StrCmp(a.full, b.full)
  }

  lemma PubCmpZero(a: PubSort, b: PubSort)
    ensures PrivCmp(a.priv, b.priv) == 0 <==> a.priv == b.priv
    ensures PubCmp(a, b) == 0 <==> a == b
  {
    StrCmpZero(a.priv.base, b.priv.base);
    StrCmpZero(a.full, b.full);
  }

  lemma PubCmpFlip(a: PubSort, b: PubSort)
    ensures PubCmp(a, b) == -PubCmp(b, a)
  {
    StrCmpFlip(a.priv.base, b.priv.base);
    StrCmpFlip(a.full, b.full);
  }

  lemma PubCmpTrans(a: PubSort, b: PubSort, c: PubSort)
    requires PubCmp(a, b) <= 0 && PubCmp(b, c) <= 0
    ensures PubCmp(a, c) <= 0
    ensures PubCmp(a, b) < 0 || PubCmp(b, c) < 0 ==> PubCmp(a, c) < 0
  {
    if a.priv.version == b.priv.version == c.priv.version {
      StrCmpTrans(a.priv.base, b.priv.base, c.priv.base);
      StrCmpZero(a.priv.base, b.priv.base);
      StrCmpZero(b.priv.base, c.priv.base);
      if a.priv == b.priv == c.priv {
        StrCmpTrans(a.full, b.full, c.full);
      }
    }
  }

  ghost predicate Sorted(pubs: seq<Pub>) {
    forall i, j :: 0 <= i < j < |pubs| ==> PubCmp(pubs[i].sort, pubs[j].sort) < 0
  }

  function PrivsOf(pubs: seq<Pub>): set<PrivSort> {
    set p | p in pubs :: p.sort.priv
  }

  predicate FormsOk(k: PrivSort, f: Forms) {
    if k.version == 1 then f.clear.Some? && f.file.None?
    else k.version == 2 && (f.clear.Some? || f.file.Some?)
  }

  /** Both trees agree, the public one is ordered, and every private entry is usable. */
  ghost predicate Valid(s: Store) {
    && Sorted(s.pubs)
    && PrivsOf(s.pubs) == s.privs.Keys
    && forall k :: k in s.privs ==> FormsOk(k, s.privs[k])
  }

  const EMPTY := Store([], map[])

  /** findrelpos234 with REL234_GE: the first position not below the key. */
  function LowerBound(pubs: seq<Pub>, key: PubSort): (i: nat)
    ensures i <= |pubs|
    ensures forall j :: 0 <= j < i ==> PubCmp(pubs[j].sort, key) < 0
    ensures i < |pubs| ==> PubCmp(pubs[i].sort, key) >= 0
  {
    if pubs == [] || PubCmp(pubs[0].sort, key) >= 0 then 0
    else 1 + LowerBound(pubs[1..], key)
  }

  function FirstOfVersion(pubs: seq<Pub>, version: int): nat {
    LowerBound(pubs, PubSort(PrivSort(version, []), []))
  }

  function CountKeys(pubs: seq<Pub>, version: int): int {
    FirstOfVersion(pubs, version + 1) - FirstOfVersion(pubs, version)
  }

  function OfVersion(pubs: seq<Pub>, version: int): seq<Pub> {
    if pubs == [] then []
    else (if pubs[0].sort.priv.version == version then [pubs[0]] else []) + OfVersion(pubs[1..], version)
  }

  /** The bound for a version splits the sorted list at that version. */
  lemma FirstOfVersionSplits(pubs: seq<Pub>, version: int)
    requires Sorted(pubs)
    ensures forall j :: 0 <= j < FirstOfVersion(pubs, version) ==> pubs[j].sort.priv.version < version
    ensures forall j :: FirstOfVersion(pubs, version) <= j < |pubs| ==> pubs[j].sort.priv.version >= version
  {
    var key := PubSort(PrivSort(version, []), []);
    var k := FirstOfVersion(pubs, version);
    forall j | 0 <= j < |pubs|
      ensures j < k ==> pubs[j].sort.priv.version < version
      ensures j >= k ==> pubs[j].sort.priv.version >= version
    {
      if j > k {
        PubCmpFlip(key, pubs[k].sort);
        PubCmpTrans(key, pubs[k].sort, pubs[j].sort);
        PubCmpFlip(key, pubs[j].sort);
      }
    }
  }

  /** Where the public key is, if the tree has it (find234). */
  function Find(pubs: seq<Pub>, key: PubSort): Option<nat> {
    var i := LowerBound(pubs, key);
    if i < |pubs| && pubs[i].sort == key then Some(i) else None
  }

  lemma FindFinds(pubs: seq<Pub>, key: PubSort)
    requires Sorted(pubs)
    ensures Find(pubs, key).Some? <==> exists p :: p in pubs && p.sort == key
    ensures forall i: nat :: Find(pubs, key) == Some(i) <==> i < |pubs| && pubs[i].sort == key
  {
    hide PubCmp, PrivCmp, StrCmp;
    var i := LowerBound(pubs, key);
    assert PubCmp(key, key) == 0 by { PubCmpZero(key, key); }
    forall m, n | 0 <= m < n < |pubs| ensures !(pubs[m].sort == key == pubs[n].sort) {
      assert PubCmp(pubs[m].sort, pubs[n].sort) < 0;
    }
    forall j | 0 <= j < |pubs| && pubs[j].sort == key
      ensures Find(pubs, key).Some?
    {
      PubCmpZero(key, key);
      PubCmpFlip(key, pubs[i].sort);
      PubCmpZero(pubs[i].sort, key);
    }
  }

  /** add234 on the public tree: nothing changes if the key is already there. */
  function InsertPub(pubs: seq<Pub>, p: Pub): seq<Pub> {
    if Find(pubs, p.sort).Some? then pubs
    else var i := LowerBound(pubs, p.sort); pubs[..i] + [p] + pubs[i..]
  }

  lemma InsertMembers(pubs: seq<Pub>, i: nat, p: Pub)
    requires i <= |pubs|
    ensures forall q :: q in pubs[..i] + [p] + pubs[i..] <==> q in pubs || q == p
  {
    assert pubs == pubs[..i] + pubs[i..];
  }

  lemma InsertAtBoundSorted(pubs: seq<Pub>, p: Pub)
    requires Sorted(pubs) && Find(pubs, p.sort).None?
    ensures var i := LowerBound(pubs, p.sort); Sorted(pubs[..i] + [p] + pubs[i..])
  {
    hide PubCmp, PrivCmp, StrCmp;
    var i := LowerBound(pubs, p.sort);
    forall j | i <= j < |pubs|
      ensures PubCmp(p.sort, pubs[j].sort) < 0
    {
      PubCmpFlip(p.sort, pubs[i].sort);
      PubCmpZero(pubs[i].sort, p.sort);
      if j > i {
        PubCmpTrans(p.sort, pubs[i].sort, pubs[j].sort);
      }
    }
  }

  lemma InsertPubSorted(pubs: seq<Pub>, p: Pub)
    requires Sorted(pubs)
    ensures Sorted(InsertPub(pubs, p))
    ensures PrivsOf(InsertPub(pubs, p)) == PrivsOf(pubs) + {p.sort.priv}
  {
    hide PubCmp, PrivCmp, StrCmp, Sorted;
    var i := LowerBound(pubs, p.sort);
    if Find(pubs, p.sort).Some? {
      assert pubs[i] in pubs;
    } else {
      InsertAtBoundSorted(pubs, p);
      InsertMembers(pubs, i, p);
    }
  }

  /** Only missing forms are taken from the newcomer, and only for SSH-2 keys. */
  function Merge(version: int, old_: Forms, new_: Forms): Forms {
    if version == 2 then
      Forms(if old_.clear.None? then new_.clear else old_.clear,
            if old_.file.None? then new_.file else old_.file)
    else old_
  }

  function AddKey(s: Store, p: Pub, f: Forms): Store {
    var k := p.sort.priv;
    Store(InsertPub(s.pubs, p),
          s.privs[k := if k in s.privs then Merge(k.version, s.privs[k], f) else f])
  }

  /** Adding keeps the trees in step and holds the union of the forms known before and now. */
  lemma AddKeyKeepsValid(s: Store, p: Pub, f: Forms)
    requires Valid(s) && FormsOk(p.sort.priv, f)
    ensures Valid(AddKey(s, p, f))
    ensures Find(s.pubs, p.sort).Some? ==> AddKey(s, p, f).pubs == s.pubs
    ensures var k := p.sort.priv; var was := if k in s.privs then s.privs[k] else Forms(None, None);
            var now := AddKey(s, p, f).privs[k];
            && (now.clear.Some? <==> was.clear.Some? || f.clear.Some?)
            && (now.file.Some? <==> was.file.Some? || f.file.Some?)
            && (was.clear.Some? ==> now.clear == was.clear)
            && (was.file.Some? ==> now.file == was.file)
  {
    hide PubCmp, PrivCmp, StrCmp, LowerBound, Sorted;
    InsertPubSorted(s.pubs, p);
  }

  function WithoutPos(pubs: seq<Pub>, pos: nat): seq<Pub>
    requires pos < |pubs|
  {
    pubs[..pos] + pubs[pos + 1..]
  }

  /** Deleting a public key takes its private half with it when no other key shares it. */
  function RemovePos(s: Store, pos: nat): Store
    requires pos < |s.pubs|
  {
    var k := s.pubs[pos].sort.priv;
    var rest := WithoutPos(s.pubs, pos);
    Store(rest, if k in PrivsOf(rest) then s.privs else s.privs - {k})
  }

  /** What deleting the last of these keys frees: its private half, if no other uses it and it is held no more. */
  function FreedLast(pubs: seq<Pub>, held: map<PrivSort, Forms>): seq<PrivSort>
    requires pubs != []
  {
    var rest, k := pubs[..|pubs| - 1], pubs[|pubs| - 1].sort.priv;
    if k in PrivsOf(rest) || k in held then [] else [k]
  }

  /**
   * The private halves of these keys that are no longer held, in the order in which deleting the
   * keys from the last one back frees them: each with the first key of its family.
   */
  function Freed(pubs: seq<Pub>, held: map<PrivSort, Forms>): seq<PrivSort> {
    if pubs == [] then [] else FreedLast(pubs, held) + Freed(pubs[..|pubs| - 1], held)
  }

  lemma {:induction false} FreedIs(pubs: seq<Pub>, held: map<PrivSort, Forms>)
    ensures forall k :: k in Freed(pubs, held) <==> k in PrivsOf(pubs) && k !in held
    ensures NoRepeat(Freed(pubs, held))
  {
    hide NoRepeat;
    if pubs == [] {
      assert NoRepeat<PrivSort>([]) by { NoneRepeats(); }
    } else {
      var rest, last := pubs[..|pubs| - 1], pubs[|pubs| - 1];
      var k, r := last.sort.priv, Freed(rest, held);
      FreedIs(rest, held);
      assert pubs == rest + [last];
      assert PrivsOf(pubs) == PrivsOf(rest) + {k};
      if k in PrivsOf(rest) || k in held {
        assert Freed(pubs, held) == r;
      } else {
        NoRepeatCons(k, r);
      }
    }
  }

  lemma NoneRepeats()
    ensures NoRepeat<PrivSort>([])
  {
  }

  /** When deleting has come back to key n, freeing its private half is next. */
  lemma {:induction false} FreedNext(pubs: seq<Pub>, n: nat, held: map<PrivSort, Forms>)
    requires n < |pubs| && PrivsOf(pubs[..n + 1]) <= held.Keys
    ensures var k := pubs[n].sort.priv;
            k !in PrivsOf(pubs[..n]) ==> Freed(pubs, held - {k}) == Freed(pubs, held) + [k]
    decreases |pubs|
  {
    var k := pubs[n].sort.priv;
    var rest, last := pubs[..|pubs| - 1], pubs[|pubs| - 1];
    assert pubs == rest + [last];
    if n + 1 < |pubs| {
      assert rest[..n + 1] == pubs[..n + 1] && rest[..n] == pubs[..n] && rest[n] == pubs[n];
      PrivHeld(rest, n);
      hide PrivsOf, Freed;
      FreedNext(rest, n, held);
      assert FreedLast(pubs, held - {k}) == FreedLast(pubs, held);
    } else if k !in PrivsOf(rest) {
      assert pubs[..n + 1] == pubs && pubs[..n] == rest;
      MorePrivs(rest, last);
      hide PrivsOf, Freed;
      FreedNothing(rest, held);
      FreedNothing(rest, held - {k});
    } else {
      assert pubs[..n] == rest;
    }
  }

  lemma MorePrivs(pubs: seq<Pub>, p: Pub)
    ensures PrivsOf(pubs + [p]) == PrivsOf(pubs) + {p.sort.priv}
  {
  }

  lemma {:induction false} FreedNothing(pubs: seq<Pub>, held: map<PrivSort, Forms>)
    requires PrivsOf(pubs) <= held.Keys
    ensures Freed(pubs, held) == []
  {
    if pubs != [] {
      var rest, last := pubs[..|pubs| - 1], pubs[|pubs| - 1];
      assert pubs == rest + [last];
      assert PrivsOf(pubs) == PrivsOf(rest) + {last.sort.priv};
      FreedNothing(rest, held);
    }
  }

  lemma WithoutPosMembers(pubs: seq<Pub>, pos: nat)
    requires pos < |pubs|
    ensures forall q :: q in pubs <==> q in WithoutPos(pubs, pos) || q == pubs[pos]
    ensures forall q :: q in WithoutPos(pubs, pos) <==> exists j :: 0 <= j < |pubs| && j != pos && pubs[j] == q
  {
    var r := WithoutPos(pubs, pos);
    forall j | 0 <= j < |pubs| && j != pos ensures pubs[j] in r {
      assert pubs[j] == r[if j < pos then j else j - 1];
    }
    forall i | 0 <= i < |r| ensures exists j :: 0 <= j < |pubs| && j != pos && pubs[j] == r[i] {
      assert pubs[if i < pos then i else i + 1] == r[i];
    }
  }

  lemma WithoutPosSorted(pubs: seq<Pub>, pos: nat)
    requires pos < |pubs| && Sorted(pubs)
    ensures Sorted(WithoutPos(pubs, pos))
  {
    hide PubCmp, PrivCmp, StrCmp;
  }

  lemma RemovePosKeepsValid(s: Store, pos: nat)
    requires Valid(s) && pos < |s.pubs|
    ensures Valid(RemovePos(s, pos))
    ensures var k := s.pubs[pos].sort.priv;
            k in RemovePos(s, pos).privs <==> exists j :: 0 <= j < |s.pubs| && j != pos && s.pubs[j].sort.priv == k
  {
    hide PubCmp, PrivCmp, StrCmp, Sorted;
    WithoutPosSorted(s.pubs, pos);
    WithoutPosMembers(s.pubs, pos);
    var k := s.pubs[pos].sort.priv;
    var r := WithoutPos(s.pubs, pos);
    assert PrivsOf(s.pubs) == PrivsOf(r) + {k};
    assert k in PrivsOf(r) <==> exists p :: p in r && p.sort.priv == k;
  }

  /**
   * The test the agent makes after a deletion: the smallest remaining key at or above
   * (private half, "") shares the private half iff any remaining key does.
   */
  lemma NeighbourTest(pubs: seq<Pub>, k: PrivSort)
    requires Sorted(pubs)
    ensures var i := LowerBound(pubs, PubSort(k, []));
            k in PrivsOf(pubs) <==> i < |pubs| && PrivCmp(k, pubs[i].sort.priv) == 0
  {
    var key := PubSort(k, []);
    var i := LowerBound(pubs, key);
    if i < |pubs| {
      PubCmpZero(key, pubs[i].sort);
      assert pubs[i] in pubs;
    }
    forall j | 0 <= j < |pubs| && pubs[j].sort.priv == k
      ensures i < |pubs| && pubs[i].sort.priv == k
    {
      PubCmpZero(key, pubs[j].sort);
      assert PubCmp(key, pubs[j].sort) <= 0;
      PubCmpFlip(key, pubs[j].sort);
      assert i <= j;
      if i < j {
        PubCmpFlip(key, pubs[i].sort);
        Sandwich(key, pubs[i].sort, pubs[j].sort);
      }
    }
  }

  /** Whatever sorts between two keys with one private half has that private half too. */
  lemma Sandwich(a: PubSort, b: PubSort, c: PubSort)
    requires PubCmp(a, b) <= 0 && PubCmp(b, c) <= 0 && a.priv == c.priv
    ensures b.priv == a.priv
  {
    StrCmpTrans(a.priv.base, b.priv.base, c.priv.base);
    StrCmpZero(a.priv.base, b.priv.base);
    StrCmpZero(a.priv.base, c.priv.base);
    StrCmpFlip(b.priv.base, c.priv.base);
  }

  function NotOfVersion(pubs: seq<Pub>, version: int): seq<Pub> {
    if pubs == [] then []
    else (if pubs[0].sort.priv.version == version then [] else [pubs[0]]) + NotOfVersion(pubs[1..], version)
  }

  /** Removing all keys of one version leaves the other version's entries as they were. */
  function RemoveVersion(s: Store, version: int): Store {
    Store(NotOfVersion(s.pubs, version), map k | k in s.privs && k.version != version :: s.privs[k])
  }

  /** In a list split by version at a and b, filtering by version is slicing. */
  lemma {:induction false} FilterIsSlice(pubs: seq<Pub>, version: int, a: nat, b: nat)
    requires a <= b <= |pubs|
    requires forall j :: 0 <= j < |pubs| ==> (a <= j < b <==> pubs[j].sort.priv.version == version)
    ensures NotOfVersion(pubs, version) == pubs[..a] + pubs[b..]
    ensures OfVersion(pubs, version) == pubs[a..b]
  {
    hide OfVersion, NotOfVersion;
    if pubs == [] {
      NothingToFilter(version);
    } else {
      var rest := pubs[1..];
      FilterStep(pubs, version);
      if a > 0 {
        FilterIsSlice(rest, version, a - 1, b - 1);
        SlicesBehind(pubs, a, b);
      } else if b > 0 {
        FilterIsSlice(rest, version, 0, b - 1);
        SlicesFrom(pubs, b);
      } else {
        FilterIsSlice(rest, version, 0, 0);
        SlicesNone(pubs);
      }
    }
  }

  lemma SlicesBehind<T>(s: seq<T>, a: nat, b: nat)
    requires 0 < a <= b <= |s|
    ensures [s[0]] + (s[1..][..a - 1] + s[1..][b - 1..]) == s[..a] + s[b..] && s[1..][a - 1..b - 1] == s[a..b]
  {
  }

  lemma SlicesNone<T>(s: seq<T>)
    requires s != []
    ensures [s[0]] + (s[1..][..0] + s[1..][0..]) == s[..0] + s[0..] && s[1..][0..0] == s[0..0]
  {
  }

  lemma SlicesFrom<T>(s: seq<T>, b: nat)
    requires 0 < b <= |s|
    ensures s[1..][..0] + s[1..][b - 1..] == s[..0] + s[b..] && [s[0]] + s[1..][0..b - 1] == s[0..b]
  {
  }

  lemma NothingToFilter(version: int)
    ensures OfVersion([], version) == [] && NotOfVersion([], version) == []
  {
  }

  lemma FilterStep(pubs: seq<Pub>, version: int)
    requires pubs != []
    ensures var v := pubs[0].sort.priv.version == version;
            && OfVersion(pubs, version) == (if v then [pubs[0]] else []) + OfVersion(pubs[1..], version)
            && NotOfVersion(pubs, version) == (if v then [] else [pubs[0]]) + NotOfVersion(pubs[1..], version)
  {
  }

  lemma NotOfVersionIs(pubs: seq<Pub>, version: int)
    requires Sorted(pubs)
    ensures var a, b := FirstOfVersion(pubs, version), FirstOfVersion(pubs, version + 1);
            a <= b && NotOfVersion(pubs, version) == pubs[..a] + pubs[b..] && OfVersion(pubs, version) == pubs[a..b]
  {
    hide PubCmp, PrivCmp, StrCmp;
    FirstOfVersionSplits(pubs, version);
    FirstOfVersionSplits(pubs, version + 1);
    var a, b := FirstOfVersion(pubs, version), FirstOfVersion(pubs, version + 1);
    if b < a {
      assert false;
    }
    FilterIsSlice(pubs, version, a, b);
  }

  lemma {:induction false} NotOfVersionMembers(pubs: seq<Pub>, version: int)
    ensures forall p :: p in NotOfVersion(pubs, version) <==> p in pubs && p.sort.priv.version != version
  {
    if pubs != [] {
      NotOfVersionMembers(pubs[1..], version);
      assert pubs == [pubs[0]] + pubs[1..];
    }
  }

  lemma RemoveVersionKeepsValid(s: Store, version: int)
    requires Valid(s)
    ensures Valid(RemoveVersion(s, version))
  {
    hide PubCmp, PrivCmp, StrCmp, NotOfVersion, PrivsOf, Sorted;
    var r := RemoveVersion(s, version);
    assert r.pubs == NotOfVersion(s.pubs, version);
    NotOfVersionSorted(s.pubs, version);
    NotOfVersionPrivs(s.pubs, version);
    assert forall k :: k in r.privs <==> k in PrivsOf(s.pubs) && k.version != version;
  }

  lemma NotOfVersionSorted(pubs: seq<Pub>, version: int)
    requires Sorted(pubs)
    ensures Sorted(NotOfVersion(pubs, version))
  {
    hide PubCmp, PrivCmp, StrCmp, NotOfVersion, LowerBound, Sorted;
    NotOfVersionIs(pubs, version);
    SplicedSorted(pubs, FirstOfVersion(pubs, version), FirstOfVersion(pubs, version + 1));
  }

  lemma SplicedSorted(pubs: seq<Pub>, a: nat, b: nat)
    requires Sorted(pubs) && a <= b <= |pubs|
    ensures Sorted(pubs[..a] + pubs[b..])
  {
    hide PubCmp, PrivCmp, StrCmp;
  }

  lemma NotOfVersionPrivs(pubs: seq<Pub>, version: int)
    ensures forall k :: k in PrivsOf(NotOfVersion(pubs, version)) <==> k in PrivsOf(pubs) && k.version != version
  {
    hide NotOfVersion;
    NotOfVersionMembers(pubs, version);
  }

  /** The number announced in a key list is the number of keys of that version. */
  lemma CountIsExact(pubs: seq<Pub>, version: int)
    requires Sorted(pubs)
    ensures CountKeys(pubs, version) == |OfVersion(pubs, version)|
  {
    NotOfVersionIs(pubs, version);
  }

  // ----- re-encryption -----

  predicate CanReencrypt(k: PrivSort, f: Forms) {
    k.version == 2 && f.file.Some?
  }

  /** Dropping the usable copy of every listed key that also has an encrypted file. */
  function Reencrypted(privs: map<PrivSort, Forms>, ks: set<PrivSort>): map<PrivSort, Forms> {
    map k | k in privs :: if k in ks && CanReencrypt(k, privs[k]) then privs[k].(clear := None) else privs[k]
  }

  lemma ReencryptedKeys(privs: map<PrivSort, Forms>, ks: set<PrivSort>)
    ensures Reencrypted(privs, ks).Keys == privs.Keys
  {
  }

  function CountRefused(pubs: seq<Pub>, privs: map<PrivSort, Forms>): nat
    requires PrivsOf(pubs) <= privs.Keys
  {
    if pubs == [] then 0
    else
      assert pubs[|pubs| - 1] in pubs && forall p :: p in pubs[..|pubs| - 1] ==> p in pubs;
      var k := pubs[|pubs| - 1].sort.priv;
      (if CanReencrypt(k, privs[k]) then 0 else 1) + CountRefused(pubs[..|pubs| - 1], privs)
  }

  /** How many public keys have a private half that can be used without a passphrase. */
  function CountInClear(pubs: seq<Pub>, privs: map<PrivSort, Forms>): nat
    requires PrivsOf(pubs) <= privs.Keys
  {
    if pubs == [] then 0
    else
      assert pubs[|pubs| - 1] in pubs && forall p :: p in pubs[..|pubs| - 1] ==> p in pubs;
      (if privs[pubs[|pubs| - 1].sort.priv].clear.Some? then 1 else 0) + CountInClear(pubs[..|pubs| - 1], privs)
  }

  lemma {:induction false} RefusedAreInClear(pubs: seq<Pub>, privs: map<PrivSort, Forms>, ks: set<PrivSort>)
    requires PrivsOf(pubs) <= privs.Keys && PrivsOf(pubs) <= ks
    requires forall k :: k in privs ==> FormsOk(k, privs[k])
    ensures CountRefused(pubs, privs) == CountInClear(pubs, Reencrypted(privs, ks)) <= |pubs|
  {
    if pubs != [] {
      assert pubs[|pubs| - 1] in pubs && forall p :: p in pubs[..|pubs| - 1] ==> p in pubs;
      RefusedAreInClear(pubs[..|pubs| - 1], privs, ks);
    }
  }

  lemma {:induction false} AllRefusedChangesNothing(pubs: seq<Pub>, privs: map<PrivSort, Forms>)
    requires PrivsOf(pubs) <= privs.Keys && CountRefused(pubs, privs) == |pubs|
    requires forall k :: k in privs ==> FormsOk(k, privs[k])
    ensures Reencrypted(privs, PrivsOf(pubs)) == privs
  {
    if pubs != [] {
      var rest := pubs[..|pubs| - 1];
      assert pubs[|pubs| - 1] in pubs && forall p :: p in rest ==> p in pubs;
      RefusedAreInClear(rest, privs, privs.Keys);
      AllRefusedChangesNothing(rest, privs);
      assert pubs == rest + [pubs[|pubs| - 1]];
      assert Reencrypted(privs, PrivsOf(rest)) == privs;
    }
  }

  // ----- runs -----

  datatype Op =
    | AddClear(sort: PubSort, comment: string, secret: Blob)
    | AddFile(sort: PubSort, comment: string, file: KeyFile)
    | Remove(key: PubSort)
    | RemoveAll(version: int)
    | Reencrypt(key: PubSort)
    | ReencryptAll

  /** What the callers of the two add routines guarantee about the SSH version. */
  predicate Admissible(op: Op) {
    match op
    case AddClear(sort, _, _) => sort.priv.version == 1 || sort.priv.version == 2
    case AddFile(sort, _, _) => sort.priv.version == 2
    case _ => true
  }

  function Apply(s: Store, op: Op): Store {
    match op
    case AddClear(sort, comment, secret) => AddKey(s, Pub(sort, comment), Forms(Some(secret), None))
    case AddFile(sort, comment, file) => AddKey(s, Pub(sort, comment), Forms(None, Some(file)))
    case Remove(key) => (match Find(s.pubs, key) case Some(i) => RemovePos(s, i) case None => s)
    case RemoveAll(version) => RemoveVersion(s, version)
    case Reencrypt(key) =>
      if Find(s.pubs, key).Some? then s.(privs := Reencrypted(s.privs, {key.priv})) else s
    case ReencryptAll => s.(privs := Reencrypted(s.privs, PrivsOf(s.pubs)))
  }

  lemma ApplyKeepsValid(s: Store, op: Op)
    requires Valid(s) && Admissible(op)
    ensures Valid(Apply(s, op))
  {
    hide PubCmp, PrivCmp, StrCmp, Sorted, RemovePos, AddKey, RemoveVersion, PrivsOf;
    match op
    case AddClear(sort, comment, secret) => AddKeyKeepsValid(s, Pub(sort, comment), Forms(Some(secret), None));
    case AddFile(sort, comment, file) => AddKeyKeepsValid(s, Pub(sort, comment), Forms(None, Some(file)));
    case Remove(key) =>
      if Find(s.pubs, key).Some? {
        RemovePosKeepsValid(s, Find(s.pubs, key).value);
      }
    case RemoveAll(version) => RemoveVersionKeepsValid(s, version);
    case Reencrypt(key) =>
      assert Reencrypted(s.privs, {key.priv}).Keys == s.privs.Keys;
    case ReencryptAll =>
      assert Reencrypted(s.privs, PrivsOf(s.pubs)).Keys == s.privs.Keys;
  }

  function ApplyAll(s: Store, ops: seq<Op>): Store
    decreases ops
  {
    if ops == [] then s else ApplyAll(Apply(s, ops[0]), ops[1..])
  }

  /** After any history the trees agree and every private entry is usable in some form. */
  lemma {:induction false} EveryHistoryKeepsValid(s: Store, ops: seq<Op>)
    requires Valid(s) && forall op :: op in ops ==> Admissible(op)
    ensures Valid(ApplyAll(s, ops))
    decreases ops
  {
    if ops != [] {
      ApplyKeepsValid(s, ops[0]);
      EveryHistoryKeepsValid(Apply(s, ops[0]), ops[1..]);
    }
  }

  // ----- the agent's own routines -----

  datatype Entry = Entry(full: Blob, comment: string, noClear: bool, hasFile: bool)

  function EntryOf(p: Pub, f: Forms): Entry {
    Entry(p.sort.full, p.comment, f.clear.None?, f.file.Some?)
  }

  class Trees {
    var pubs: seq<Pub>
    var privs: map<PrivSort, Forms>

    ghost function View(): Store
      reads this
    {
      Store(pubs, privs)
    }

    constructor ()
      ensures View() == EMPTY && Valid(View())
    {
      pubs := [];
      privs := map[];
    }

    /** pageant_add_key_common: true iff the public key is new. */
    method AddKeyCommon(p: Pub, f: Forms) returns (added: bool)
      requires Valid(View()) && FormsOk(p.sort.priv, f)
      modifies this
      ensures View() == AddKey(old(View()), p, f) && Valid(View())
      ensures added <==> Find(old(pubs), p.sort).None?
    {
      AddKeyKeepsValid(View(), p, f);
      var k := p.sort.priv;
      if k !in privs {
        privs := privs[k := f];
      } else {
        var inTree := privs[k];
        if k.version == 2 && f.clear.Some? && inTree.clear.None? {
          inTree := inTree.(clear := f.clear);
        }
        if k.version == 2 && f.file.Some? && inTree.file.None? {
          inTree := inTree.(file := f.file);
        }
        privs := privs[k := inTree];
      }
      var i := LowerBound(pubs, p.sort);
      added := !(i < |pubs| && pubs[i].sort == p.sort);
      if added {
        pubs := pubs[..i] + [p] + pubs[i..];
      }
    }

    /** remove_pubkey_cleanup, after the public key has left its tree. */
    method RemovePubkeyCleanup(pub: Pub)
      requires Sorted(pubs) && pub.sort.priv in privs
      modifies this`privs
      ensures privs == if pub.sort.priv in PrivsOf(pubs) then old(privs) else old(privs) - {pub.sort.priv}
    {
      NeighbourTest(pubs, pub.sort.priv);
      var i := LowerBound(pubs, PubSort(pub.sort.priv, []));
      if i < |pubs| && PrivCmp(pub.sort.priv, pubs[i].sort.priv) == 0 {
        // another public key still uses this private half
      } else {
        privs := privs - {pub.sort.priv};
      }
    }

    method DelPubkeyPos(pos: nat) returns (deleted: Pub)
      requires Valid(View()) && pos < |pubs|
      modifies this
      ensures deleted == old(pubs)[pos]
      ensures View() == RemovePos(old(View()), pos) && Valid(View())
    {
      RemovePosKeepsValid(View(), pos);
      WithoutPosSorted(pubs, pos);
      deleted := pubs[pos];
      assert deleted in pubs;
      pubs := pubs[..pos] + pubs[pos + 1..];
      RemovePubkeyCleanup(deleted);
    }

    /** remove_all_keys: deletes from the last key of the version back to its first. */
    method RemoveAllKeys(version: int)
      requires Valid(View())
      modifies this
      ensures View() == RemoveVersion(old(View()), version) && Valid(View())
    {
      hide PubCmp, PrivCmp, StrCmp, Sorted, PrivsOf, NotOfVersion, OfVersion, FirstOfVersion, LowerBound, RemoveVersion;
      ghost var was := View();
      VersionRange(was.pubs, version);
      var start := FirstOfVersion(pubs, version);
      var end := FirstOfVersion(pubs, version + 1);
      ghost var stop := end;
      while end > start
        invariant start <= end <= stop <= |was.pubs|
        invariant Valid(View())
        invariant pubs == was.pubs[..end] + was.pubs[stop..]
        invariant forall k :: k in privs ==> k in was.privs && privs[k] == was.privs[k]
      {
        end := end - 1;
        assert pubs[end] == was.pubs[end];
        ghost var before := View();
        var pub := DelPubkeyPos(end);
        RemovePosShrinks(before, end);
        assert pub.sort.priv.version == version;
        assert pubs == was.pubs[..end] + was.pubs[stop..];
      }
      EndOfRemoval(was, View(), version);
    }

    /** list_keys: the announced count is the number of entries written. */
    method ListKeys(version: int) returns (count: int, entries: seq<Entry>)
      requires Valid(View())
      ensures count == |entries| == |OfVersion(pubs, version)|
      ensures forall j :: 0 <= j < |entries| ==>
        && OfVersion(pubs, version)[j].sort.priv in privs
        && entries[j] == EntryOf(OfVersion(pubs, version)[j], privs[OfVersion(pubs, version)[j].sort.priv])
    {
      hide PubCmp, PrivCmp, StrCmp, Sorted, OfVersion, NotOfVersion, FirstOfVersion, LowerBound;
      VersionRange(pubs, version);
      count := CountKeys(pubs, version);
      ghost var start := FirstOfVersion(pubs, version);
      ghost var end := FirstOfVersion(pubs, version + 1);
      var i := FirstOfVersion(pubs, version);
      entries := [];
      while i < |pubs|
        invariant start <= i <= end && |entries| == i - start
        invariant forall j :: 0 <= j < |entries| ==>
          pubs[start + j].sort.priv in privs && entries[j] == EntryOf(pubs[start + j], privs[pubs[start + j].sort.priv])
      {
        if pubs[i].sort.priv.version != version {
          break;
        }
        assert pubs[i] in pubs;
        entries := entries + [EntryOf(pubs[i], privs[pubs[i].sort.priv])];
        i := i + 1;
      }
    }

    method ReencryptKey(pos: nat) returns (ok: bool)
      requires Valid(View()) && pos < |pubs|
      modifies this`privs
      ensures var k := pubs[pos].sort.priv;
              k in old(privs) && ok == CanReencrypt(k, old(privs)[k]) && privs == Reencrypted(old(privs), {k})
    {
      assert pubs[pos] in pubs;
      var k := pubs[pos].sort.priv;
      var priv := privs[k];
      if k.version != 2 {
        return false;
      }
      if priv.file.None? {
        return false;
      }
      if priv.clear.Some? {
        privs := privs[k := priv.(clear := None)];
      }
      return true;
    }

    /**
     * The re-encrypt-all request: None stands for the failure reply, and a success
     * carries the number of keys that could not be re-encrypted.
     */
    method ReencryptAllKeys() returns (reply: Option<nat>)
      requires Valid(View())
      modifies this`privs
      ensures Valid(View()) && privs == Reencrypted(old(privs), PrivsOf(pubs))
      ensures reply.None? ==> pubs != [] && privs == old(privs)
      ensures reply.Some? ==> reply.value == CountInClear(pubs, privs)
      ensures reply.None? <==> pubs != [] && CountRefused(pubs, old(privs)) == |pubs|
    {
      hide PubCmp, PrivCmp, StrCmp, Sorted, CountRefused, CountInClear, Reencrypted, PrivsOf, CanReencrypt, FormsOk;
      ghost var was := privs;
      NothingReencrypted(pubs, privs);
      var failures, successes, i := 0, 0, 0;
      while i < |pubs|
        invariant 0 <= i <= |pubs|
        invariant PrivsOf(pubs[..i]) <= was.Keys
        invariant failures == CountRefused(pubs[..i], was) && failures + successes == i
        invariant privs == Reencrypted(was, PrivsOf(pubs[..i]))
        invariant Valid(View())
      {
        ReencryptStep(View(), i, was);
        var ok := ReencryptKey(i);
        if ok {
          successes := successes + 1;
        } else {
          failures := failures + 1;
        }
        i := i + 1;
      }
      assert pubs[..|pubs|] == pubs;
      RefusedAreInClear(pubs, was, PrivsOf(pubs));
      if successes == 0 && failures > 0 {
        AllRefusedChangesNothing(pubs, was);
        return None;
      }
      return Some(failures);
    }
  }

  lemma NothingReencrypted(pubs: seq<Pub>, privs: map<PrivSort, Forms>)
    ensures PrivsOf(pubs[..0]) == {} && CountRefused(pubs[..0], privs) == 0
    ensures Reencrypted(privs, {}) == privs
  {
  }

  /** One step of re-encrypting everything; the trees stay valid throughout. */
  lemma ReencryptStep(s: Store, i: nat, was: map<PrivSort, Forms>)
    requires Valid(s) && i < |s.pubs| && PrivsOf(s.pubs[..i]) <= was.Keys
    requires s.privs == Reencrypted(was, PrivsOf(s.pubs[..i]))
    ensures var k := s.pubs[i].sort.priv;
            && k in was && k in s.privs
            && PrivsOf(s.pubs[..i + 1]) <= was.Keys
            && CountRefused(s.pubs[..i + 1], was)
               == CountRefused(s.pubs[..i], was) + (if CanReencrypt(k, s.privs[k]) then 0 else 1)
            && Reencrypted(s.privs, {k}) == Reencrypted(was, PrivsOf(s.pubs[..i + 1]))
            && Valid(s.(privs := Reencrypted(s.privs, {k})))
  {
    hide Sorted, PubCmp, PrivCmp, StrCmp, CountRefused, PrivsOf;
    var k := s.pubs[i].sort.priv;
    PrivHeld(s.pubs, i);
    OneMorePub(s.pubs, i, was);
    ReencryptedTwice(was, PrivsOf(s.pubs[..i]), k);
    assert Reencrypted(s.privs, {k}).Keys == s.privs.Keys;
  }

  lemma PrivHeld(pubs: seq<Pub>, i: nat)
    requires i < |pubs|
    ensures pubs[i].sort.priv in PrivsOf(pubs)
  {
    assert pubs[i] in pubs;
  }

  lemma OneMorePub(pubs: seq<Pub>, i: nat, was: map<PrivSort, Forms>)
    requires i < |pubs| && PrivsOf(pubs[..i]) <= was.Keys && pubs[i].sort.priv in was
    ensures var k := pubs[i].sort.priv;
            && PrivsOf(pubs[..i + 1]) == PrivsOf(pubs[..i]) + {k} && PrivsOf(pubs[..i + 1]) <= was.Keys
            && CountRefused(pubs[..i + 1], was) == CountRefused(pubs[..i], was)
               + (if CanReencrypt(k, was[k]) then 0 else 1)
  {
    assert pubs[..i + 1] == pubs[..i] + [pubs[i]];
    assert pubs[..i + 1][..i] == pubs[..i];
    assert PrivsOf(pubs[..i + 1]) == PrivsOf(pubs[..i]) + {pubs[i].sort.priv};
  }

  lemma ReencryptedTwice(privs: map<PrivSort, Forms>, ks: set<PrivSort>, k: PrivSort)
    ensures Reencrypted(Reencrypted(privs, ks), {k}) == Reencrypted(privs, ks + {k})
  {
  }

  lemma VersionRange(pubs: seq<Pub>, version: int)
    requires Sorted(pubs)
    ensures var a, b := FirstOfVersion(pubs, version), FirstOfVersion(pubs, version + 1);
            && a <= b <= |pubs|
            && NotOfVersion(pubs, version) == pubs[..a] + pubs[b..]
            && OfVersion(pubs, version) == pubs[a..b]
            && forall j :: a <= j < |pubs| ==> (j < b <==> pubs[j].sort.priv.version == version)
  {
    NotOfVersionIs(pubs, version);
    FirstOfVersionSplits(pubs, version);
    FirstOfVersionSplits(pubs, version + 1);
  }

  // ----- what deletions free -----

  lemma ValidHolds(s: Store)
    requires Valid(s)
    ensures PrivsOf(s.pubs) <= s.privs.Keys
  {
  }

  /** Only deletions take private keys away. */
  lemma KeepsPrivates(s: Store, op: Op)
    requires Valid(s) && !op.Remove? && !op.RemoveAll?
    ensures PrivsOf(s.pubs) <= Apply(s, op).privs.Keys
  {
    hide Sorted, InsertPub, Find;
  }

  lemma FreedByOne(s: Store, pos: nat)
    requires Valid(s) && pos < |s.pubs|
    ensures var k, r := s.pubs[pos].sort.priv, RemovePos(s, pos);
            Freed(s.pubs, r.privs) == if k in r.privs then [] else [k]
  {
    hide Sorted, PubCmp, PrivCmp, StrCmp, Freed;
    var k, r := s.pubs[pos].sort.priv, RemovePos(s, pos);
    FreedIs(s.pubs, r.privs);
    assert s.pubs[pos] in s.pubs;
    assert forall j :: j in Freed(s.pubs, r.privs) <==> j == k && k !in r.privs;
    OneElement(Freed(s.pubs, r.privs), k);
  }

  lemma OneElement(q: seq<PrivSort>, k: PrivSort)
    requires NoRepeat(q) && forall j :: j in q ==> j == k
    ensures q == if k in q then [k] else []
  {
    if q != [] {
      NoRepeatTail(q);
      assert q[0] in q && q == [q[0]] + q[1..] && forall j :: j in q[1..] ==> j in q;
      NothingIn(q[1..]);
    }
  }

  lemma NothingIn(q: seq<PrivSort>)
    ensures q == [] || exists j :: j in q
  {
    if q != [] {
      assert q[0] in q;
    }
  }

  /** In the middle of deleting a version: its keys from end to stop are gone. */
  ghost predicate Between(was: Store, now: Store, end: nat, stop: nat)
    requires end <= stop <= |was.pubs|
  {
    && now.pubs == was.pubs[..end] + was.pubs[stop..]
    && forall k :: k in now.privs ==> k in was.privs && now.privs[k] == was.privs[k]
  }

  lemma StartOfRemoval(was: Store, version: int)
    requires Valid(was)
    ensures var a, b := FirstOfVersion(was.pubs, version), FirstOfVersion(was.pubs, version + 1);
            a <= b <= |was.pubs| && Between(was, was, b, b)
    ensures Freed(was.pubs, was.privs) == []
  {
    hide Sorted, FirstOfVersion, NotOfVersion, OfVersion, PrivsOf;
    VersionRange(was.pubs, version);
    ValidHolds(was);
    FreedNothing(was.pubs, was.privs);
  }

  lemma RemovalStep(was: Store, now: Store, end: nat, stop: nat)
    requires end < stop <= |was.pubs| && Valid(now) && Between(was, now, end + 1, stop)
    ensures end < |now.pubs| && now.pubs[end] == was.pubs[end]
    ensures var k, r := was.pubs[end].sort.priv, RemovePos(now, end);
            && Valid(r) && Between(was, r, end, stop) && k !in Freed(was.pubs, now.privs)
            && Freed(was.pubs, r.privs) == if k in r.privs then Freed(was.pubs, now.privs)
                                           else Freed(was.pubs, now.privs) + [k]
  {
    hide Sorted, PubCmp, PrivCmp, StrCmp, Freed, Valid, PrivsOf;
    var k, r := was.pubs[end].sort.priv, RemovePos(now, end);
    assert r.privs == if k in r.privs then now.privs else now.privs - {k};
    RemovePosKeepsValid(now, end);
    RemovePosShrinks(now, end);
    hide RemovePos;
    assert r.pubs == was.pubs[..end] + was.pubs[stop..];
    PrefixHeld(was.pubs, now, end + 1);
    PrefixHeld(was.pubs, r, end);
    PrivHeld(now.pubs, end);
    ValidHolds(now);
    FreedIs(was.pubs, now.privs);
    FreedNext(was.pubs, end, now.privs);
  }

  lemma PrefixHeld(pubs: seq<Pub>, now: Store, n: nat)
    requires Valid(now) && n <= |pubs| && n <= |now.pubs| && now.pubs[..n] == pubs[..n]
    ensures PrivsOf(pubs[..n]) <= now.privs.Keys
  {
    hide Sorted;
    ValidHolds(now);
    PrefixPrivs(now.pubs, n);
  }

  lemma PrefixPrivs(pubs: seq<Pub>, n: nat)
    requires n <= |pubs|
    ensures PrivsOf(pubs[..n]) <= PrivsOf(pubs)
  {
  }

  lemma RemovalEnds(was: Store, now: Store, start: nat, stop: nat, version: int)
    requires Valid(was) && Valid(now) && start <= stop <= |was.pubs| && Between(was, now, start, stop)
    requires start == FirstOfVersion(was.pubs, version) && stop == FirstOfVersion(was.pubs, version + 1)
    ensures now == RemoveVersion(was, version)
  {
    hide Sorted, FirstOfVersion, NotOfVersion, OfVersion, PrivsOf, RemoveVersion;
    VersionRange(was.pubs, version);
    EndOfRemoval(was, now, version);
  }

  lemma RemovePosShrinks(s: Store, pos: nat)
    requires pos < |s.pubs|
    ensures RemovePos(s, pos).pubs == s.pubs[..pos] + s.pubs[pos + 1..]
    ensures forall k :: k in RemovePos(s, pos).privs ==> k in s.privs && RemovePos(s, pos).privs[k] == s.privs[k]
  {
  }

  lemma EndOfRemoval(was: Store, now: Store, version: int)
    requires Valid(was) && Valid(now)
    requires now.pubs == NotOfVersion(was.pubs, version)
    requires forall k :: k in now.privs ==> k in was.privs && now.privs[k] == was.privs[k]
    ensures now == RemoveVersion(was, version)
  {
    hide PubCmp, PrivCmp, StrCmp, Sorted, NotOfVersion, PrivsOf;
    NotOfVersionPrivs(was.pubs, version);
  }
}
