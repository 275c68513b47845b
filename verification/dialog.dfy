/**
 * The settings box: control sets kept in insertion order, with every subtree of panel paths in one
 * unbroken stretch.
 */
module Dialog {
  import opened Bytes

  /** A C string, short enough for its elements to be counted in an int. */
  type Path = p: string | |p| < INT_MAX - 1 && '\0' !in p

  // ----- comparing paths -----

  /** The elements of a path, of which there is always one more than slashes. */
  function Split(p: string): (r: seq<string>)
    ensures 1 <= |r| <= |p| + 1
  {
    if p == "" then [""]
    else
      var r := Split(p[1..]);
      if p[0] == '/' then [""] + r else [[p[0]] + r[0]] + r[1..]
  }

  /** The number of equal elements that two lists start with. */
  function Common(a: seq<string>, b: seq<string>): nat {
    if a == [] || b == [] || a[0] != b[0] then 0 else 1 + Common(a[1..], b[1..])
  }

  function CharAt(p: string, i: nat): char {
    if i < |p| then p[i] else '\0'
  }

  predicate AtBreak(p: string, i: nat) {
    i >= |p| || p[i] == '/'
  }

  function Match(p: Path, q: Path): (m: int)
    ensures 0 <= m <= INT_MAX && (m == INT_MAX <==> p == q)
  {
    CommonBound(Split(p), Split(q));
    if p == q then INT_MAX else Common(Split(p), Split(q))
  }

  lemma {:induction false} CommonBound(a: seq<string>, b: seq<string>)
    ensures Common(a, b) <= |a| && Common(a, b) <= |b|
  {
    if a != [] && b != [] && a[0] == b[0] {
      CommonBound(a[1..], b[1..]);
    }
  }

  lemma {:induction false} CommonUltra(a: seq<string>, b: seq<string>, c: seq<string>)
    ensures Common(a, c) >= if Common(a, b) <= Common(b, c) then Common(a, b) else Common(b, c)
    ensures Common(a, b) == Common(b, a)
  {
    if a != [] && b != [] && c != [] && a[0] == b[0] && b[0] == c[0] {
      CommonUltra(a[1..], b[1..], c[1..]);
    } else if a != [] && b != [] && a[0] == b[0] {
      CommonUltra(a[1..], b[1..], []);
    }
  }

  function Min(a: int, b: int): int {
    if a <= b then a else b
  }

  /** Matching is symmetric, and of three paths the two weakest matches are equal. */
  lemma Ultra(a: Path, b: Path, c: Path)
    ensures Match(a, c) >= Min(Match(a, b), Match(b, c)) && Match(a, b) == Match(b, a)
  {
    hide Common, Split;
    CommonUltra(Split(a), Split(b), Split(c));
    CommonUltra(Split(b), Split(a), Split(a));
  }

  /** What the comparing loop still counts when the two paths agree before place k. */
  function FromHere(p: string, q: string): nat {
    Common(Split(p), Split(q))
  }

  lemma SplitStep(p: string, q: string)
    requires p != "" && q != "" && p[0] == q[0]
    ensures FromHere(p, q) == FromHere(p[1..], q[1..]) + (if p[0] == '/' then 1 else 0)
  {
    var (a, b) := (Split(p[1..]), Split(q[1..]));
    if p[0] == '/' {
      assert ([""] + a)[1..] == a && ([""] + b)[1..] == b;
    } else {
      var (x, y) := ([p[0]] + a[0], [q[0]] + b[0]);
      assert ([x] + a[1..])[1..] == a[1..] && ([y] + b[1..])[1..] == b[1..];
      assert x[1..] == a[0] && y[1..] == b[0];
    }
  }

  lemma SplitEnd(p: string, q: string)
    requires p != q && (p == "" || q == "" || p[0] != q[0])
    ensures FromHere(p, q) == if (p == "" || p[0] == '/') && (q == "" || q[0] == '/') then 1 else 0
  {
    FirstElement(p);
    FirstElement(q);
    var (a, b) := (Split(p), Split(q));
    if a[0] == b[0] {
      assert a[1..] == [] || b[1..] == [];
      assert Common(a[1..], b[1..]) == 0;
    }
  }

  lemma FirstElement(p: string)
    ensures Split(p)[0] == "" <==> p == "" || p[0] == '/'
    ensures p != "" && p[0] != '/' ==> Split(p)[0][0] == p[0]
  {
  }

  /** ctrl_path_compare: the number of whole elements in common, or INT_MAX for identical paths. */
  method Compare(p1: Path, p2: Path) returns (r: int)
    ensures r == Match(p1, p2)
  {
    hide Split, Common, FromHere;
    var i, k := 0, 0;
    assert p1[0..] == p1 && p2[0..] == p2;
    assert FromHere(p1, p2) == Common(Split(p1), Split(p2)) by { FromHereIs(p1, p2); }
    while k < |p1| || k < |p2|
      invariant 0 <= k <= |p1| && k <= |p2| && p1[..k] == p2[..k]
      invariant i + FromHere(p1[k..], p2[k..]) == FromHere(p1, p2)
      decreases |p1| - k
    {
      ghost var (a, b) := (p1[k..], p2[k..]);
      if AtBreak(p1, k) && AtBreak(p2, k) {
        i := i + 1;
      }
      if CharAt(p1, k) != CharAt(p2, k) {
        assert p1 != p2 && a != b;
        SplitEnd(a, b);
        return i;
      }
      assert k < |p1| && k < |p2| && p1[k] == p2[k];
      SplitStep(a, b);
      assert a[1..] == p1[k + 1..] && b[1..] == p2[k + 1..];
      k := k + 1;
    }
    assert p1[..k] == p1 && p2[..k] == p2;
    return INT_MAX;
  }

  lemma FromHereIs(p: string, q: string)
    ensures FromHere(p, q) == Common(Split(p), Split(q))
  {
  }

  // ----- the list of sets -----

  /** A panel's title has no box name and no columns. */
  datatype ControlSet = ControlSet(path: Path, boxname: Option<string>, boxtitle: Option<string>, ncolumns: nat)

  type Sets = seq<ControlSet>

  function M(s: Sets, i: nat, j: nat): int
    requires i < |s| && j < |s|
  {
    Match(s[i].path, s[j].path)
  }

  /** Of three sets in order, the outer two match no better than either matches the middle one. */
  predicate Contiguous(s: Sets) {
    forall i: nat, j: nat, k: nat :: i < j < k < |s| ==> M(s, i, k) <= M(s, i, j) && M(s, i, k) <= M(s, j, k)
  }

  /** No panel has two boxes of one name. */
  predicate Unique(s: Sets) {
    forall i: nat, j: nat :: i < j < |s| && s[i].path == s[j].path && s[i].boxname.Some?
      ==> s[i].boxname != s[j].boxname
  }

  /**
   * Contiguity is what it says: for every path and every depth, the sets that share that many
   * elements with the path stand together, so along the list the counts rise and then fall.
   */
  lemma SubtreesTogether(s: Sets, p: Path, i: nat, j: nat, k: nat)
    requires Contiguous(s) && i < j < k < |s|
    ensures Match(p, s[j].path) >= Min(Match(p, s[i].path), Match(p, s[k].path))
  {
    hide Match;
    var (a, b, c) := (s[i].path, s[j].path, s[k].path);
    Ultra(a, p, c);
    Ultra(p, a, b);
    assert M(s, i, k) <= M(s, i, j);
  }

  /** The other way about: if all subtrees stand together, the list is contiguous. */
  lemma TogetherIsContiguous(s: Sets)
    requires forall p: Path, i: nat, j: nat, k: nat :: i < j < k < |s| ==>
               Match(p, s[j].path) >= Min(Match(p, s[i].path), Match(p, s[k].path))
    ensures Contiguous(s)
  {
    hide Match, Contiguous;
    forall i: nat, j: nat, k: nat | i < j < k < |s|
      ensures M(s, i, k) <= M(s, i, j) && M(s, i, k) <= M(s, j, k)
    {
      var (a, b, c) := (s[i].path, s[j].path, s[k].path);
      assert Match(a, b) >= Min(Match(a, a), Match(a, c));
      assert Match(c, b) >= Min(Match(c, a), Match(c, c));
      Exact(a, a);
      Exact(a, c);
      Exact(c, c);
      Ultra(a, c, c);
      Ultra(c, b, c);
    }
    ContiguousIs(s);
  }

  // ----- finding a place -----

  /** ctrl_find_set, from place i on, with the count of the place before it. */
  function FindFrom(s: Sets, p: Path, start: bool, i: nat, last: int): (r: nat)
    requires i <= |s|
    ensures i <= r <= |s|
    decreases |s| - i
  {
    if i == |s| then i
    else
      var here := Match(p, s[i].path);
      if (start && here == INT_MAX) || here < last then i else FindFrom(s, p, start, i + 1, here)
  }

  function FindSet(s: Sets, p: Path, start: bool): nat {
    FindFrom(s, p, start, 0, 0)
  }

  predicate Rises(s: Sets, p: Path, n: nat)
    requires n <= |s|
  {
    forall i: nat, j: nat :: i < j < n ==> Match(p, s[i].path) <= Match(p, s[j].path)
  }

  predicate Falls(s: Sets, p: Path, n: nat)
    requires n <= |s|
  {
    forall i: nat, j: nat :: n <= i < j < |s| ==> Match(p, s[j].path) <= Match(p, s[i].path)
  }

  /** The place is at an end, next to a set of the same path, or where the count first drops. */
  predicate Break(s: Sets, p: Path, n: nat)
    requires n <= |s|
  {
    n == 0 || n == |s| || s[n - 1].path == p || s[n].path == p || Match(p, s[n].path) < Match(p, s[n - 1].path)
  }

  predicate Slot(s: Sets, p: Path, n: nat) {
    n <= |s| && Rises(s, p, n) && Falls(s, p, n) && Break(s, p, n)
  }

  lemma {:induction false} FindFromIs(s: Sets, p: Path, i: nat, last: int)
    requires i <= |s| && Rises(s, p, i) && last == if i == 0 then 0 else Match(p, s[i - 1].path)
    requires forall j :: 0 <= j < i ==> s[j].path != p
    ensures var r := FindFrom(s, p, true, i, last);
            && Rises(s, p, r) && (forall j :: 0 <= j < r ==> s[j].path != p)
            && (r < |s| ==> s[r].path == p || (r > 0 && Match(p, s[r].path) < Match(p, s[r - 1].path)))
    decreases |s| - i
  {
    hide Match;
    if i < |s| {
      var here := Match(p, s[i].path);
      if here != INT_MAX && here >= last {
        if i > 0 {
          forall a: nat | a < i
            ensures Match(p, s[a].path) <= here
          {
            assert a < i - 1 ==> Match(p, s[a].path) <= Match(p, s[i - 1].path);
          }
        }
        assert s[i].path != p by { Exact(p, s[i].path); }
        FindFromIs(s, p, i + 1, here);
      } else {
        Exact(p, s[i].path);
        assert i == 0 ==> here >= 0 by { Exact(p, s[i].path); }
      }
    }
  }

  lemma Exact(p: Path, q: Path)
    ensures 0 <= Match(p, q) <= INT_MAX && (Match(p, q) == INT_MAX <==> p == q)
  {
  }

  lemma FallsFrom(s: Sets, p: Path, n: nat)
    requires Contiguous(s) && n < |s|
    requires s[n].path == p || (n > 0 && Match(p, s[n].path) < Match(p, s[n - 1].path))
    ensures Falls(s, p, n)
  {
    hide Match;
    forall i: nat, j: nat | n <= i < j < |s|
      ensures Match(p, s[j].path) <= Match(p, s[i].path)
    {
      Exact(p, s[n].path);
      Exact(p, s[j].path);
      if s[n].path == p {
        if n < i {
          SubtreesTogether(s, p, n, i, j);
        }
      } else {
        SubtreesTogether(s, p, n - 1, i, j);
        if n < i {
          SubtreesTogether(s, p, n - 1, n, i);
        }
      }
    }
  }

  /** The place found is one where a set of the path can stand. */
  lemma FindIsSlot(s: Sets, p: Path)
    requires Contiguous(s)
    ensures Slot(s, p, FindSet(s, p, true))
  {
    hide Match;
    FindFromIs(s, p, 0, 0);
    var r := FindSet(s, p, true);
    if r < |s| {
      FallsFrom(s, p, r);
    }
  }

  /** If the path has sets already, the first of them is found. */
  lemma FindsFirst(s: Sets, p: Path, i: nat)
    requires Contiguous(s) && i < |s| && s[i].path == p
    ensures var r := FindSet(s, p, true); r <= i && s[r].path == p && forall j :: 0 <= j < r ==> s[j].path != p
  {
    hide Match, FindFrom;
    FindFromIs(s, p, 0, 0);
    var r := FindSet(s, p, true);
    Exact(p, p);
    if s[r].path != p {
      SubtreesTogether(s, p, r - 1, r, i);
      Exact(p, s[r - 1].path);
    }
  }

  function Insert(s: Sets, n: nat, x: ControlSet): Sets
    requires n <= |s|
  {
    s[..n] + [x] + s[n..]
  }

  /** A set and one after the new place are no closer to each other than to the new set. */
  lemma NothingStraddles(s: Sets, p: Path, n: nat, i: nat, k: nat)
    requires Contiguous(s) && Slot(s, p, n) && i < n <= k < |s|
    ensures M(s, i, k) <= Match(s[i].path, p) && M(s, i, k) <= Match(p, s[k].path)
  {
    hide Match;
    var (a, b, c, d) := (s[i].path, s[n - 1].path, s[n].path, s[k].path);
    var e := Match(a, d);
    Ultra(p, a, d);
    Ultra(p, d, a);
    Ultra(a, d, d);
    Ultra(a, p, p);
    if Match(p, a) < e {
      if i < n - 1 {
        ThreeOld(s, i, n - 1, k);
      }
      if n < k {
        ThreeOld(s, i, n, k);
      }
      Exact(a, a);
      Exact(a, d);
      Between(p, a, b, e);
      Between(p, a, c, e);
      Exact(p, b);
      Exact(p, c);
    }
  }

  lemma Between(p: Path, a: Path, b: Path, e: int)
    requires Match(p, a) < e && (a == b || e <= Match(a, b))
    ensures Match(p, b) == Match(p, a)
  {
    hide Match;
    Ultra(p, a, b);
    Ultra(p, b, a);
    Ultra(a, b, b);
  }

  lemma InsertKeeps(s: Sets, n: nat, x: ControlSet)
    requires Contiguous(s) && Slot(s, x.path, n)
    ensures Contiguous(Insert(s, n, x))
  {
    hide Match, Contiguous, Slot;
    SlotBound(s, x.path, n);
    var (t, p) := (Insert(s, n, x), x.path);
    forall i: nat, j: nat, k: nat | i < j < k < |t|
      ensures M(t, i, k) <= M(t, i, j) && M(t, i, k) <= M(t, j, k)
    {
      var (a, b, c) := (t[i].path, t[j].path, t[k].path);
      if j == n {
        NothingStraddles(s, p, n, i, k - 1);
      } else if i == n {
        FallsAt(s, p, n, j - 1, k - 1);
        Ultra(b, p, c);
        Ultra(p, b, b);
      } else if k == n {
        RisesAt(s, p, n, i, j);
        Ultra(a, p, b);
        Ultra(p, a, a);
        Ultra(p, b, b);
      } else {
        ThreeOld(s, if i < n then i else i - 1, if j < n then j else j - 1, if k < n then k else k - 1);
      }
    }
    assert Contiguous(t) by { ContiguousIs(t); }
  }

  lemma ContiguousIs(t: Sets)
    requires forall i: nat, j: nat, k: nat :: i < j < k < |t| ==> M(t, i, k) <= M(t, i, j) && M(t, i, k) <= M(t, j, k)
    ensures Contiguous(t)
  {
  }

  lemma ThreeOld(s: Sets, i: nat, j: nat, k: nat)
    requires Contiguous(s) && i < j < k < |s|
    ensures M(s, i, k) <= M(s, i, j) && M(s, i, k) <= M(s, j, k)
  {
  }

  lemma FallsAt(s: Sets, p: Path, n: nat, i: nat, j: nat)
    requires Slot(s, p, n) && n <= i < j < |s|
    ensures Match(p, s[j].path) <= Match(p, s[i].path)
  {
  }

  lemma RisesAt(s: Sets, p: Path, n: nat, i: nat, j: nat)
    requires Slot(s, p, n) && i < j < n
    ensures Match(p, s[i].path) <= Match(p, s[j].path)
  {
  }

  // ----- the operations -----

  /** The rest of ctrl_getset's search: past the sets of this path that have another name. */
  function SkipNames(s: Sets, p: Path, name: string, i: nat): (r: nat)
    requires i <= |s|
    ensures i <= r <= |s| && forall j :: i <= j < r ==> s[j].path == p && s[j].boxname != Some(name)
    ensures r < |s| ==> s[r].path != p || s[r].boxname == Some(name)
    decreases |s| - i
  {
    if i < |s| && s[i].path == p && s[i].boxname != Some(name) then SkipNames(s, p, name, i + 1) else i
  }

  datatype Op = Title(path: Path, title: string) | Get(path: Path, name: string, boxtitle: Option<string>)

  /** Where the operation's set stands afterwards, and whether it had to be made. */
  datatype Place = Place(index: nat, made: bool)

  function PlaceOf(s: Sets, op: Op): (r: Place)
    ensures r.index <= |s| && (!r.made ==> r.index < |s|)
  {
    match op
    case Title(p, _) => Place(FindSet(s, p, true), true)
    case Get(p, name, _) =>
      var i := SkipNames(s, p, name, FindSet(s, p, true));
      Place(i, i == |s| || s[i].path != p)
  }

  function SetOf(op: Op): ControlSet {
    match op
    case Title(p, title) => ControlSet(p, None, Some(title), 0)
    case Get(p, name, boxtitle) => ControlSet(p, Some(name), boxtitle, 1)
  }

  function Apply(s: Sets, op: Op): Sets {
    var w := PlaceOf(s, op);
    if w.made then Insert(s, w.index, SetOf(op)) else s
  }

  lemma AfterRunIsSlot(s: Sets, p: Path, n: nat, m: nat)
    requires Contiguous(s) && Slot(s, p, n) && n < m <= |s|
    requires forall j :: n <= j < m ==> s[j].path == p
    ensures Slot(s, p, m)
  {
    hide Match, Contiguous;
    Exact(p, p);
    forall i: nat, j: nat | i < j < m
      ensures Match(p, s[i].path) <= Match(p, s[j].path)
    {
      Exact(p, s[i].path);
    }
    FallsFrom(s, p, m - 1);
    assert s[m - 1].path == p;
  }

  /** Every insertion keeps the subtrees together. */
  lemma ApplyKeepsContiguous(s: Sets, op: Op)
    requires Contiguous(s)
    ensures Contiguous(Apply(s, op))
  {
    hide Match, Contiguous, FindSet, Slot;
    FindIsSlot(s, op.path);
    var n := FindSet(s, op.path, true);
    var w := PlaceOf(s, op);
    SlotBound(s, op.path, n);
    if op.Get? && n < w.index {
      AfterRunIsSlot(s, op.path, n, w.index);
    }
    if w.made {
      InsertKeeps(s, w.index, SetOf(op));
    }
  }

  lemma SlotBound(s: Sets, p: Path, n: nat)
    requires Slot(s, p, n)
    ensures n <= |s|
  {
  }

  /** Asking for a set finds it if there is one anywhere in the box. */
  lemma GetFinds(s: Sets, op: Op, i: nat)
    requires Contiguous(s) && op.Get? && i < |s| && s[i].path == op.path && s[i].boxname == Some(op.name)
    ensures var w := PlaceOf(s, op); !w.made && s[w.index].path == op.path && s[w.index].boxname == Some(op.name)
  {
    hide Match, Contiguous, FindSet;
    var p := op.path;
    FindsFirst(s, p, i);
    var n := FindSet(s, p, true);
    var m := SkipNames(s, p, op.name, n);
    Exact(p, p);
    if m < i && s[m].path != p {
      SubtreesTogether(s, p, n, m, i);
      Exact(p, s[m].path);
    }
  }

  /** Asking for a set never makes a second one of the same panel and name. */
  lemma ApplyKeepsUnique(s: Sets, op: Op)
    requires Contiguous(s) && Unique(s)
    ensures Unique(Apply(s, op))
  {
    hide Contiguous, FindSet, SkipNames;
    var w := PlaceOf(s, op);
    var t := Apply(s, op);
    if w.made {
      if op.Get? {
        forall i: nat | i < |s| && s[i].path == op.path
          ensures s[i].boxname != Some(op.name)
        {
          if s[i].boxname == Some(op.name) {
            GetFinds(s, op, i);
          }
        }
      }
      forall i: nat, j: nat | i < j < |t| && t[i].path == t[j].path && t[i].boxname.Some?
        ensures t[i].boxname != t[j].boxname
      {
        var (a, b) := (if i < w.index then i else i - 1, if j < w.index then j else j - 1);
        if i != w.index && j != w.index {
          assert t[i] == s[a] && t[j] == s[b];
        }
      }
    }
  }

  function ApplyAll(s: Sets, ops: seq<Op>): Sets
    decreases |ops|
  {
    if ops == [] then s else ApplyAll(Apply(s, ops[0]), ops[1..])
  }

  /** Whatever is asked of an empty box, in whatever order, it stays contiguous and without duplicates. */
  lemma {:induction false} EveryHistory(s: Sets, ops: seq<Op>)
    requires Contiguous(s) && Unique(s)
    ensures Contiguous(ApplyAll(s, ops)) && Unique(ApplyAll(s, ops))
    decreases |ops|
  {
    hide Contiguous, Unique, Apply;
    if ops != [] {
      ApplyKeepsContiguous(s, ops[0]);
      ApplyKeepsUnique(s, ops[0]);
      EveryHistory(Apply(s, ops[0]), ops[1..]);
    }
  }

  lemma EveryBox(ops: seq<Op>)
    ensures Contiguous(ApplyAll([], ops)) && Unique(ApplyAll([], ops))
  {
    EveryHistory([], ops);
  }

  /** ctrl_find_path: -1 asks for the first set of a panel, an index for the one after it. */
  function FindPath(s: Sets, p: Path, index: int): int
    requires index < |s|
  {
    var i := if index < 0 then FindSet(s, p, true) else index + 1;
    if i < |s| && p == s[i].path then i else -1
  }

  /** Stepping through a panel misses no set of it and enters no other panel. */
  lemma FindPathIsNext(s: Sets, p: Path, index: int)
    requires Contiguous(s) && -1 <= index < |s| && (index >= 0 ==> s[index].path == p)
    ensures var r := FindPath(s, p, index);
            if r == -1 then forall j :: index < j < |s| ==> s[j].path != p
            else index < r < |s| && s[r].path == p && forall j :: index < j < r ==> s[j].path != p
  {
    hide Match, FindSet;
    var r := FindPath(s, p, index);
    Exact(p, p);
    if index < 0 {
      if j: nat :| j < |s| && s[j].path == p {
        FindsFirst(s, p, j);
      }
    } else if r == -1 {
      forall j | index < j < |s|
        ensures s[j].path != p
      {
        if s[j].path == p && index + 1 < j {
          SubtreesTogether(s, p, index, index + 1, j);
          Exact(p, s[index + 1].path);
        }
      }
    }
  }

  // ----- the order of sets -----

  /** The sets of one panel, in the order of the box. */
  function PanelOf(s: Sets, p: Path): Sets {
    if s == [] then [] else (if s[0].path == p then [s[0]] else []) + PanelOf(s[1..], p)
  }

  /** What an operation does to a panel that is a list of its own: titles go to its front, new boxes to its end. */
  function PanelDo(panel: Sets, p: Path, op: Op): Sets {
    if op.path != p then panel
    else match op
      case Title(_, title) => [ControlSet(p, None, Some(title), 0)] + panel
      case Get(_, name, boxtitle) =>
        if exists x :: x in panel && x.boxname == Some(name) then panel
        else panel + [ControlSet(p, Some(name), boxtitle, 1)]
  }

  function PanelDoAll(panel: Sets, p: Path, ops: seq<Op>): Sets
    decreases |ops|
  {
    if ops == [] then panel else PanelDoAll(PanelDo(panel, p, ops[0]), p, ops[1..])
  }

  lemma PanelStep(x: ControlSet, s: Sets, p: Path)
    ensures PanelOf([x] + s, p) == (if x.path == p then [x] else []) + PanelOf(s, p)
  {
    assert ([x] + s)[1..] == s;
  }

  lemma {:induction false} PanelAppend(a: Sets, b: Sets, p: Path)
    ensures PanelOf(a + b, p) == PanelOf(a, p) + PanelOf(b, p)
  {
    if a == [] {
      assert a + b == b && PanelOf(a, p) == [] && [] + PanelOf(b, p) == PanelOf(b, p);
    } else {
      hide PanelOf;
      var (x, rest) := (a[0], a[1..]);
      PanelAppend(rest, b, p);
      PanelStep(x, rest, p);
      PanelStep(x, rest + b, p);
      assert a == [x] + rest && a + b == [x] + (rest + b);
    }
  }

  lemma {:induction false} PanelMembers(s: Sets, p: Path)
    ensures forall x :: x in PanelOf(s, p) <==> x in s && x.path == p
  {
    if s != [] {
      PanelMembers(s[1..], p);
      assert s == [s[0]] + s[1..];
    }
  }

  lemma NoPanel(s: Sets, p: Path)
    requires forall x :: x in s ==> x.path != p
    ensures PanelOf(s, p) == []
  {
    PanelMembers(s, p);
    if PanelOf(s, p) != [] {
      assert PanelOf(s, p)[0] in PanelOf(s, p);
    }
  }

  lemma InsertedPanel(s: Sets, n: nat, x: ControlSet, p: Path)
    requires n <= |s|
    ensures PanelOf(s, p) == PanelOf(s[..n], p) + PanelOf(s[n..], p)
    ensures PanelOf(Insert(s, n, x), p)
            == PanelOf(s[..n], p) + (if x.path == p then [x] else []) + PanelOf(s[n..], p)
  {
    assert s == s[..n] + s[n..];
    PanelAppend(s[..n], s[n..], p);
    PanelAppend(s[..n] + [x], s[n..], p);
    PanelAppend(s[..n], [x], p);
    assert [x][1..] == [] && PanelOf([x], p) == if x.path == p then [x] else [];
  }

  /** Between two sets of a panel there is none of another. */
  lemma PanelRun(s: Sets, p: Path, i: nat, j: nat, k: nat)
    requires Contiguous(s) && i <= j <= k < |s| && s[i].path == p && s[k].path == p
    ensures s[j].path == p
  {
    hide Match, Contiguous;
    if i < j < k {
      SubtreesTogether(s, p, i, j, k);
    }
    Exact(p, p);
    Exact(p, s[j].path);
  }

  /** Where an operation's new set stands: before all others of its panel if it is a title, else behind them. */
  lemma PlaceInPanel(s: Sets, op: Op)
    requires Contiguous(s) && PlaceOf(s, op).made
    ensures var n := PlaceOf(s, op).index;
            if op.Title? then PanelOf(s[..n], op.path) == [] else PanelOf(s[n..], op.path) == []
  {
    hide Match, Contiguous, FindFrom, PanelOf;
    var (p, n, f) := (op.path, PlaceOf(s, op).index, FindSet(s, op.path, true));
    FindFromIs(s, p, 0, 0);
    if op.Title? {
      NoPanel(s[..n], p);
    } else {
      forall j | n <= j < |s| ensures s[j].path != p {
        if s[j].path == p {
          FindsFirst(s, p, j);
          PanelRun(s, p, f, n, j);
        }
      }
      NoPanel(s[n..], p);
    }
  }

  lemma NamedInPanel(s: Sets, op: Op)
    requires Contiguous(s) && op.Get?
    ensures PlaceOf(s, op).made <==> !exists x :: x in PanelOf(s, op.path) && x.boxname == Some(op.name)
  {
    hide Match, Contiguous, FindFrom, PanelOf, SkipNames;
    PanelMembers(s, op.path);
    var w := PlaceOf(s, op);
    if x :| x in PanelOf(s, op.path) && x.boxname == Some(op.name) {
      var i :| 0 <= i < |s| && s[i] == x;
      GetFinds(s, op, i);
    }
    if !w.made {
      assert s[w.index] in s;
    }
  }

  /** The box does to each panel what would be done to the panel alone. */
  lemma PanelsAlone(s: Sets, op: Op, p: Path)
    requires Contiguous(s)
    ensures PanelOf(Apply(s, op), p) == PanelDo(PanelOf(s, p), p, op)
  {
    hide Contiguous, PlaceOf, PanelOf;
    var w := PlaceOf(s, op);
    if op.Get? {
      NamedInPanel(s, op);
    } else {
      TitleIsMade(s, op);
    }
    if w.made {
      InsertedPanel(s, w.index, SetOf(op), p);
      PlaceInPanel(s, op);
      var (a, b) := (PanelOf(s[..w.index], p), PanelOf(s[w.index..], p));
      assert [] + b == b && a + [] == a && [] + [SetOf(op)] == [SetOf(op)];
    }
  }

  lemma TitleIsMade(s: Sets, op: Op)
    ensures op.Title? ==> PlaceOf(s, op).made
  {
  }

  /** So over every history each panel holds its titles, the last given first, and its boxes in the order asked for. */
  lemma {:induction false} PanelsInOrder(s: Sets, ops: seq<Op>, p: Path)
    requires Contiguous(s)
    ensures PanelOf(ApplyAll(s, ops), p) == PanelDoAll(PanelOf(s, p), p, ops)
    decreases |ops|
  {
    hide Contiguous, Apply, PanelOf, PanelDo;
    if ops != [] {
      ApplyKeepsContiguous(s, ops[0]);
      PanelsAlone(s, ops[0], p);
      PanelsInOrder(Apply(s, ops[0]), ops[1..], p);
    }
  }

  /** A panel that is new goes right behind the last set that shares the most elements with it. */
  lemma NewPanelIsBehindTheBest(s: Sets, p: Path, j: nat)
    requires Contiguous(s) && j < |s| && forall x :: x in s ==> x.path != p
    ensures var n := FindSet(s, p, true);
            && 1 <= n <= |s|
            && if j < n then Match(p, s[j].path) <= Match(p, s[n - 1].path)
               else Match(p, s[j].path) < Match(p, s[n - 1].path)
  {
    hide Match, Contiguous, FindFrom;
    FindFromIs(s, p, 0, 0);
    var n := FindSet(s, p, true);
    assert n < |s| ==> s[n] in s;
    if n < |s| {
      FallsFrom(s, p, n);
    }
  }

  // ----- the box -----

  lemma InsertIs(was: seq<ControlSet>, now: seq<ControlSet>, index: nat, s: ControlSet)
    requires index <= |was| && |now| == |was| + 1
    requires now[..index] == was[..index] && now[index] == s && now[index + 1..] == was[index..]
    ensures now == Insert(was, index, s)
  {
    assert now == now[..index] + [now[index]] + now[index + 1..];
  }

  class ControlBox {
    var ctrlsets: array<ControlSet>
    var nctrlsets: nat

    ghost predicate Valid()
      reads this, ctrlsets
    {
      nctrlsets <= ctrlsets.Length && Contiguous(ctrlsets[..nctrlsets]) && Unique(ctrlsets[..nctrlsets])
    }

    ghost function Contents(): Sets
      reads this, ctrlsets
      requires nctrlsets <= ctrlsets.Length
    {
      ctrlsets[..nctrlsets]
    }

    /** ctrl_new_box */
    constructor ()
      ensures Valid() && fresh(ctrlsets) && Contents() == []
    {
      ctrlsets := new ControlSet[0];
      nctrlsets := 0;
    }

    /** ctrl_find_set */
    method Find(path: Path, start: bool) returns (index: nat)
      requires nctrlsets <= ctrlsets.Length
      ensures index == FindSet(Contents(), path, start)
    {
      hide Match;
      var last := 0;
      var i := 0;
      ghost var s := Contents();
      while i < nctrlsets
        invariant 0 <= i <= nctrlsets && FindSet(s, path, start) == FindFrom(s, path, start, i, last)
      {
        var thisone := Compare(path, ctrlsets[i].path);
        if (start && thisone == INT_MAX) || thisone < last {
          return i;
        }
        last := thisone;
        i := i + 1;
      }
      return nctrlsets;
    }

    /** sgrowarray: room for one more */
    method Grow()
      requires nctrlsets <= ctrlsets.Length
      modifies this
      ensures nctrlsets == old(nctrlsets) < ctrlsets.Length
      ensures ctrlsets == old(ctrlsets) || fresh(ctrlsets)
      ensures Contents() == old(Contents())
    {
      if nctrlsets == ctrlsets.Length {
        var bigger := new ControlSet[2 * nctrlsets + 1];
        for i := 0 to nctrlsets
          invariant bigger[..i] == ctrlsets[..i]
          modifies bigger
        {
          bigger[i] := ctrlsets[i];
        }
        ctrlsets := bigger;
      }
    }

    /** The tail moves up by one and the new set takes the place. */
    method Place(index: nat, s: ControlSet)
      requires nctrlsets < ctrlsets.Length && index <= nctrlsets
      modifies this`nctrlsets, ctrlsets
      ensures nctrlsets == old(nctrlsets) + 1 <= ctrlsets.Length
      ensures Contents() == Insert(old(Contents()), index, s)
    {
      hide Contiguous, Unique;
      var i := nctrlsets;
      while i > index
        modifies ctrlsets
        invariant index <= i <= nctrlsets
        invariant ctrlsets[..i] == old(ctrlsets[..i])
        invariant ctrlsets[i + 1..nctrlsets + 1] == old(ctrlsets[i..nctrlsets])
      {
        ctrlsets[i] := ctrlsets[i - 1];
        i := i - 1;
      }
      ctrlsets[index] := s;
      nctrlsets := nctrlsets + 1;
      ghost var was, now := old(ctrlsets[..nctrlsets]), ctrlsets[..nctrlsets];
      assert now[..index] == ctrlsets[..index] == was[..index];
      assert now[index + 1..] == ctrlsets[index + 1..nctrlsets] == was[index..];
      InsertIs(was, now, index, s);
    }

    /** ctrl_settitle */
    method SetTitle(path: Path, title: string)
      requires Valid()
      modifies this, ctrlsets
      ensures Valid() && Contents() == Apply(old(Contents()), Title(path, title))
      ensures ctrlsets == old(ctrlsets) || fresh(ctrlsets)
    {
      hide Contiguous, Unique;
      var index := Find(path, true);
      ApplyKeepsContiguous(Contents(), Title(path, title));
      ApplyKeepsUnique(Contents(), Title(path, title));
      Grow();
      Place(index, ControlSet(path, None, Some(title), 0));
    }

    /** ctrl_getset */
    method GetSet(path: Path, name: string, boxtitle: Option<string>) returns (index: nat)
      requires Valid()
      modifies this, ctrlsets
      ensures Valid() && Contents() == Apply(old(Contents()), Get(path, name, boxtitle))
      ensures index == PlaceOf(old(Contents()), Get(path, name, boxtitle)).index
      ensures ctrlsets == old(ctrlsets) || fresh(ctrlsets)
    {
      hide Contiguous, Unique;
      ghost var s := Contents();
      ghost var op := Get(path, name, boxtitle);
      ApplyKeepsContiguous(s, op);
      ApplyKeepsUnique(s, op);
      index := Find(path, true);
      ghost var start := index;
      while index < nctrlsets && ctrlsets[index].path == path
        invariant start <= index <= nctrlsets && Contents() == s
        invariant SkipNames(s, path, name, start) == SkipNames(s, path, name, index)
      {
        if ctrlsets[index].boxname == Some(name) {
          return;
        }
        index := index + 1;
      }
      Grow();
      Place(index, ControlSet(path, Some(name), boxtitle, 1));
    }
  }
}
