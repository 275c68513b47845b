/**
 * The SFTP download walk: an explicit stack of directories, advanced one action at a time, against
 * a recursive traversal of the remote tree.
 */
module SftpWalk {
  import opened Bytes

  type Name = string

  datatype Attrs = Attrs(perms: nat, size: Option<nat>, times: Option<(nat, nat)>)

  /** The answer to a stat request. Missing also stands for one without permissions in it. */
  datatype Kind = Missing | Plain(attrs: Attrs) | Folder(attrs: Attrs)

  /**
   * The remote side and the options of the transfer. Reading a directory yields batches of names,
   * or None when it cannot be opened or read. vet is the platform's check of a server's file name.
   * depth bounds how far the tree goes on below a path.
   */
  datatype Setup = Setup(
    stat: Name -> Kind,
    readdir: Name -> Option<seq<seq<Name>>>,
    vet: Name -> bool,
    matches: (Name, Name) -> bool,
    depth: Name -> nat,
    root: Name,
    recursive: bool,
    preserve: bool)

  datatype Action =
    | File(path: Name, name: Name, perms: nat, size: nat, times: Option<(nat, nat)>)
    | Dir(path: Name, name: Name, perms: nat, times: Option<(nat, nat)>)
    | EndDir

  const UINT64_MAX: nat := 0xFFFF_FFFF_FFFF_FFFF

  function Child(dir: Name, n: Name): Name {
    dir + "/" + n
  }

  /** stripslashes on a remote path */
  function LastPart(p: Name): Name
    decreases |p|
  {
    if '/' !in p then p
    else if p[0] == '/' && '/' !in p[1..] then p[1..]
    else LastPart(p[1..])
  }

  function FileAction(s: Setup, path: Name, a: Attrs): Action {
    File(path, LastPart(path), a.perms % 4096, if a.size.Some? then a.size.value else UINT64_MAX,
         if s.preserve then a.times else None)
  }

  function DirAction(s: Setup, path: Name, a: Attrs): Action {
    Dir(path, LastPart(path), a.perms % 4096, if s.preserve then a.times else None)
  }

  // ----- reading a directory -----

  predicate Wanted(s: Setup, n: Name) {
    n != "." && n != ".." && s.vet(n)
  }

  function Filter(s: Setup, names: seq<Name>): (r: seq<Name>)
    ensures forall n :: n in r ==> n in names && Wanted(s, n)
  {
    if names == [] then []
    else if Wanted(s, names[0]) then [names[0]] + Filter(s, names[1..])
    else Filter(s, names[1..])
  }

  /** The names of all batches up to the first empty one. */
  function Gather(s: Setup, batches: seq<seq<Name>>): (r: seq<Name>)
    ensures forall n :: n in r ==> Wanted(s, n)
  {
    if batches == [] || batches[0] == [] then [] else Filter(s, batches[0]) + Gather(s, batches[1..])
  }

  function Names(s: Setup, dir: Name): (r: seq<Name>)
    ensures forall n :: n in r ==> Wanted(s, n)
  {
    match s.readdir(dir) case Some(b) => Gather(s, b) case None => []
  }

  method FilterBatch(s: Setup, names: seq<Name>, batch: seq<Name>) returns (r: seq<Name>)
    ensures r == names + Filter(s, batch)
  {
    r := names;
    for j := 0 to |batch|
      invariant names + Filter(s, batch) == r + Filter(s, batch[j..])
    {
      assert batch[j..][1..] == batch[j + 1..];
      if Wanted(s, batch[j]) {
        r := r + [batch[j]];
      }
    }
    assert batch[|batch|..] == [];
  }

  method ReadNames(s: Setup, batches: seq<seq<Name>>) returns (names: seq<Name>)
    ensures names == Gather(s, batches)
  {
    hide Filter;
    names := [];
    var i := 0;
    while i < |batches|
      invariant 0 <= i <= |batches|
      invariant Gather(s, batches) == names + Gather(s, batches[i..])
    {
      assert batches[i..][1..] == batches[i + 1..];
      if batches[i] == [] {
        return;
      }
      names := FilterBatch(s, names, batches[i]);
      i := i + 1;
    }
  }

  // ----- the recursive traversal -----

  /** The tree is finite: the depth falls from a directory to everything in it. */
  ghost predicate Finite(s: Setup) {
    forall dir: Name, n: Name :: n in Names(s, dir) ==> s.depth(Child(dir, n)) < s.depth(dir)
  }

  predicate Skipped(s: Setup, wild: Option<Name>, n: Name) {
    Only(n, '.') || (wild.Some? && !s.matches(wild.value, n))
  }

  predicate ListedIn(s: Setup, dir: Name, names: seq<Name>) {
    forall n :: n in names ==> n in Names(s, dir)
  }

  ghost function Visit(s: Setup, path: Name): seq<Action>
    requires Finite(s)
    decreases s.depth(path), 1, 0
  {
    match s.stat(path)
    case Missing => []
    case Plain(a) => [FileAction(s, path, a)]
    case Folder(a) =>
      if !s.recursive then []
      else [DirAction(s, path, a)] + VisitAll(s, path, Names(s, path), None) + [EndDir]
  }

  ghost function VisitAll(s: Setup, dir: Name, names: seq<Name>, wild: Option<Name>): seq<Action>
    requires Finite(s) && ListedIn(s, dir, names)
    decreases s.depth(dir), 0, |names|
  {
    if names == [] then []
    else
      assert names[0] in Names(s, dir);
      if Skipped(s, wild, names[0]) then VisitAll(s, dir, names[1..], wild)
      else Visit(s, Child(dir, names[0])) + VisitAll(s, dir, names[1..], wild)
  }

  /** The whole download: of a wildcard the directory is only scanned, and not itself an action. */
  ghost function Download(s: Setup, wild: Option<Name>): seq<Action>
    requires Finite(s)
  {
    if s.stat(s.root).Folder? && wild.Some? then VisitAll(s, s.root, Names(s, s.root), wild) else Visit(s, s.root)
  }

  /** The server answers every request the walk makes below a path. */
  ghost predicate Answers(s: Setup, path: Name)
    requires Finite(s)
    decreases s.depth(path), 1, 0
  {
    match s.stat(path)
    case Missing => false
    case Plain(_) => true
    case Folder(_) => s.recursive ==> s.readdir(path).Some? && AnswersAll(s, path, Names(s, path), None)
  }

  ghost predicate AnswersAll(s: Setup, dir: Name, names: seq<Name>, wild: Option<Name>)
    requires Finite(s) && ListedIn(s, dir, names)
    decreases s.depth(dir), 0, |names|
  {
    names == [] ||
    (assert names[0] in Names(s, dir);
     (Skipped(s, wild, names[0]) || Answers(s, Child(dir, names[0]))) && AnswersAll(s, dir, names[1..], wild))
  }

  ghost predicate AnswersRoot(s: Setup, wild: Option<Name>)
    requires Finite(s)
  {
    if s.stat(s.root).Folder? && wild.Some? then
      s.readdir(s.root).Some? && AnswersAll(s, s.root, Names(s, s.root), wild)
    else Answers(s, s.root)
  }

  /** How many calls the walk spends on a path. */
  ghost function Cost(s: Setup, path: Name): nat
    requires Finite(s)
    decreases s.depth(path), 1, 0
  {
    if s.stat(path).Folder? && s.recursive then 2 + CostAll(s, path, Names(s, path), None) else 1
  }

  ghost function CostAll(s: Setup, dir: Name, names: seq<Name>, wild: Option<Name>): nat
    requires Finite(s) && ListedIn(s, dir, names)
    decreases s.depth(dir), 0, |names|
  {
    if names == [] then 0
    else
      assert names[0] in Names(s, dir);
      if Skipped(s, wild, names[0]) then CostAll(s, dir, names[1..], wild)
      else Cost(s, Child(dir, names[0])) + CostAll(s, dir, names[1..], wild)
  }

  // ----- the walk -----

  datatype Frame = Frame(names: seq<Name>, pos: nat, dirpath: Name, wild: Option<Name>, matched: bool)

  /** The stack, newest directory first; the wildcard until a directory takes it; whether the target was entered. */
  datatype Walk = Walk(stack: seq<Frame>, wild: Option<Name>, done: bool)

  datatype Result = Act(action: Action) | Retry | Finished

  datatype Next = Next(result: Result, walk: Walk)

  /** The next name at or after pos that is not skipped. */
  function SkipTo(s: Setup, f: Frame, pos: nat): (r: nat)
    requires pos <= |f.names|
    ensures pos <= r <= |f.names| && (r < |f.names| ==> !Skipped(s, f.wild, f.names[r]))
    decreases |f.names| - pos
  {
    if pos < |f.names| && Skipped(s, f.wild, f.names[pos]) then SkipTo(s, f, pos + 1) else pos
  }

  function Enter(s: Setup, w: Walk, path: Name): Next {
    match s.stat(path)
    case Missing => Next(Finished, w)
    case Plain(a) => Next(Act(FileAction(s, path, a)), w)
    case Folder(a) =>
      if !s.recursive && w.wild.None? then Next(if w.stack != [] then Retry else Finished, w)
      else if s.readdir(path).None? then Next(Finished, w)
      else
        var f := Frame(Names(s, path), 0, path, w.wild, false);
        Next(if f.wild.Some? then Retry else Act(DirAction(s, path, a)), Walk([f] + w.stack, None, w.done))
  }

  /** One call of scp_get_sink_action. */
  function Step(s: Setup, w: Walk): Next
    requires w.stack != [] ==> w.stack[0].pos <= |w.stack[0].names|
  {
    if w.stack == [] then
      if w.done then Next(Finished, w) else Enter(s, w.(done := true), s.root)
    else
      var f := w.stack[0];
      var p := SkipTo(s, f, f.pos);
      if p < |f.names| then
        Enter(s, w.(stack := [f.(pos := p + 1, matched := true)] + w.stack[1..]), Child(f.dirpath, f.names[p]))
      else Next(if f.wild.Some? then Retry else Act(EndDir), w.(stack := w.stack[1..]))
  }

  class Walker {
    const s: Setup
    var stack: seq<Frame>
    var wild: Option<Name>
    var done: bool

    ghost function View(): Walk
      reads this
    {
      Walk(stack, wild, done)
    }

    ghost predicate Valid()
      reads this
    {
      forall i :: 0 <= i < |stack| ==> stack[i].pos <= |stack[i].names|
    }

    constructor (s: Setup, wild: Option<Name>)
      ensures this.s == s && Valid() && View() == Walk([], wild, false)
    {
      this.s, this.stack, this.wild, this.done := s, [], wild, false;
    }

    /** The part of scp_get_sink_action that has a path and asks the server what it is. */
    method EnterPath(path: Name) returns (r: Result)
      requires Valid()
      modifies this
      ensures Valid() && Next(r, View()) == Enter(s, old(View()), path)
    {
      hide Gather;
      var kind := s.stat(path);
      match kind
      case Missing => return Finished;
      case Plain(a) => return Act(FileAction(s, path, a));
      case Folder(a) =>
        if !s.recursive && wild.None? {
          return if stack != [] then Retry else Finished;
        }
        var batches := s.readdir(path);
        if batches.None? {
          return Finished;
        }
        var names := ReadNames(s, batches.value);
        var f := Frame(names, 0, path, None, false);
        if wild.Some? {
          f := f.(wild := wild);
          wild := None;
        }
        stack := [f] + stack;
        return if f.wild.Some? then Retry else Act(DirAction(s, path, a));
    }

    /** scp_get_sink_action, the SFTP half */
    method GetSinkAction() returns (r: Result)
      requires Valid()
      modifies this
      ensures Valid() && Next(r, View()) == Step(s, old(View()))
    {
      hide Enter, Skipped;
      if stack == [] {
        if done {
          return Finished;
        }
        done := true;
        r := EnterPath(s.root);
        return;
      }
      var f := stack[0];
      var pos := f.pos;
      while pos < |f.names| && Skipped(s, f.wild, f.names[pos])
        invariant f.pos <= pos <= |f.names|
        invariant SkipTo(s, f, f.pos) == SkipTo(s, f, pos)
      {
        pos := pos + 1;
      }
      if pos < |f.names| {
        stack := [f.(pos := pos + 1, matched := true)] + stack[1..];
        r := EnterPath(Child(f.dirpath, f.names[pos]));
        return;
      }
      stack := stack[1..];
      return if f.wild.Some? then Retry else Act(EndDir);
    }
  }

  // ----- what is left to do -----

  ghost predicate FrameOk(s: Setup, f: Frame)
    requires Finite(s)
  {
    f.pos <= |f.names| && ListedIn(s, f.dirpath, f.names) && ListedIn(s, f.dirpath, f.names[f.pos..])
    && AnswersAll(s, f.dirpath, f.names[f.pos..], f.wild)
  }

  /** Only the oldest directory can be scanned with a wildcard. */
  ghost predicate Inv(s: Setup, w: Walk) {
    && Finite(s)
    && (forall i :: 0 <= i < |w.stack| ==> FrameOk(s, w.stack[i]))
    && (forall i :: 0 <= i < |w.stack| - 1 ==> w.stack[i].wild.None?)
    && (w.stack != [] ==> w.done && w.wild.None?)
    && (!w.done ==> AnswersRoot(s, w.wild))
  }

  ghost function FrameTodo(s: Setup, f: Frame): seq<Action>
    requires Finite(s) && FrameOk(s, f)
  {
    if f.wild.Some? then VisitAll(s, f.dirpath, f.names[f.pos..], f.wild)
    else VisitAll(s, f.dirpath, f.names[f.pos..], f.wild) + [EndDir]
  }

  ghost function StackTodo(s: Setup, stack: seq<Frame>): seq<Action>
    requires Finite(s) && forall i :: 0 <= i < |stack| ==> FrameOk(s, stack[i])
  {
    if stack == [] then [] else FrameTodo(s, stack[0]) + StackTodo(s, stack[1..])
  }

  ghost function Todo(s: Setup, w: Walk): seq<Action>
    requires Inv(s, w)
  {
    if w.done then StackTodo(s, w.stack) else Download(s, w.wild)
  }

  ghost function StackCost(s: Setup, stack: seq<Frame>): nat
    requires Finite(s) && forall i :: 0 <= i < |stack| ==> FrameOk(s, stack[i])
  {
    if stack == [] then 0
    else
      assert FrameOk(s, stack[0]);
      CostAll(s, stack[0].dirpath, stack[0].names[stack[0].pos..], stack[0].wild) + 1 + StackCost(s, stack[1..])
  }

  /** The number of calls that will be made before the one that ends the transfer. */
  ghost function Calls(s: Setup, w: Walk): nat
    requires Inv(s, w)
  {
    if w.done then StackCost(s, w.stack)
    else if s.stat(s.root).Plain? then 1
    else if w.wild.Some? then 2 + CostAll(s, s.root, Names(s, s.root), w.wild)
    else if s.recursive then Cost(s, s.root)
    else 0
  }

  lemma {:induction false} SkipIsFree(s: Setup, f: Frame, pos: nat)
    requires Finite(s) && pos <= |f.names| && ListedIn(s, f.dirpath, f.names)
    ensures ListedIn(s, f.dirpath, f.names[pos..]) && ListedIn(s, f.dirpath, f.names[SkipTo(s, f, pos)..])
    ensures VisitAll(s, f.dirpath, f.names[pos..], f.wild)
            == VisitAll(s, f.dirpath, f.names[SkipTo(s, f, pos)..], f.wild)
    ensures CostAll(s, f.dirpath, f.names[pos..], f.wild) == CostAll(s, f.dirpath, f.names[SkipTo(s, f, pos)..], f.wild)
    ensures AnswersAll(s, f.dirpath, f.names[pos..], f.wild)
            == AnswersAll(s, f.dirpath, f.names[SkipTo(s, f, pos)..], f.wild)
    decreases |f.names| - pos
  {
    hide Names, Visit, Answers, Cost, Skipped, Finite;
    if pos < |f.names| && Skipped(s, f.wild, f.names[pos]) {
      assert f.names[pos..][1..] == f.names[pos + 1..] && f.names[pos..][0] == f.names[pos];
      SkipIsFree(s, f, pos + 1);
    }
  }

  /** What a result adds to the actions: the action itself, or nothing. */
  ghost predicate Emits(r: Result, before: seq<Action>, after: seq<Action>) {
    match r
    case Act(a) => before == [a] + after
    case Retry => before == after
    case Finished => before == []
  }

  lemma Pushed(s: Setup, w: Walk, f: Frame)
    requires Inv(s, w) && w.done && w.wild.None? && FrameOk(s, f) && (f.wild.Some? ==> w.stack == [])
    ensures var v := Walk([f] + w.stack, None, true);
            && Inv(s, v) && Todo(s, v) == FrameTodo(s, f) + Todo(s, w)
            && Calls(s, v) == CostAll(s, f.dirpath, f.names[f.pos..], f.wild) + 1 + Calls(s, w)
  {
    hide FrameOk, FrameTodo, Finite, AnswersRoot, ListedIn, AnswersAll, CostAll;
    var v := Walk([f] + w.stack, None, true);
    assert v.stack[1..] == w.stack;
  }

  /** Entering a path that stands in some directory's list. */
  lemma EnterChild(s: Setup, w: Walk, path: Name)
    requires Inv(s, w) && w.stack != [] && Answers(s, path)
    ensures var n := Enter(s, w, path);
            && !n.result.Finished? && Inv(s, n.walk) && Emits(n.result, Visit(s, path) + Todo(s, w), Todo(s, n.walk))
            && Calls(s, n.walk) + 1 == Cost(s, path) + Calls(s, w)
  {
    hide FrameOk, Finite, Names, StackTodo, StackCost;
    match s.stat(path)
    case Missing =>
    case Plain(a) =>
    case Folder(a) =>
      if s.recursive {
        var names := Names(s, path);
        var f := Frame(names, 0, path, None, false);
        assert names[0..] == names;
        FrameStarts(s, f);
        Pushed(s, w, f);
        assert Visit(s, path) + Todo(s, w) == [DirAction(s, path, a)]
               + (VisitAll(s, path, names, None) + [EndDir] + Todo(s, w));
      } else {
        assert [] + Todo(s, w) == Todo(s, w);
      }
  }

  lemma FrameStarts(s: Setup, f: Frame)
    requires Finite(s) && f.pos == 0 && f.names == Names(s, f.dirpath) && AnswersAll(s, f.dirpath, f.names, f.wild)
    ensures FrameOk(s, f)
  {
    assert f.names[0..] == f.names;
  }

  lemma NextName(s: Setup, f: Frame)
    requires Finite(s) && FrameOk(s, f) && SkipTo(s, f, f.pos) < |f.names|
    ensures var p := SkipTo(s, f, f.pos);
            var g := f.(pos := p + 1, matched := true);
            var c := Child(f.dirpath, f.names[p]);
            && FrameOk(s, g) && Answers(s, c) && FrameTodo(s, f) == Visit(s, c) + FrameTodo(s, g)
            && CostAll(s, f.dirpath, f.names[f.pos..], f.wild)
               == Cost(s, c) + CostAll(s, g.dirpath, g.names[g.pos..], g.wild)
  {
    hide Visit, Answers, Cost, Finite, Names, Skipped;
    SkipIsFree(s, f, f.pos);
    var p := SkipTo(s, f, f.pos);
    assert f.names[p..][1..] == f.names[p + 1..] && f.names[p..][0] == f.names[p];
  }

  lemma LastName(s: Setup, f: Frame)
    requires Finite(s) && FrameOk(s, f) && SkipTo(s, f, f.pos) == |f.names|
    ensures FrameTodo(s, f) == if f.wild.Some? then [] else [EndDir]
    ensures CostAll(s, f.dirpath, f.names[f.pos..], f.wild) == 0
  {
    hide Visit, Answers, Cost, Finite, Names, Skipped;
    SkipIsFree(s, f, f.pos);
    assert f.names[|f.names|..] == [];
  }

  lemma StepInside(s: Setup, w: Walk)
    requires Inv(s, w) && w.stack != [] && FrameOk(s, w.stack[0])
    ensures var n := Step(s, w);
            && !n.result.Finished? && Inv(s, n.walk) && Emits(n.result, Todo(s, w), Todo(s, n.walk))
            && Calls(s, n.walk) + 1 == Calls(s, w)
  {
    hide FrameOk, Finite, Names, SkipTo, Enter, Visit, VisitAll, Answers, AnswersAll, Cost, CostAll, FrameTodo,
         ListedIn, AnswersRoot;
    var (f, rest) := (w.stack[0], Walk(w.stack[1..], None, true));
    assert FrameOk(s, f);
    assert Inv(s, rest);
    PosBound(s, f);
    var p := SkipTo(s, f, f.pos);
    if p < |f.names| {
      NextName(s, f);
      var g := f.(pos := p + 1, matched := true);
      var c := Child(f.dirpath, f.names[p]);
      Pushed(s, rest, g);
      var w1 := w.(stack := [g] + w.stack[1..]);
      assert w1 == Walk([g] + rest.stack, None, true);
      EnterChild(s, w1, c);
      assert Visit(s, c) + FrameTodo(s, g) + Todo(s, rest) == Visit(s, c) + (FrameTodo(s, g) + Todo(s, rest));
    } else {
      LastName(s, f);
      assert [] + Todo(s, rest) == Todo(s, rest);
    }
  }

  lemma PosBound(s: Setup, f: Frame)
    requires Finite(s) && FrameOk(s, f)
    ensures f.pos <= |f.names|
  {
  }

  lemma StepFirst(s: Setup, w: Walk)
    requires Inv(s, w) && !w.done
    ensures var n := Step(s, w);
            && (n.result.Finished? <==> Calls(s, w) == 0)
            && (n.result.Finished? ==> Todo(s, w) == [])
            && (!n.result.Finished? ==>
                  Inv(s, n.walk) && Emits(n.result, Todo(s, w), Todo(s, n.walk)) && Calls(s, n.walk) + 1 == Calls(s, w))
  {
    hide FrameOk, Finite, Names;
    var w1 := w.(done := true);
    assert StackTodo(s, []) == [] && StackCost(s, []) == 0;
    match s.stat(s.root)
    case Missing =>
    case Plain(a) => assert Inv(s, w1);
    case Folder(a) =>
      if s.recursive || w.wild.Some? {
        var names := Names(s, s.root);
        var f := Frame(names, 0, s.root, w.wild, false);
        assert names[0..] == names;
        FrameStarts(s, f);
        Pushed(s, Walk([], None, true), f);
        assert [f] + [] == [f];
      }
  }

  /**
   * One call: while actions are left it emits the next of them, or nothing, and comes one call
   * nearer to the end; the transfer ends exactly when no calls are left, and then nothing is left to do.
   */
  lemma StepIs(s: Setup, w: Walk)
    requires Inv(s, w)
    ensures w.stack != [] ==> w.stack[0].pos <= |w.stack[0].names|
    ensures var n := Step(s, w);
            && (n.result.Finished? <==> Calls(s, w) == 0)
            && (n.result.Finished? ==> Todo(s, w) == [])
            && (!n.result.Finished? ==>
                  Inv(s, n.walk) && Emits(n.result, Todo(s, w), Todo(s, n.walk)) && Calls(s, n.walk) + 1 == Calls(s, w))
  {
    hide Finite, Names, Visit, VisitAll, Answers, AnswersAll, Cost, CostAll, FrameTodo, ListedIn, AnswersRoot, Enter,
         SkipTo;
    if w.stack == [] {
      if w.done {
        assert Todo(s, w) == [];
      } else {
        StepFirst(s, w);
      }
    } else {
      assert FrameOk(s, w.stack[0]);
      StepInside(s, w);
      StackCounts(s, w);
    }
  }

  lemma StackCounts(s: Setup, w: Walk)
    requires Inv(s, w) && w.stack != []
    ensures Calls(s, w) > 0
  {
    assert FrameOk(s, w.stack[0]);
  }

  // ----- the whole transfer -----

  /** Calling until the transfer ends, and keeping the actions. */
  ghost function Run(s: Setup, w: Walk): (r: seq<Action>)
    requires Inv(s, w)
    decreases Calls(s, w)
  {
    StepIs(s, w);
    var n := Step(s, w);
    match n.result
    case Finished => []
    case Retry => Run(s, n.walk)
    case Act(a) => [a] + Run(s, n.walk)
  }

  lemma {:induction false} RunIsTodo(s: Setup, w: Walk)
    requires Inv(s, w)
    ensures Run(s, w) == Todo(s, w)
    decreases Calls(s, w)
  {
    hide Todo, Calls, Inv, Step;
    StepIs(s, w);
    RunNext(s, w);
    var n := Step(s, w);
    if !n.result.Finished? {
      RunIsTodo(s, n.walk);
    }
  }

  lemma RunNext(s: Setup, w: Walk)
    requires Inv(s, w)
    ensures w.stack != [] ==> w.stack[0].pos <= |w.stack[0].names|
    ensures var n := Step(s, w);
            match n.result
            case Finished => Run(s, w) == []
            case Retry => Inv(s, n.walk) && Run(s, w) == Run(s, n.walk)
            case Act(a) => Inv(s, n.walk) && Run(s, w) == [a] + Run(s, n.walk)
  {
    hide Todo, Calls, Inv, Step;
    StepIs(s, w);
  }

  /**
   * The download theorem: over every finite remote tree whose server answers, the walk with its
   * stack emits exactly the actions of the recursive traversal, and then ends.
   */
  lemma WalkIsTraversal(s: Setup, wild: Option<Name>)
    requires Finite(s) && AnswersRoot(s, wild)
    ensures Inv(s, Walk([], wild, false)) && Run(s, Walk([], wild, false)) == Download(s, wild)
  {
    RunIsTodo(s, Walk([], wild, false));
  }

  // ----- brackets -----

  /** The depth of directories after some actions; None when one is ended that was not begun. */
  function Nest(d: nat, actions: seq<Action>): Option<nat>
    decreases |actions|
  {
    if actions == [] then Some(d)
    else match actions[0]
      case File(_, _, _, _, _) => Nest(d, actions[1..])
      case Dir(_, _, _, _) => Nest(d + 1, actions[1..])
      case EndDir => if d == 0 then None else Nest(d - 1, actions[1..])
  }

  lemma {:induction false} NestAppend(d: nat, a: seq<Action>, b: seq<Action>)
    ensures Nest(d, a + b) == match Nest(d, a) case Some(e) => Nest(e, b) case None => None
    decreases |a|
  {
    if a == [] {
      assert a + b == b;
    } else {
      assert (a + b)[1..] == a[1..] + b;
      match a[0]
      case File(_, _, _, _, _) => NestAppend(d, a[1..], b);
      case Dir(_, _, _, _) => NestAppend(d + 1, a[1..], b);
      case EndDir => if d > 0 { NestAppend(d - 1, a[1..], b); }
    }
  }

  lemma NestOne(d: nat, a: Action)
    ensures Nest(d, [a]) == if a.File? then Some(d) else if a.Dir? then Some(d + 1)
                            else if d == 0 then None else Some(d - 1)
  {
    assert [a][1..] == [];
  }

  /** Every directory begun is ended, and nothing else is. */
  lemma {:induction false} VisitIsBracketed(s: Setup, path: Name, d: nat)
    requires Finite(s)
    ensures Nest(d, Visit(s, path)) == Some(d)
    decreases s.depth(path), 1, 0
  {
    hide Nest, Finite, Names;
    match s.stat(path)
    case Missing => NestNothing(d);
    case Plain(a) => NestOne(d, FileAction(s, path, a));
    case Folder(a) =>
      if s.recursive {
        var (first, mid) := ([DirAction(s, path, a)], VisitAll(s, path, Names(s, path), None));
        NestOne(d, DirAction(s, path, a));
        VisitAllIsBracketed(s, path, Names(s, path), None, d + 1);
        NestOne(d + 1, EndDir);
        NestAppend(d, first, mid);
        NestAppend(d, first + mid, [EndDir]);
      } else {
        NestNothing(d);
      }
  }

  lemma NestNothing(d: nat)
    ensures Nest(d, []) == Some(d)
  {
  }

  lemma {:induction false} VisitAllIsBracketed(s: Setup, dir: Name, names: seq<Name>, wild: Option<Name>, d: nat)
    requires Finite(s) && ListedIn(s, dir, names)
    ensures Nest(d, VisitAll(s, dir, names, wild)) == Some(d)
    decreases s.depth(dir), 0, |names|
  {
    hide Nest, Visit, Skipped;
    if names == [] {
      NestNothing(d);
    } else {
      assert names[0] in Names(s, dir);
      VisitAllIsBracketed(s, dir, names[1..], wild, d);
      if !Skipped(s, wild, names[0]) {
        var c := Child(dir, names[0]);
        VisitIsBracketed(s, c, d);
        NestAppend(d, Visit(s, c), VisitAll(s, dir, names[1..], wild));
      }
    }
  }

  lemma DownloadIsBracketed(s: Setup, wild: Option<Name>)
    requires Finite(s)
    ensures Nest(0, Download(s, wild)) == Some(0)
  {
    if s.stat(s.root).Folder? && wild.Some? {
      VisitAllIsBracketed(s, s.root, Names(s, s.root), wild, 0);
    } else {
      VisitIsBracketed(s, s.root, 0);
    }
  }

  /** An action below a directory is named as its directory's list names it. */
  lemma {:induction false} NameOfChild(dir: Name, n: Name)
    requires '/' !in n
    ensures LastPart(Child(dir, n)) == n
    decreases |dir|
  {
    var p := Child(dir, n);
    if dir == [] {
      assert p[1..] == n;
    } else {
      NameOfChild(dir[1..], n);
      assert p[1..] == Child(dir[1..], n);
      assert p[1..][|dir| - 1] == '/';
      assert '/' in p[1..];
    }
  }

  // ----- what may come of it, whatever the server answers -----

  /** The batches before the first empty one. */
  function Full(batches: seq<seq<Name>>): seq<seq<Name>> {
    if batches == [] || batches[0] == [] then [] else [batches[0]] + Full(batches[1..])
  }

  function Joined(batches: seq<seq<Name>>): seq<Name> {
    if batches == [] then [] else batches[0] + Joined(batches[1..])
  }

  lemma {:induction false} FilterCounts(s: Setup, names: seq<Name>, n: Name)
    ensures multiset(Filter(s, names))[n] == if n != "." && n != ".." && s.vet(n) then multiset(names)[n] else 0
  {
    if names != [] {
      FilterCounts(s, names[1..], n);
      assert names == [names[0]] + names[1..];
    }
  }

  /**
   * A directory's list has every name the server gave before an empty batch, as often as it was given, but
   * neither of the two dot names and none that the platform's check refuses.
   */
  lemma {:induction false} NamesExactly(s: Setup, batches: seq<seq<Name>>, n: Name)
    ensures multiset(Gather(s, batches))[n]
            == if n != "." && n != ".." && s.vet(n) then multiset(Joined(Full(batches)))[n] else 0
  {
    if batches != [] && batches[0] != [] {
      NamesExactly(s, batches[1..], n);
      FilterCounts(s, batches[0], n);
      assert Full(batches)[0] == batches[0] && Full(batches)[1..] == Full(batches[1..]);
    }
  }

  /** The server listed this name in this directory, it passed the check, and it is not all dots. */
  ghost predicate Listed(s: Setup, dir: Name, n: Name) {
    && s.readdir(dir).Some? && n in Joined(Full(s.readdir(dir).value))
    && s.vet(n) && !Only(n, '.')
  }

  /** The path is the target of the transfer, or goes down from it by names that were listed. */
  ghost predicate Under(s: Setup, p: Name)
    decreases |p|
  {
    p == s.root || exists dir: Name, n: Name :: p == Child(dir, n) && Listed(s, dir, n) && |dir| < |p| && Under(s, dir)
  }

  /** What an action says is what the server said of that path, and a directory is only made when recursing. */
  ghost predicate Honest(s: Setup, a: Action) {
    match a
    case File(path, name, perms, size, times) =>
      && s.stat(path).Plain? && EndsIn(path, name)
      && var t := s.stat(path).attrs;
         && perms == t.perms % 0x1000 && times == (if s.preserve then t.times else None)
         && size == (match t.size case Some(n) => n case None => 18446744073709551615)
    case Dir(path, name, perms, times) =>
      && s.recursive && s.stat(path).Folder? && EndsIn(path, name)
      && var t := s.stat(path).attrs;
         perms == t.perms % 0x1000 && times == (if s.preserve then t.times else None)
    case EndDir => true
  }

  /** name is what follows the last slash of the path. */
  ghost predicate EndsIn(path: Name, name: Name) {
    '/' !in name && exists dir: Name :: path == dir + name && (dir == "" || dir[|dir| - 1] == '/')
  }

  lemma OneMoreInFront(p: Name, name: Name)
    requires p != "" && '/' in p[1..] && EndsIn(p[1..], name)
    ensures EndsIn(p, name)
  {
    var dir: Name :| p[1..] == dir + name && (dir == "" || dir[|dir| - 1] == '/');
    assert "" + name == name;
    assert dir != "";
    var longer := [p[0]] + dir;
    assert p == [p[0]] + p[1..];
    assert p == longer + name;
    assert longer[|longer| - 1] == dir[|dir| - 1];
  }

  lemma {:induction false} LastPartIs(p: Name)
    ensures EndsIn(p, LastPart(p))
    decreases |p|
  {
    if '/' !in p {
      assert p == "" + p;
    } else if p[0] == '/' && '/' !in p[1..] {
      assert p == "/" + p[1..];
    } else {
      hide EndsIn;
      LastPartIs(p[1..]);
      assert '/' in p[1..];
      OneMoreInFront(p, LastPart(p[1..]));
    }
  }

  /** Every directory on the stack is under the target, and its names are from its own list. */
  ghost predicate Sane(s: Setup, w: Walk) {
    && (forall i :: 0 <= i < |w.stack| ==>
          w.stack[i].pos <= |w.stack[i].names| && Under(s, w.stack[i].dirpath)
          && ListedIn(s, w.stack[i].dirpath, w.stack[i].names))
    && (w.stack != [] ==> w.wild.None?)
    && (forall i :: 0 <= i < |w.stack| && w.stack[i].wild.Some? ==> w.stack[i].dirpath == s.root)
  }

  lemma ListedNames(s: Setup, dir: Name, n: Name)
    requires n in Names(s, dir) && !Only(n, '.')
    ensures Listed(s, dir, n)
  {
    var b := s.readdir(dir).value;
    NamesExactly(s, b, n);
    assert multiset(Gather(s, b))[n] > 0;
  }

  lemma EnterIsHonest(s: Setup, w: Walk, path: Name)
    requires Sane(s, w) && Under(s, path) && (w.wild.Some? ==> path == s.root && w.stack == [])
    ensures var x := Enter(s, w, path);
            Sane(s, x.walk) && (x.result.Act? ==> x.result.action != EndDir && Tells(s, path, x.result.action))
  {
    LastPartIs(path);
    hide Under, Names, LastPart, EndsIn;
  }

  /** The action is true and about this path. */
  ghost predicate Tells(s: Setup, path: Name, a: Action) {
    Honest(s, a) && !a.EndDir? && a.path == path
  }

  /** The entry under the wildcard of the top directory matches it. */
  ghost predicate Reached(s: Setup, w: Walk, a: Action) {
    && Honest(s, a)
    && (!a.EndDir? ==>
          && Under(s, a.path)
          && (w.stack != [] && w.stack[0].wild.Some? ==>
                exists n :: Listed(s, s.root, n) && a.path == Child(s.root, n) && s.matches(w.stack[0].wild.value, n)))
  }

  lemma StepIsHonest(s: Setup, w: Walk)
    requires Sane(s, w)
    ensures w.stack != [] ==> w.stack[0].pos <= |w.stack[0].names|
    ensures var x := Step(s, w); Sane(s, x.walk) && (x.result.Act? ==> Reached(s, w, x.result.action))
  {
    hide Listed, Honest, ListedIn, Under;
    if w.stack == [] {
      if !w.done {
        TargetIsUnder(s);
        EnterIsHonest(s, w.(done := true), s.root);
        hide Enter;
      }
    } else if SkipTo(s, w.stack[0], w.stack[0].pos) < |w.stack[0].names| {
      NextIsHonest(s, w);
    } else {
      EndIsHonest(s);
      assert forall i :: 0 <= i < |w.stack[1..]| ==> w.stack[1..][i] == w.stack[i + 1];
      hide Enter, SkipTo;
    }
  }

  lemma TargetIsUnder(s: Setup)
    ensures Under(s, s.root)
  {
  }

  lemma NextEntry(s: Setup, w: Walk) returns (u: Walk, n: Name)
    requires Sane(s, w) && w.stack != [] && SkipTo(s, w.stack[0], w.stack[0].pos) < |w.stack[0].names|
    ensures Step(s, w) == Enter(s, u, Child(w.stack[0].dirpath, n)) && Sane(s, u) && u.wild.None?
    ensures Listed(s, w.stack[0].dirpath, n) && (w.stack[0].wild.Some? ==> s.matches(w.stack[0].wild.value, n))
  {
    var f := w.stack[0];
    var p := SkipTo(s, f, f.pos);
    n := f.names[p];
    InList(s, f.dirpath, f.names, p);
    ListedNames(s, f.dirpath, n);
    u := w.(stack := [f.(pos := p + 1, matched := true)] + w.stack[1..]);
    hide Under, Enter, SkipTo, Listed, ListedIn, Child;
  }

  lemma ChildIsUnder(s: Setup, dir: Name, n: Name)
    requires Under(s, dir) && Listed(s, dir, n)
    ensures Under(s, Child(dir, n))
  {
    hide Listed;
  }

  lemma NextIsHonest(s: Setup, w: Walk)
    requires Sane(s, w) && w.stack != [] && SkipTo(s, w.stack[0], w.stack[0].pos) < |w.stack[0].names|
    ensures var x := Step(s, w); Sane(s, x.walk) && (x.result.Act? ==> Reached(s, w, x.result.action))
  {
    var u, n := NextEntry(s, w);
    var f := w.stack[0];
    assert Under(s, f.dirpath) && (f.wild.Some? ==> f.dirpath == s.root);
    hide Under, Enter, SkipTo, Listed, Honest, ListedIn, Child, Step, Sane;
    ChildIsUnder(s, f.dirpath, n);
    EnterIsHonest(s, u, Child(f.dirpath, n));
  }

  lemma InList(s: Setup, dir: Name, names: seq<Name>, p: nat)
    requires ListedIn(s, dir, names) && p < |names|
    ensures names[p] in Names(s, dir)
  {
    hide Names;
  }

  lemma EndIsHonest(s: Setup)
    ensures Honest(s, EndDir)
  {
  }

  /** What the first n calls emit, up to the one that ends the transfer. */
  ghost function Emitted(s: Setup, w: Walk, n: nat): seq<Action>
    requires Sane(s, w)
    decreases n
  {
    if n == 0 then []
    else
      StepIsHonest(s, w);
      var x := Step(s, w);
      match x.result
      case Finished => []
      case Retry => Emitted(s, x.walk, n - 1)
      case Act(a) => [a] + Emitted(s, x.walk, n - 1)
  }

  /**
   * Whatever the server answers, and however long the walk goes on: every action is about the target or a path
   * under it by listed names that passed the check, and says what the server said of that path.
   */
  lemma {:induction false} EveryActionIsHonest(s: Setup, w: Walk, n: nat)
    requires Sane(s, w)
    ensures forall a :: a in Emitted(s, w, n) ==> Honest(s, a) && (a.EndDir? || Under(s, a.path))
    decreases n
  {
    hide Sane, Step, Honest, Under;
    if n > 0 {
      StepIsHonest(s, w);
      var x := Step(s, w);
      if !x.result.Finished? {
        EveryActionIsHonest(s, x.walk, n - 1);
      }
    }
  }

  lemma TransferIsHonest(s: Setup, wild: Option<Name>, n: nat)
    ensures Sane(s, Walk([], wild, false))
    ensures forall a :: a in Emitted(s, Walk([], wild, false), n) ==> Honest(s, a) && (a.EndDir? || Under(s, a.path))
  {
    EveryActionIsHonest(s, Walk([], wild, false), n);
  }
}
