/**
 * Top-level callbacks: a linked list relinked in place, seen as a first-in first-out queue, and
 * the flag that keeps an idempotent callback from being queued twice.
 */
module Callbacks {
  import opened Bytes

  /** A plain function with its context, or the runner of an idempotent callback. */
  datatype Task = Plain(fn: nat, ctx: nat) | Idempotent(ic: nat)

  // ----- the queue as a value -----

  /** What is queued, which idempotent callbacks have their flag set, what is running, what has run. */
  datatype State = State(tasks: seq<Task>, queued: set<nat>, running: Option<Task>, ran: seq<Task>)

  function Filter(ts: seq<Task>, drop: Task -> bool): seq<Task> {
    if ts == [] then []
    else if drop(ts[0]) then Filter(ts[1..], drop)
    else [ts[0]] + Filter(ts[1..], drop)
  }

  /** Begin and End are the two halves of running the head; its function may do anything in between. */
  datatype Op =
    | Queue(fn: nat, ctx: nat)
    | QueueIdempotent(ic: nat)
    | Delete(drop: Task -> bool)
    | Begin
    | End

  function Cleared(queued: set<nat>, t: Task): set<nat> {
    if t.Idempotent? then queued - {t.ic} else queued
  }

  function Do(st: State, op: Op): State {
    match op
    case Queue(fn, ctx) => st.(tasks := st.tasks + [Plain(fn, ctx)])
    case QueueIdempotent(ic) =>
      if ic in st.queued then st else st.(queued := st.queued + {ic}, tasks := st.tasks + [Idempotent(ic)])
    case Delete(drop) => st.(tasks := Filter(st.tasks, drop))
    case Begin =>
      if st.tasks == [] then st
      else State(st.tasks[1..], Cleared(st.queued, st.tasks[0]), Some(st.tasks[0]), st.ran + [st.tasks[0]])
    case End => st.(running := None)
  }

  function DoAll(st: State, ops: seq<Op>): State
    decreases |ops|
  {
    if ops == [] then st else DoAll(Do(st, ops[0]), ops[1..])
  }

  /** An idempotent callback stands in the queue at most once, and only with its flag set. */
  predicate OnceEach(ts: seq<Task>, queued: set<nat>) {
    && (forall i :: 0 <= i < |ts| && ts[i].Idempotent? ==> ts[i].ic in queued)
    && (forall i, j :: 0 <= i < j < |ts| && ts[i].Idempotent? ==> ts[i] != ts[j])
  }

  lemma {:induction false} FilterIs(ts: seq<Task>, drop: Task -> bool)
    ensures forall t :: t in Filter(ts, drop) <==> t in ts && !drop(t)
    ensures multiset(Filter(ts, drop)) <= multiset(ts)
  {
    if ts != [] {
      FilterIs(ts[1..], drop);
      assert ts == [ts[0]] + ts[1..];
    }
  }

  lemma {:induction false} FilterKeepsOnce(ts: seq<Task>, drop: Task -> bool, queued: set<nat>)
    requires OnceEach(ts, queued)
    ensures OnceEach(Filter(ts, drop), queued)
  {
    if ts != [] {
      FilterIs(ts[1..], drop);
      FilterKeepsOnce(ts[1..], drop, queued);
      var rest := Filter(ts[1..], drop);
      if !drop(ts[0]) {
        var r := [ts[0]] + rest;
        forall i, j | 0 <= i < j < |r| && r[i].Idempotent?
          ensures r[i] != r[j]
        {
          if i == 0 {
            assert r[j] in rest;
          } else {
            assert rest[i - 1] == r[i] && rest[j - 1] == r[j];
          }
        }
      }
    }
  }

  /** Filtering keeps the order: it drops nothing from a part and adds nothing between parts. */
  lemma {:induction false} FilterAppend(a: seq<Task>, b: seq<Task>, drop: Task -> bool)
    ensures Filter(a + b, drop) == Filter(a, drop) + Filter(b, drop)
  {
    if a == [] {
      assert a + b == b;
    } else {
      FilterAppend(a[1..], b, drop);
      assert (a + b)[1..] == a[1..] + b && (a + b)[0] == a[0];
      assert [a[0]] + (Filter(a[1..], drop) + Filter(b, drop)) == [a[0]] + Filter(a[1..], drop) + Filter(b, drop);
    }
  }

  lemma DoKeepsOnce(st: State, op: Op)
    requires OnceEach(st.tasks, st.queued)
    ensures OnceEach(Do(st, op).tasks, Do(st, op).queued)
  {
    hide Filter;
    match op
    case Delete(drop) => FilterKeepsOnce(st.tasks, drop, st.queued);
    case _ =>
  }

  /** In every history, from a queue that has the property. */
  lemma {:induction false} EveryHistoryOnce(st: State, ops: seq<Op>)
    requires OnceEach(st.tasks, st.queued)
    ensures OnceEach(DoAll(st, ops).tasks, DoAll(st, ops).queued)
    decreases |ops|
  {
    hide OnceEach, Do;
    if ops != [] {
      DoKeepsOnce(st, ops[0]);
      EveryHistoryOnce(Do(st, ops[0]), ops[1..]);
    }
  }

  /** The tasks an operation adds, given which flags are set. */
  function Added(st: State, op: Op): seq<Task> {
    match op
    case Queue(fn, ctx) => [Plain(fn, ctx)]
    case QueueIdempotent(ic) => if ic in st.queued then [] else [Idempotent(ic)]
    case _ => []
  }

  function AllAdded(st: State, ops: seq<Op>): seq<Task>
    decreases |ops|
  {
    if ops == [] then [] else Added(st, ops[0]) + AllAdded(Do(st, ops[0]), ops[1..])
  }

  /** Without deletions everything queued is run once, in the order of queueing. */
  lemma {:induction false} FirstInFirstOut(st: State, ops: seq<Op>)
    requires forall i :: 0 <= i < |ops| ==> !ops[i].Delete?
    ensures DoAll(st, ops).ran + DoAll(st, ops).tasks == st.ran + st.tasks + AllAdded(st, ops)
    decreases |ops|
  {
    if ops == [] {
      assert st.ran + st.tasks + [] == st.ran + st.tasks;
    } else {
      var next := Do(st, ops[0]);
      assert !ops[0].Delete?;
      FirstInFirstOut(next, ops[1..]);
      assert next.ran + next.tasks == st.ran + st.tasks + Added(st, ops[0]);
      assert st.ran + st.tasks + Added(st, ops[0]) + AllAdded(next, ops[1..])
             == st.ran + st.tasks + (Added(st, ops[0]) + AllAdded(next, ops[1..]));
    }
  }

  /**
   * Deleting an idempotent callback from the queue does not reset its flag, and from then on no
   * history queues or runs it again.
   */
  lemma {:induction false} DeletedNeverReturns(st: State, ops: seq<Op>, ic: nat)
    requires ic in st.queued && Idempotent(ic) !in st.tasks
    ensures ic in DoAll(st, ops).queued && Idempotent(ic) !in DoAll(st, ops).tasks
    ensures Idempotent(ic) in DoAll(st, ops).ran ==> Idempotent(ic) in st.ran
    decreases |ops|
  {
    hide Filter;
    if ops != [] {
      var next := Do(st, ops[0]);
      if ops[0].Delete? {
        FilterIs(st.tasks, ops[0].drop);
      }
      DeletedNeverReturns(next, ops[1..], ic);
    }
  }

  /** A flag is set exactly when its callback stands in the queue. */
  ghost predicate Agrees(st: State) {
    forall ic: nat :: ic in st.queued <==> Idempotent(ic) in st.tasks
  }

  /** The deletion takes no idempotent callback that is queued. */
  predicate Spares(ts: seq<Task>, drop: Task -> bool) {
    forall t :: t in ts && t.Idempotent? ==> !drop(t)
  }

  /** Deleting leaves flags set, so it breaks the agreement exactly when it takes an idempotent callback. */
  lemma DeleteKeepsExactly(st: State, drop: Task -> bool)
    requires Agrees(st)
    ensures Agrees(Do(st, Delete(drop))) <==> Spares(st.tasks, drop)
    ensures forall ic: nat :: ic in st.queued && Idempotent(ic) !in Do(st, Delete(drop)).tasks
              <==> Idempotent(ic) in st.tasks && drop(Idempotent(ic))
  {
    hide Filter;
    FilterIs(st.tasks, drop);
    var next := Do(st, Delete(drop));
    if t :| t in st.tasks && t.Idempotent? && drop(t) {
      assert t == Idempotent(t.ic) && t.ic in next.queued && Idempotent(t.ic) !in next.tasks;
    }
  }

  lemma DoKeepsAgreement(st: State, op: Op)
    requires OnceEach(st.tasks, st.queued) && Agrees(st) && !op.Delete?
    ensures Agrees(Do(st, op))
  {
    hide Filter;
    var next := Do(st, op);
    if op.Begin? && st.tasks != [] {
      assert st.tasks == [st.tasks[0]] + next.tasks;
      assert forall t :: t in next.tasks && t.Idempotent? ==> t != st.tasks[0];
    }
  }

  /** No deletion of the history takes an idempotent callback that is queued at that time. */
  predicate AllSpare(st: State, ops: seq<Op>)
    decreases |ops|
  {
    ops == [] ||
    ((ops[0].Delete? ==> Spares(st.tasks, ops[0].drop)) && AllSpare(Do(st, ops[0]), ops[1..]))
  }

  /** Flags and queue agree after a history exactly when each of its deletions spared what was queued. */
  lemma {:induction false} HistoryAgreesExactly(st: State, ops: seq<Op>)
    requires OnceEach(st.tasks, st.queued) && Agrees(st)
    ensures Agrees(DoAll(st, ops)) <==> AllSpare(st, ops)
    decreases |ops|
  {
    hide Filter, OnceEach;
    if ops != [] {
      var next := Do(st, ops[0]);
      DoKeepsOnce(st, ops[0]);
      if ops[0].Delete? {
        DeleteKeepsExactly(st, ops[0].drop);
      } else {
        DoKeepsAgreement(st, ops[0]);
      }
      hide Do;
      if Agrees(next) {
        HistoryAgreesExactly(next, ops[1..]);
      } else {
        BrokenStaysBroken(next, ops[1..]);
      }
    }
  }

  lemma BrokenStaysBroken(st: State, ops: seq<Op>)
    requires OnceEach(st.tasks, st.queued) && !Agrees(st)
    ensures !Agrees(DoAll(st, ops))
  {
    hide Do, DoAll;
    var ic: nat :| ic in st.queued && Idempotent(ic) !in st.tasks;
    DeletedNeverReturns(st, ops, ic);
  }

  /** Queueing an idempotent callback leaves it in the queue, whichever it is, exactly when they agree. */
  lemma QueueingWorksExactly(st: State)
    requires OnceEach(st.tasks, st.queued)
    ensures (forall ic: nat :: Idempotent(ic) in Do(st, QueueIdempotent(ic)).tasks) <==> Agrees(st)
  {
    if !Agrees(st) {
      var ic: nat :| ic in st.queued && Idempotent(ic) !in st.tasks;
      assert Do(st, QueueIdempotent(ic)) == st;
    }
  }

  // ----- deleting what belongs to a context -----

  /**
   * callback_is_for_context: the context is the callback's own, or that of the idempotent callback
   * it runs. An idempotent callback's number stands for its address, and icCtx gives its context.
   */
  predicate ForContext(t: Task, ctx: nat, icCtx: nat -> nat) {
    match t
    case Plain(_, own) => own == ctx
    case Idempotent(ic) => ic == ctx || icCtx(ic) == ctx
  }

  function DeleteFor(ctx: nat, icCtx: nat -> nat): Op {
    Delete(t => ForContext(t, ctx, icCtx))
  }

  /**
   * A freed context is out of the queue, nothing else is touched, and flags and queue agree
   * afterwards exactly when none of the context's idempotent callbacks was waiting.
   */
  lemma ContextIsGoneExactly(st: State, ctx: nat, icCtx: nat -> nat)
    requires Agrees(st)
    ensures var next := Do(st, DeleteFor(ctx, icCtx));
            && (forall fn, own :: Plain(fn, own) in next.tasks <==> Plain(fn, own) in st.tasks && own != ctx)
            && (forall ic :: Idempotent(ic) in next.tasks
                             <==> Idempotent(ic) in st.tasks && ic != ctx && icCtx(ic) != ctx)
            && (Agrees(next) <==> forall ic: nat :: ic in st.queued ==> ic != ctx && icCtx(ic) != ctx)
  {
    hide Filter;
    var drop := t => ForContext(t, ctx, icCtx);
    assert DeleteFor(ctx, icCtx) == Delete(drop);
    FilterIs(st.tasks, drop);
    DeleteKeepsExactly(st, drop);
    if ic: nat :| ic in st.queued && (ic == ctx || icCtx(ic) == ctx) {
      assert Idempotent(ic) in st.tasks && drop(Idempotent(ic));
    }
  }

  // ----- the linked list -----

  class Callback {
    const task: Task
    var next: Callback?

    constructor (task: Task)
      ensures this.task == task && next == null
    {
      this.task, next := task, null;
    }
  }

  predicate Distinct(ns: seq<Callback>) {
    forall i, j :: 0 <= i < j < |ns| ==> ns[i] != ns[j]
  }

  /** Each node's next is the node after it. */
  ghost predicate Linked(ns: seq<Callback>)
    reads ns
  {
    forall i :: 0 <= i < |ns| - 1 ==> ns[i].next == ns[i + 1]
  }

  ghost predicate NextIs(ns: seq<Callback>, k: nat)
    requires k < |ns|
    reads ns[k]
  {
    ns[k].next == if k + 1 < |ns| then ns[k + 1] else null
  }

  ghost function TasksOf(ns: seq<Callback>): (r: seq<Task>)
    ensures |r| == |ns| && forall i :: 0 <= i < |r| ==> r[i] == ns[i].task
  {
    seq(|ns|, i requires 0 <= i < |ns| => ns[i].task)
  }

  class CallbackQueue {
    var cbhead: Callback?
    var cbtail: Callback?
    var cbcurr: Callback?
    var queued: set<nat>
    const notifyFrontend: bool
    var notified: nat
    /** The nodes from head to tail. */
    ghost var nodes: seq<Callback>
    ghost var ran: seq<Task>

    ghost predicate Valid()
      reads this, nodes
    {
      && Distinct(nodes) && Linked(nodes)
      && (nodes == [] ==> cbhead == null && cbtail == null)
      && (nodes != [] ==> cbhead == nodes[0] && cbtail == nodes[|nodes| - 1] && nodes[|nodes| - 1].next == null)
    }

    ghost function View(): State
      reads this, nodes
    {
      State(TasksOf(nodes), queued, if cbcurr == null then None else Some(cbcurr.task), ran)
    }

    constructor (notifyFrontend: bool)
      ensures Valid() && View() == State([], {}, None, []) && nodes == []
    {
      this.notifyFrontend := notifyFrontend;
      cbhead, cbtail, cbcurr, queued, notified := null, null, null, {}, 0;
      nodes, ran := [], [];
    }

    method Append(task: Task)
      requires Valid()
      modifies this, nodes
      ensures Valid() && fresh(set n | n in nodes && n !in old(nodes))
      ensures View() == old(View()).(tasks := old(View()).tasks + [task])
      ensures notified == old(notified)
              + (if notifyFrontend && old(View()).tasks == [] && old(View()).running.None? then 1 else 0)
    {
      var cb := new Callback(task);
      if notifyFrontend && cbhead == null && cbcurr == null {
        notified := notified + 1;
      }
      if cbtail != null {
        cbtail.next := cb;
      } else {
        cbhead := cb;
      }
      cbtail := cb;
      nodes := nodes + [cb];
    }

    /** queue_toplevel_callback */
    method Queue(fn: nat, ctx: nat)
      requires Valid()
      modifies this, nodes
      ensures Valid() && View() == Do(old(View()), Op.Queue(fn, ctx))
    {
      Append(Plain(fn, ctx));
    }

    /** queue_idempotent_callback */
    method QueueIdempotent(ic: nat)
      requires Valid()
      modifies this, nodes
      ensures Valid() && View() == Do(old(View()), Op.QueueIdempotent(ic))
    {
      if ic in queued {
        return;
      }
      queued := queued + {ic};
      Append(Idempotent(ic));
    }

    /** The node that stays is linked behind the last one that stays. */
    method LinkUp(newtail: Callback?, cb: Callback, ghost kept: seq<Callback>)
      requires Distinct(kept) && Linked(kept) && cb !in kept
      requires if kept == [] then newtail == null else newtail == kept[|kept| - 1]
      modifies if newtail == null then {} else {newtail}
      ensures Distinct(kept + [cb]) && Linked(kept + [cb])
    {
      if newtail != null {
        newtail.next := cb;
      }
    }

    /** The loop of delete_callbacks: the nodes that stay are linked up again one by one. */
    method Sift(drop: Task -> bool) returns (newhead: Callback?, newtail: Callback?, ghost kept: seq<Callback>)
      requires Valid()
      modifies this`cbhead, nodes
      ensures Distinct(kept) && Linked(kept) && (forall n :: n in kept ==> n in nodes)
      ensures if kept == [] then newhead == null && newtail == null
              else newhead == kept[0] && newtail == kept[|kept| - 1]
      ensures TasksOf(kept) == Filter(TasksOf(nodes), drop)
    {
      hide Filter, TasksOf;
      newhead, newtail, kept := null, null, [];
      ghost var all, i: nat := nodes, 0;
      FilterNothing(drop);
      NoTasks();
      assert all[..0] == [];
      assert forall k :: 0 <= k < |all| ==> NextIs(all, k);
      hide Distinct, Linked, Valid;
      while cbhead != null
        invariant i <= |all|
        invariant cbhead == if i < |all| then all[i] else null
        invariant forall k :: i <= k < |all| ==> NextIs(all, k)
        invariant Distinct(kept) && Linked(kept) && forall n :: n in kept ==> n in all[..i]
        invariant if kept == [] then newhead == null && newtail == null
                  else newhead == kept[0] && newtail == kept[|kept| - 1]
        invariant TasksOf(kept) == Filter(TasksOf(all[..i]), drop)
        decreases |all| - i
      {
        var cb := cbhead;
        assert NextIs(all, i);
        cbhead := cbhead.next;
        FilterOneMore(all, i, drop);
        if !drop(cb.task) {
          KeptIsBehind(all, i, kept);
          if newhead == null {
            newhead := cb;
          }
          LinkUp(newtail, cb, kept);
          newtail := cb;
          TasksAppend(kept, cb);
          kept := kept + [cb];
        }
        i := i + 1;
      }
      assert all[..|all|] == all;
    }

    /** delete_callbacks */
    method Delete(drop: Task -> bool)
      requires Valid()
      modifies this, nodes
      ensures Valid() && View() == Do(old(View()), Op.Delete(drop))
      ensures forall n :: n in nodes ==> n in old(nodes)
    {
      hide Filter, TasksOf;
      var newhead, newtail;
      ghost var kept;
      newhead, newtail, kept := Sift(drop);
      cbhead := newhead;
      cbtail := newtail;
      if newtail != null {
        assert newtail in kept;
        newtail.next := null;
      }
      nodes := kept;
    }

    /** delete_callbacks_for_context */
    method DeleteForContext(ctx: nat, icCtx: nat -> nat)
      requires Valid()
      modifies this, nodes
      ensures Valid() && View() == Do(old(View()), DeleteFor(ctx, icCtx))
      ensures forall n :: n in nodes ==> n in old(nodes)
    {
      hide Filter, TasksOf;
      Delete(DeleteFor(ctx, icCtx).drop);
    }

    /** run_toplevel_callbacks, up to the call: the head is taken off the queue and is now running. */
    method BeginRun() returns (task: Option<Task>)
      requires Valid() && cbcurr == null
      modifies this
      ensures Valid() && View() == Do(old(View()), Begin)
      ensures task == View().running
    {
      if cbhead == null {
        return None;
      }
      cbcurr := cbhead;
      cbhead := cbhead.next;
      if cbhead == null {
        cbtail := null;
      }
      if cbcurr.task.Idempotent? {
        queued := queued - {cbcurr.task.ic};
      }
      ran := ran + [cbcurr.task];
      assert |nodes| > 1 ==> nodes[0].next == nodes[1];
      nodes := nodes[1..];
      return Some(cbcurr.task);
    }

    /** run_toplevel_callbacks, after the call */
    method EndRun()
      requires Valid()
      modifies this`cbcurr
      ensures Valid() && View() == Do(old(View()), End)
    {
      cbcurr := null;
    }

    /** toplevel_callback_pending */
    method Pending() returns (r: bool)
      requires Valid()
      ensures r <==> View().running.Some? || View().tasks != []
    {
      return cbcurr != null || cbhead != null;
    }
  }

  lemma NoTasks()
    ensures TasksOf([]) == []
  {
  }

  lemma TasksAppend(ns: seq<Callback>, n: Callback)
    ensures TasksOf(ns + [n]) == TasksOf(ns) + [n.task]
  {
  }

  lemma KeptIsBehind(all: seq<Callback>, i: nat, kept: seq<Callback>)
    requires i <= |all| && Distinct(all) && forall n :: n in kept ==> n in all[..i]
    ensures kept != [] ==> kept[|kept| - 1] in all
    ensures forall k :: i <= k < |all| ==> all[k] !in kept
  {
    assert kept != [] ==> kept[|kept| - 1] in all[..i];
  }

  lemma FilterNothing(drop: Task -> bool)
    ensures Filter([], drop) == []
  {
  }

  lemma FilterOneMore(ns: seq<Callback>, i: nat, drop: Task -> bool)
    requires i < |ns|
    ensures Filter(TasksOf(ns[..i + 1]), drop)
            == Filter(TasksOf(ns[..i]), drop) + (if drop(ns[i].task) then [] else [ns[i].task])
  {
    var t := ns[i].task;
    assert TasksOf(ns[..i + 1]) == TasksOf(ns[..i]) + [t];
    FilterAppend(TasksOf(ns[..i]), [t], drop);
    assert [t][1..] == [];
  }
}
