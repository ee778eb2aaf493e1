/**
 The per-subscriber procedure scheduler of cp/procedures/proc.c: a FIFO of procedures with a
 RUNNING flag, an exemption that lets children of a re-auth request (RAR) run beside their
 parent, and completion handlers that re-enter the scheduler.

 A procedure carries the script its handler runs when the procedure is launched: a finite tree
 of further starts and completions, so re-entrancy of any depth is covered, including a handler
 that completes its own procedure. The functions define the scheduler on values; class
 `Subscriber` below updates a queue in place as proc.c does, and is proved equal to them.
 */
module Scheduler {
  import opened Basics


  /** `Other` stands for the procedure types whose end only sets a state: S1 release, service request, paging, usage report. */
  datatype Kind = Attach | Detach | NetworkDetach | Rar | DedicatedBearer | Other

  datatype Proc = Proc(id: nat, kind: Kind, parent: Option<nat>, script: seq<Op>)

  datatype Op = Start(p: Proc) | End(id: nat, success: bool)

  /** A queued procedure, with its place in the order of arrival. */
  datatype Entry = Entry(proc: Proc, pos: nat, running: bool)

  /**
   `arrived` and `launched` are the history: every procedure started so far and the arrival
   positions in order of launch. `released` says the subscriber was cleaned up; `dangling` that
   a completion went on using the subscriber after that.
   */
  datatype Sub = Sub(
    queue: seq<Entry>,
    children: map<nat, nat>,
    arrived: seq<Proc>,
    launched: seq<nat>,
    released: bool,
    dangling: bool)

  const Fresh := Sub([], map[], [], [], false, false)

  // ------------------------------------------------------------------ size, for termination

  function OpsWeight(ops: seq<Op>): nat
    decreases ops
  {
    if ops == [] then 0 else OpWeight(ops[0]) + OpsWeight(ops[1..])
  }

  function OpWeight(op: Op): nat
    decreases op
  {
    match op
    case Start(p) => 2 + OpsWeight(p.script)
    case End(_, _) => 1
  }

  /** What the procedures still waiting in the queue may yet do. */
  function Waiting(q: seq<Entry>): nat {
    if q == [] then 0 else
    (if q[0].running then 0 else 1 + OpsWeight(q[0].proc.script)) + Waiting(q[1..])
  }

  lemma {:induction false} WaitingSplit(a: seq<Entry>, b: seq<Entry>)
    ensures Waiting(a + b) == Waiting(a) + Waiting(b)
  {
    if a == [] {
      assert a + b == b;
    } else {
      WaitingSplit(a[1..], b);
      assert (a + b)[1..] == a[1..] + b;
    }
  }

  lemma WaitingAt(q: seq<Entry>, i: nat)
    requires i < |q|
    ensures Waiting(q) == Waiting(q[..i]) + Waiting([q[i]]) + Waiting(q[i + 1..])
  {
    assert q == q[..i] + ([q[i]] + q[i + 1..]);
    WaitingSplit(q[..i], [q[i]] + q[i + 1..]);
    WaitingSplit([q[i]], q[i + 1..]);
  }

  lemma WaitingUpdate(q: seq<Entry>, i: nat)
    requires i < |q| && !q[i].running
    ensures Waiting(q[i := q[i].(running := true)]) + 1 + OpsWeight(q[i].proc.script) == Waiting(q)
  {
    var q' := q[i := q[i].(running := true)];
    WaitingAt(q, i);
    WaitingAt(q', i);
    assert q'[..i] == q[..i] && q'[i + 1..] == q[i + 1..];
  }

  lemma WaitingRemove(q: seq<Entry>, i: nat)
    requires i < |q| && q[i].running
    ensures Waiting(q[..i] + q[i + 1..]) == Waiting(q)
  {
    WaitingAt(q, i);
    WaitingSplit(q[..i], q[i + 1..]);
  }

  // ------------------------------------------------------------------ the scheduler on values

  function IndexOf(q: seq<Entry>, id: nat): (i: nat)
    ensures i <= |q|
    ensures i < |q| ==> q[i].proc.id == id
    ensures forall j :: 0 <= j < i ==> q[j].proc.id != id
  {
    if q == [] || q[0].proc.id == id then 0 else 1 + IndexOf(q[1..], id)
  }

  function FirstWaiting(q: seq<Entry>): (i: nat)
    ensures i <= |q|
    ensures i < |q| ==> !q[i].running
    ensures forall j :: 0 <= j < i ==> q[j].running
  {
    if q == [] || !q[0].running then 0 else 1 + FirstWaiting(q[1..])
  }

  /** May `p` run beside the procedures in `q`? The verdict after scanning all of them in order. */
  predicate AllowedBeside(q: seq<Entry>, p: Proc) {
    if q == [] then false else
    var e := q[|q| - 1].proc;
    e.kind == Rar
    && ( || ((p.kind == DedicatedBearer || p.kind == NetworkDetach) && p.parent == Some(e.id))
         || AllowedBeside(q[..|q| - 1], p))
  }

  predicate Known(s: Sub, id: nat) {
    exists i :: 0 <= i < |s.arrived| && s.arrived[i].id == id
  }

  function Enqueue(s: Sub, p: Proc): Sub {
    var counts := if p.parent.Some? && p.parent.value in s.children
                  then s.children[p.parent.value := s.children[p.parent.value] + 1] else s.children;
    s.(queue := s.queue + [Entry(p, |s.arrived|, false)],
       children := counts[p.id := 0],
       arrived := s.arrived + [p])
  }

  /** Cleaning up the last PDN connection releases the subscriber. */
  predicate Releases(p: Proc, success: bool) {
    p.kind == Detach || p.kind == NetworkDetach || (p.kind == Attach && !success)
  }

  function AfterStart(s: Sub, p: Proc): (s': Sub)
    ensures Waiting(s'.queue) <= Waiting(s.queue) + OpWeight(Start(p))
    ensures s.arrived <= s'.arrived
    decreases Waiting(s.queue) + OpWeight(Start(p)), 2, 0
  {
    if s.released || Known(s, p.id) then s else
    var s1 := Enqueue(s, p);
    WaitingSplit(s.queue, [Entry(p, |s.arrived|, false)]);
    if s.queue == [] || AllowedBeside(s.queue, p) then AfterLaunch(s1, |s.queue|) else s1
  }

  function AfterLaunch(s: Sub, i: nat): (s': Sub)
    requires i < |s.queue| && !s.queue[i].running
    ensures Waiting(s'.queue) <= Waiting(s.queue)
    ensures s.arrived <= s'.arrived
    decreases Waiting(s.queue), 1, 0
  {
    WaitingUpdate(s.queue, i);
    var e := s.queue[i];
    AfterOps(s.(queue := s.queue[i := e.(running := true)], launched := s.launched + [e.pos]), e.proc.script)
  }

  function AfterOps(s: Sub, ops: seq<Op>): (s': Sub)
    ensures Waiting(s'.queue) <= Waiting(s.queue) + OpsWeight(ops)
    ensures s.arrived <= s'.arrived
    decreases Waiting(s.queue) + OpsWeight(ops), 3, |ops|
  {
    if ops == [] then s else
    var s1 := match ops[0]
              case Start(p) => AfterStart(s, p)
              case End(id, success) => AfterEnd(s, id, success);
    AfterOps(s1, ops[1..])
  }

  /** Completion of a running procedure; the parent of a finished child may complete in turn. */
  function AfterEnd(s: Sub, id: nat, success: bool): (s': Sub)
    ensures Waiting(s'.queue) <= Waiting(s.queue)
    ensures s.arrived <= s'.arrived
    decreases Waiting(s.queue), 2, 2 * |s.queue|
  {
    var i := IndexOf(s.queue, id);
    if i == |s.queue| || !s.queue[i].running then s else
    var p := s.queue[i].proc;
    WaitingRemove(s.queue, i);
    var s1 := s.(queue := s.queue[..i] + s.queue[i + 1..]);
    var s2 := if p.kind == DedicatedBearer || p.kind == NetworkDetach then AfterChild(s1, p.parent, success) else s1;
    AfterFinish(s2, p, success)
  }

  /** The last part of a completion: release the subscriber or move on to the next procedure. */
  function AfterFinish(s: Sub, p: Proc, success: bool): (s': Sub)
    ensures Waiting(s'.queue) <= Waiting(s.queue)
    ensures s.arrived <= s'.arrived
    decreases Waiting(s.queue), 1, 2
  {
    if s.released then s.(dangling := true)
    else if Releases(p, success) then s.(queue := [], released := true)
    else AfterResume(s)
  }

  /** One child less; the last one lets the parent answer and complete. */
  function AfterChild(s: Sub, parent: Option<nat>, success: bool): (s': Sub)
    ensures Waiting(s'.queue) <= Waiting(s.queue)
    ensures s.arrived <= s'.arrived
    decreases Waiting(s.queue), 2, 2 * |s.queue| + 1
  {
    if parent.None? || parent.value !in s.children || s.children[parent.value] == 0 then s else
    var s1 := s.(children := s.children[parent.value := s.children[parent.value] - 1]);
    if s1.children[parent.value] == 0 then AfterEnd(s1, parent.value, success) else s1
  }

  /** Launch the first procedure that is not running yet. */
  function AfterResume(s: Sub): (s': Sub)
    ensures Waiting(s'.queue) <= Waiting(s.queue)
    ensures s.arrived <= s'.arrived
    decreases Waiting(s.queue), 1, 1
  {
    var i := FirstWaiting(s.queue);
    if i < |s.queue| then AfterLaunch(s, i) else s
  }

  // ------------------------------------------------------------------ invariants of every run

  predicate Child(p: Proc) {
    p.parent.Some?
  }

  ghost predicate QueueOk(s: Sub) {
    && (forall i :: 0 <= i < |s.queue| ==> s.queue[i].pos < |s.arrived| && s.arrived[s.queue[i].pos] == s.queue[i].proc)
    && (forall i, j :: 0 <= i < j < |s.queue| ==> s.queue[i].pos < s.queue[j].pos)
    && (forall i :: 0 <= i < |s.queue| ==> (s.queue[i].running <==> s.queue[i].pos in s.launched))
    && (s.released ==> s.queue == [])
  }

  /** No procedure is launched twice. */
  ghost predicate LaunchedOnce(s: Sub) {
    && (forall i :: 0 <= i < |s.launched| ==> s.launched[i] < |s.arrived|)
    && (forall i, j :: 0 <= i < j < |s.launched| ==> s.launched[i] != s.launched[j])
  }

  ghost predicate LaunchedAt(s: Sub, i: nat)
    requires forall i :: 0 <= i < |s.launched| ==> s.launched[i] < |s.arrived|
  {
    i < |s.launched| && !Child(s.arrived[s.launched[i]])
  }

  /** Procedures other than RAR children are launched in order of arrival. */
  ghost predicate InArrivalOrder(s: Sub)
    requires LaunchedOnce(s)
  {
    forall i, j :: 0 <= i < j && LaunchedAt(s, i) && LaunchedAt(s, j) ==> s.launched[i] < s.launched[j]
  }

  /** ... and those still waiting arrived after all of these. */
  ghost predicate WaitingLater(s: Sub)
    requires LaunchedOnce(s)
  {
    forall i: nat, k :: LaunchedAt(s, i) && 0 <= k < |s.queue| && !s.queue[k].running && !Child(s.queue[k].proc) ==>
      s.launched[i] < s.queue[k].pos
  }

  ghost predicate Inv(s: Sub) {
    QueueOk(s) && LaunchedOnce(s) && InArrivalOrder(s) && WaitingLater(s)
  }

  /** A subscriber with queued procedures has one of them running. */
  ghost predicate NotIdle(s: Sub) {
    s.queue == [] || exists i :: 0 <= i < |s.queue| && s.queue[i].running
  }

  lemma EnqueueKeeps(s: Sub, p: Proc)
    requires Inv(s) && !s.released
    ensures Inv(Enqueue(s, p))
    ensures s.queue != [] && NotIdle(s) ==> NotIdle(Enqueue(s, p))
  {
    var s' := Enqueue(s, p);
    assert forall i :: 0 <= i < |s.queue| ==> s'.queue[i] == s.queue[i];
    assert forall i: nat :: LaunchedAt(s', i) <==> LaunchedAt(s, i);
  }

  /** Launching the first waiting procedure, a new arrival on an empty queue or a child keeps the order. */
  lemma LaunchMarks(s: Sub, i: nat) returns (s': Sub)
    requires Inv(s) && i < |s.queue| && !s.queue[i].running
    requires Child(s.queue[i].proc) || forall j :: 0 <= j < i ==> s.queue[j].running
    ensures s' == s.(queue := s.queue[i := s.queue[i].(running := true)], launched := s.launched + [s.queue[i].pos])
    ensures Inv(s') && NotIdle(s')
  {
    s' := s.(queue := s.queue[i := s.queue[i].(running := true)], launched := s.launched + [s.queue[i].pos]);
    assert s'.queue[i].running;
    assert forall k: nat :: k < |s.launched| ==> (LaunchedAt(s', k) <==> LaunchedAt(s, k));
  }

  lemma RemoveKeeps(s: Sub, i: nat, s': Sub)
    requires Inv(s) && i < |s.queue|
    requires s' == s.(queue := s.queue[..i] + s.queue[i + 1..], children := s'.children)
    ensures Inv(s')
  {
    assert forall k :: 0 <= k < |s'.queue| ==> s'.queue[k] == s.queue[if k < i then k else k + 1];
    assert forall k: nat :: LaunchedAt(s', k) <==> LaunchedAt(s, k);
  }

  lemma {:induction false} StartKeeps(s: Sub, p: Proc)
    requires Inv(s) && NotIdle(s)
    ensures Inv(AfterStart(s, p)) && NotIdle(AfterStart(s, p))
    decreases Waiting(s.queue) + OpWeight(Start(p)), 2, 0
  {
    if !s.released && !Known(s, p.id) {
      var s1 := Enqueue(s, p);
      EnqueueKeeps(s, p);
      WaitingSplit(s.queue, [Entry(p, |s.arrived|, false)]);
      if s.queue == [] || AllowedBeside(s.queue, p) {
        AllowedExactly(s.queue, p);
        LaunchKeeps(s1, |s.queue|);
      }
    }
  }

  /**
   The parallel exemption: a child may start at once exactly when its RAR parent is queued and
   only RARs are queued behind the parent. What is queued before the parent does not matter.
   */
  lemma {:induction false} AllowedExactly(q: seq<Entry>, p: Proc)
    ensures AllowedBeside(q, p) <==>
            && (p.kind == DedicatedBearer || p.kind == NetworkDetach)
            && exists k :: && 0 <= k < |q|
                           && q[k].proc.kind == Rar && p.parent == Some(q[k].proc.id)
                           && forall j :: k < j < |q| ==> q[j].proc.kind == Rar
  {
    if q != [] {
      var q' := q[..|q| - 1];
      AllowedExactly(q', p);
      assert forall j :: 0 <= j < |q'| ==> q'[j] == q[j];
    }
  }

  lemma {:induction false} LaunchKeeps(s: Sub, i: nat)
    requires Inv(s) && i < |s.queue| && !s.queue[i].running
    requires Child(s.queue[i].proc) || forall j :: 0 <= j < i ==> s.queue[j].running
    ensures Inv(AfterLaunch(s, i)) && NotIdle(AfterLaunch(s, i))
    decreases Waiting(s.queue), 1, 0
  {
    WaitingUpdate(s.queue, i);
    var s' := LaunchMarks(s, i);
    ExecKeeps(s', s.queue[i].proc.script);
  }

  lemma {:induction false} ExecKeeps(s: Sub, ops: seq<Op>)
    requires Inv(s) && NotIdle(s)
    ensures Inv(AfterOps(s, ops)) && NotIdle(AfterOps(s, ops))
    decreases Waiting(s.queue) + OpsWeight(ops), 3, |ops|
  {
    if ops != [] {
      match ops[0] {
        case Start(p) =>
          StartKeeps(s, p);
          ExecKeeps(AfterStart(s, p), ops[1..]);
        case End(id, success) =>
          EndKeeps(s, id, success);
          ExecKeeps(AfterEnd(s, id, success), ops[1..]);
      }
    }
  }

  lemma {:induction false} EndKeeps(s: Sub, id: nat, success: bool)
    requires Inv(s)
    ensures Inv(AfterEnd(s, id, success))
    ensures NotIdle(s) ==> NotIdle(AfterEnd(s, id, success))
    decreases Waiting(s.queue), 2, 2 * |s.queue|
  {
    var i := IndexOf(s.queue, id);
    if i < |s.queue| && s.queue[i].running {
      var p := s.queue[i].proc;
      WaitingRemove(s.queue, i);
      var s1 := s.(queue := s.queue[..i] + s.queue[i + 1..]);
      RemoveKeeps(s, i, s1);
      var s2 := s1;
      if p.kind == DedicatedBearer || p.kind == NetworkDetach {
        ChildDoneKeeps(s1, p.parent, success);
        s2 := AfterChild(s1, p.parent, success);
      }
      FinishKeeps(s2, p, success);
    }
  }

  lemma {:induction false} FinishKeeps(s: Sub, p: Proc, success: bool)
    requires Inv(s)
    ensures Inv(AfterFinish(s, p, success)) && NotIdle(AfterFinish(s, p, success))
    decreases Waiting(s.queue), 1, 2
  {
    if s.released || Releases(p, success) {
      SameHistoryKeeps(s, AfterFinish(s, p, success));
    } else {
      ResumeKeeps(s);
    }
  }

  lemma SameHistoryKeeps(s: Sub, s': Sub)
    requires Inv(s) && s'.arrived == s.arrived && s'.launched == s.launched
    requires s'.queue == [] || (s'.queue == s.queue && s'.released == s.released)
    ensures Inv(s')
  {
    assert forall k: nat :: LaunchedAt(s', k) <==> LaunchedAt(s, k);
  }

  lemma {:induction false} ChildDoneKeeps(s: Sub, parent: Option<nat>, success: bool)
    requires Inv(s)
    ensures Inv(AfterChild(s, parent, success))
    decreases Waiting(s.queue), 2, 2 * |s.queue| + 1
  {
    if parent.Some? && parent.value in s.children && s.children[parent.value] != 0 {
      var s1 := s.(children := s.children[parent.value := s.children[parent.value] - 1]);
      SameHistoryKeeps(s, s1);
      if s1.children[parent.value] == 0 {
        EndKeeps(s1, parent.value, success);
        assert AfterChild(s, parent, success) == AfterEnd(s1, parent.value, success);
      } else {
        assert AfterChild(s, parent, success) == s1;
      }
    }
  }

  lemma {:induction false} ResumeKeeps(s: Sub)
    requires Inv(s)
    ensures Inv(AfterResume(s)) && NotIdle(AfterResume(s))
    decreases Waiting(s.queue), 1, 1
  {
    var i := FirstWaiting(s.queue);
    if i < |s.queue| {
      LaunchKeeps(s, i);
    } else if s.queue != [] {
      assert s.queue[0].running;
    }
  }

  /**
   Every run, RAR or not: each procedure is launched at most once, procedures that are not RAR
   children are launched in order of arrival, and the queue is never left idle.
   */
  lemma EveryRun(ops: seq<Op>)
    ensures var s := AfterOps(Fresh, ops);
            LaunchedOnce(s) && InArrivalOrder(s) && NotIdle(s)
  {
    assert Inv(Fresh);
    ExecKeeps(Fresh, ops);
  }

  // ------------------------------------------------------------------ runs without a RAR

  predicate PlainOps(ops: seq<Op>)
    decreases ops
  {
    ops == [] || (PlainOp(ops[0]) && PlainOps(ops[1..]))
  }

  predicate PlainOp(op: Op)
    decreases op
  {
    op.Start? ==> op.p.kind != Rar && op.p.parent.None? && PlainOps(op.p.script)
  }

  /** Only the head of the queue may be running. */
  ghost predicate OnlyHeadRuns(s: Sub) {
    forall i :: 0 < i < |s.queue| ==> !s.queue[i].running
  }

  /** Launches so far were the first arrivals, in order, and the queue holds the latest arrivals. */
  ghost predicate NoGaps(s: Sub) {
    && (forall i :: 0 <= i < |s.launched| ==> s.launched[i] == i)
    && |s.queue| <= |s.arrived|
    && (!s.released ==>
          && (forall k :: 0 <= k < |s.queue| ==> s.queue[k].pos == |s.arrived| - |s.queue| + k)
          && |s.launched| + |s.queue| == |s.arrived| + if s.queue != [] && s.queue[0].running then 1 else 0)
  }

  ghost predicate Plain(s: Sub) {
    && OnlyHeadRuns(s)
    && !s.dangling
    && (s.released ==> s.queue == [])
    && NoGaps(s)
    && forall i :: 0 <= i < |s.queue| ==> PlainOp(Start(s.queue[i].proc))
  }

  lemma {:induction false} PlainStart(s: Sub, p: Proc)
    requires Plain(s) && PlainOp(Start(p))
    ensures Plain(AfterStart(s, p))
    decreases Waiting(s.queue) + OpWeight(Start(p)), 2, 0
  {
    if !s.released && !Known(s, p.id) {
      WaitingSplit(s.queue, [Entry(p, |s.arrived|, false)]);
      AllowedExactly(s.queue, p);
      if s.queue == [] {
        PlainLaunch(Enqueue(s, p));
      }
    }
  }

  lemma {:induction false} PlainLaunch(s: Sub)
    requires Plain(s) && s.queue != [] && !s.queue[0].running
    ensures Plain(AfterLaunch(s, 0))
    decreases Waiting(s.queue), 1, 0
  {
    WaitingUpdate(s.queue, 0);
    var e := s.queue[0];
    PlainExec(s.(queue := s.queue[0 := e.(running := true)], launched := s.launched + [e.pos]), e.proc.script);
  }

  lemma {:induction false} PlainExec(s: Sub, ops: seq<Op>)
    requires Plain(s) && PlainOps(ops)
    ensures Plain(AfterOps(s, ops))
    decreases Waiting(s.queue) + OpsWeight(ops), 3, |ops|
  {
    if ops != [] {
      match ops[0] {
        case Start(p) =>
          PlainStart(s, p);
          PlainExec(AfterStart(s, p), ops[1..]);
        case End(id, success) =>
          PlainEnd(s, id, success);
          PlainExec(AfterEnd(s, id, success), ops[1..]);
      }
    }
  }

  lemma {:induction false} PlainEnd(s: Sub, id: nat, success: bool)
    requires Plain(s)
    ensures Plain(AfterEnd(s, id, success))
    decreases Waiting(s.queue), 2, 2 * |s.queue|
  {
    var i := IndexOf(s.queue, id);
    if i < |s.queue| && s.queue[i].running {
      assert i == 0;
      WaitingRemove(s.queue, i);
      var s1 := s.(queue := s.queue[..i] + s.queue[i + 1..]);
      assert forall k :: 0 <= k < |s1.queue| ==> s1.queue[k] == s.queue[k + 1];
      assert PlainOp(Start(s.queue[i].proc));
      assert AfterEnd(s, id, success) == AfterFinish(s1, s.queue[i].proc, success);
      assert s1.queue != [] ==> FirstWaiting(s1.queue) == 0;
      if !Releases(s.queue[i].proc, success) && s1.queue != [] {
        assert AfterFinish(s1, s.queue[i].proc, success) == AfterResume(s1) == AfterLaunch(s1, 0);
        PlainLaunch(s1);
      } else {
        assert AfterFinish(s1, s.queue[i].proc, success) ==
               if Releases(s.queue[i].proc, success) then s1.(queue := [], released := true) else s1;
      }
    }
  }

  /**
   Runs without a RAR: at every point exactly the head of a non-empty queue is running, so at
   most one procedure runs; the launches so far are the first arrivals in order of arrival, none
   skipped; and no completion touches a released subscriber.
   */
  lemma PlainRun(ops: seq<Op>)
    requires PlainOps(ops)
    ensures var s := AfterOps(Fresh, ops);
            && (forall i :: 0 <= i < |s.queue| ==> (s.queue[i].running <==> i == 0))
            && (forall i :: 0 <= i < |s.launched| ==> s.launched[i] == i)
            && !s.dangling
  {
    EveryRun(ops);
    PlainExec(Fresh, ops);
  }

  // ------------------------------------------------------------------ who releases the subscriber

  /** The end of a detach, of a network-initiated detach or of a failed attach leaves the subscriber released. */
  lemma EndReleases(s: Sub, id: nat, success: bool)
    requires Inv(s) && IndexOf(s.queue, id) < |s.queue| && s.queue[IndexOf(s.queue, id)].running
    requires var kind := s.queue[IndexOf(s.queue, id)].proc.kind;
             kind == Detach || kind == NetworkDetach || (kind == Attach && !success)
    ensures var t := AfterEnd(s, id, success); t.released && t.queue == []
  {
    var i := IndexOf(s.queue, id);
    var p := s.queue[i].proc;
    var s1 := s.(queue := Without(s.queue, i));
    EndUnfolds(s, id, success);
    RemoveKeeps(s, i, s1);
    ChildDoneKeeps(s1, p.parent, success);
  }

  /** Operations that detach nobody and fail no attach; `attaches` names the procedures that may be attaches. */
  predicate MildOps(ops: seq<Op>, attaches: set<nat>)
    decreases ops
  {
    ops == [] || (MildOp(ops[0], attaches) && MildOps(ops[1..], attaches))
  }

  predicate MildOp(op: Op, attaches: set<nat>)
    decreases op
  {
    match op
    case Start(p) =>
      && p.kind != Detach && p.kind != NetworkDetach && (p.kind == Attach ==> p.id in attaches)
      && (p.parent.Some? ==> p.parent.value !in attaches) && MildOps(p.script, attaches)
    case End(id, success) => success || id !in attaches
  }

  predicate InQueue(q: seq<Entry>, pos: nat) {
    exists k :: 0 <= k < |q| && q[k].pos == pos
  }

  /** Every procedure that arrived was launched or is in the queue. */
  ghost predicate NoneLost(s: Sub) {
    && (forall k :: 0 <= k < |s.queue| && s.queue[k].running ==> s.queue[k].pos in s.launched)
    && (forall pos: nat :: pos < |s.arrived| ==> pos in s.launched || InQueue(s.queue, pos))
  }

  ghost predicate Mild(s: Sub, attaches: set<nat>) {
    && !s.released && !s.dangling && NoneLost(s)
    && forall i :: 0 <= i < |s.queue| ==> MildOp(Start(s.queue[i].proc), attaches)
  }

  lemma EnqueueMild(s: Sub, p: Proc, attaches: set<nat>)
    requires Mild(s, attaches) && MildOp(Start(p), attaches)
    ensures Mild(Enqueue(s, p), attaches)
  {
    var t := Enqueue(s, p);
    assert t.queue[|s.queue|].pos == |s.arrived|;
    forall pos: nat | pos < |t.arrived| ensures pos in t.launched || InQueue(t.queue, pos) {
      if pos < |s.arrived| && InQueue(s.queue, pos) {
        var k :| 0 <= k < |s.queue| && s.queue[k].pos == pos;
        assert t.queue[k] == s.queue[k];
      }
    }
  }

  lemma MarkMild(s: Sub, i: nat, attaches: set<nat>)
    requires Mild(s, attaches) && i < |s.queue|
    ensures Mild(s.(queue := s.queue[i := s.queue[i].(running := true)], launched := s.launched + [s.queue[i].pos]), attaches)
  {
    var t := s.(queue := s.queue[i := s.queue[i].(running := true)], launched := s.launched + [s.queue[i].pos]);
    forall pos: nat | pos < |t.arrived| ensures pos in t.launched || InQueue(t.queue, pos) {
      if InQueue(s.queue, pos) {
        var k :| 0 <= k < |s.queue| && s.queue[k].pos == pos;
        assert t.queue[k].pos == pos;
      }
    }
  }

  lemma RemoveMild(s: Sub, i: nat, attaches: set<nat>)
    requires Mild(s, attaches) && i < |s.queue| && s.queue[i].running
    ensures Mild(s.(queue := s.queue[..i] + s.queue[i + 1..]), attaches)
  {
    var t := s.(queue := s.queue[..i] + s.queue[i + 1..]);
    assert forall k :: 0 <= k < |t.queue| ==> t.queue[k] == s.queue[if k < i then k else k + 1];
    forall pos: nat | pos < |t.arrived| ensures pos in t.launched || InQueue(t.queue, pos) {
      if InQueue(s.queue, pos) {
        var k :| 0 <= k < |s.queue| && s.queue[k].pos == pos;
        assert k != i ==> t.queue[if k < i then k else k - 1].pos == pos;
      }
    }
  }

  lemma {:induction false} StartMild(s: Sub, p: Proc, attaches: set<nat>)
    requires Mild(s, attaches) && MildOp(Start(p), attaches)
    ensures Mild(AfterStart(s, p), attaches) && Known(AfterStart(s, p), p.id)
    decreases Waiting(s.queue) + OpWeight(Start(p)), 2, 0
  {
    if Known(s, p.id) {
      assert AfterStart(s, p) == s;
    } else {
      var s1 := Enqueue(s, p);
      EnqueueMild(s, p, attaches);
      assert s1.arrived[|s.arrived|].id == p.id;
      WaitingSplit(s.queue, [Entry(p, |s.arrived|, false)]);
      if s.queue == [] || AllowedBeside(s.queue, p) {
        LaunchMild(s1, |s.queue|, attaches);
        KnownStays(s1, AfterLaunch(s1, |s.queue|), p.id);
      }
    }
  }

  lemma KnownStays(s: Sub, t: Sub, id: nat)
    requires Known(s, id) && s.arrived <= t.arrived
    ensures Known(t, id)
  {
    var i :| 0 <= i < |s.arrived| && s.arrived[i].id == id;
    assert t.arrived[i] == s.arrived[i];
  }

  lemma {:induction false} LaunchMild(s: Sub, i: nat, attaches: set<nat>)
    requires Mild(s, attaches) && i < |s.queue| && !s.queue[i].running
    ensures Mild(AfterLaunch(s, i), attaches)
    decreases Waiting(s.queue), 1, 0
  {
    WaitingUpdate(s.queue, i);
    MarkMild(s, i, attaches);
    assert MildOp(Start(s.queue[i].proc), attaches);
    ExecMild(s.(queue := s.queue[i := s.queue[i].(running := true)], launched := s.launched + [s.queue[i].pos]),
             s.queue[i].proc.script, attaches);
  }

  lemma {:induction false} ExecMild(s: Sub, ops: seq<Op>, attaches: set<nat>)
    requires Mild(s, attaches) && MildOps(ops, attaches)
    ensures Mild(AfterOps(s, ops), attaches)
    ensures forall i :: 0 <= i < |ops| && ops[i].Start? ==> Known(AfterOps(s, ops), ops[i].p.id)
    decreases Waiting(s.queue) + OpsWeight(ops), 3, |ops|
  {
    if ops != [] {
      var s1 := match ops[0] case Start(p) => AfterStart(s, p) case End(id, success) => AfterEnd(s, id, success);
      match ops[0] {
        case Start(p) => StartMild(s, p, attaches);
        case End(id, success) => EndMild(s, id, success, attaches);
      }
      ExecMild(s1, ops[1..], attaches);
      assert AfterOps(s, ops) == AfterOps(s1, ops[1..]);
      forall i | 0 <= i < |ops| && ops[i].Start? ensures Known(AfterOps(s, ops), ops[i].p.id) {
        if i == 0 {
          KnownStays(s1, AfterOps(s, ops), ops[i].p.id);
        } else {
          assert ops[1..][i - 1] == ops[i];
        }
      }
    }
  }

  lemma {:induction false} EndMild(s: Sub, id: nat, success: bool, attaches: set<nat>)
    requires Mild(s, attaches) && (success || id !in attaches)
    ensures Mild(AfterEnd(s, id, success), attaches)
    decreases Waiting(s.queue), 2, 2 * |s.queue|
  {
    var i := IndexOf(s.queue, id);
    if i < |s.queue| && s.queue[i].running {
      var p := s.queue[i].proc;
      assert MildOp(Start(p), attaches);
      WaitingRemove(s.queue, i);
      var s1 := s.(queue := s.queue[..i] + s.queue[i + 1..]);
      RemoveMild(s, i, attaches);
      if p.kind == DedicatedBearer {
        ChildMild(s1, p.parent, success, attaches);
        ResumeMild(AfterChild(s1, p.parent, success), attaches);
        assert AfterEnd(s, id, success) == AfterResume(AfterChild(s1, p.parent, success));
      } else {
        ResumeMild(s1, attaches);
        assert AfterEnd(s, id, success) == AfterResume(s1);
      }
    } else {
      assert AfterEnd(s, id, success) == s;
    }
  }

  lemma {:induction false} ChildMild(s: Sub, parent: Option<nat>, success: bool, attaches: set<nat>)
    requires Mild(s, attaches) && (parent.Some? ==> parent.value !in attaches)
    ensures Mild(AfterChild(s, parent, success), attaches)
    decreases Waiting(s.queue), 2, 2 * |s.queue| + 1
  {
    if parent.Some? && parent.value in s.children && s.children[parent.value] != 0 {
      var s1 := s.(children := s.children[parent.value := s.children[parent.value] - 1]);
      assert Mild(s1, attaches);
      if s1.children[parent.value] == 0 {
        EndMild(s1, parent.value, success, attaches);
        assert AfterChild(s, parent, success) == AfterEnd(s1, parent.value, success);
      } else {
        assert AfterChild(s, parent, success) == s1;
      }
    } else {
      assert AfterChild(s, parent, success) == s;
    }
  }

  lemma {:induction false} ResumeMild(s: Sub, attaches: set<nat>)
    requires Mild(s, attaches)
    ensures Mild(AfterResume(s), attaches)
    decreases Waiting(s.queue), 1, 1
  {
    var i := FirstWaiting(s.queue);
    if i < |s.queue| {
      LaunchMild(s, i, attaches);
    }
  }

  /**
   A run that starts no detach and ends every attach successfully never releases the subscriber, takes in every procedure
   that is started, and loses none: each one that arrived was launched or waits in the queue.
   */
  lemma MildRun(ops: seq<Op>, attaches: set<nat>)
    requires MildOps(ops, attaches)
    ensures var s := AfterOps(Fresh, ops);
            && !s.released && !s.dangling
            && (forall i :: 0 <= i < |ops| && ops[i].Start? ==> Known(s, ops[i].p.id))
            && (forall pos: nat :: pos < |s.arrived| ==> pos in s.launched || InQueue(s.queue, pos))
  {
    assert Mild(Fresh, attaches);
    ExecMild(Fresh, ops, attaches);
  }

  // ------------------------------------------------------------------ what a RAR breaks

  const RarChild := Proc(1, DedicatedBearer, Some(0), [])
  const RarParent := Proc(0, Rar, None, [Start(RarChild)])

  /** A RAR that started its child at once, and two ordinary procedures queued behind them. */
  ghost function RarScene(a: Proc, b: Proc): Sub {
    Sub([Entry(RarParent, 0, true), Entry(RarChild, 1, true), Entry(a, 2, false), Entry(b, 3, false)],
        map[0 := 1, 1 := 0, a.id := 0, b.id := 0], [RarParent, RarChild, a, b], [0, 1], false, false)
  }

  lemma LaunchSilent(s: Sub, i: nat)
    requires i < |s.queue| && !s.queue[i].running && s.queue[i].proc.script == []
    ensures AfterLaunch(s, i) ==
            s.(queue := s.queue[i := s.queue[i].(running := true)], launched := s.launched + [s.queue[i].pos])
  {}

  /** The RAR and the child it started. */
  const RarPair := Sub([Entry(RarParent, 0, true), Entry(RarChild, 1, true)], map[0 := 1, 1 := 0], [RarParent, RarChild], [0, 1], false, false)

  lemma RarPairReached()
    ensures AfterStart(Fresh, RarParent) == RarPair
  {
    var parent := Entry(RarParent, 0, true);
    var s0 := Sub([parent.(running := false)], map[0 := 0], [RarParent], [], false, false);
    var s1 := Sub([parent], map[0 := 0], [RarParent], [0], false, false);
    assert AfterStart(s1, RarChild) == RarPair by {
      assert s1.arrived[0].id == 0;
      assert !Known(s1, 1);
      AllowedExactly(s1.queue, RarChild);
      LaunchSilent(Enqueue(s1, RarChild), 1);
    }
    assert Enqueue(Fresh, RarParent) == s0;
    assert s0.(queue := s0.queue[0 := s0.queue[0].(running := true)], launched := s0.launched + [0]) == s1;
    assert AfterLaunch(s0, 0) == AfterOps(s1, [Start(RarChild)]);
    assert [Start(RarChild)][1..] == [];
    assert AfterOps(RarPair, []) == RarPair;
  }

  /** A procedure that may not start at once queues up. */
  lemma QueuesUp(s: Sub, p: Proc)
    requires !s.released && !Known(s, p.id) && s.queue != []
    requires s.queue[|s.queue| - 1].proc.kind != Rar || p.parent.None?
    ensures AfterStart(s, p) == Enqueue(s, p)
  {
    AllowedExactly(s.queue, p);
  }

  /** After the pair, two more procedures. */
  lemma QueuedBehindPair(a: Proc, b: Proc)
    requires a.id == 2 && b.id == 3 && (a.kind != Rar || b.parent.None?)
    ensures AfterOps(Fresh, [Start(RarParent), Start(a), Start(b)]) == Enqueue(Enqueue(RarPair, a), b)
  {
    RarPairReached();
    var s3 := Enqueue(RarPair, a);
    assert !Known(RarPair, 2);
    QueuesUp(RarPair, a);
    assert s3.arrived == [RarParent, RarChild, a];
    assert !Known(s3, 3);
    QueuesUp(s3, b);
    assert [Start(RarParent), Start(a), Start(b)][1..] == [Start(a), Start(b)];
    assert [Start(a), Start(b)][1..] == [Start(b)] && [Start(b)][1..] == [];
    assert AfterOps(s3, [Start(b)]) == AfterOps(Enqueue(s3, b), []);
    assert AfterOps(RarPair, [Start(a), Start(b)]) == AfterOps(s3, [Start(b)]);
  }

  lemma RarSceneReached(a: Proc, b: Proc)
    requires a.id == 2 && b.id == 3 && a.parent.None? && b.parent.None?
    ensures AfterOps(Fresh, [Start(RarParent), Start(a), Start(b)]) == RarScene(a, b)
  {
    QueuedBehindPair(a, b);
  }

  // ------------------------------------------------------------------ how many a completion launches

  function One(b: bool): nat {
    if b then 1 else 0
  }

  function Min(a: nat, b: nat): nat {
    if a < b then a else b
  }

  /** A procedure that is neither a RAR nor a child of one. */
  predicate Ordinary(p: Proc) {
    p.parent.None? && p.kind != Rar
  }

  /** The arrival positions of the waiting procedures, in order. */
  function Positions(q: seq<Entry>): seq<nat> {
    if q == [] then [] else if q[0].running then Positions(q[1..]) else [q[0].pos] + Positions(q[1..])
  }

  function Runners(q: seq<Entry>): nat {
    if q == [] then 0 else One(q[0].running) + Runners(q[1..])
  }

  function OrdinaryRunners(q: seq<Entry>): nat {
    if q == [] then 0 else One(q[0].running && Ordinary(q[0].proc)) + OrdinaryRunners(q[1..])
  }

  /** How many of the first k waiting procedures are ordinary. */
  function OrdinaryNext(q: seq<Entry>, k: nat): nat {
    if q == [] || k == 0 then 0
    else if q[0].running then OrdinaryNext(q[1..], k)
    else One(Ordinary(q[0].proc)) + OrdinaryNext(q[1..], k - 1)
  }

  /** The queue with its first k waiting procedures set running. */
  function Resumed(q: seq<Entry>, k: nat): (r: seq<Entry>)
    ensures |r| == |q|
  {
    if q == [] || k == 0 then q
    else if q[0].running then [q[0]] + Resumed(q[1..], k)
    else [q[0].(running := true)] + Resumed(q[1..], k - 1)
  }

  function Without(q: seq<Entry>, i: nat): seq<Entry>
    requires i < |q|
  {
    q[..i] + q[i + 1..]
  }

  /** The waiting procedures' handlers do nothing at once. */
  predicate Silent(q: seq<Entry>) {
    forall i :: 0 <= i < |q| && !q[i].running ==> q[i].proc.script == []
  }

  lemma {:induction false} ResumedCounts(q: seq<Entry>, k: nat)
    ensures Runners(Resumed(q, k)) == Runners(q) + Min(k, |Positions(q)|)
    ensures OrdinaryRunners(Resumed(q, k)) == OrdinaryRunners(q) + OrdinaryNext(q, k)
  {
    if q != [] && k != 0 {
      ResumedCounts(q[1..], if q[0].running then k else k - 1);
    }
  }

  lemma {:induction false} ResumedFirst(q: seq<Entry>)
    ensures var i := FirstWaiting(q);
            if i < |q|
            then Resumed(q, 1) == q[i := q[i].(running := true)] && Positions(q) == [q[i].pos] + Positions(Resumed(q, 1))
            else Resumed(q, 1) == q && Positions(q) == []
  {
    if q != [] {
      var r := Resumed(q, 1);
      if q[0].running {
        ResumedFirst(q[1..]);
        assert r == [q[0]] + Resumed(q[1..], 1) && r[1..] == Resumed(q[1..], 1);
      } else {
        assert Resumed(q[1..], 0) == q[1..];
        assert r == [q[0].(running := true)] + q[1..] && r[1..] == q[1..];
      }
    }
  }

  lemma {:induction false} ResumedTwice(q: seq<Entry>)
    ensures Resumed(Resumed(q, 1), 1) == Resumed(q, 2)
  {
    if q != [] {
      if q[0].running {
        ResumedTwice(q[1..]);
      } else {
        assert Resumed(q[1..], 0) == q[1..];
      }
    }
  }

  lemma {:induction false} WithoutCounts(q: seq<Entry>, i: nat, k: nat)
    requires i < |q| && q[i].running
    ensures var r := Without(q, i);
            && Positions(r) == Positions(q) && OrdinaryNext(r, k) == OrdinaryNext(q, k)
            && Runners(q) == Runners(r) + 1 && OrdinaryRunners(q) == OrdinaryRunners(r) + One(Ordinary(q[i].proc))
            && (Silent(q) ==> Silent(r))
  {
    var r := Without(q, i);
    assert forall j :: 0 <= j < |r| ==> r[j] == q[if j < i then j else j + 1];
    if i == 0 {
      assert r == q[1..];
    } else {
      assert r[1..] == Without(q[1..], i - 1);
      WithoutCounts(q[1..], i - 1, if q[0].running || k == 0 then k else k - 1);
    }
  }

  /** Moving on launches the first waiting procedure, if there is one. */
  lemma ResumeLaunches(s: Sub)
    requires Silent(s.queue)
    ensures var n := Min(1, |Positions(s.queue)|);
            && AfterResume(s) == s.(queue := Resumed(s.queue, 1), launched := s.launched + Positions(s.queue)[..n])
            && Positions(Resumed(s.queue, 1)) == Positions(s.queue)[n..]
            && Silent(Resumed(s.queue, 1))
  {
    ResumedFirst(s.queue);
    var i := FirstWaiting(s.queue);
    if i < |s.queue| {
      LaunchSilent(s, i);
      assert s.launched + Positions(s.queue)[..1] == s.launched + [s.queue[i].pos];
    } else {
      assert s.launched + [] == s.launched;
    }
  }

  /** The running parent whose last child stands at place i of the queue. */
  predicate EndsParent(s: Sub, i: nat)
    requires i < |s.queue|
  {
    var p := s.queue[i].proc;
    var rest := Without(s.queue, i);
    && (p.kind == DedicatedBearer || p.kind == NetworkDetach)
    && p.parent.Some? && p.parent.value in s.children && s.children[p.parent.value] == 1
    && var j := IndexOf(rest, p.parent.value);
       j < |rest| && rest[j].running
  }

  /** The queue without the procedure at place i and without the parent it ends. */
  function Left(s: Sub, i: nat): seq<Entry>
    requires i < |s.queue|
  {
    var rest := Without(s.queue, i);
    if !EndsParent(s, i) then rest else
    var j := IndexOf(rest, s.queue[i].proc.parent.value);
    Without(rest, j)
  }

  /** Completions in one: 2 for the last child of a running parent, otherwise 1. */
  function Ends(s: Sub, i: nat): nat
    requires i < |s.queue|
  {
    if EndsParent(s, i) then 2 else 1
  }

  /** Only RARs have children, and the completion does not release the subscriber. */
  predicate PlainEnding(s: Sub, i: nat, success: bool)
    requires i < |s.queue|
  {
    && s.queue[i].running && !s.released && !Releases(s.queue[i].proc, success)
    && forall j :: 0 <= j < |s.queue| && Some(s.queue[j].proc.id) == s.queue[i].proc.parent ==> s.queue[j].proc.kind == Rar
  }

  lemma LeftCounts(s: Sub, i: nat, success: bool)
    requires i < |s.queue| && PlainEnding(s, i, success)
    ensures var r, k := Left(s, i), Ends(s, i);
            && Positions(r) == Positions(s.queue) && OrdinaryNext(r, k) == OrdinaryNext(s.queue, k)
            && Runners(s.queue) == Runners(r) + k
            && OrdinaryRunners(s.queue) == OrdinaryRunners(r) + One(Ordinary(s.queue[i].proc))
            && (Silent(s.queue) ==> Silent(r))
  {
    var k := Ends(s, i);
    WithoutCounts(s.queue, i, k);
    if EndsParent(s, i) {
      var rest := Without(s.queue, i);
      var j := IndexOf(rest, s.queue[i].proc.parent.value);
      assert rest[j] == s.queue[if j < i then j else j + 1];
      WithoutCounts(rest, j, k);
    }
  }

  /** One child less for the parent of the procedure at place i. */
  function ChildrenLeft(s: Sub, i: nat): map<nat, nat>
    requires i < |s.queue|
  {
    var p := s.queue[i].proc;
    if (p.kind == DedicatedBearer || p.kind == NetworkDetach)
       && p.parent.Some? && p.parent.value in s.children && s.children[p.parent.value] > 0
    then s.children[p.parent.value := s.children[p.parent.value] - 1] else s.children
  }

  lemma EndUnfolds(s: Sub, id: nat, success: bool)
    requires IndexOf(s.queue, id) < |s.queue| && s.queue[IndexOf(s.queue, id)].running
    ensures var i := IndexOf(s.queue, id);
            var p, s1 := s.queue[i].proc, s.(queue := Without(s.queue, i));
            AfterEnd(s, id, success) ==
              AfterFinish(if p.kind == DedicatedBearer || p.kind == NetworkDetach then AfterChild(s1, p.parent, success) else s1, p, success)
  {
    WaitingRemove(s.queue, IndexOf(s.queue, id));
  }

  /** A completion that releases nobody ends with moving on. */
  lemma EndMovesOn(s: Sub, id: nat, success: bool)
    requires IndexOf(s.queue, id) < |s.queue| && s.queue[IndexOf(s.queue, id)].running && !s.released
    requires s.queue[IndexOf(s.queue, id)].proc.kind == Rar
    ensures AfterEnd(s, id, success) == AfterResume(s.(queue := Without(s.queue, IndexOf(s.queue, id))))
  {
    EndUnfolds(s, id, success);
  }

  /** A child's completion reaches the parent only if it is the last and the parent is running. */
  lemma ChildOnly(s: Sub, i: nat, success: bool)
    requires i < |s.queue| && !EndsParent(s, i)
    requires s.queue[i].proc.kind == DedicatedBearer || s.queue[i].proc.kind == NetworkDetach
    ensures var s1 := s.(queue := Without(s.queue, i));
            AfterChild(s1, s.queue[i].proc.parent, success) == s1.(children := ChildrenLeft(s, i))
  {}

  lemma ChildAndParent(s: Sub, i: nat, success: bool)
    requires i < |s.queue| && PlainEnding(s, i, success) && EndsParent(s, i)
    ensures var s1 := s.(queue := Without(s.queue, i));
            AfterChild(s1, s.queue[i].proc.parent, success)
            == AfterResume(s.(queue := Left(s, i), children := ChildrenLeft(s, i)))
  {
    var a := s.queue[i].proc.parent.value;
    var s1 := s.(queue := Without(s.queue, i), children := ChildrenLeft(s, i));
    var j := IndexOf(s1.queue, a);
    assert s1.queue[j] == s.queue[if j < i then j else j + 1];
    EndMovesOn(s1, a, success);
  }

  lemma EndsOne(s: Sub, id: nat, success: bool)
    requires IndexOf(s.queue, id) < |s.queue| && PlainEnding(s, IndexOf(s.queue, id), success)
    requires !EndsParent(s, IndexOf(s.queue, id))
    ensures var i := IndexOf(s.queue, id);
            AfterEnd(s, id, success) == AfterResume(s.(queue := Left(s, i), children := ChildrenLeft(s, i)))
  {
    var i := IndexOf(s.queue, id);
    EndUnfolds(s, id, success);
    if s.queue[i].proc.kind == DedicatedBearer || s.queue[i].proc.kind == NetworkDetach {
      ChildOnly(s, i, success);
    }
  }

  /** The last child's completion first completes the parent, which moves on, and then moves on itself. */
  lemma EndsTwo(s: Sub, id: nat, success: bool)
    requires IndexOf(s.queue, id) < |s.queue| && PlainEnding(s, IndexOf(s.queue, id), success) && Silent(s.queue)
    requires EndsParent(s, IndexOf(s.queue, id))
    ensures var i := IndexOf(s.queue, id);
            AfterEnd(s, id, success) == AfterResume(AfterResume(s.(queue := Left(s, i), children := ChildrenLeft(s, i))))
  {
    var i := IndexOf(s.queue, id);
    EndUnfolds(s, id, success);
    ChildAndParent(s, i, success);
    LeftCounts(s, i, success);
    ResumeLaunches(s.(queue := Left(s, i), children := ChildrenLeft(s, i)));
  }

  lemma TwoTakes(base: seq<nat>, w: seq<nat>)
    ensures var n := Min(1, |w|);
            (base + w[..n]) + w[n..][..Min(1, |w[n..]|)] == base + w[..Min(2, |w|)]
  {}

  /**
   A completion that releases nobody launches exactly the first Ends of the waiting procedures, as far as there are any:
   two when it is that of the last child of a running RAR, otherwise one.
   */
  lemma EndLaunches(s: Sub, id: nat, success: bool)
    requires IndexOf(s.queue, id) < |s.queue| && PlainEnding(s, IndexOf(s.queue, id), success) && Silent(s.queue)
    ensures var i := IndexOf(s.queue, id);
            var k := Ends(s, i);
            AfterEnd(s, id, success) ==
              s.(queue := Resumed(Left(s, i), k), children := ChildrenLeft(s, i),
                 launched := s.launched + Positions(s.queue)[..Min(k, |Positions(s.queue)|)])
  {
    var i := IndexOf(s.queue, id);
    var t := s.(queue := Left(s, i), children := ChildrenLeft(s, i));
    var w := Positions(s.queue);
    LeftCounts(s, i, success);
    ResumeLaunches(t);
    if EndsParent(s, i) {
      EndsTwo(s, id, success);
      ResumeLaunches(AfterResume(t));
      ResumedTwice(t.queue);
      TwoTakes(s.launched, w);
    } else {
      EndsOne(s, id, success);
    }
  }

  /** So the number of running procedures, and of ordinary ones among them, follows from what stood in the queue. */
  lemma RunnersAfter(s: Sub, id: nat, success: bool)
    requires IndexOf(s.queue, id) < |s.queue| && PlainEnding(s, IndexOf(s.queue, id), success) && Silent(s.queue)
    ensures var i := IndexOf(s.queue, id);
            var k, t := Ends(s, i), AfterEnd(s, id, success);
            && Runners(t.queue) + k == Runners(s.queue) + Min(k, |Positions(s.queue)|)
            && OrdinaryRunners(t.queue) + One(Ordinary(s.queue[i].proc)) == OrdinaryRunners(s.queue) + OrdinaryNext(s.queue, k)
  {
    var i := IndexOf(s.queue, id);
    EndLaunches(s, id, success);
    LeftCounts(s, i, success);
    ResumedCounts(Left(s, i), Ends(s, i));
  }

  lemma {:induction false} OrdinaryNextBounds(q: seq<Entry>, k: nat)
    ensures OrdinaryNext(q, k) <= Min(k, |Positions(q)|)
  {
    if q != [] && k != 0 {
      OrdinaryNextBounds(q[1..], if q[0].running then k else k - 1);
    }
  }

  /**
   Starting from no other ordinary procedure running, a completion leaves two ordinary procedures running if and only if
   it is that of the last child of a running RAR and the first two waiting procedures are ordinary.
   */
  lemma ExclusiveExactly(s: Sub, id: nat, success: bool)
    requires IndexOf(s.queue, id) < |s.queue| && PlainEnding(s, IndexOf(s.queue, id), success) && Silent(s.queue)
    requires OrdinaryRunners(s.queue) == One(Ordinary(s.queue[IndexOf(s.queue, id)].proc))
    ensures OrdinaryRunners(AfterEnd(s, id, success).queue) <= 1 <==>
              !(EndsParent(s, IndexOf(s.queue, id)) && OrdinaryNext(s.queue, 2) == 2)
  {
    RunnersAfter(s, id, success);
    OrdinaryNextBounds(s.queue, 1);
    OrdinaryNextBounds(s.queue, 2);
  }

  /** An ordinary procedure runs, and not alone. */
  predicate Accompanied(q: seq<Entry>) {
    OrdinaryRunners(q) > 0 && Runners(q) > 1
  }

  /**
   A completion leaves an ordinary procedure running beside another one if and only if, counting what runs besides the
   procedures that end and what is launched in their place, there are two, one of them ordinary.
   */
  lemma AccompaniedExactly(s: Sub, id: nat, success: bool)
    requires IndexOf(s.queue, id) < |s.queue| && PlainEnding(s, IndexOf(s.queue, id), success) && Silent(s.queue)
    ensures var i := IndexOf(s.queue, id);
            var k := Ends(s, i);
            Accompanied(AfterEnd(s, id, success).queue) <==>
              && Runners(s.queue) - k + Min(k, |Positions(s.queue)|) > 1
              && OrdinaryRunners(s.queue) - One(Ordinary(s.queue[i].proc)) + OrdinaryNext(s.queue, k) > 0
  {
    RunnersAfter(s, id, success);
  }

  /** A start, in turn, launches an ordinary procedure only on an empty queue. */
  lemma StartExclusive(s: Sub, p: Proc)
    requires p.script == [] && Ordinary(p)
    ensures OrdinaryRunners(AfterStart(s, p).queue) == if s.queue == [] && !s.released && !Known(s, p.id) then 1 else OrdinaryRunners(s.queue)
  {
    if !s.released && !Known(s, p.id) {
      var e := Entry(p, |s.arrived|, false);
      WaitingSplit(s.queue, [e]);
      AllowedExactly(s.queue, p);
      if s.queue == [] {
        LaunchSilent(Enqueue(s, p), 0);
      } else {
        OrdinaryAppend(s.queue, e);
      }
    }
  }

  /**
   A new procedure joins the queue and is counted for its parent. It is launched at once if and only if the queue was
   empty, or it is a child of a queued RAR with nothing but RARs behind that; otherwise it waits.
   */
  lemma StartsAtOnceExactly(s: Sub, p: Proc)
    requires p.script == [] && !s.released && !Known(s, p.id)
    ensures var t := AfterStart(s, p);
            var atOnce :=
              || s.queue == []
              || ((p.kind == DedicatedBearer || p.kind == NetworkDetach)
                  && exists k :: && 0 <= k < |s.queue| && s.queue[k].proc.kind == Rar && p.parent == Some(s.queue[k].proc.id)
                                 && forall j :: k < j < |s.queue| ==> s.queue[j].proc.kind == Rar);
            && t.arrived == s.arrived + [p]
            && t.queue == s.queue + [Entry(p, |s.arrived|, atOnce)]
            && t.launched == (if atOnce then s.launched + [|s.arrived|] else s.launched)
            && (p.parent.Some? && p.parent.value in s.children && p.parent.value != p.id ==>
                  p.parent.value in t.children && t.children[p.parent.value] == s.children[p.parent.value] + 1)
            && p.id in t.children && t.children[p.id] == 0
  {
    WaitingSplit(s.queue, [Entry(p, |s.arrived|, false)]);
    AllowedExactly(s.queue, p);
    if s.queue == [] || AllowedBeside(s.queue, p) {
      LaunchSilent(Enqueue(s, p), |s.queue|);
    }
  }

  lemma {:induction false} OrdinaryAppend(q: seq<Entry>, e: Entry)
    requires !e.running
    ensures OrdinaryRunners(q + [e]) == OrdinaryRunners(q)
  {
    if q == [] {
      assert (q + [e])[1..] == [];
    } else {
      assert (q + [e])[1..] == q[1..] + [e];
      OrdinaryAppend(q[1..], e);
    }
  }

  /**
   When the child of the first scene ends, the parent's nested completion launches the first of the two waiting
   procedures and the child's own completion the second: both run at once.
   */
  lemma RarRunsTwoAtOnce(a: Proc, b: Proc)
    requires a.id == 2 && b.id == 3 && a.script == b.script == []
    ensures var s := AfterEnd(RarScene(a, b), 1, true);
            s.queue == [Entry(a, 2, true), Entry(b, 3, true)] && s.launched == [0, 1, 2, 3]
  {
    var s := RarScene(a, b);
    RarSceneEnds(a, b);
    EndLaunches(s, 1, true);
    BothResumed(Entry(a, 2, false), Entry(b, 3, false));
    assert [0, 1] + [2, 3][..2] == [0, 1, 2, 3];
  }

  lemma {:induction false} IndexIs(q: seq<Entry>, id: nat, i: nat)
    requires i < |q| && q[i].proc.id == id && forall j :: 0 <= j < i ==> q[j].proc.id != id
    ensures IndexOf(q, id) == i
  {
    if i > 0 {
      IndexIs(q[1..], id, i - 1);
    }
  }

  /** A running RAR, its last child, running too, and what waits behind them. */
  lemma LastChildFirst(s: Sub, x: Entry, c: Entry, waiting: seq<Entry>, success: bool)
    requires s.queue == [x, c] + waiting && x.running && c.running && !s.released
    requires x.proc.kind == Rar && x.proc.id != c.proc.id && c.proc.kind == DedicatedBearer && c.proc.parent == Some(x.proc.id)
    requires x.proc.id in s.children && s.children[x.proc.id] == 1
    requires forall e :: e in waiting ==> e.proc.id != x.proc.id
    ensures IndexOf(s.queue, c.proc.id) == 1 && PlainEnding(s, 1, success) && EndsParent(s, 1) && Left(s, 1) == waiting
  {
    IndexIs(s.queue, c.proc.id, 1);
    assert Without(s.queue, 1) == [x] + waiting;
    IndexIs([x] + waiting, x.proc.id, 0);
    assert Without([x] + waiting, 0) == waiting;
    forall j | 2 <= j < |s.queue| ensures s.queue[j].proc.id != x.proc.id {
      assert s.queue[j] in waiting;
    }
  }

  lemma RarSceneEnds(a: Proc, b: Proc)
    requires a.id == 2 && b.id == 3
    ensures var s := RarScene(a, b);
            && IndexOf(s.queue, 1) == 1 && PlainEnding(s, 1, true) && EndsParent(s, 1)
            && Left(s, 1) == [Entry(a, 2, false), Entry(b, 3, false)] && Positions(s.queue) == [2, 3]
  {
    var s := RarScene(a, b);
    var waiting := [Entry(a, 2, false), Entry(b, 3, false)];
    assert s.queue == [s.queue[0], s.queue[1]] + waiting;
    LastChildFirst(s, s.queue[0], s.queue[1], waiting, true);
    LeftCounts(s, 1, true);
    BothResumed(waiting[0], waiting[1]);
  }

  lemma BothResumed(e: Entry, f: Entry)
    requires !e.running && !f.running
    ensures Resumed([e, f], 2) == [e.(running := true), f.(running := true)] && Positions([e, f]) == [e.pos, f.pos]
  {
    assert [e, f][1..] == [f] && [f][1..] == [];
    assert Resumed([f], 1) == [f.(running := true)] && Positions([f]) == [f.pos];
  }

  const LateChild := Proc(3, DedicatedBearer, Some(0), [])

  /** A RAR with one child running, an ordinary procedure waiting, and a second child of the RAR behind that. */
  ghost function LateScene(y: Proc): Sub {
    Sub([Entry(RarParent, 0, true), Entry(RarChild, 1, true), Entry(y, 2, false), Entry(LateChild, 3, false)],
        map[0 := 2, 1 := 0, 2 := 0, 3 := 0], [RarParent, RarChild, y, LateChild], [0, 1], false, false)
  }

  lemma LateSceneReached(y: Proc)
    requires y.id == 2 && Ordinary(y)
    ensures AfterOps(Fresh, [Start(RarParent), Start(y), Start(LateChild)]) == LateScene(y)
  {
    QueuedBehindPair(y, LateChild);
  }

  /** The first child's end lets the ordinary procedure run beside the RAR, which still waits for its second child. */
  lemma RunsBesideRar(y: Proc)
    requires y.id == 2 && Ordinary(y) && y.script == []
    ensures AfterEnd(LateScene(y), 1, true).queue == [Entry(RarParent, 0, true), Entry(y, 2, true), Entry(LateChild, 3, false)]
    ensures Accompanied(AfterEnd(LateScene(y), 1, true).queue)
  {
    var s := LateScene(y);
    var q := s.queue;
    assert IndexOf(q, 1) == 1;
    var rest := [q[0], q[2], q[3]];
    assert Without(q, 1) == rest;
    EndsOne(s, 1, true);
    ResumeLaunches(s.(queue := rest, children := ChildrenLeft(s, 1)));
    ResumedFirst(rest);
    assert FirstWaiting(rest) == 1;
  }

  /** The last child's completion goes on after its parent's, and uses the subscriber even if that one released it. */
  lemma DanglesExactly(s: Sub, id: nat, success: bool)
    requires IndexOf(s.queue, id) < |s.queue| && PlainEnding(s, IndexOf(s.queue, id), success) && !s.dangling
    requires EndsParent(s, IndexOf(s.queue, id))
    ensures var i := IndexOf(s.queue, id);
            var t := AfterResume(s.(queue := Left(s, i), children := ChildrenLeft(s, i)));
            AfterEnd(s, id, success) == if t.released then t.(dangling := true) else AfterResume(t)
  {
    EndUnfolds(s, id, success);
    ChildAndParent(s, IndexOf(s.queue, id), success);
  }

  /** A detach whose handler completes at once. */
  const QuickDetach := Proc(2, Detach, None, [End(2, true)])

  ghost function DetachScene(): Sub {
    Sub([Entry(RarParent, 0, true), Entry(RarChild, 1, true), Entry(QuickDetach, 2, false)],
        map[0 := 1, 1 := 0, 2 := 0], [RarParent, RarChild, QuickDetach], [0, 1], false, false)
  }

  lemma DetachSceneReached()
    ensures AfterOps(Fresh, [Start(RarParent), Start(QuickDetach)]) == DetachScene()
  {
    RarPairReached();
    assert !Known(RarPair, 2);
    QueuesUp(RarPair, QuickDetach);
    assert Enqueue(RarPair, QuickDetach) == DetachScene();
    assert [Start(RarParent), Start(QuickDetach)][1..] == [Start(QuickDetach)] && [Start(QuickDetach)][1..] == [];
    assert AfterOps(RarPair, [Start(QuickDetach)]) == AfterOps(DetachScene(), []);
  }

  /** Launching it releases the subscriber. */
  lemma QuickDetachReleases(s: Sub)
    requires s.queue == [Entry(QuickDetach, 2, false)] && !s.released
    ensures AfterResume(s) == s.(queue := [], launched := s.launched + [2], released := true)
  {
    var s1 := s.(queue := [Entry(QuickDetach, 2, true)], launched := s.launched + [2]);
    assert s.queue[0 := s.queue[0].(running := true)] == s1.queue;
    assert FirstWaiting(s.queue) == 0;
    assert AfterResume(s) == AfterLaunch(s, 0) == AfterOps(s1, [End(2, true)]);
    IndexIs(s1.queue, 2, 0);
    EndUnfolds(s1, 2, true);
    var t := AfterEnd(s1, 2, true);
    assert t == s1.(queue := [], released := true);
    assert [End(2, true)][1..] == [];
    assert AfterOps(s1, [End(2, true)]) == AfterOps(t, []);
  }

  /** With it waiting behind a RAR, the end of the RAR's child goes on with a subscriber that is gone. */
  lemma DanglingReachable()
    ensures AfterEnd(DetachScene(), 1, true).dangling
  {
    var s := DetachScene();
    var waiting := [Entry(QuickDetach, 2, false)];
    assert s.queue == [s.queue[0], s.queue[1]] + waiting;
    LastChildFirst(s, s.queue[0], s.queue[1], waiting, true);
    DanglesExactly(s, 1, true);
    QuickDetachReleases(s.(queue := waiting, children := ChildrenLeft(s, 1)));
  }

  // ------------------------------------------------------------------ in place

  class Subscriber {
    var queue: seq<Entry>
    var children: map<nat, nat>
    var arrived: seq<Proc>
    var launched: seq<nat>
    var released: bool
    var dangling: bool

    constructor ()
      ensures State() == Fresh
    {
      queue, children, arrived, launched := [], map[], [], [];
      released, dangling := false, false;
    }

    function State(): Sub
      reads this
    {
      Sub(queue, children, arrived, launched, released, dangling)
    }

    method IsAllowedBeside(p: Proc) returns (allowed: bool)
      ensures allowed == AllowedBeside(queue, p)
    {
      allowed := false;
      for i := 0 to |queue|
        invariant allowed == AllowedBeside(queue[..i], p)
      {
        assert queue[..i + 1][..i] == queue[..i];
        var e := queue[i].proc;
        if e.kind == Rar {
          if p.kind == DedicatedBearer && p.parent == Some(e.id) {
            allowed := true;
          }
          if p.kind == NetworkDetach && p.parent == Some(e.id) {
            allowed := true;
          }
        } else {
          allowed := false;
        }
      }
      assert queue[..|queue|] == queue;
    }

    method StartProcedure(p: Proc)
      modifies this
      ensures State() == AfterStart(old(State()), p)
      decreases Waiting(queue) + OpWeight(Start(p)), 2, 0
    {
      if released || Known(State(), p.id) {
        return;
      }
      var first := queue == [];
      var allowed := IsAllowedBeside(p);
      WaitingSplit(queue, [Entry(p, |arrived|, false)]);
      if p.parent.Some? && p.parent.value in children {
        children := children[p.parent.value := children[p.parent.value] + 1];
      }
      children := children[p.id := 0];
      queue := queue + [Entry(p, |arrived|, false)];
      arrived := arrived + [p];
      if first || allowed {
        StartDirect(|queue| - 1);
      }
    }

    method StartDirect(i: nat)
      requires i < |queue| && !queue[i].running
      modifies this
      ensures State() == AfterLaunch(old(State()), i)
      decreases Waiting(queue), 1, 0
    {
      WaitingUpdate(queue, i);
      var e := queue[i];
      queue := queue[i := e.(running := true)];
      launched := launched + [e.pos];
      RunHandler(e.proc.script);
    }

    method RunHandler(script: seq<Op>)
      modifies this
      ensures State() == AfterOps(old(State()), script)
      decreases Waiting(queue) + OpsWeight(script), 3, |script|
    {
      if script != [] {
        match script[0] {
          case Start(p) => StartProcedure(p);
          case End(id, success) => EndProcedure(id, success);
        }
        RunHandler(script[1..]);
      }
    }

    method EndProcedure(id: nat, success: bool)
      modifies this
      ensures State() == AfterEnd(old(State()), id, success)
      decreases Waiting(queue), 2, 2 * |queue|
    {
      var i := Find(id);
      if i == |queue| || !queue[i].running {
        return;
      }
      var p := queue[i].proc;
      WaitingRemove(queue, i);
      queue := queue[..i] + queue[i + 1..];
      if p.kind == DedicatedBearer || p.kind == NetworkDetach {
        ChildProcDone(p.parent, success);
      }
      ghost var s2 := State();
      assert AfterEnd(old(State()), id, success) == AfterFinish(s2, p, success);
      if released {
        dangling := true;
      } else if Releases(p, success) {
        queue, released := [], true;
      } else {
        var j := NextWaiting();
        assert AfterFinish(s2, p, success) == AfterResume(s2);
        if j < |queue| {
          StartDirect(j);
        }
      }
    }

    method ChildProcDone(parent: Option<nat>, success: bool)
      modifies this
      ensures State() == AfterChild(old(State()), parent, success)
      decreases Waiting(queue), 2, 2 * |queue| + 1
    {
      if parent.Some? && parent.value in children && children[parent.value] != 0 {
        children := children[parent.value := children[parent.value] - 1];
        if children[parent.value] == 0 {
          EndProcedure(parent.value, success);
        }
      }
    }

    method Find(id: nat) returns (i: nat)
      ensures i == IndexOf(queue, id)
    {
      i := 0;
      while i < |queue| && queue[i].proc.id != id
        invariant i <= |queue|
        invariant i + IndexOf(queue[i..], id) == IndexOf(queue, id)
      {
        assert queue[i..][1..] == queue[i + 1..];
        i := i + 1;
      }
    }

    method NextWaiting() returns (i: nat)
      ensures i == FirstWaiting(queue)
    {
      i := 0;
      while i < |queue| && queue[i].running
        invariant i <= |queue|
        invariant i + FirstWaiting(queue[i..]) == FirstWaiting(queue)
      {
        assert queue[i..][1..] == queue[i + 1..];
        i := i + 1;
      }
    }
  }
}
