/**
 The scheduler as a state machine: what may happen next, and the invariant that every step keeps.
 */
module SchedulerSteps {
  import opened Options
  import opened Processes

  datatype Step =
    | Tick(now: nat)
    | Pick(now: nat)
    | Sleep(ns: nat, at: nat, now: nat)
    | Block(condvar: nat, now: nat)
    | Wake(condvar: nat, tid: Option<nat>)
    | Tkill(target: nat, sig: nat)
    | KillCurrent(sig: nat, now: nat)
    | Clone(csig: nat, thread: bool, toParent: bool)
    | AwaitChild(pid: int, now: nat)
    | Reap(child: nat)
    | CheckInterrupted
    | Exit(now: nat)

  /** The current process runs. */
  predicate OnCpu(s: State) {
    s.phase.Active? && s.cur.Some? && s.cur.value in s.procs
  }

  ghost predicate Enabled(s: State, step: Step) {
    match step
    case Tick(now) => s.last <= now
    case Pick(now) => s.phase.Picking? && RunNodes(s) != {} && s.phase.now <= now
    case Sleep(_, at, now) => OnCpu(s) && s.last <= at <= now
    case Block(_, now) => OnCpu(s) && s.last <= now
    case Wake(_, _) => true
    case Tkill(p, sig) => p in s.procs && sig < SIGNALS
    case KillCurrent(sig, now) => OnCpu(s) && sig < SIGNALS && s.last <= now
    case Clone(_, _, toParent) => OnCpu(s) && (toParent ==> s.procs[s.cur.value].parent.Some?)
    case AwaitChild(_, now) => OnCpu(s) && s.last <= now
    case Reap(q) => OnCpu(s) && q in s.procs && s.procs[q].status.Zombie? && s.procs[q].parent == s.cur
    case CheckInterrupted => OnCpu(s)
    case Exit(now) => OnCpu(s) && s.last <= now
  }

  // The invariant

  ghost predicate Placed(s: State, p: nat)
    requires p in s.procs
  {
    var pr := s.procs[p];
    && (pr.handle.Null? <==> pr.queue.NoQueue?)
    && (pr.handle.At? ==> pr.handle.tid == p && pr.handle.serial < pr.serial && pr.handle in s.nodes)
    && (pr.handle.At? ==> Matches(s.nodes[pr.handle], p, pr))
  }

  predicate Matches(n: Node, p: nat, pr: Proc) {
    n.tid == p && QueueOf(n) == pr.queue && (n.InRun? ==> n.v == pr.v && n.nice == pr.nice)
  }

  ghost predicate Holds(s: State, p: nat, h: Handle) {
    p in s.procs && s.procs[p].handle == h && h.At?
  }

  /** Each process is in exactly the queue that its tag names, at the node that its handle names, and
      its stored key is its current key; the queues hold nothing else. */
  ghost predicate Queues(s: State) {
    && (forall p :: p in s.procs ==> Placed(s, p))
    && (forall h :: h in s.nodes ==> Holds(s, s.nodes[h].tid, h))
  }

  predicate Lawful(pr: Proc) {
    match pr.queue
    case NoQueue => pr.status.Waiting? || pr.status.Zombie?
    case RunQueue => pr.status.Ready? || pr.status.Running?
    case SleepQueue => pr.status.Waiting?
    case EventQueue => pr.status.Waiting?
  }

  ghost predicate Live(s: State, p: nat) {
    p in s.procs && !s.procs[p].status.Zombie?
  }

  ghost predicate Kin(s: State, p: nat)
    requires p in s.procs
  {
    var pr := s.procs[p];
    p < s.nextTid && pr.csig < SIGNALS && (pr.parent.Some? ==> Live(s, pr.parent.value) && pr.parent.value != p)
  }

  /** The process is in a state that its queue allows, and a runnable one is not behind `minv`. */
  ghost predicate Fit(s: State, p: nat)
    requires p in s.procs
  {
    Lawful(s.procs[p]) && (s.procs[p].queue.RunQueue? ==> s.minv <= s.procs[p].v)
  }

  /** The invariant, but for the state of one process in the middle of an operation. */
  ghost predicate InvBut(s: State, x: Option<nat>) {
    && Queues(s)
    && (forall p :: p in s.procs ==> Kin(s, p) && (x == Some(p) || Fit(s, p)))
    && (s.cur.Some? ==> Live(s, s.cur.value) && (s.phase.Active? && x != s.cur ==> s.procs[s.cur.value].queue.RunQueue?))
    && 0 < s.sigchld < SIGNALS
    && (s.phase.Picking? ==> s.last <= s.phase.now)
  }

  ghost predicate Inv(s: State) {
    InvBut(s, None)
  }

  /** What the invariant says of the queues and of the current process. */
  lemma Current(s: State)
    requires Inv(s)
    ensures Queues(s)
    ensures s.cur.Some? ==> s.cur.value in s.procs && Live(s, s.cur.value) && (s.phase.Active? ==> s.procs[s.cur.value].queue.RunQueue?)
  {
  }

  /** Only processes and queues differ. */
  predicate Beside(s: State, t: State) {
    t == s.(procs := t.procs, nodes := t.nodes)
  }

  // Every step keeps the invariant

  lemma RemovedQueues(s: State, p: nat)
    requires Queues(s) && p in s.procs
    ensures Queues(Removed(s, p))
  {
  }

  lemma WithQueues(s: State, p: nat, pr: Proc)
    requires Queues(s) && p in s.procs
    requires var was := s.procs[p];
      pr.queue == was.queue && pr.handle == was.handle && pr.serial == was.serial
      && (pr.queue.RunQueue? ==> pr.v == was.v && pr.nice == was.nice)
    ensures Queues(With(s, p, pr))
  {
  }

  lemma SameQueues(s: State, t: State)
    requires Queues(s) && t.procs == s.procs && t.nodes == s.nodes
    ensures Queues(t)
  {
  }

  lemma EnteredQueues(s: State, p: nat, n: Node)
    requires Queues(s) && p in s.procs && s.procs[p].queue.NoQueue?
    requires n.tid == p && (n.InRun? ==> n.v == s.procs[p].v && n.nice == s.procs[p].nice)
    ensures Queues(Entered(s, p, n))
  {
  }

  /** Leaving a queue and joining the run queue at virtual time `v`. */
  lemma RequeuedQueues(s: State, p: nat, v: nat)
    requires Queues(s) && p in s.procs
    ensures var s1 := Removed(s, p);
      Queues(Entered(With(s1, p, s1.procs[p].(v := v, status := Ready)), p, InRun(p, v, s1.procs[p].nice)))
  {
  }

  lemma AddedShape(s: State, p: nat)
    requires Queues(s) && p in s.procs
    ensures Queues(Added(s, p)) && Added(s, p) == s.(procs := s.procs[p := Awake(s, p)], nodes := Added(s, p).nodes)
  {
    hide Queues;
    RequeuedQueues(s, p, s.procs[p].v + s.minv);
  }

  /** A change of one process that keeps the others' relations to it. */
  lemma ChangedInv(s: State, t: State, p: nat, x: Option<nat>)
    requires InvBut(s, Some(p)) && p in s.procs && p in t.procs && Queues(t)
    requires t == s.(procs := s.procs[p := t.procs[p]], nodes := t.nodes, phase := t.phase)
    requires t.procs[p].csig == s.procs[p].csig && t.procs[p].parent == s.procs[p].parent
    requires Live(s, p) ==> Live(t, p)
    requires x == Some(p) || (x == None && Fit(t, p) && (t.phase.Active? && s.cur == Some(p) ==> t.procs[p].queue.RunQueue?))
    requires t.phase == s.phase || (t.phase.Picking? && s.last <= t.phase.now)
    ensures InvBut(t, x)
  {
  }

  lemma AddedInv(s: State, p: nat)
    requires InvBut(s, Some(p)) && Live(s, p)
    ensures Inv(Added(s, p)) && Beside(s, Added(s, p))
  {
    hide Queues, Added;
    AddedShape(s, p);
    ChangedInv(s, Added(s, p), p, None);
  }

  lemma InterruptedInv(s: State, p: nat)
    requires Inv(s) && Live(s, p)
    ensures Inv(Interrupted(s, p)) && Beside(s, Interrupted(s, p))
  {
    hide Queues;
    var pr := s.procs[p];
    if pr.status.Waiting? {
      WithQueues(s, p, pr.(interrupted := true));
      AddedInv(With(s, p, pr.(interrupted := true)), p);
    } else {
      AddedInv(s, p);
    }
  }

  lemma KilledInv(s: State, p: nat, sig: nat)
    requires Inv(s) && p in s.procs && sig < SIGNALS
    ensures Inv(Killed(s, p, sig)) && Beside(s, Killed(s, p, sig))
  {
    hide Queues;
    var pr := s.procs[p];
    WithQueues(s, p, pr.(signals := pr.signals + {sig}));
    if !pr.status.Zombie? {
      InterruptedInv(With(s, p, pr.(signals := pr.signals + {sig})), p);
    }
  }

  lemma BlockedInv(s: State, p: nat)
    requires Inv(s) && Live(s, p)
    ensures InvBut(Blocked(s, p), Some(p)) && Beside(s, Blocked(s, p)) && p in Blocked(s, p).procs
    ensures Blocked(s, p).procs[p].queue.NoQueue? && Blocked(s, p).procs[p].status.Waiting?
  {
    hide Queues;
    RemovedQueues(s, p);
    var s1 := Removed(s, p);
    var pr := s1.procs[p];
    WithQueues(s1, p, pr.(v := if s.minv <= pr.v then pr.v - s.minv else pr.v, status := Waiting));
    ChangedInv(s, Blocked(s, p), p, Some(p));
  }

  lemma RescheduledInv(s: State, timer: bool, now: nat)
    requires s.cur.Some? && InvBut(s, s.cur) && Fit(s, s.cur.value) && s.last <= now
    requires !timer || Inv(s)
    requires s.phase.Active?
    ensures Inv(Rescheduled(s, timer, now))
  {
    hide Queues;
    var c := s.cur.value;
    var pr := s.procs[c];
    RequeuedQueues(s, c, pr.v + (now - s.last));
    WithQueues(s, c, if pr.queue.RunQueue? then pr else pr.(v := pr.v + (now - s.last)));
    var t := Charged(s, c, now - s.last);
    SameQueues(t, t.(phase := Picking(now)));
    ChangedInv(s, t.(phase := Picking(now)), c, None);
  }

  /** Leaving the run queue to wait, and giving up the processor. */
  lemma YieldInv(s: State, now: nat)
    requires Inv(s) && OnCpu(s) && s.last <= now
    ensures Inv(Rescheduled(Blocked(s, s.cur.value), false, now))
  {
    hide Queues, Blocked;
    BlockedInv(s, s.cur.value);
    RescheduledInv(Blocked(s, s.cur.value), false, now);
  }

  lemma YieldIntoInv(s: State, n: Node, now: nat)
    requires Inv(s) && OnCpu(s) && s.last <= now && n.tid == s.cur.value && !n.InRun?
    ensures Inv(Rescheduled(Entered(Blocked(s, s.cur.value), s.cur.value, n), false, now))
  {
    hide Queues, Blocked, Kin;
    var c := s.cur.value;
    BlockedInv(s, c);
    var s1 := Blocked(s, c);
    EnteredQueues(s1, c, n);
    var s2 := Entered(s1, c, n);
    ChangedInv(s1, s2, c, Some(c));
    assert Fit(s2, c);
    RescheduledInv(s2, false, now);
  }

  lemma OrphanedQueues(s: State, p: nat)
    requires Inv(s)
    ensures Queues(Orphaned(s, p))
  {
  }

  lemma OrphanedInv(s: State, p: nat)
    requires Inv(s) && Live(s, p)
    ensures var t := Orphaned(s, p);
      Inv(t) && Beside(s, t) && Live(t, p) && t.procs[p] == s.procs[p] && forall q :: q in t.procs ==> t.procs[q].parent != Some(p)
  {
    hide Queues;
    OrphanedQueues(s, p);
    var t := Orphaned(s, p);
    assert Kin(s, p);
    assert forall q :: Live(s, q) ==> Live(t, q);
    forall q | q in t.procs ensures Kin(t, q) && Fit(t, q) {
      assert Kin(s, q) && Fit(s, q);
    }
  }

  lemma BuriedInv(s: State, p: nat)
    requires Inv(s) && Live(s, p) && forall q :: q in s.procs ==> s.procs[q].parent != Some(p)
    ensures var t := Buried(s, p);
      Inv(t) && p in t.procs && Beside(s.(cur := None), t)
  {
    hide Queues;
    RemovedQueues(s, p);
    var s1 := Removed(s, p);
    var t := With(s1, p, s1.procs[p].(status := Zombie));
    WithQueues(s1, p, s1.procs[p].(status := Zombie));
    SameQueues(t, t.(cur := None));
    assert forall q :: Live(s, q) && q != p ==> Live(t.(cur := None), q);
  }

  lemma MournedInv(s: State, p: nat)
    requires Inv(s) && p in s.procs
    ensures Inv(Mourned(s, p)) && Beside(s, Mourned(s, p))
  {
    hide Queues, Added, Killed;
    var pr := s.procs[p];
    if pr.parent.Some? {
      var q := pr.parent.value;
      AddedInv(s, q);
      KilledInv(s, q, if pr.csig != 0 then pr.csig else s.sigchld);
    }
  }

  lemma GoneInv(s: State, p: nat, now: nat)
    requires Inv(s) && Live(s, p) && s.last <= now && s.phase.Active?
    ensures p in Orphaned(s, p).procs && Beside(s.(cur := None), Gone(s, p)) && Inv(Rescheduled(Gone(s, p), false, now))
  {
    hide Queues, Orphaned, Buried, Mourned, Kin, Fit;
    OrphanedInv(s, p);
    BuriedInv(Orphaned(s, p), p);
    MournedInv(Buried(Orphaned(s, p), p), p);
    PickingInv(Gone(s, p), now);
  }

  lemma PickingInv(s: State, now: nat)
    requires Inv(s) && s.last <= now
    ensures Inv(s.(phase := Picking(now)))
  {
  }

  /** Waking one more process is one more `add_proc_run`. */
  lemma WokenStep(s: State, ps: set<nat>, p: nat)
    requires Queues(s) && ps <= s.procs.Keys && p in s.procs && p !in ps
    ensures Added(Woken(s, ps), p) == Woken(s, ps + {p})
  {
    hide Others, AwakeNodes, Queues;
    var t := Woken(s, ps);
    AddedProcs(s, ps, p);
    OthersStep(s, ps, p, t.nodes);
    AwakeNodesStep(s, ps, p);
    assert Added(t, p).nodes == Woken(s, ps + {p}).nodes;
  }

  lemma AddedProcs(s: State, ps: set<nat>, p: nat)
    requires ps <= s.procs.Keys && p in s.procs && p !in ps
    ensures var t := Woken(s, ps);
      p in t.procs && t.procs[p] == s.procs[p] && Beside(s, Added(t, p)) && Added(t, p).procs == Woken(s, ps + {p}).procs
  {
    hide Others, AwakeNodes;
  }

  lemma OthersStep(s: State, ps: set<nat>, p: nat, nodes: map<Handle, Node>)
    requires Queues(s) && ps <= s.procs.Keys && p in s.procs && p !in ps && nodes == Others(s.nodes, ps) + AwakeNodes(s, ps)
    ensures var h := s.procs[p].handle;
      (if h in nodes && QueueOf(nodes[h]) == s.procs[p].queue then nodes - {h} else nodes)
      == Others(s.nodes, ps + {p}) + AwakeNodes(s, ps)
  {
    hide Others, AwakeNodes, Queues;
    var h := s.procs[p].handle;
    OnlyNode(s, p);
    OthersLess(s.nodes, ps, p, h);
    NotAwake(s, ps, h);
  }

  lemma OnlyNode(s: State, p: nat)
    requires Queues(s) && p in s.procs
    ensures Placed(s, p) && Null !in s.nodes && forall g :: g in s.nodes && s.nodes[g].tid == p ==> g == s.procs[p].handle
  {
  }

  lemma OthersLess(nodes: map<Handle, Node>, ps: set<nat>, p: nat, h: Handle)
    requires p !in ps && (forall g :: g in nodes && nodes[g].tid == p ==> g == h) && (h in nodes ==> nodes[h].tid == p)
    ensures Others(nodes, ps + {p}) == Others(nodes, ps) - {h}
    ensures h in Others(nodes, ps) <==> h in nodes
    ensures h in nodes ==> Others(nodes, ps)[h] == nodes[h]
  {
  }

  lemma NotAwake(s: State, ps: set<nat>, h: Handle)
    requires ps <= s.procs.Keys && (h.At? ==> h.tid !in ps)
    ensures h !in AwakeNodes(s, ps)
  {
  }

  lemma AwakeNodesStep(s: State, ps: set<nat>, p: nat)
    requires ps <= s.procs.Keys && p in s.procs
    ensures AwakeNodes(s, ps + {p}) == AwakeNodes(s, ps)[At(p, s.procs[p].serial) := AwakeNode(s, p)]
  {
  }

  lemma WokenNone(s: State)
    ensures Woken(s, {}) == s
  {
    assert Woken(s, {}).procs == s.procs && Woken(s, {}).nodes == s.nodes;
  }

  lemma {:induction false} WokenInv(s: State, ps: set<nat>)
    requires Inv(s) && ps <= s.procs.Keys && forall p :: p in ps ==> Live(s, p)
    ensures Inv(Woken(s, ps))
  {
    hide Queues, Kin, Fit, Added;
    if ps == {} {
      WokenNone(s);
    } else {
      var p :| p in ps;
      WokenInv(s, ps - {p});
      WokenStep(s, ps - {p}, p);
      assert ps - {p} + {p} == ps;
      AddedInv(Woken(s, ps - {p}), p);
    }
  }

  /** Sleepers and waiters are live processes. */
  lemma QueuedLive(s: State, now: nat, cv: nat, tid: Option<nat>)
    requires Inv(s)
    ensures forall p :: p in Due(s, now) || p in Waiters(s, cv, tid) ==> Live(s, p)
  {
  }

  /** The first node of the run queue exists, and belongs to a runnable process. */
  lemma {:induction false} LeastExists(s: State, hs: set<Handle>) returns (h: Handle)
    requires hs != {} && hs <= RunNodes(s) && Queues(s)
    ensures h in hs && forall g :: g in hs && g != h ==> Less(s.nodes[h], s.nodes[g])
  {
    var x :| x in hs;
    if hs == {x} {
      h := x;
    } else {
      var y := LeastExists(s, hs - {x});
      assert Holds(s, s.nodes[x].tid, x) && Holds(s, s.nodes[y].tid, y);
      h := if Less(s.nodes[x], s.nodes[y]) then x else y;
    }
  }

  lemma LeastIs(s: State)
    requires Queues(s) && RunNodes(s) != {}
    ensures exists h :: IsLeast(s, h)
  {
    var g := LeastExists(s, RunNodes(s));
    assert IsLeast(s, g);
  }

  /** The process that `schedule` picks. */
  ghost function First(s: State): (c: nat)
    requires Queues(s) && RunNodes(s) != {}
    ensures c in s.procs && s.procs[c].queue.RunQueue? && IsLeast(s, s.procs[c].handle)
  {
    LeastIs(s);
    var h :| IsLeast(s, h);
    assert Holds(s, s.nodes[h].tid, h) && Placed(s, s.nodes[h].tid);
    s.nodes[h].tid
  }

  lemma FirstIsLeast(s: State, p: nat)
    requires Inv(s) && RunNodes(s) != {} && p in s.procs && s.procs[p].queue.RunQueue?
    ensures s.procs[First(s)].v <= s.procs[p].v && s.minv <= s.procs[First(s)].v
  {
  }

  lemma ChosenInv(s: State)
    requires Inv(s) && s.phase.Picking? && RunNodes(s) != {}
    ensures var t := Chosen(s, First(s));
      Inv(t) && s.minv <= t.minv && t.phase.Active? && t.last == s.phase.now && t.cur == Some(First(s))
  {
    hide Queues, Kin, Dies;
    var c := First(s);
    var t := Chosen(s, c);
    ChosenQueues(s, c);
    assert forall q :: Live(s, q) ==> Live(t, q);
    FirstIsLeast(s, c);
    forall p | p in t.procs ensures Kin(t, p) && Fit(t, p) {
      assert Kin(s, p) && Fit(s, p);
      if s.procs[p].queue.RunQueue? {
        FirstIsLeast(s, p);
      }
      ChosenKin(s, c, p);
    }
  }

  lemma ChosenQueues(s: State, c: nat)
    requires Queues(s) && c in s.procs && s.phase.Picking?
    ensures Queues(Chosen(s, c))
  {
  }

  lemma ChosenKin(s: State, c: nat, p: nat)
    requires c in s.procs && s.phase.Picking? && p in s.procs && Kin(s, p)
    ensures Kin(Chosen(s, c), p)
  {
  }
}
