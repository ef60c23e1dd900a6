/**
 Whole runs of the scheduler: every step keeps the invariant, virtual time never runs backwards, and a
 tick wakes exactly the sleepers whose time has come.
 */
module SchedulerRuns {
  import opened Options
  import opened Processes
  import opened SchedulerSteps

  ghost function Ticked(s: State, now: nat): State
    requires Inv(s) && s.last <= now
  {
    QueuedLive(s, now, 0, None);
    WokenInv(s, Due(s, now));
    Rescheduled(Woken(s, Due(s, now)), true, now)
  }

  ghost function Picked(s: State, now: nat): State
    requires Inv(s) && s.phase.Picking? && RunNodes(s) != {} && s.phase.now <= now
  {
    ChosenInv(s);
    var c := First(s);
    var t := Chosen(s, c);
    if Dies(s, c) then GoneInv(t, c, now); Rescheduled(Gone(t, c), false, now) else t
  }

  ghost function Slept(s: State, n: Node, now: nat): State
    requires Inv(s) && OnCpu(s) && s.last <= now && n.tid == s.cur.value
  {
    Rescheduled(Entered(Blocked(s, n.tid), n.tid, n), false, now)
  }

  ghost function Next(s: State, step: Step): State
    requires Inv(s) && Enabled(s, step)
  {
    match step
    case Tick(now) => Ticked(s, now)
    case Pick(now) => Picked(s, now)
    case Sleep(ns, at, now) => if ns < 10 then s else Slept(s, InSleep(s.cur.value, at + ns), now)
    case Block(cv, now) => Slept(s, InEvent(s.cur.value, cv), now)
    case Wake(cv, tid) => QueuedLive(s, 0, cv, tid); Woken(s, Waiters(s, cv, tid))
    case Tkill(p, sig) => Killed(s, p, sig)
    case KillCurrent(sig, now) =>
      KilledInv(s, s.cur.value, sig);
      Rescheduled(Killed(s, s.cur.value, sig).(cur := None), false, now)
    case Clone(csig, thread, toParent) => Cloned(s, s.cur.value, csig, thread, toParent)
    case AwaitChild(pid, now) =>
      Rescheduled(Blocked(With(s, s.cur.value, s.procs[s.cur.value].(waitPid := if pid <= 0 then -1 else pid)), s.cur.value), false, now)
    case Reap(q) => Reaped(s, s.cur.value, q)
    case CheckInterrupted => With(s, s.cur.value, s.procs[s.cur.value].(interrupted := false))
    case Exit(now) => GoneInv(s, s.cur.value, now); Rescheduled(Gone(s, s.cur.value), false, now)
  }

  lemma TickInv(s: State, now: nat)
    requires Inv(s) && s.last <= now
    ensures Inv(Ticked(s, now)) && Ticked(s, now).minv == s.minv
  {
    hide Queues, Kin, Woken, Charged;
    QueuedLive(s, now, 0, None);
    var t := Woken(s, Due(s, now));
    WokenInv(s, Due(s, now));
    WokenBeside(s, Due(s, now));
    if t.cur.Some? && t.phase.Active? {
      RescheduledInv(t, true, now);
    } else if t.phase.Active? {
      PickingInv(t, now);
    }
    RescheduledMinv(t, true, now);
  }

  lemma WokenBeside(s: State, ps: set<nat>)
    requires ps <= s.procs.Keys
    ensures Beside(s, Woken(s, ps)) && Woken(s, ps).procs.Keys == s.procs.Keys
  {
  }

  lemma RescheduledMinv(s: State, timer: bool, now: nat)
    requires s.last <= now && (s.cur.Some? ==> s.cur.value in s.procs)
    ensures Rescheduled(s, timer, now).minv == s.minv && Rescheduled(s, timer, now).cur == s.cur
  {
  }

  lemma PickInv(s: State, now: nat)
    requires Inv(s) && s.phase.Picking? && RunNodes(s) != {} && s.phase.now <= now
    ensures Inv(Picked(s, now)) && s.minv <= Picked(s, now).minv
    ensures Picked(s, now).minv == s.procs[First(s)].v
  {
    hide Queues, Kin, Fit, Gone, Dies;
    ChosenInv(s);
    var t := Chosen(s, First(s));
    if Dies(s, First(s)) {
      GoneInv(t, First(s), now);
      RescheduledMinv(Gone(t, First(s)), false, now);
    }
  }

  lemma CloneInv(s: State, csig: nat, thread: bool, toParent: bool)
    requires Inv(s) && OnCpu(s)
    ensures Inv(Cloned(s, s.cur.value, csig, thread, toParent)) && Cloned(s, s.cur.value, csig, thread, toParent).minv == s.minv
  {
    hide Queues, Added;
    if csig < SIGNALS {
      var c, p, parent := s.cur.value, s.nextTid, s.procs[s.cur.value];
      var child := Proc(Created, NoQueue, Null, 0, 0, parent.nice, false, {},
        if toParent then parent.parent else Some(c), if thread then parent.pid else p, 0, csig);
      var t := With(s, p, child).(nextTid := p + 1);
      assert p !in s.procs && Kin(s, c);
      BornQueues(s, p, child);
      SameQueues(With(s, p, child), t);
      assert forall q :: Live(s, q) ==> Live(t, q);
      assert forall q :: q in s.procs ==> Kin(s, q) && Fit(s, q) && Kin(t, q) && Fit(t, q);
      assert InvBut(t, Some(p));
      AddedInv(t, p);
    }
  }

  lemma BornQueues(s: State, p: nat, child: Proc)
    requires Queues(s) && p !in s.procs && child.queue.NoQueue? && child.handle.Null?
    ensures Queues(With(s, p, child))
  {
  }

  /** A change of a field that no queue and no other process depends on. */
  lemma NotedInv(s: State, p: nat, pr: Proc)
    requires Inv(s) && p in s.procs && pr == s.procs[p].(waitPid := pr.waitPid, interrupted := pr.interrupted)
    ensures Inv(With(s, p, pr))
  {
    hide Queues;
    WithQueues(s, p, pr);
    ChangedInv(s, With(s, p, pr), p, None);
  }

  function Deleted(s: State, q: nat): State {
    s.(procs := s.procs - {q})
  }

  /** The end of `waitpid`: the caller no longer waits, and the child is deleted. */
  function Reaped(s: State, c: nat, q: nat): State
    requires c in s.procs
  {
    Deleted(With(s, c, s.procs[c].(waitPid := 0)), q)
  }

  /** Nobody is a child of `q`. */
  ghost predicate Childless(s: State, q: nat) {
    forall p :: p in s.procs ==> s.procs[p].parent != Some(q)
  }

  lemma DeletedIff(s: State, q: nat)
    requires Inv(s) && q in s.procs && s.cur != Some(q)
    ensures Inv(Deleted(s, q)) <==> s.procs[q].queue.NoQueue? && Childless(s, q)
    ensures s.procs[q].status.Zombie? ==> Inv(Deleted(s, q))
  {
    hide InvBut;
    if s.procs[q].status.Zombie? {
      ZombieFree(s, q);
    }
    if s.procs[q].queue.NoQueue? && Childless(s, q) {
      DeletedInv(s, q);
    } else {
      DeletedBreaks(s, q);
    }
  }

  /** A dead process is in no queue and has no children. */
  lemma ZombieFree(s: State, q: nat)
    requires Inv(s) && q in s.procs && s.procs[q].status.Zombie?
    ensures s.procs[q].queue.NoQueue? && Childless(s, q)
  {
    hide Queues;
    assert Fit(s, q);
    assert forall p :: p in s.procs ==> Kin(s, p);
  }

  lemma DeletedInv(s: State, q: nat)
    requires Inv(s) && q in s.procs && s.cur != Some(q) && s.procs[q].queue.NoQueue? && Childless(s, q)
    ensures Inv(Deleted(s, q))
  {
    hide Queues;
    var t := Deleted(s, q);
    DeletedQueues(s, q);
    forall p | p in t.procs ensures Kin(t, p) && Fit(t, p) {
      assert Kin(s, p) && Fit(s, p);
    }
  }

  lemma DeletedBreaks(s: State, q: nat)
    requires Inv(s) && q in s.procs && !(s.procs[q].queue.NoQueue? && Childless(s, q))
    ensures !Inv(Deleted(s, q))
  {
    var t := Deleted(s, q);
    assert Placed(s, q) && Kin(s, q);
    if !s.procs[q].queue.NoQueue? {
      assert !Holds(t, q, s.procs[q].handle) && t.nodes[s.procs[q].handle].tid == q;
    } else {
      var p :| p in s.procs && s.procs[p].parent == Some(q);
      assert Kin(s, p) && p in t.procs && !Kin(t, p);
    }
  }

  lemma DeletedQueues(s: State, q: nat)
    requires Queues(s) && q in s.procs && s.procs[q].queue.NoQueue?
    ensures Queues(Deleted(s, q))
  {
    var t := Deleted(s, q);
    assert Placed(s, q);
    assert forall p :: p in t.procs ==> Placed(s, p) && Placed(t, p);
    assert forall h :: h in s.nodes ==> Holds(s, s.nodes[h].tid, h) && Holds(t, s.nodes[h].tid, h);
  }

  /** Deleting a child keeps the invariant if and only if it is in no queue and has no children, as is
      the case for every dead one. */
  lemma ReapIff(s: State, c: nat, q: nat)
    requires Inv(s) && c in s.procs && q in s.procs && q != c && s.cur != Some(q)
    ensures Inv(Reaped(s, c, q)) <==> s.procs[q].queue.NoQueue? && Childless(s, q)
    ensures s.procs[q].status.Zombie? ==> Inv(Reaped(s, c, q))
  {
    hide InvBut;
    NotedInv(s, c, s.procs[c].(waitPid := 0));
    var t := With(s, c, s.procs[c].(waitPid := 0));
    DeletedIff(t, q);
    assert Childless(t, q) <==> Childless(s, q) by {
      assert forall p :: p in s.procs ==> t.procs[p].parent == s.procs[p].parent;
    }
  }

  lemma AwaitInv(s: State, pid: int, now: nat)
    requires Inv(s) && OnCpu(s) && s.last <= now
    ensures Inv(Next(s, AwaitChild(pid, now))) && Next(s, AwaitChild(pid, now)).minv == s.minv
  {
    hide Queues, Kin, Fit, Blocked, Charged;
    var c := s.cur.value;
    var t := With(s, c, s.procs[c].(waitPid := if pid <= 0 then -1 else pid));
    NotedInv(s, c, t.procs[c]);
    YieldInv(t, now);
    BlockedInv(t, c);
    RescheduledMinv(Blocked(t, c), false, now);
  }

  lemma SleptInv(s: State, n: Node, now: nat)
    requires Inv(s) && OnCpu(s) && s.last <= now && n.tid == s.cur.value && !n.InRun?
    ensures Inv(Slept(s, n, now)) && Slept(s, n, now).minv == s.minv
  {
    hide Queues, Kin, Fit, Blocked, Charged;
    YieldIntoInv(s, n, now);
    BlockedInv(s, n.tid);
    RescheduledMinv(Entered(Blocked(s, n.tid), n.tid, n), false, now);
  }

  lemma KillInv(s: State, p: nat, sig: nat, now: nat)
    requires Inv(s) && p in s.procs && sig < SIGNALS && s.last <= now
    ensures var t := Killed(s, p, sig); Inv(t) && t.minv == s.minv && Inv(t.(cur := None, phase := Picking(now)))
  {
    hide Queues, Kin, Fit, Killed;
    KilledInv(s, p, sig);
    var t := Killed(s, p, sig);
    PickingInv(t, now);
    NoCurrentInv(t.(phase := Picking(now)));
  }

  lemma NoCurrentInv(s: State)
    requires Inv(s)
    ensures Inv(s.(cur := None))
  {
  }

  lemma GoneMinv(s: State, now: nat)
    requires Inv(s) && OnCpu(s) && s.last <= now
    ensures Inv(Next(s, Exit(now))) && Next(s, Exit(now)).minv == s.minv
  {
    hide Queues, Kin, Fit, Gone;
    GoneInv(s, s.cur.value, now);
    RescheduledMinv(Gone(s, s.cur.value), false, now);
  }

  lemma ReapOther(s: State, q: nat)
    requires Inv(s) && OnCpu(s) && q in s.procs && s.procs[q].status.Zombie?
    ensures s.cur != Some(q)
  {
  }

  /** Every step keeps the invariant, and `minv` never decreases. */
  lemma NextInv(s: State, step: Step)
    requires Inv(s) && Enabled(s, step)
    ensures Inv(Next(s, step)) && s.minv <= Next(s, step).minv
  {
    hide Inv, InvBut, Ticked, Picked, Slept, Woken, Killed, Cloned, Blocked, Gone;
    assert OnCpu(s) ==> s.cur.value in s.procs;
    match step
    case Tick(now) => TickInv(s, now);
    case Pick(now) => PickInv(s, now);
    case Sleep(ns, at, now) => SleptInv(s, InSleep(s.cur.value, at + ns), now);
    case Block(cv, now) => SleptInv(s, InEvent(s.cur.value, cv), now);
    case Wake(cv, tid) =>
      QueuedLive(s, 0, cv, tid);
      WokenInv(s, Waiters(s, cv, tid));
      WokenBeside(s, Waiters(s, cv, tid));
    case Tkill(p, sig) => KillInv(s, p, sig, s.last);
    case KillCurrent(sig, now) =>
      KillInv(s, s.cur.value, sig, now);
      KilledInv(s, s.cur.value, sig);
    case Clone(csig, thread, toParent) => CloneInv(s, csig, thread, toParent);
    case AwaitChild(pid, now) => AwaitInv(s, pid, now);
    case Reap(q) => ReapOther(s, q); ReapIff(s, s.cur.value, q);
    case CheckInterrupted => NotedInv(s, s.cur.value, s.procs[s.cur.value].(interrupted := false));
    case Exit(now) => GoneMinv(s, now);
  }

  /** The steps lead from `s` to `t`. */
  ghost predicate Leads(s: State, steps: seq<Step>, t: State)
    decreases |steps|
  {
    if steps == [] then s == t
    else Inv(s) && Enabled(s, steps[0]) && Leads(Next(s, steps[0]), steps[1..], t)
  }

  /** Over every run, each process stays in exactly the queue that it says, at the node that it says,
      under its current key; `minv` never decreases, and no runnable process is behind it. */
  lemma {:induction false} RunInv(s: State, steps: seq<Step>, t: State)
    requires Inv(s) && Leads(s, steps, t)
    ensures Inv(t) && Queues(t) && s.minv <= t.minv
    ensures forall p :: p in t.procs && t.procs[p].queue.RunQueue? ==> t.minv <= t.procs[p].v
    decreases |steps|
  {
    hide Next, Enabled, Queues, Kin;
    if steps == [] {
      assert forall p :: p in t.procs ==> Fit(t, p);
    } else {
      NextInv(s, steps[0]);
      RunInv(Next(s, steps[0]), steps[1..], t);
    }
  }

  lemma {:induction false} LeadsOn(s: State, steps: seq<Step>, t: State, more: seq<Step>, u: State)
    requires Leads(s, steps, t) && Leads(t, more, u)
    ensures Leads(s, steps + more, u)
    decreases |steps|
  {
    hide Next;
    if steps == [] {
      assert steps + more == more;
    } else {
      assert (steps + more)[1..] == steps[1..] + more;
      LeadsOn(Next(s, steps[0]), steps[1..], t, more, u);
    }
  }

  /** The record that `init` gives the first processes. */
  function Booted(p: nat): Proc {
    Proc(Ready, RunQueue, At(p, 0), 1, 0, 0, false, {}, None, p, 0, 0)
  }

  /** `init`: two runnable processes, and none on the processor. */
  function Initial(fatal: set<nat>, sigchld: nat): State {
    State(map[1 := Booted(1), 2 := Booted(2)], map[At(1, 0) := InRun(1, 0, 0), At(2, 0) := InRun(2, 0, 0)],
      None, 0, 0, 3, Active, fatal, sigchld)
  }

  lemma InitialInv(fatal: set<nat>, sigchld: nat)
    requires 0 < sigchld < SIGNALS
    ensures Inv(Initial(fatal, sigchld))
  {
  }

  /** A tick wakes exactly the sleepers whose time has come, and leaves every other record alone. */
  lemma WakesExactly(s: State, now: nat, p: nat)
    requires Inv(s) && p in s.procs
    ensures Due(s, now) <= s.procs.Keys
    ensures var t := Woken(s, Due(s, now)); var pr := s.procs[p];
      if pr.queue.SleepQueue? && s.nodes[pr.handle].wakeup <= now
      then p in t.procs && t.procs[p].queue.RunQueue? && t.procs[p].status.Ready? && t.procs[p].v == pr.v + s.minv
      else p in t.procs && t.procs[p] == pr && (pr.handle.At? ==> pr.handle in t.nodes && t.nodes[pr.handle] == s.nodes[pr.handle])
  {
    QueuedLive(s, now, 0, None);
    OnlyNode(s, p);
    hide InvBut;
    WokenRecord(s, Due(s, now), p);
    assert p in Due(s, now) <==> s.procs[p].queue.SleepQueue? && s.nodes[s.procs[p].handle].wakeup <= now;
  }

  /** What waking `ps` does to the record and the node of one process. */
  lemma WokenRecord(s: State, ps: set<nat>, p: nat)
    requires ps <= s.procs.Keys && p in s.procs && Placed(s, p)
    ensures var t := Woken(s, ps);
      if p in ps then p in t.procs && t.procs[p] == Awake(s, p)
      else
        && p in t.procs && t.procs[p] == s.procs[p]
        && (s.procs[p].handle.At? ==> s.procs[p].handle in t.nodes && t.nodes[s.procs[p].handle] == s.nodes[s.procs[p].handle])
  {
  }
}
