/**
 How long a process waits: what ends a sleep, a wait on a condition variable and a wait for a child, over
 runs of the scheduler.
 */
module Sleepers {
  import opened Options
  import opened Processes
  import opened SchedulerSteps
  import opened SchedulerRuns

  /** The step sends a signal to `p`, or ends a child of `p`. */
  ghost predicate Alerts(s: State, step: Step, p: nat)
    requires Inv(s) && Enabled(s, step)
  {
    match step
    case Tkill(q, sig) => q == p && sig != 0
    case KillCurrent(_, _) => s.cur == Some(p)
    case Exit(_) => s.procs[s.cur.value].parent == Some(p)
    case Pick(_) => Dies(s, First(s)) && s.procs[First(s)].parent == Some(p)
    case _ => false
  }

  /** The process waits, and is at no node or at the node `n`. */
  ghost predicate WaitsAt(s: State, p: nat, n: Option<Node>) {
    && p in s.procs && s.procs[p].status.Waiting? && !s.procs[p].queue.RunQueue?
    && if n.None? then s.procs[p].queue.NoQueue?
       else s.procs[p].handle in s.nodes && s.nodes[s.procs[p].handle] == n.value && s.procs[p].queue == QueueOf(n.value)
  }

  /** The record and the node of `p` are as they were, but for its parent. */
  ghost predicate SameBut(s: State, t: State, p: nat) {
    && p in s.procs && p in t.procs && t.procs[p] == s.procs[p].(parent := t.procs[p].parent)
    && (s.procs[p].handle in s.nodes ==> s.procs[p].handle in t.nodes && t.nodes[s.procs[p].handle] == s.nodes[s.procs[p].handle])
  }

  lemma StaysAt(s: State, t: State, p: nat, n: Option<Node>)
    requires WaitsAt(s, p, n) && SameBut(s, t, p)
    ensures WaitsAt(t, p, n)
  {
  }

  // What the parts of a step leave alone

  lemma AddedOther(s: State, q: nat, p: nat)
    requires Queues(s) && q in s.procs && p in s.procs && p != q
    ensures SameBut(s, Added(s, q), p)
  {
    assert Placed(s, q) && Placed(s, p);
  }

  lemma KilledOther(s: State, q: nat, sig: nat, p: nat)
    requires Queues(s) && q in s.procs && p in s.procs && p != q
    ensures SameBut(s, Killed(s, q, sig), p)
  {
    hide Queues, Added;
    var pr := s.procs[q];
    var s1 := With(s, q, pr.(signals := pr.signals + {sig}));
    var s2 := With(s1, q, s1.procs[q].(interrupted := true));
    WithQueues(s, q, s1.procs[q]);
    WithQueues(s1, q, s2.procs[q]);
    AddedOther(s1, q, p);
    AddedOther(s2, q, p);
  }

  lemma RemovedOther(s: State, q: nat, p: nat)
    requires Queues(s) && q in s.procs && p in s.procs && p != q
    ensures SameBut(s, Removed(s, q), p)
  {
    assert Placed(s, q) && Placed(s, p);
  }

  lemma ChargedOther(s: State, q: nat, delta: nat, p: nat)
    requires Queues(s) && q in s.procs && p in s.procs && p != q
    ensures SameBut(s, Charged(s, q, delta), p)
  {
    assert Placed(s, q) && Placed(s, p);
  }

  lemma SameThen(s: State, t: State, u: State, p: nat)
    requires SameBut(s, t, p) && SameBut(t, u, p)
    ensures SameBut(s, u, p)
  {
  }

  lemma OrphanedOther(s: State, q: nat, p: nat)
    requires Live(s, p) && p != q
    ensures SameBut(s, Orphaned(s, q), p)
  {
  }

  lemma BuriedOther(s: State, q: nat, p: nat)
    requires Queues(s) && q in s.procs && p in s.procs && p != q
    ensures SameBut(s, Buried(s, q), p)
  {
    hide Queues;
    RemovedOther(s, q, p);
  }

  lemma MournedOther(s: State, q: nat, p: nat)
    requires Queues(s) && q in s.procs && p in s.procs && s.procs[q].parent != Some(p)
    ensures SameBut(s, Mourned(s, q), p)
  {
    hide Queues, Killed, Added;
    var pr := s.procs[q];
    if pr.parent.Some? && pr.parent.value in s.procs {
      AddedOther(s, pr.parent.value, p);
      KilledOther(s, pr.parent.value, if pr.csig != 0 then pr.csig else s.sigchld, p);
    }
  }

  lemma BuriedParent(s: State, q: nat)
    requires q in s.procs
    ensures q in Buried(s, q).procs && Buried(s, q).procs[q].parent == s.procs[q].parent
  {
  }

  lemma GoneOther(s: State, q: nat, p: nat)
    requires Inv(s) && Live(s, q) && Live(s, p) && p != q && s.procs[q].parent != Some(p)
    ensures q in Orphaned(s, q).procs && SameBut(s, Gone(s, q), p)
  {
    hide InvBut, Orphaned, Buried, Mourned;
    OrphanedInv(s, q);
    OrphanedOther(s, q, p);
    var o := Orphaned(s, q);
    BuriedInv(o, q);
    Current(o);
    BuriedOther(o, q, p);
    BuriedParent(o, q);
    var b := Buried(o, q);
    Current(b);
    MournedOther(b, q, p);
    SameThen(s, o, b, p);
    SameThen(s, b, Mourned(b, q), p);
  }

  lemma RescheduledOther(s: State, timer: bool, now: nat, p: nat)
    requires Queues(s) && p in s.procs && s.last <= now && (s.cur.Some? ==> s.cur.value in s.procs)
    requires s.phase.Active? ==> s.cur != Some(p)
    ensures SameBut(s, Rescheduled(s, timer, now), p)
  {
    hide Queues, Charged;
    if s.phase.Active? && s.cur.Some? {
      ChargedOther(s, s.cur.value, now - s.last, p);
    }
  }

  /** The process does not run, and nobody who runs is it. */
  lemma NotRunning(s: State, p: nat)
    requires Inv(s) && p in s.procs && s.procs[p].status.Waiting?
    ensures Live(s, p) && !s.procs[p].queue.RunQueue? && Placed(s, p) && (s.phase.Active? ==> s.cur != Some(p))
    ensures RunNodes(s) != {} ==> First(s) != p
  {
    assert Fit(s, p);
  }

  lemma WokenOther(s: State, ps: set<nat>, p: nat)
    requires Inv(s) && ps <= s.procs.Keys && p in s.procs && p !in ps
    ensures SameBut(s, Woken(s, ps), p)
  {
    WokenRecord(s, ps, p);
    assert Placed(s, p);
  }

  lemma TickOther(s: State, now: nat, p: nat)
    requires Inv(s) && s.last <= now && p in s.procs && s.procs[p].status.Waiting? && p !in Due(s, now)
    ensures SameBut(s, Ticked(s, now), p)
  {
    hide InvBut, Woken, Rescheduled, Due;
    NotRunning(s, p);
    QueuedLive(s, now, 0, None);
    WokenInv(s, Due(s, now));
    WokenBeside(s, Due(s, now));
    WokenOther(s, Due(s, now), p);
    var t := Woken(s, Due(s, now));
    Current(t);
    RescheduledOther(t, true, now, p);
    SameThen(s, t, Rescheduled(t, true, now), p);
  }

  lemma PickOther(s: State, now: nat, p: nat)
    requires Inv(s) && s.phase.Picking? && RunNodes(s) != {} && s.phase.now <= now && p in s.procs && s.procs[p].status.Waiting?
    requires !(Dies(s, First(s)) && s.procs[First(s)].parent == Some(p))
    ensures SameBut(s, Picked(s, now), p)
  {
    hide InvBut, Gone, Dies, FirstSignal;
    Current(s);
    NotRunning(s, p);
    ChosenInv(s);
    var c := First(s);
    var t := Chosen(s, c);
    Current(t);
    if Dies(s, c) {
      GoneInv(t, c, now);
      GoneOther(t, c, p);
      SameThen(s, t, Gone(t, c), p);
    }
  }

  lemma BlockedOther(s: State, q: nat, p: nat)
    requires Queues(s) && q in s.procs && p in s.procs && p != q
    ensures SameBut(s, Blocked(s, q), p)
  {
    hide Queues;
    RemovedOther(s, q, p);
  }

  lemma EnteredOther(s: State, q: nat, n: Node, p: nat)
    requires q in s.procs && p in s.procs && p != q && Placed(s, p)
    ensures SameBut(s, Entered(s, q, n), p)
  {
  }

  lemma SleptOther(s: State, n: Node, now: nat, p: nat)
    requires Inv(s) && OnCpu(s) && s.last <= now && n.tid == s.cur.value && p in s.procs && p != n.tid && !n.InRun?
    ensures SameBut(s, Slept(s, n, now), p)
  {
    hide InvBut, Blocked, Rescheduled;
    Current(s);
    BlockedInv(s, n.tid);
    BlockedOther(s, n.tid, p);
    var b := Blocked(s, n.tid);
    PlacedBut(b, n.tid, p);
    EnteredOther(b, n.tid, n, p);
    EnteredQueues(b, n.tid, n);
    var e := Entered(b, n.tid, n);
    RescheduledOther(e, false, now, p);
    SameThen(s, b, e, p);
    SameThen(s, e, Rescheduled(e, false, now), p);
  }

  lemma PlacedBut(s: State, q: nat, p: nat)
    requires InvBut(s, Some(q)) && p in s.procs
    ensures Queues(s) && Placed(s, p)
  {
  }

  lemma AwaitOther(s: State, pid: int, now: nat, p: nat)
    requires Inv(s) && OnCpu(s) && s.last <= now && p in s.procs && p != s.cur.value
    ensures SameBut(s, Next(s, AwaitChild(pid, now)), p)
  {
    hide InvBut, Blocked, Rescheduled;
    var c := s.cur.value;
    var t := With(s, c, s.procs[c].(waitPid := if pid <= 0 then -1 else pid));
    NotedInv(s, c, t.procs[c]);
    Current(t);
    BlockedInv(t, c);
    BlockedOther(t, c, p);
    var b := Blocked(t, c);
    PlacedBut(b, c, p);
    RescheduledOther(b, false, now, p);
    SameThen(t, b, Rescheduled(b, false, now), p);
  }

  lemma ClonedOther(s: State, csig: nat, thread: bool, toParent: bool, p: nat)
    requires Inv(s) && OnCpu(s) && p in s.procs
    ensures SameBut(s, Cloned(s, s.cur.value, csig, thread, toParent), p)
  {
    hide Queues;
    assert Kin(s, p);
    assert s.nextTid in s.procs ==> Kin(s, s.nextTid);
    assert Placed(s, p) by { Current(s); PlacedBut(s, p, p); }
  }

  lemma KillCurrentOther(s: State, sig: nat, now: nat, p: nat)
    requires Inv(s) && OnCpu(s) && sig < SIGNALS && s.last <= now && p in s.procs && p != s.cur.value
    ensures SameBut(s, Next(s, KillCurrent(sig, now)), p)
  {
    hide InvBut, Killed;
    Current(s);
    KilledInv(s, s.cur.value, sig);
    KilledOther(s, s.cur.value, sig, p);
  }

  lemma ExitOther(s: State, now: nat, p: nat)
    requires Inv(s) && OnCpu(s) && s.last <= now && Live(s, p) && p != s.cur.value && s.procs[s.cur.value].parent != Some(p)
    ensures SameBut(s, Next(s, Exit(now)), p)
  {
    hide InvBut, Gone;
    Current(s);
    GoneInv(s, s.cur.value, now);
    GoneOther(s, s.cur.value, p);
  }

  /** A step leaves a waiting process alone, unless it alerts it, or wakes it from its queue. */
  lemma StepLeaves(s: State, step: Step, p: nat)
    requires Inv(s) && Enabled(s, step) && p in s.procs && s.procs[p].status.Waiting? && !Alerts(s, step, p)
    requires step.Tick? ==> p !in Due(s, step.now)
    requires step.Wake? ==> p !in Waiters(s, step.condvar, step.tid)
    ensures SameBut(s, Next(s, step), p)
  {
    hide InvBut, Ticked, Picked, Slept, Woken, Killed, Cloned, Blocked, Gone, Due, Waiters, SameBut, Dies;
    NotRunning(s, p);
    match step
    case Tick(now) => TickOther(s, now, p);
    case Pick(now) => PickOther(s, now, p);
    case Sleep(ns, at, now) => Unchanged(s, p); SleptOther(s, InSleep(s.cur.value, at + ns), now, p);
    case Block(cv, now) => SleptOther(s, InEvent(s.cur.value, cv), now, p);
    case Wake(cv, tid) =>
      QueuedLive(s, 0, cv, tid);
      WokenOther(s, Waiters(s, cv, tid), p);
    case Tkill(q, sig) =>
      Current(s);
      if q == p { NoSignal(s, p); Unchanged(s, p); } else { KilledOther(s, q, sig, p); }
    case KillCurrent(sig, now) => KillCurrentOther(s, sig, now, p);
    case Clone(csig, thread, toParent) => ClonedOther(s, csig, thread, toParent, p);
    case AwaitChild(pid, now) => AwaitOther(s, pid, now, p);
    case Reap(q) => ReapedOther(s, q, p);
    case CheckInterrupted => NotedOther(s, p);
    case Exit(now) => ExitOther(s, now, p);
  }

  lemma Unchanged(s: State, p: nat)
    requires p in s.procs
    ensures SameBut(s, s, p)
  {
  }

  lemma NoSignal(s: State, p: nat)
    requires p in s.procs
    ensures Killed(s, p, 0) == s
  {
  }

  lemma ReapedOther(s: State, q: nat, p: nat)
    requires OnCpu(s) && p in s.procs && p != q && s.cur != Some(p)
    ensures SameBut(s, Reaped(s, s.cur.value, q), p)
  {
  }

  lemma NotedOther(s: State, p: nat)
    requires OnCpu(s) && p in s.procs && s.cur != Some(p)
    ensures SameBut(s, With(s, s.cur.value, s.procs[s.cur.value].(interrupted := false)), p)
  {
  }

  // Over runs

  /** Who is due and who waits for a condition variable, told from the one node of the process. */
  lemma NodeDecides(s: State, p: nat, n: Option<Node>, now: nat, cv: nat, tid: Option<nat>)
    requires Inv(s) && WaitsAt(s, p, n) && (n.Some? ==> n.value.tid == p)
    ensures p in Due(s, now) <==> n.Some? && n.value.InSleep? && n.value.wakeup <= now
    ensures p in Waiters(s, cv, tid) <==> n.Some? && n.value.InEvent? && n.value.condvar == cv && (tid.None? || tid == Some(p))
  {
    OnlyNode(s, p);
    assert n.Some? ==> s.nodes[s.procs[p].handle] == n.value;
  }

  /** The run never alerts `p`. */
  ghost predicate Undisturbed(s: State, steps: seq<Step>, p: nat)
    decreases |steps|
  {
    steps != [] ==>
      Inv(s) && Enabled(s, steps[0]) && !Alerts(s, steps[0], p) && Undisturbed(Next(s, steps[0]), steps[1..], p)
  }

  /** The step does not end the wait at the node `n`: it is neither a tick at or after the wakeup time, nor a
      wake of the condition variable for `p`. */
  predicate Passes(step: Step, p: nat, n: Option<Node>) {
    match step
    case Tick(now) => n.Some? && n.value.InSleep? ==> now < n.value.wakeup
    case Wake(cv, tid) => n.Some? && n.value.InEvent? && n.value.condvar == cv ==> tid.Some? && tid.value != p
    case _ => true
  }

  lemma StepStays(s: State, step: Step, p: nat, n: Option<Node>)
    requires Inv(s) && Enabled(s, step) && WaitsAt(s, p, n) && (n.Some? ==> n.value.tid == p) && !Alerts(s, step, p) && Passes(step, p, n)
    ensures Inv(Next(s, step)) && WaitsAt(Next(s, step), p, n) && SameBut(s, Next(s, step), p)
  {
    hide InvBut, Next, Due, Waiters;
    NodeDecides(s, p, n, if step.Tick? then step.now else 0, if step.Wake? then step.condvar else 0, if step.Wake? then step.tid else None);
    StepLeaves(s, step, p);
    NextInv(s, step);
    StaysAt(s, Next(s, step), p, n);
  }

  /** Over every run that neither alerts the process nor ends its wait, it stays where it is. */
  lemma {:induction false} RunStays(s: State, steps: seq<Step>, t: State, p: nat, n: Option<Node>)
    requires Inv(s) && WaitsAt(s, p, n) && (n.Some? ==> n.value.tid == p) && Leads(s, steps, t) && Undisturbed(s, steps, p)
    requires forall i :: 0 <= i < |steps| ==> Passes(steps[i], p, n)
    ensures Inv(t) && WaitsAt(t, p, n) && SameBut(s, t, p)
    decreases |steps|
  {
    hide Inv, Next, Enabled, Alerts, WaitsAt, SameBut, Passes;
    if steps == [] {
      WaitsThere(s, p, n);
      Unchanged(s, p);
    } else {
      StepStays(s, steps[0], p, n);
      RunStays(Next(s, steps[0]), steps[1..], t, p, n);
      SameThen(s, Next(s, steps[0]), t, p);
    }
  }

  lemma WaitsThere(s: State, p: nat, n: Option<Node>)
    requires WaitsAt(s, p, n)
    ensures p in s.procs && s.procs[p].status.Waiting? && s.procs[p].queue == if n.Some? then QueueOf(n.value) else NoQueue
  {
  }

  lemma SleptAt(s: State, n: Node, now: nat)
    requires Inv(s) && OnCpu(s) && s.last <= now && n.tid == s.cur.value && !n.InRun?
    ensures Inv(Slept(s, n, now)) && WaitsAt(Slept(s, n, now), n.tid, Some(n))
    ensures Slept(s, n, now).procs[n.tid].v == s.procs[n.tid].v - s.minv + (now - s.last)
    ensures Slept(s, n, now).procs[n.tid].interrupted == s.procs[n.tid].interrupted
  {
    hide InvBut;
    Current(s);
    SleptInv(s, n, now);
    NotBehind(s, n.tid);
  }

  lemma NotBehind(s: State, p: nat)
    requires Inv(s) && p in s.procs && s.procs[p].queue.RunQueue?
    ensures s.minv <= s.procs[p].v
  {
    assert Fit(s, p);
  }

  /** A tick makes a sleeper runnable if and only if its time has come. */
  lemma TickWakes(s: State, p: nat, wakeup: nat, now: nat)
    requires Inv(s) && WaitsAt(s, p, Some(InSleep(p, wakeup))) && s.last <= now
    ensures var t := Next(s, Tick(now));
      && p in t.procs
      && if wakeup <= now then t.procs[p].queue.RunQueue? && t.procs[p].status.Ready? && t.procs[p].v == s.procs[p].v + s.minv
         else t.procs[p].queue.SleepQueue? && t.procs[p].status.Waiting?
    ensures var t := Next(s, Tick(now)); t.procs[p].interrupted == s.procs[p].interrupted
  {
    hide InvBut, Due, Woken, Rescheduled;
    NodeDecides(s, p, Some(InSleep(p, wakeup)), now, 0, None);
    if wakeup <= now {
      NotRunning(s, p);
      QueuedLive(s, now, 0, None);
      WokenInv(s, Due(s, now));
      WokenBeside(s, Due(s, now));
      WokenRecord(s, Due(s, now), p);
      var t := Woken(s, Due(s, now));
      Current(t);
      RescheduledOther(t, true, now, p);
    } else {
      StepStays(s, Tick(now), p, Some(InSleep(p, wakeup)));
    }
  }

  /** `nanosleep`, over every run without a signal to the sleeper or an end of a child of it: as long as all
      ticks are before the time of the call plus `ns`, it sleeps; the next tick wakes it if and only if it is
      not; and then it is as far ahead of `minv` as it was, plus what it ran before it slept. */
  lemma SleepsUntil(s: State, ns: nat, at: nat, now: nat, steps: seq<Step>, t: State, p: nat, later: nat, u: State)
    requires Inv(s) && Enabled(s, Sleep(ns, at, now)) && 10 <= ns && s.cur == Some(p)
    requires Leads(Next(s, Sleep(ns, at, now)), steps, t) && Undisturbed(Next(s, Sleep(ns, at, now)), steps, p)
    requires forall i :: 0 <= i < |steps| && steps[i].Tick? ==> steps[i].now < at + ns
    requires Leads(t, [Tick(later)], u)
    ensures p in t.procs && t.procs[p].queue.SleepQueue? && t.procs[p].status.Waiting?
    ensures p in u.procs
    ensures if at + ns <= later
      then u.procs[p].queue.RunQueue? && u.procs[p].status.Ready? && u.procs[p].v - t.minv == s.procs[p].v - s.minv + (now - s.last)
      else u.procs[p].queue.SleepQueue? && u.procs[p].status.Waiting?
    ensures u.procs[p].interrupted == s.procs[p].interrupted
  {
    hide InvBut, Slept, Leads, Undisturbed, WaitsAt, Ticked;
    var n := InSleep(p, at + ns);
    SleptAt(s, n, now);
    RunStays(Slept(s, n, now), steps, t, p, Some(n));
    WaitsThere(t, p, Some(n));
    LeadsOne(t, Tick(later), u);
    TickWakes(t, p, at + ns, later);
  }

  /** A wake makes a waiter runnable if and only if it is for its condition variable and for everybody or for
      it. */
  lemma WakeWakes(s: State, p: nat, cv: nat, cv': nat, tid: Option<nat>)
    requires Inv(s) && WaitsAt(s, p, Some(InEvent(p, cv)))
    ensures var t := Next(s, Wake(cv', tid));
      && p in t.procs
      && if cv' == cv && (tid.None? || tid == Some(p)) then t.procs[p].queue.RunQueue? && t.procs[p].status.Ready?
         else t.procs[p].queue.EventQueue? && t.procs[p].status.Waiting?
    ensures var t := Next(s, Wake(cv', tid)); t.procs[p].interrupted == s.procs[p].interrupted
  {
    hide InvBut, Waiters, Woken;
    NodeDecides(s, p, Some(InEvent(p, cv)), 0, cv', tid);
    QueuedLive(s, 0, cv', tid);
    NotRunning(s, p);
    WokenRecord(s, Waiters(s, cv', tid), p);
  }

  /** `condvar::wait`, over every run without a signal to the waiter or an end of a child of it: as long as
      nobody wakes the variable for it, it waits; and a wake makes it runnable if and only if it does. */
  lemma WaitsUntil(s: State, cv: nat, now: nat, steps: seq<Step>, t: State, p: nat, cv': nat, tid: Option<nat>, u: State)
    requires Inv(s) && Enabled(s, Block(cv, now)) && s.cur == Some(p)
    requires Leads(Next(s, Block(cv, now)), steps, t) && Undisturbed(Next(s, Block(cv, now)), steps, p)
    requires forall i :: 0 <= i < |steps| && steps[i].Wake? && steps[i].condvar == cv ==> steps[i].tid.Some? && steps[i].tid != Some(p)
    requires Leads(t, [Wake(cv', tid)], u)
    ensures p in t.procs && t.procs[p].queue.EventQueue? && t.procs[p].status.Waiting?
    ensures p in u.procs
    ensures if cv' == cv && (tid.None? || tid == Some(p)) then u.procs[p].queue.RunQueue? && u.procs[p].status.Ready?
      else u.procs[p].queue.EventQueue? && u.procs[p].status.Waiting?
    ensures u.procs[p].interrupted == s.procs[p].interrupted
  {
    hide InvBut, Slept, Leads, Undisturbed, WaitsAt;
    var n := InEvent(p, cv);
    SleptAt(s, n, now);
    RunStays(Slept(s, n, now), steps, t, p, Some(n));
    WaitsThere(t, p, Some(n));
    LeadsOne(t, Wake(cv', tid), u);
    WakeWakes(t, p, cv, cv', tid);
  }

  lemma LeadsOne(s: State, step: Step, t: State)
    requires Leads(s, [step], t)
    ensures Inv(s) && Enabled(s, step) && t == Next(s, step)
  {
    hide InvBut, Next, Enabled;
    assert [step][1..] == [];
  }

  lemma AwaitsAt(s: State, pid: int, now: nat)
    requires Inv(s) && OnCpu(s) && s.last <= now
    ensures var t, p := Next(s, AwaitChild(pid, now)), s.cur.value;
      && Inv(t) && WaitsAt(t, p, None) && t.procs[p].waitPid == (if pid <= 0 then -1 else pid)
      && t.procs[p].signals == s.procs[p].signals && t.procs[p].v == s.procs[p].v - s.minv + (now - s.last)
  {
    hide InvBut;
    Current(s);
    NotBehind(s, s.cur.value);
    AwaitInv(s, pid, now);
  }

  /** The wait of `waitpid`, over every run: nothing but a signal or the end of a child ends it. */
  lemma AwaitsUntil(s: State, pid: int, now: nat, steps: seq<Step>, t: State, p: nat)
    requires Inv(s) && Enabled(s, AwaitChild(pid, now)) && s.cur == Some(p)
    requires Leads(Next(s, AwaitChild(pid, now)), steps, t) && Undisturbed(Next(s, AwaitChild(pid, now)), steps, p)
    ensures Inv(t) && p in t.procs && t.procs[p].queue.NoQueue? && t.procs[p].status.Waiting?
    ensures t.procs[p].waitPid == (if pid <= 0 then -1 else pid) && t.procs[p].signals == s.procs[p].signals
    ensures t.procs[p].v == s.procs[p].v - s.minv + (now - s.last)
  {
    hide InvBut, Next, Leads, Undisturbed, WaitsAt;
    AwaitsAt(s, pid, now);
    RunStays(Next(s, AwaitChild(pid, now)), steps, t, p, None);
    WaitsThere(t, p, None);
  }
}
