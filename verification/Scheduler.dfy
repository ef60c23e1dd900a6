/**
 The scheduler's code: it changes its process records, queues and counters in place, and each
 operation does what the state machine says.
 */
module Schedulers {
  import opened Options
  import opened Processes
  import opened SchedulerSteps
  import opened SchedulerRuns
  import opened Waitpid

  class Scheduler {
    var procs: map<nat, Proc>
    var nodes: map<Handle, Node>
    var cur: Option<nat>
    var minv: nat
    var last: nat
    var nextTid: nat
    var phase: Phase
    const fatal: set<nat>
    const sigchld: nat

    function Now(): State
      reads this
    {
      State(procs, nodes, cur, minv, last, nextTid, phase, fatal, sigchld)
    }

    ghost predicate Valid()
      reads this
    {
      Inv(Now())
    }

    constructor (fatal: set<nat>, sigchld: nat)
      requires 0 < sigchld < SIGNALS
      ensures Valid() && Now() == Initial(fatal, sigchld)
    {
      procs := map[1 := Booted(1), 2 := Booted(2)];
      nodes := map[At(1, 0) := InRun(1, 0, 0), At(2, 0) := InRun(2, 0, 0)];
      cur, minv, last, nextTid, phase := None, 0, 0, 3, Active;
      this.fatal, this.sigchld := fatal, sigchld;
      new;
      InitialInv(fatal, sigchld);
    }

    /** `remove_from_queue`: the process is in no queue afterwards, and nothing else has changed. */
    method RemoveFromQueue(p: nat)
      requires p in procs
      modifies this`procs, this`nodes
      ensures Now() == Removed(old(Now()), p)
      ensures old(Queues(Now())) ==>
        && Queues(Now()) && procs[p] == old(procs)[p].(queue := NoQueue, handle := Null) && procs.Keys == old(procs).Keys
        && nodes == old(nodes) - {old(procs)[p].handle} && (forall h :: h in nodes ==> nodes[h].tid != p)
        && (forall q :: q in procs && q != p ==> procs[q] == old(procs)[q])
    {
      RemovedOnly(Now(), p);
      var h := procs[p].handle;
      if h in nodes && QueueOf(nodes[h]) == procs[p].queue {
        nodes := nodes - {h};
      }
      procs := procs[p := procs[p].(queue := NoQueue, handle := Null)];
    }

    /** Inserts a node for the process and records it. */
    method Insert(p: nat, n: Node)
      requires p in procs
      modifies this`procs, this`nodes
      ensures Now() == Entered(old(Now()), p, n)
    {
      var pr := procs[p];
      var h := At(p, pr.serial);
      nodes := nodes[h := n];
      procs := procs[p := pr.(serial := pr.serial + 1)];
      procs := procs[p := procs[p].(queue := QueueOf(n), handle := h)];
    }

    /** The part of `add_proc_run` that moves the process to the run queue. */
    method JoinRun(p: nat)
      requires p in procs
      modifies this`procs, this`nodes
      ensures Now() == Added(old(Now()), p)
    {
      hide Queues;
      RemoveFromQueue(p);
      procs := procs[p := procs[p].(v := procs[p].v + minv)];
      procs := procs[p := procs[p].(status := Ready)];
      Insert(p, InRun(p, procs[p].v, procs[p].nice));
    }

    method AddProcRun(p: nat, interrupted: bool) returns (ok: bool)
      requires p in procs
      modifies this`procs, this`nodes
      ensures Now() == if interrupted then Interrupted(old(Now()), p) else Added(old(Now()), p)
      ensures ok <==> !(interrupted && old(procs)[p].status.WaitingNoInterrupt?)
    {
      hide Added;
      ok := true;
      if interrupted {
        if procs[p].status.Waiting? {
          procs := procs[p := procs[p].(interrupted := true)];
        } else if procs[p].status.WaitingNoInterrupt? {
          return false;
        }
      }
      JoinRun(p);
    }

    /** `remove_proc_run`, and the status that every caller sets next. */
    method Block(p: nat)
      requires p in procs
      modifies this`procs, this`nodes
      ensures Now() == Blocked(old(Now()), p)
    {
      RemoveFromQueue(p);
      if minv <= procs[p].v {
        procs := procs[p := procs[p].(v := procs[p].v - minv)];
      }
      procs := procs[p := procs[p].(status := Waiting)];
    }

    /** The first node of the sleep queue, or the first one after `h`: `begin` and `succ`. */
    method NextSleeper(h: Option<Handle>) returns (r: Option<Handle>)
      requires Queues(Now()) && (h.Some? ==> h.value in nodes && nodes[h.value].InSleep?)
      ensures r.None? ==> forall g :: g in nodes && nodes[g].InSleep? ==> !After(nodes, h, g)
      ensures r.Some? ==> r.value in nodes && nodes[r.value].InSleep? && After(nodes, h, r.value)
      ensures r.Some? ==> forall g :: g in nodes && nodes[g].InSleep? && After(nodes, h, g) && g != r.value ==> Sooner(nodes[r.value], nodes[g])
    {
      hide Queues;
      var todo := nodes.Keys;
      r := None;
      while todo != {}
        invariant todo <= nodes.Keys
        invariant r.Some? ==> r.value in nodes && r.value !in todo && nodes[r.value].InSleep? && After(nodes, h, r.value)
        invariant forall g :: g in nodes && g !in todo && nodes[g].InSleep? && After(nodes, h, g) ==> r.Some? && (g == r.value || Sooner(nodes[r.value], nodes[g]))
        decreases |todo|
      {
        var g :| g in todo;
        todo := todo - {g};
        if nodes[g].InSleep? && After(nodes, h, g) {
          if r.Some? {
            NodesDiffer(Now(), r.value, g);
          }
          if r.None? || Sooner(nodes[g], nodes[r.value]) {
            r := Some(g);
          }
        }
      }
    }

    /** The loop of `timer_tick`: the successor is taken before the node is erased. */
    method WakeSleepers(now: nat)
      requires Valid()
      modifies this`procs, this`nodes
      ensures Due(old(Now()), now) <= old(procs).Keys && Now() == Woken(old(Now()), Due(old(Now()), now))
    {
      hide Inv, InvBut, Queues, Woken, Due, After, Sooner;
      ghost var s, done: set<nat> := Now(), {};
      QueuesOf(s, now);
      WokenNone(s);
      var it := NextSleeper(None);
      FirstRemains(nodes, it);
      while it.Some? && nodes[it.value].wakeup <= now
        invariant Beside(s, Now()) && done <= Due(s, now) && Now() == Woken(s, done) && Queues(Now()) && IsFirst(nodes, it)
        decreases |Due(s, now) - done|
      {
        var p := nodes[it.value].tid;
        ghost var before := nodes;
        var next := NextSleeper(it);
        DueAfter(s, done, now, it.value);
        WokenStep(s, done, p);
        AddedShape(Now(), p);
        AddedSleepers(Now(), p, it.value);
        var _ := AddProcRun(p, false);
        WokenBeside(s, done + {p});
        done := done + {p};
        assert Due(s, now) - done < Due(s, now) - (done - {p});
        NextRemains(before, nodes, it.value, next);
        it := next;
      }
      FirstSooner(nodes, it);
      AllWoken(s, done, now);
    }

    /** The part of `schedule` that charges the old process: it leaves the run queue while its key changes. */
    method Charge(c: nat, delta: nat)
      requires c in procs
      modifies this`procs, this`nodes
      ensures Now() == Charged(old(Now()), c, delta)
    {
      hide Queues;
      var runnable := procs[c].queue.RunQueue?;
      if runnable {
        RemoveFromQueue(c);
      }
      procs := procs[c := procs[c].(v := procs[c].v + delta)];
      if runnable {
        procs := procs[c := procs[c].(status := Ready)];
        Insert(c, InRun(c, procs[c].v, procs[c].nice));
      }
    }

    /** `schedule` up to the choice of the next process. */
    method Schedule(timer: bool, now: nat)
      requires last <= now && (cur.Some? ==> cur.value in procs)
      modifies this`procs, this`nodes, this`phase
      ensures Now() == Rescheduled(old(Now()), timer, now)
    {
      hide Latency, Charged;
      if phase.Picking? {
        return;
      }
      if cur.Some? {
        if timer && now - last < Latency(Now()) {
          return;
        }
        Charge(cur.value, now - last);
      }
      phase := Picking(now);
    }

    method TimerTick(now: nat)
      requires Valid() && last <= now
      modifies this`procs, this`nodes, this`phase
      ensures Valid() && Now() == Next(old(Now()), Tick(now))
    {
      hide InvBut, Woken, Rescheduled;
      QueuedLive(Now(), now, 0, None);
      WokenInv(Now(), Due(Now(), now));
      WokenBeside(Now(), Due(Now(), now));
      TickInv(Now(), now);
      WakeSleepers(now);
      Current(Now());
      Schedule(true, now);
    }

    /** The first node of the run queue. */
    method Minimum() returns (h: Handle)
      requires Queues(Now()) && RunNodes(Now()) != {}
      ensures IsLeast(Now(), h)
    {
      hide Queues;
      var todo := RunNodes(Now());
      h :| h in todo;
      todo := todo - {h};
      while todo != {}
        invariant todo <= RunNodes(Now()) && h in RunNodes(Now()) && h !in todo
        invariant forall g :: g in RunNodes(Now()) && g !in todo && g != h ==> Less(nodes[h], nodes[g])
        decreases |todo|
      {
        var g :| g in todo;
        todo := todo - {g};
        NodesDiffer(Now(), h, g);
        if Less(nodes[g], nodes[h]) {
          h := g;
        }
      }
    }

    /** The first pending signal, which is cleared; `bitmap::first_one` finds it. */
    method TakeSignal(c: nat) returns (sig: Option<nat>)
      requires c in procs
      modifies this`procs
      ensures sig == FirstSignal(old(procs)[c].signals, 0)
      ensures procs == if sig.Some? then old(procs)[c := old(procs)[c].(signals := old(procs)[c].signals - {sig.value})] else old(procs)
    {
      var i := 0;
      while i < SIGNALS && i !in procs[c].signals
        invariant 0 <= i <= SIGNALS && FirstSignal(procs[c].signals, 0) == FirstSignal(procs[c].signals, i)
      {
        i := i + 1;
      }
      if i == SIGNALS {
        return None;
      }
      sig := Some(i);
      procs := procs[c := procs[c].(signals := procs[c].signals - {i})];
    }

    /** The rest of `schedule`: picks the next process, which exits if a fatal signal is pending. */
    method PickNext(now: nat)
      requires Valid() && Enabled(Now(), Pick(now))
      modifies this
      ensures Valid() && Now() == Next(old(Now()), Pick(now))
    {
      hide InvBut, Queues, RunNodes, IsLeast, FirstSignal, Gone, Rescheduled;
      ghost var s := Now();
      SchedulerRuns.PickInv(s, now);
      ChosenInv(s);
      QueuesOf(s, 0);
      var h := Minimum();
      FirstUnique(s, h);
      var c := nodes[h].tid;
      cur := Some(c);
      last := phase.now;
      minv := procs[c].v;
      phase := Active;
      var sig := TakeSignal(c);
      if sig.Some? && sig.value in fatal {
        assert Now() == Chosen(s, c);
        ExitFrom(c, now);
      } else {
        procs := procs[c := procs[c].(status := Running)];
        assert Now() == Chosen(s, c);
      }
    }

    /** The loop of `exit` over the children. */
    method LetGo(p: nat)
      modifies this`procs
      ensures Now() == Orphaned(old(Now()), p)
    {
      var children := set q | q in procs && procs[q].parent == Some(p);
      while children != {}
        invariant children <= procs.Keys
        invariant forall q :: q in old(procs) && (old(procs)[q].parent != Some(p) || q in children) ==> q in procs && procs[q] == old(procs)[q]
        invariant forall q :: q in procs ==> q in old(procs)
        invariant forall q :: q in children ==> procs[q].parent == Some(p)
        invariant forall q :: q in old(procs) && old(procs)[q].parent == Some(p) && q !in children ==>
          if old(procs)[q].status.Zombie? then q !in procs else q in procs && procs[q] == old(procs)[q].(parent := None)
        decreases |children|
      {
        var q :| q in children;
        if procs[q].status.Zombie? {
          procs := procs - {q};
        } else {
          procs := procs[q := procs[q].(parent := None)];
        }
        children := children - {q};
      }
      assert procs == Orphaned(old(Now()), p).procs;
    }

    method Tkill(p: nat, sig: nat)
      requires Valid() && p in procs && sig < SIGNALS
      modifies this`procs, this`nodes
      ensures Valid() && Now() == Killed(old(Now()), p, sig)
    {
      hide InvBut, Interrupted;
      KilledInv(Now(), p, sig);
      if sig != 0 && !procs[p].status.Zombie? {
        procs := procs[p := procs[p].(signals := procs[p].signals + {sig})];
        var _ := AddProcRun(p, true);
      }
    }

    /** `exit` of process `p`, which is on the processor. */
    method ExitFrom(p: nat, now: nat)
      requires Valid() && cur == Some(p) && phase.Active? && p in procs && last <= now
      modifies this
      ensures p in Orphaned(old(Now()), p).procs && Gone(old(Now()), p).last <= now && Gone(old(Now()), p).cur.None?
      ensures Valid() && Now() == Rescheduled(Gone(old(Now()), p), false, now)
    {
      hide InvBut, Orphaned, Added, Killed;
      ghost var s := Now();
      Current(s);
      GoneInv(s, p, now);
      OrphanedInv(s, p);
      LetGo(p);
      BuriedInv(Now(), p);
      RemoveFromQueue(p);
      cur := None;
      procs := procs[p := procs[p].(status := Zombie)];
      assert Now() == Buried(Orphaned(s, p), p);
      ParentIn(Now(), p);
      MournedInv(Now(), p);
      if procs[p].parent.Some? {
        var q := procs[p].parent.value;
        if procs[q].status.Waiting? && (procs[q].waitPid < 0 || procs[q].waitPid == procs[p].pid) {
          var _ := AddProcRun(q, false);
        } else {
          Tkill(q, if procs[p].csig != 0 then procs[p].csig else sigchld);
        }
      }
      assert Now() == Gone(s, p);
      Schedule(false, now);
    }

    /** `exit` of the current process. */
    method Exit(now: nat)
      requires Valid() && Enabled(Now(), Step.Exit(now))
      modifies this
      ensures Valid() && Now() == Next(old(Now()), Step.Exit(now))
    {
      hide InvBut, Gone, Rescheduled;
      Current(Now());
      GoneInv(Now(), cur.value, now);
      ExitFrom(cur.value, now);
    }

    method KillCurrent(sig: nat, now: nat)
      requires Valid() && Enabled(Now(), Step.KillCurrent(sig, now))
      modifies this
      ensures Valid() && Now() == Next(old(Now()), Step.KillCurrent(sig, now))
    {
      hide InvBut, Killed;
      NextInv(Now(), Step.KillCurrent(sig, now));
      KilledInv(Now(), cur.value, sig);
      Tkill(cur.value, sig);
      cur := None;
      Schedule(false, now);
    }

    /** Leaves the run queue for the node `n` of another queue, and gives up the processor. */
    method Suspend(n: Node, now: nat)
      requires Valid() && OnCpu(Now()) && last <= now && n.tid == cur.value && !n.InRun?
      modifies this`procs, this`nodes, this`phase
      ensures Valid() && Now() == Slept(old(Now()), n, now)
    {
      hide InvBut, Blocked, Rescheduled;
      SleptInv(Now(), n, now);
      Current(Now());
      BlockedInv(Now(), n.tid);
      Block(n.tid);
      Insert(n.tid, n);
      Schedule(false, now);
    }

    /** `nanosleep`: `at` is the time read for the wakeup, `now` the time `schedule` reads. */
    method Nanosleep(ns: nat, at: nat, now: nat)
      requires Valid() && Enabled(Now(), Sleep(ns, at, now))
      modifies this`procs, this`nodes, this`phase
      ensures Valid() && Now() == Next(old(Now()), Sleep(ns, at, now)) && (ns < 10 ==> Now() == old(Now()))
    {
      hide InvBut, Slept;
      if ns < 10 {
        return;
      }
      Suspend(InSleep(cur.value, at + ns), now);
    }

    /** The queue part of `condvar::wait`. */
    method CondWait(cv: nat, now: nat)
      requires Valid() && Enabled(Now(), Step.Block(cv, now))
      modifies this`procs, this`nodes, this`phase
      ensures Valid() && Now() == Next(old(Now()), Step.Block(cv, now))
    {
      hide InvBut, Slept;
      Suspend(InEvent(cur.value, cv), now);
    }

    /** The loop of `condvar::wake`. */
    method WakeEach(ps: set<nat>)
      requires Queues(Now()) && ps <= procs.Keys
      modifies this`procs, this`nodes
      ensures Now() == Woken(old(Now()), ps)
    {
      hide Queues, Woken, Added;
      ghost var s, done: set<nat> := Now(), {};
      WokenNone(s);
      var todo := ps;
      while todo != {}
        invariant Beside(s, Now()) && todo + done == ps && todo !! done && Now() == Woken(s, done)
        decreases |todo|
      {
        var p :| p in todo;
        WokenStep(s, done, p);
        WokenBeside(s, done);
        var _ := AddProcRun(p, false);
        WokenBeside(s, done + {p});
        todo, done := todo - {p}, done + {p};
      }
      assert done == ps;
    }

    /** `condvar::wake`; the result tells whether the named waiter was found. */
    method CondWake(cv: nat, tid: Option<nat>) returns (found: bool)
      requires Valid()
      modifies this`procs, this`nodes
      ensures Valid() && Now() == Next(old(Now()), Wake(cv, tid))
      ensures found <==> tid.None? || Waiters(old(Now()), cv, tid) != {}
    {
      hide InvBut, Queues, Woken, Waiters;
      QueuesOf(Now(), 0);
      QueuedLive(Now(), 0, cv, tid);
      NextInv(Now(), Wake(cv, tid));
      var waiters := Waiters(Now(), cv, tid);
      found := tid.None? || waiters != {};
      WakeEach(waiters);
    }

    /** The queue part of `clone`. */
    method Clone(csig: nat, thread: bool, toParent: bool) returns (pid: Option<nat>)
      requires Valid() && Enabled(Now(), Step.Clone(csig, thread, toParent))
      modifies this`procs, this`nodes, this`nextTid
      ensures Valid() && Now() == Next(old(Now()), Step.Clone(csig, thread, toParent))
      ensures pid.None? <==> csig >= SIGNALS
      ensures pid.Some? ==> pid.value == if thread then old(procs)[cur.value].pid else old(nextTid)
    {
      hide InvBut, Added;
      NextInv(Now(), Step.Clone(csig, thread, toParent));
      if csig >= SIGNALS {
        return None;
      }
      var p, parent := nextTid, procs[cur.value];
      nextTid := nextTid + 1;
      var child := Proc(Created, NoQueue, Null, 0, 0, 0, false, {}, None, p, 0, 0);
      if thread {
        child := child.(pid := parent.pid);
      }
      child := child.(nice := parent.nice, csig := csig);
      child := child.(parent := if toParent then parent.parent else cur);
      procs := procs[p := child];
      var _ := AddProcRun(p, false);
      pid := Some(child.pid);
    }

    /** The search of `waitpid` through the children, from the newest on. */
    method FindChild(c: nat, pid: int) returns (r: Option<nat>)
      requires Valid()
      ensures r.Some? ==> Found(Now(), c, pid, r.value)
      ensures r.None? ==> forall p :: Child(Now(), c, p) ==> !Stops(procs[p], pid)
    {
      hide InvBut;
      TidsBelow(Now());
      var p := nextTid;
      while p > 0
        invariant 0 <= p <= nextTid && forall q :: Child(Now(), c, q) && p <= q ==> !Stops(procs[q], pid)
      {
        p := p - 1;
        if p in procs && procs[p].parent == Some(c) && Stops(procs[p], pid) {
          return Some(p);
        }
      }
      r := None;
    }

    /** The end of `waitpid`, after the wait: the child found is deleted. Without one it halts (None). */
    method FinishWait(pid: int) returns (r: Option<nat>)
      requires Valid() && OnCpu(Now())
      modifies this`procs
      ensures r.None? ==> Now() == old(Now()) && forall p :: Child(Now(), cur.value, p) ==> !Stops(procs[p], pid)
      ensures r.Some? ==> Found(old(Now()), cur.value, pid, r.value) && Now() == Reaped(old(Now()), cur.value, r.value)
      ensures r.Some? ==> (Valid() <==> old(procs)[r.value].queue.NoQueue? && Childless(old(Now()), r.value))
      ensures r.Some? ==>
        && r.value !in procs && cur.value in procs && procs[cur.value].waitPid == 0
        && forall p :: p in old(procs) && p != cur.value && p != r.value ==> p in procs && procs[p] == old(procs)[p]
    {
      hide InvBut, Found, Childless;
      var c := cur.value;
      r := FindChild(c, pid);
      if r.Some? {
        FoundOther(Now(), c, pid, r.value);
        ReapIff(Now(), c, r.value);
        procs := procs[c := procs[c].(waitPid := 0)];
        procs := procs - {r.value};
      }
    }
  }

  lemma RemovedOnly(s: State, p: nat)
    requires p in s.procs
    ensures Queues(s) ==> Queues(Removed(s, p)) && Removed(s, p).nodes == s.nodes - {s.procs[p].handle}
    ensures Queues(s) ==> forall h :: h in Removed(s, p).nodes ==> s.nodes[h].tid != p
  {
    if Queues(s) {
      RemovedQueues(s, p);
      OnlyNode(s, p);
    }
  }

  lemma ParentIn(s: State, p: nat)
    requires Inv(s) && p in s.procs
    ensures s.procs[p].csig < SIGNALS && 0 < s.sigchld < SIGNALS
    ensures s.procs[p].parent.Some? ==> s.procs[p].parent.value in s.procs
  {
  }

  lemma FirstUnique(s: State, h: Handle)
    requires Queues(s) && RunNodes(s) != {} && IsLeast(s, h)
    ensures h in s.nodes && s.nodes[h].tid == First(s)
  {
  }

  lemma QueuesOf(s: State, now: nat)
    requires Inv(s)
    ensures Queues(s) && Due(s, now) <= s.procs.Keys
  {
  }

  /** The order of the sleep queue. */
  predicate Sooner(a: Node, b: Node)
    requires a.InSleep? && b.InSleep?
  {
    if a.wakeup != b.wakeup then a.wakeup < b.wakeup else a.tid < b.tid
  }

  predicate After(nodes: map<Handle, Node>, h: Option<Handle>, g: Handle)
    requires g in nodes && nodes[g].InSleep? && (h.Some? ==> h.value in nodes && nodes[h.value].InSleep?)
  {
    h.None? || Sooner(nodes[h.value], nodes[g])
  }

  /** `it` is the first sleeper, or there is none. */
  ghost predicate IsFirst(nodes: map<Handle, Node>, it: Option<Handle>) {
    && (it.None? ==> forall g :: g in nodes ==> !nodes[g].InSleep?)
    && (it.Some? ==> it.value in nodes && nodes[it.value].InSleep?)
    && (it.Some? ==> forall g :: g in nodes && nodes[g].InSleep? && g != it.value ==> Sooner(nodes[it.value], nodes[g]))
  }

  lemma FirstRemains(nodes: map<Handle, Node>, it: Option<Handle>)
    requires it.None? ==> forall g :: g in nodes && nodes[g].InSleep? ==> !After(nodes, None, g)
    requires it.Some? ==> it.value in nodes && nodes[it.value].InSleep?
    requires it.Some? ==> forall g :: g in nodes && nodes[g].InSleep? && After(nodes, None, g) && g != it.value ==> Sooner(nodes[it.value], nodes[g])
    ensures IsFirst(nodes, it)
  {
    assert forall g :: g in nodes && nodes[g].InSleep? ==> After(nodes, None, g);
  }

  /** The successor of the first is the first once that is gone. */
  lemma NextRemains(before: map<Handle, Node>, nodes: map<Handle, Node>, h: Handle, next: Option<Handle>)
    requires IsFirst(before, Some(h))
    requires forall g :: g in nodes && nodes[g].InSleep? ==> g in before && g != h && before[g] == nodes[g]
    requires forall g :: g in before && before[g].InSleep? && g != h ==> g in nodes && nodes[g] == before[g]
    requires next.None? ==> forall g :: g in before && before[g].InSleep? ==> !After(before, Some(h), g)
    requires next.Some? ==> next.value in before && before[next.value].InSleep? && After(before, Some(h), next.value)
    requires next.Some? ==> forall g :: g in before && before[g].InSleep? && After(before, Some(h), g) && g != next.value ==> Sooner(before[next.value], before[g])
    ensures IsFirst(nodes, next)
  {
  }

  lemma FirstSooner(nodes: map<Handle, Node>, it: Option<Handle>)
    requires IsFirst(nodes, it)
    ensures it.None? ==> forall g :: g in nodes ==> !nodes[g].InSleep?
    ensures it.Some? ==> it.value in nodes && nodes[it.value].InSleep?
    ensures it.Some? ==> forall g :: g in nodes && nodes[g].InSleep? ==> nodes[it.value].wakeup <= nodes[g].wakeup
  {
  }

  /** Making the sleeper at `h` runnable leaves the other sleepers. */
  lemma AddedSleepers(s: State, p: nat, h: Handle)
    requires Queues(s) && p in s.procs && h in s.nodes && s.nodes[h].InSleep? && s.nodes[h].tid == p
    ensures var n := Added(s, p).nodes;
      && (forall g :: g in n && n[g].InSleep? ==> g in s.nodes && g != h && s.nodes[g] == n[g])
      && (forall g :: g in s.nodes && s.nodes[g].InSleep? && g != h ==> g in n && n[g] == s.nodes[g])
  {
    OnlyNode(s, p);
    assert At(p, s.procs[p].serial) !in s.nodes by {
      assert At(p, s.procs[p].serial) in s.nodes ==> Holds(s, s.nodes[At(p, s.procs[p].serial)].tid, At(p, s.procs[p].serial));
    }
  }

  /** Two nodes never belong to one process, so keys in a queue are never equal. */
  lemma NodesDiffer(s: State, h: Handle, g: Handle)
    requires Queues(s) && h in s.nodes && g in s.nodes && h != g
    ensures s.nodes[h].tid != s.nodes[g].tid
  {
    assert Holds(s, s.nodes[h].tid, h) && Holds(s, s.nodes[g].tid, g);
  }

  /** A due sleeper of the state reached so far was due at the start, and is not awake yet. */
  lemma DueAfter(s: State, done: set<nat>, now: nat, h: Handle)
    requires Queues(s) && done <= s.procs.Keys
    requires var t := Woken(s, done); h in t.nodes && t.nodes[h].InSleep? && t.nodes[h].wakeup <= now
    ensures var p := Woken(s, done).nodes[h].tid; p in Due(s, now) && p !in done && p in s.procs && p in Woken(s, done).procs
  {
    var t := Woken(s, done);
    assert h in s.nodes && t.nodes[h] == s.nodes[h];
    assert Holds(s, s.nodes[h].tid, h);
  }

  /** When no sleeper is due any more, all that were due are awake. */
  lemma AllWoken(s: State, done: set<nat>, now: nat)
    requires Queues(s) && done <= Due(s, now) <= s.procs.Keys
    requires var t := Woken(s, done); forall g :: g in t.nodes && t.nodes[g].InSleep? ==> now < t.nodes[g].wakeup
    ensures done == Due(s, now)
  {
    var t := Woken(s, done);
    forall p | p in Due(s, now) ensures p in done {
      var h :| h in s.nodes && s.nodes[h].InSleep? && s.nodes[h].wakeup <= now && s.nodes[h].tid == p;
      assert p !in done ==> h in Others(s.nodes, done);
      assert Holds(s, s.nodes[h].tid, h) && Placed(s, p);
    }
  }
}
