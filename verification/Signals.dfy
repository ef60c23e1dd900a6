/**
 What a signal, the end of a process, a tick, a choice and a clone do, told by queues, states and times.
 */
module Signals {
  import opened Options
  import opened Processes
  import opened SchedulerSteps
  import opened SchedulerRuns
  import opened Sleepers

  // Signals

  /** A signal to a live process is pending afterwards and makes it runnable; a wait that it ends is marked as
      interrupted. Nothing else happens. */
  lemma SignalLands(s: State, p: nat, sig: nat, q: nat)
    requires Inv(s) && p in s.procs && sig < SIGNALS && q in s.procs
    ensures var t := Next(s, Tkill(p, sig)); var was := s.procs[p];
      if sig == 0 || was.status.Zombie? then t == s
      else
        && p in t.procs && t.procs[p].signals == was.signals + {sig} && t.procs[p].queue.RunQueue? && t.procs[p].status.Ready?
        && t.procs[p].interrupted == (was.interrupted || was.status.Waiting?) && t.procs[p].v == was.v + s.minv
        && t.cur == s.cur && t.minv == s.minv && t.phase == s.phase && (q != p ==> SameBut(s, t, q))
  {
    hide InvBut, SameBut;
    Current(s);
    if q != p {
      KilledOther(s, p, sig, q);
    }
    NotShielded(s, p);
  }

  lemma NotShielded(s: State, p: nat)
    requires Inv(s) && p in s.procs
    ensures !s.procs[p].status.WaitingNoInterrupt?
  {
    assert Fit(s, p);
  }

  /** A signal of the current process to itself: besides, it loses the processor. */
  lemma SelfSignalLands(s: State, sig: nat, now: nat)
    requires Inv(s) && Enabled(s, KillCurrent(sig, now))
    ensures var t, c := Next(s, KillCurrent(sig, now)), s.cur.value;
      && t.cur.None? && t.phase == Picking(now) && t.minv == s.minv && t.procs.Keys == s.procs.Keys
      && (sig == 0 ==> t.procs == s.procs)
      && (sig != 0 ==> t.procs[c].signals == s.procs[c].signals + {sig} && t.procs[c].queue.RunQueue? && t.procs[c].status.Ready?)
  {
    hide InvBut;
    Current(s);
    NotShielded(s, s.cur.value);
    KilledInv(s, s.cur.value, sig);
  }

  /** A mark stays. */
  predicate Flags(s: State, t: State, p: nat) {
    p in s.procs && p in t.procs && (s.procs[p].interrupted ==> t.procs[p].interrupted)
  }

  /** Signals are only added, and a mark stays. */
  predicate Gains(s: State, t: State, p: nat) {
    Flags(s, t, p) && s.procs[p].signals <= t.procs[p].signals
  }

  lemma MournedGains(s: State, q: nat, p: nat)
    requires q in s.procs && p in s.procs
    ensures Gains(s, Mourned(s, q), p)
  {
  }

  lemma GoneGains(s: State, q: nat, p: nat)
    requires Inv(s) && Live(s, q) && Live(s, p)
    ensures q in Orphaned(s, q).procs && Gains(s, Gone(s, q), p)
  {
    hide InvBut, Mourned;
    OrphanedInv(s, q);
    var b := Buried(Orphaned(s, q), q);
    MournedGains(b, q, p);
  }

  lemma TickGains(s: State, now: nat, p: nat)
    requires Inv(s) && s.last <= now && p in s.procs
    ensures Gains(s, Ticked(s, now), p)
  {
    hide InvBut, Due;
    QueuedLive(s, now, 0, None);
    WokenInv(s, Due(s, now));
  }

  lemma PickGains(s: State, now: nat, p: nat)
    requires Inv(s) && s.phase.Picking? && RunNodes(s) != {} && s.phase.now <= now && Live(s, p)
    ensures Flags(s, Picked(s, now), p) && (First(s) != p ==> Gains(s, Picked(s, now), p))
  {
    hide InvBut, Gone, Dies, FirstSignal;
    Current(s);
    ChosenInv(s);
    var c := First(s);
    var t := Chosen(s, c);
    Current(t);
    if Dies(s, c) {
      GoneInv(t, c, now);
      GoneGains(t, c, p);
    }
  }

  lemma SleptGains(s: State, n: Node, now: nat, p: nat)
    requires Inv(s) && OnCpu(s) && s.last <= now && n.tid == s.cur.value && p in s.procs
    ensures Gains(s, Slept(s, n, now), p)
  {
    hide InvBut;
  }

  lemma AwaitGains(s: State, pid: int, now: nat, p: nat)
    requires Inv(s) && OnCpu(s) && s.last <= now && p in s.procs
    ensures Gains(s, Next(s, AwaitChild(pid, now)), p)
  {
    hide InvBut;
  }

  lemma KillGains(s: State, q: nat, sig: nat, now: nat, p: nat)
    requires Inv(s) && q in s.procs && sig < SIGNALS && p in s.procs && s.last <= now
    ensures Gains(s, Killed(s, q, sig), p)
    ensures OnCpu(s) && s.cur == Some(q) ==> Gains(s, Next(s, KillCurrent(sig, now)), p)
  {
    hide InvBut;
    KilledInv(s, q, sig);
  }

  lemma CloneGains(s: State, csig: nat, thread: bool, toParent: bool, p: nat)
    requires Inv(s) && OnCpu(s) && p in s.procs
    ensures Gains(s, Cloned(s, s.cur.value, csig, thread, toParent), p)
  {
    hide Queues;
    assert Kin(s, p);
  }

  lemma ExitGains(s: State, now: nat, p: nat)
    requires Inv(s) && OnCpu(s) && s.last <= now && Live(s, p)
    ensures Gains(s, Next(s, Exit(now)), p)
  {
    hide InvBut, Gone;
    Current(s);
    GoneInv(s, s.cur.value, now);
    GoneGains(s, s.cur.value, p);
  }

  /** Only being picked takes a signal from a live process, and only its own check takes the mark. */
  lemma StepGains(s: State, step: Step, p: nat)
    requires Inv(s) && Enabled(s, step) && Live(s, p)
    ensures !(step.CheckInterrupted? && s.cur == Some(p)) ==> Flags(s, Next(s, step), p)
    ensures Next(s, step).procs.Keys >= {p} && ((step.Pick? ==> First(s) != p) ==> s.procs[p].signals <= Next(s, step).procs[p].signals)
  {
    hide InvBut, Ticked, Picked, Slept, Killed, Cloned, Gone, Waiters, Blocked, Rescheduled;
    match step
    case Tick(now) => TickGains(s, now, p);
    case Pick(now) => PickGains(s, now, p);
    case Sleep(ns, at, now) => SleptGains(s, InSleep(s.cur.value, at + ns), now, p);
    case Block(cv, now) => SleptGains(s, InEvent(s.cur.value, cv), now, p);
    case Wake(cv, tid) => QueuedLive(s, 0, cv, tid);
    case Tkill(q, sig) => KillGains(s, q, sig, s.last, p);
    case KillCurrent(sig, now) => KillGains(s, s.cur.value, sig, now, p);
    case Clone(csig, thread, toParent) => CloneGains(s, csig, thread, toParent, p);
    case AwaitChild(pid, now) => AwaitGains(s, pid, now, p);
    case Reap(q) =>
    case CheckInterrupted =>
    case Exit(now) => ExitGains(s, now, p);
  }

  /** The run neither picks `p` nor ends it. */
  ghost predicate Unpicked(s: State, steps: seq<Step>, p: nat)
    decreases |steps|
  {
    Live(s, p) && (steps != [] ==>
      Inv(s) && Enabled(s, steps[0]) && (steps[0].Pick? ==> First(s) != p) && Unpicked(Next(s, steps[0]), steps[1..], p))
  }

  lemma {:induction false} StaysPending(s: State, steps: seq<Step>, t: State, p: nat)
    requires Inv(s) && Leads(s, steps, t) && Unpicked(s, steps, p)
    ensures Inv(t) && Live(t, p) && p in s.procs && s.procs[p].signals <= t.procs[p].signals
    decreases |steps|
  {
    hide InvBut, Next, Enabled;
    if steps != [] {
      StepGains(s, steps[0], p);
      NextInv(s, steps[0]);
      StaysPending(Next(s, steps[0]), steps[1..], t, p);
    }
  }

  /** Process `p` lives through the run and does not check its mark. */
  ghost predicate Unchecked(s: State, steps: seq<Step>, p: nat)
    decreases |steps|
  {
    Live(s, p) && (steps != [] ==>
      Inv(s) && Enabled(s, steps[0]) && !(steps[0].CheckInterrupted? && s.cur == Some(p)) && Unchecked(Next(s, steps[0]), steps[1..], p))
  }

  lemma {:induction false} StaysMarked(s: State, steps: seq<Step>, t: State, p: nat)
    requires Inv(s) && Leads(s, steps, t) && Unchecked(s, steps, p)
    ensures Inv(t) && Live(t, p) && Flags(s, t, p)
    decreases |steps|
  {
    hide InvBut, Next, Enabled;
    if steps != [] {
      StepGains(s, steps[0], p);
      NextInv(s, steps[0]);
      StaysMarked(Next(s, steps[0]), steps[1..], t, p);
    }
  }

  /** A wait that a signal ends: whatever happens until the process checks for it, it finds the mark, and the
      check takes it away. */
  lemma InterruptTold(s: State, p: nat, sig: nat, steps: seq<Step>, t: State, u: State)
    requires Inv(s) && p in s.procs && s.procs[p].status.Waiting? && 0 < sig < SIGNALS
    requires Leads(Next(s, Tkill(p, sig)), steps, t) && Unchecked(Next(s, Tkill(p, sig)), steps, p)
    requires t.cur == Some(p) && Leads(t, [CheckInterrupted], u)
    ensures p in t.procs && t.procs[p].interrupted && p in u.procs && !u.procs[p].interrupted
  {
    hide InvBut, Leads, Unchecked, Killed;
    SignalLands(s, p, sig, p);
    NextInv(s, Tkill(p, sig));
    StaysMarked(Next(s, Tkill(p, sig)), steps, t, p);
    LeadsOne(t, CheckInterrupted, u);
  }

  // The choice

  /** The least pending signal. */
  ghost predicate LeastSignal(signals: set<nat>, g: nat) {
    g in signals && g < SIGNALS && forall i :: i in signals ==> g <= i
  }

  lemma {:induction false} FirstFrom(signals: set<nat>, i: nat)
    requires i <= SIGNALS && forall j :: j in signals ==> i <= j
    ensures forall g: nat :: LeastSignal(signals, g) ==> FirstSignal(signals, i) == Some(g)
    ensures (forall g :: g in signals ==> SIGNALS <= g) ==> FirstSignal(signals, i).None?
    decreases SIGNALS - i
  {
    if i < SIGNALS && i !in signals {
      FirstFrom(signals, i + 1);
    }
  }

  /** The process picked has the least virtual time, which becomes `minv`. Without pending signals it runs.
      Otherwise the least of them is taken, and it dies or runs as that is fatal or not. */
  lemma PickOutcome(s: State, now: nat, g: nat)
    requires Inv(s) && Enabled(s, Pick(now))
    ensures var t, c := Next(s, Pick(now)), First(s);
      && c in t.procs && t.minv == s.procs[c].v && t.last == s.phase.now
      && (forall p :: p in s.procs && s.procs[p].queue.RunQueue? ==> s.procs[c].v <= s.procs[p].v)
      && ((forall i :: i in s.procs[c].signals ==> SIGNALS <= i) ==>
            t.cur == Some(c) && t.phase.Active? && t.procs[c].status.Running? && t.procs[c].signals == s.procs[c].signals)
      && (LeastSignal(s.procs[c].signals, g) ==>
            if g in s.fatal
            then t.cur.None? && t.phase == Picking(now) && t.procs[c].status.Zombie? && t.procs[c].queue.NoQueue?
            else t.cur == Some(c) && t.phase.Active? && t.procs[c].status.Running? && t.procs[c].signals == s.procs[c].signals - {g})
  {
    hide InvBut, Gone, FirstSignal, IsLeast;
    Current(s);
    var c := First(s);
    FirstFrom(s.procs[c].signals, 0);
    ChosenInv(s);
    forall p | p in s.procs && s.procs[p].queue.RunQueue? ensures s.procs[c].v <= s.procs[p].v {
      FirstIsLeast(s, p);
    }
    if Dies(s, c) {
      var t := Chosen(s, c);
      Current(t);
      GoneInv(t, c, now);
      Ends(t, c);
    }
  }

  /** A fatal signal: from `tkill` on it is pending until the process is picked, and if no lower one is
      pending then, the process is dead. */
  lemma KillDelivers(s: State, p: nat, sig: nat, steps: seq<Step>, t: State, now: nat, u: State)
    requires Inv(s) && Live(s, p) && 0 < sig < SIGNALS
    requires Leads(Next(s, Tkill(p, sig)), steps, t) && Unpicked(Next(s, Tkill(p, sig)), steps, p)
    requires Leads(t, [Pick(now)], u) && Inv(t) && Enabled(t, Pick(now)) && First(t) == p && sig in t.fatal
    ensures p in t.procs && sig in t.procs[p].signals
    ensures (forall i :: i in t.procs[p].signals ==> sig <= i) ==> p in u.procs && u.procs[p].status.Zombie? && u.procs[p].queue.NoQueue?
  {
    hide InvBut, Next, Leads, Unpicked;
    SignalLands(s, p, sig, p);
    NextInv(s, Tkill(p, sig));
    StaysPending(Next(s, Tkill(p, sig)), steps, t, p);
    LeadsOne(t, Pick(now), u);
    PickOutcome(t, now, sig);
  }

  // The end of a process

  lemma Ends(s: State, c: nat)
    requires Inv(s) && Live(s, c)
    ensures c in Orphaned(s, c).procs
    ensures var t := Gone(s, c);
      && c in t.procs && t.procs[c].status.Zombie? && t.procs[c].queue.NoQueue? && t.procs[c].parent == s.procs[c].parent
      && t.cur.None? && t.minv == s.minv && t.last == s.last && t.phase == s.phase
  {
    hide InvBut, Mourned, Orphaned, Buried;
    OrphanedInv(s, c);
    var o := Orphaned(s, c);
    BuriedInv(o, c);
    var b := Buried(o, c);
    Interred(o, c);
    Current(b);
    MournedSelf(b, c);
    MournedInv(b, c);
  }

  lemma Interred(s: State, c: nat)
    requires c in s.procs
    ensures var b := Buried(s, c);
      && c in b.procs && b.procs[c].status.Zombie? && b.procs[c].queue.NoQueue? && b.procs[c].parent == s.procs[c].parent
      && b.procs[c].csig == s.procs[c].csig && b.procs[c].pid == s.procs[c].pid && b.sigchld == s.sigchld
      && forall q :: q in s.procs && q != c ==> q in b.procs && b.procs[q] == s.procs[q]
  {
  }

  lemma MournedSelf(s: State, c: nat)
    requires Inv(s) && c in s.procs
    ensures c in Mourned(s, c).procs && Mourned(s, c).procs[c] == s.procs[c]
  {
    hide Queues, Added, Killed;
    assert Kin(s, c);
    Current(s);
    if s.procs[c].parent.Some? {
      var q := s.procs[c].parent.value;
      AddedOnly(s, q, c);
      KilledOnly(s, q, if s.procs[c].csig != 0 then s.procs[c].csig else s.sigchld, c);
    }
  }

  lemma AddedOnly(s: State, q: nat, p: nat)
    requires q in s.procs && p in s.procs && p != q
    ensures p in Added(s, q).procs && Added(s, q).procs[p] == s.procs[p]
  {
  }

  lemma KilledOnly(s: State, q: nat, sig: nat, p: nat)
    requires q in s.procs && p in s.procs && p != q
    ensures p in Killed(s, q, sig).procs && Killed(s, q, sig).procs[p] == s.procs[p]
  {
  }

  /** `exit`: the process is dead and in no queue, its dead children are gone, and its live ones are orphans. */
  lemma ExitOutcome(s: State, now: nat, q: nat)
    requires Inv(s) && Enabled(s, Exit(now))
    ensures var t, c := Next(s, Exit(now)), s.cur.value;
      && c in t.procs && t.procs[c].status.Zombie? && t.procs[c].queue.NoQueue? && t.procs[c].parent == s.procs[c].parent
      && t.cur.None? && t.phase == Picking(now)
      && (q in s.procs && q != c && s.procs[q].parent == Some(c) ==>
            if s.procs[q].status.Zombie? then q !in t.procs else q in t.procs && t.procs[q].parent.None?)
  {
    hide InvBut, Mourned, Orphaned, Buried;
    var c := s.cur.value;
    Current(s);
    GoneInv(s, c, now);
    Ends(s, c);
    OrphanedInv(s, c);
    var o := Orphaned(s, c);
    LetGo(s, c, q);
    Interred(o, c);
    BuriedInv(o, c);
    var b := Buried(o, c);
    SameKin(o, c);
    MournedKin(b, c, q);
  }

  lemma LetGo(s: State, c: nat, q: nat)
    ensures q in s.procs && s.procs[q].parent == Some(c) ==>
      if s.procs[q].status.Zombie? then q !in Orphaned(s, c).procs else q in Orphaned(s, c).procs && Orphaned(s, c).procs[q].parent.None?
  {
  }

  lemma SameKin(s: State, c: nat)
    requires c in s.procs
    ensures Buried(s, c).procs.Keys == s.procs.Keys
  {
  }

  lemma MournedKin(s: State, c: nat, q: nat)
    requires c in s.procs
    ensures Mourned(s, c).procs.Keys == s.procs.Keys && (q in s.procs ==> Mourned(s, c).procs[q].parent == s.procs[q].parent)
  {
  }

  /** The parent of a process that exits becomes runnable. If it waits for this child, that is all; otherwise
      it gets the signal that the child was cloned with, or SIGCHLD, and a wait of it is interrupted. */
  lemma ChildEnds(s: State, now: nat, p: nat)
    requires Inv(s) && Enabled(s, Exit(now)) && s.procs[s.cur.value].parent == Some(p)
    ensures p in s.procs
    ensures var t, c := Next(s, Exit(now)), s.cur.value; var was, child := s.procs[p], s.procs[c];
      && p in t.procs && t.procs[p].queue.RunQueue? && t.procs[p].status.Ready?
      && if was.status.Waiting? && (was.waitPid < 0 || was.waitPid == child.pid)
         then t.procs[p].signals == was.signals && t.procs[p].interrupted == was.interrupted
         else
           && t.procs[p].signals == was.signals + {if child.csig != 0 then child.csig else s.sigchld}
           && t.procs[p].interrupted == (was.interrupted || was.status.Waiting?)
  {
    hide InvBut, Mourned, Orphaned, Buried;
    var c := s.cur.value;
    Current(s);
    ParentLives(s, c, p);
    GoneInv(s, c, now);
    OrphanedInv(s, c);
    OrphanedOther(s, c, p);
    var o := Orphaned(s, c);
    Interred(o, c);
    BuriedInv(o, c);
    Told(Buried(o, c), c, p);
  }

  lemma ParentLives(s: State, c: nat, p: nat)
    requires Inv(s) && c in s.procs && s.procs[c].parent == Some(p)
    ensures Live(s, p) && p != c && s.sigchld > 0 && Lawful(s.procs[p])
  {
    assert Kin(s, c) && Fit(s, p);
  }

  lemma Told(s: State, c: nat, p: nat)
    requires Inv(s) && c in s.procs && s.procs[c].parent == Some(p)
    ensures p in s.procs
    ensures var t := Mourned(s, c); var was, child := s.procs[p], s.procs[c];
      && p in t.procs && t.procs[p].queue.RunQueue? && t.procs[p].status.Ready?
      && if was.status.Waiting? && (was.waitPid < 0 || was.waitPid == child.pid)
         then t.procs[p].signals == was.signals && t.procs[p].interrupted == was.interrupted
         else
           && t.procs[p].signals == was.signals + {if child.csig != 0 then child.csig else s.sigchld}
           && t.procs[p].interrupted == (was.interrupted || was.status.Waiting?)
  {
    hide InvBut;
    ParentLives(s, c, p);
  }

  // The tick and the clone

  /** The runnable processes. */
  function Runnable(s: State): set<nat> {
    set p | p in s.procs && s.procs[p].queue.RunQueue?
  }

  lemma {:induction false} AsMany(s: State, ps: set<nat>, hs: set<Handle>)
    requires (forall p :: p in ps ==> p in s.procs && s.procs[p].handle in hs)
    requires (forall h :: h in hs ==> h in s.nodes && s.nodes[h].tid in ps && s.procs[s.nodes[h].tid].handle == h)
    requires forall p :: p in ps ==> s.procs[p].handle in s.nodes && s.nodes[s.procs[p].handle].tid == p
    ensures |ps| == |hs|
    decreases ps
  {
    if ps == {} {
      assert hs == {};
    } else {
      var p :| p in ps;
      var h := s.procs[p].handle;
      AsMany(s, ps - {p}, hs - {h});
      assert |ps - {p}| == |ps| - 1 && |hs - {h}| == |hs| - 1;
    }
  }

  lemma RunnableNodes(s: State)
    requires Queues(s)
    ensures |Runnable(s)| == |RunNodes(s)|
  {
    forall p | p in Runnable(s) ensures s.procs[p].handle in RunNodes(s) && s.nodes[s.procs[p].handle].tid == p {
      assert Placed(s, p);
    }
    forall h | h in RunNodes(s) ensures s.nodes[h].tid in Runnable(s) && s.procs[s.nodes[h].tid].handle == h {
      assert Holds(s, s.nodes[h].tid, h) && Placed(s, s.nodes[h].tid);
    }
    AsMany(s, Runnable(s), RunNodes(s));
  }

  lemma Quotient(l: nat, n: nat, d: nat)
    requires n > 0
    ensures l / n <= d <==> l < (d + 1) * n
  {
    var q := l / n;
    assert l == q * n + l % n;
    if q <= d {
      assert (q + 1) * n <= (d + 1) * n;
    } else {
      assert (d + 1) * n <= q * n;
    }
  }

  lemma SameRunnable(s: State, c: nat, delta: nat)
    requires c in s.procs
    ensures Runnable(Charged(s, c, delta)) == Runnable(s) && c in Charged(s, c, delta).procs
    ensures Charged(s, c, delta).procs[c].v == s.procs[c].v + delta && Beside(s, Charged(s, c, delta))
  {
  }

  /** With `n` runnable processes, a tick takes the processor from the current one exactly if it has had it for
      the least time and for its share of the scheduling latency; then it is charged for all of that. */
  lemma TickPreempts(s: State, now: nat)
    requires Inv(s) && OnCpu(s) && s.last <= now
    ensures var t, c, d := Next(s, Tick(now)), s.cur.value, now - s.last; var n := |Runnable(t)|;
      && n > 0 && c in t.procs && t.cur == s.cur
      && (t.phase.Picking? <==> SCHEDULE_MIN_DELTA <= d && SCHED_LATENCY < (d + 1) * n)
      && t.procs[c].v == s.procs[c].v + (if t.phase.Picking? then d else 0) && (t.phase.Picking? ==> t.phase.now == now)
  {
    hide InvBut, Due, Woken, Charged, Runnable, RunNodes, Latency;
    Current(s);
    QueuedLive(s, now, 0, None);
    WokenInv(s, Due(s, now));
    WokenBeside(s, Due(s, now));
    var w, c := Woken(s, Due(s, now)), s.cur.value;
    NotDue(s, now, c);
    RunsStill(s, Due(s, now), c);
    Current(w);
    SomeRunnable(w, c);
    SameRunnable(w, c, now - s.last);
    LatencyIs(w, now - s.last);
    SamePhase(Charged(w, c, now - s.last), now);
  }

  lemma LatencyIs(s: State, d: nat)
    requires Queues(s) && |Runnable(s)| > 0
    ensures Latency(s) <= d <==> SCHEDULE_MIN_DELTA <= d && SCHED_LATENCY < (d + 1) * |Runnable(s)|
  {
    hide Runnable, RunNodes, Queues;
    RunnableNodes(s);
    Quotient(SCHED_LATENCY, |RunNodes(s)|, d);
  }

  lemma SamePhase(s: State, now: nat)
    ensures Runnable(s.(phase := Picking(now))) == Runnable(s)
  {
  }

  lemma SomeRunnable(s: State, c: nat)
    requires c in s.procs && s.procs[c].queue.RunQueue?
    ensures |Runnable(s)| > 0
  {
    assert c in Runnable(s);
  }

  lemma NotDue(s: State, now: nat, c: nat)
    requires Inv(s) && c in s.procs && s.procs[c].queue.RunQueue?
    ensures c !in Due(s, now)
  {
    OnlyNode(s, c);
  }

  lemma RunsStill(s: State, ps: set<nat>, c: nat)
    requires ps <= s.procs.Keys && c in s.procs && c !in ps
    ensures c in Woken(s, ps).procs && Woken(s, ps).procs[c] == s.procs[c]
  {
  }

  /** `clone`: a new process with an unused id, runnable, at `minv`, of the caller or of its parent, in a group
      of its own or in the caller's. All others are as they were. */
  lemma CloneOutcome(s: State, csig: nat, thread: bool, toParent: bool)
    requires Inv(s) && Enabled(s, Clone(csig, thread, toParent))
    ensures var t, n, was := Next(s, Clone(csig, thread, toParent)), s.nextTid, s.procs[s.cur.value];
      if csig >= SIGNALS then t == s
      else
        && n !in s.procs && n in t.procs && t.procs == s.procs[n := t.procs[n]] && t.nextTid > n && t.cur == s.cur
        && t.procs[n].queue.RunQueue? && t.procs[n].status.Ready? && t.procs[n].v == s.minv && t.procs[n].nice == was.nice
        && t.procs[n].signals == {} && !t.procs[n].interrupted && t.procs[n].csig == csig && t.procs[n].waitPid == 0
        && t.procs[n].parent == (if toParent then was.parent else s.cur) && t.procs[n].pid == (if thread then was.pid else n)
  {
    hide Queues;
    assert s.nextTid in s.procs ==> Kin(s, s.nextTid);
  }
}
