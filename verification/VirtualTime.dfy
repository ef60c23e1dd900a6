/**
 How far virtual times spread: every runnable process is within one charge of `minv`, and every waiting
 one brings back at most one charge, as long as no signal reaches a runnable process that is too far
 ahead. Which signals do no harm is told exactly.
 */
module VirtualTime {
  import opened Options
  import opened Processes
  import opened SchedulerSteps
  import opened SchedulerRuns

  /** A runnable process is at most `b` ahead of `minv`; another one holds at most `b`. */
  ghost predicate Near(s: State, p: nat, b: nat)
    requires p in s.procs
  {
    var pr := s.procs[p];
    pr.status.Zombie? || pr.v <= b + if pr.queue.RunQueue? then s.minv else 0
  }

  ghost predicate Spread(s: State, b: nat) {
    forall p :: p in s.procs ==> Near(s, p, b)
  }

  /** What the steps keep: besides, the process that is charged next is at `minv`. */
  ghost predicate Window(s: State, b: nat) {
    && Spread(s, b)
    && (s.phase.Active? && s.cur.Some? && s.cur.value in s.procs ==> s.procs[s.cur.value].v == s.minv)
  }

  /** A signal to `p` adds `minv` to its virtual time, if it is runnable. That does no harm if the process
      is within `b` of 0; the one on the processor must be at 0, because it is charged next. */
  ghost predicate Spared(s: State, p: nat, b: nat)
    requires p in s.procs
  {
    s.procs[p].queue.RunQueue? ==> if s.phase.Active? && s.cur == Some(p) then s.minv == 0 else s.procs[p].v <= b
  }

  /** The exit of `p` signals no runnable process beyond `b`. */
  ghost predicate Unheard(s: State, p: nat, b: nat)
    requires p in s.procs
  {
    var q := s.procs[p].parent;
    q.Some? && q.value in s.procs && s.procs[q.value].queue.RunQueue? ==> s.procs[q.value].v <= b
  }

  /** The step charges at most `b`. */
  ghost predicate Affordable(s: State, step: Step, b: nat) {
    match step
    case Tick(now) => now - s.last <= b
    case Sleep(_, _, now) => now - s.last <= b
    case Block(_, now) => now - s.last <= b
    case AwaitChild(_, now) => now - s.last <= b
    case _ => true
  }

  /** The signals that the step sends do no harm. */
  ghost predicate Mild(s: State, step: Step, b: nat)
    requires Inv(s) && Enabled(s, step)
  {
    match step
    case Pick(_) => Dies(s, First(s)) ==> Unheard(s, First(s), b)
    case Tkill(p, sig) => sig == 0 || s.procs[p].status.Zombie? || Spared(s, p, b)
    case KillCurrent(sig, _) => sig == 0 || s.minv <= b
    case Exit(_) => Unheard(s, s.cur.value, b)
    case _ => true
  }

  ghost predicate Quiet(s: State, step: Step, b: nat)
    requires Inv(s) && Enabled(s, step)
  {
    Affordable(s, step, b) && Mild(s, step, b)
  }

  /** One process changed, and it is near. */
  lemma ChangedSpread(s: State, t: State, p: nat, b: nat)
    requires Spread(s, b) && p in t.procs && t.procs == s.procs[p := t.procs[p]] && t.minv == s.minv && Near(t, p, b)
    ensures Spread(t, b)
  {
    assert forall q :: q in t.procs && q != p ==> q in s.procs && Near(s, q, b) && Near(t, q, b);
  }

  /** What a signal does to the record of a process. */
  lemma KilledRecord(s: State, p: nat, sig: nat)
    requires Inv(s) && p in s.procs && sig != 0 && !s.procs[p].status.Zombie?
    ensures var t := Killed(s, p, sig);
      && p in t.procs && t.procs == s.procs[p := t.procs[p]] && Beside(s, t) && t.procs[p].queue.RunQueue?
      && t.procs[p].v == s.procs[p].v + s.minv
  {
    hide Queues, Kin;
    assert Fit(s, p);
  }

  lemma KilledWindow(s: State, p: nat, sig: nat, b: nat)
    requires Inv(s) && Window(s, b) && p in s.procs && (sig == 0 || s.procs[p].status.Zombie? || Spared(s, p, b))
    ensures Window(Killed(s, p, sig), b)
  {
    if sig != 0 && !s.procs[p].status.Zombie? {
      hide Queues, Kin, Killed, Spread;
      KilledRecord(s, p, sig);
      NearOf(s, p, b);
      ChangedSpread(s, Killed(s, p, sig), p, b);
    }
  }

  lemma NearOf(s: State, p: nat, b: nat)
    requires Spread(s, b) && p in s.procs
    ensures Near(s, p, b)
  {
  }

  /** The same when the current process is given up at once. */
  lemma GivenUpWindow(s: State, sig: nat, now: nat, b: nat)
    requires Inv(s) && OnCpu(s) && Window(s, b) && (sig == 0 || s.minv <= b)
    ensures var t := Killed(s, s.cur.value, sig).(cur := None, phase := Picking(now)); Window(t, b)
  {
    var p := s.cur.value;
    Current(s);
    if sig == 0 {
      assert forall q :: q in s.procs ==> Near(s, q, b) && Near(s.(cur := None, phase := Picking(now)), q, b);
    } else {
      hide Queues, Kin, Killed, Spread;
      KilledRecord(s, p, sig);
      ChangedSpread(s, Killed(s, p, sig).(cur := None, phase := Picking(now)), p, b);
    }
  }

  lemma {:induction false} WokenWindow(s: State, ps: set<nat>, b: nat)
    requires Inv(s) && Window(s, b) && ps <= s.procs.Keys && forall p :: p in ps ==> Live(s, p) && !s.procs[p].queue.RunQueue?
    ensures Window(Woken(s, ps), b)
  {
  }

  /** Sleepers and waiters are not runnable. */
  lemma QueuedAside(s: State, now: nat, cv: nat, tid: Option<nat>)
    requires Inv(s)
    ensures forall p :: p in Due(s, now) || p in Waiters(s, cv, tid) ==> Live(s, p) && !s.procs[p].queue.RunQueue?
  {
  }

  /** Charging the current process, which is at `minv`, or at 0 if it has just left the run queue. */
  lemma RescheduledWindow(s: State, timer: bool, now: nat, b: nat)
    requires Window(s, b) && s.last <= now <= s.last + b && (s.cur.Some? ==> s.cur.value in s.procs)
    requires s.phase.Active? && s.cur.Some? ==>
      s.procs[s.cur.value].v == if s.procs[s.cur.value].queue.RunQueue? then s.minv else 0
    ensures Window(Rescheduled(s, timer, now), b)
  {
  }

  lemma TickWindow(s: State, now: nat, b: nat)
    requires Inv(s) && Window(s, b) && s.last <= now <= s.last + b
    ensures Window(Ticked(s, now), b)
  {
    hide Queues, Kin, Woken, Rescheduled, Window, Near;
    QueuedAside(s, now, 0, None);
    WokenWindow(s, Due(s, now), b);
    WokenBeside(s, Due(s, now));
    WokenInv(s, Due(s, now));
    var t := Woken(s, Due(s, now));
    AtMinv(t, b);
    RescheduledWindow(t, true, now, b);
  }

  lemma AtMinv(s: State, b: nat)
    requires Inv(s) && Window(s, b)
    ensures s.phase.Active? && s.cur.Some? ==>
      s.cur.value in s.procs && s.procs[s.cur.value].queue.RunQueue? && s.procs[s.cur.value].v == s.minv
  {
  }

  /** The current process gives up its share and waits, at virtual time 0 until it is charged. */
  lemma SleptWindow(s: State, n: Node, now: nat, b: nat)
    requires Inv(s) && OnCpu(s) && Window(s, b) && s.last <= now <= s.last + b && n.tid == s.cur.value && !n.InRun?
    ensures Window(Slept(s, n, now), b)
  {
  }

  lemma AwaitWindow(s: State, pid: int, now: nat, b: nat)
    requires Inv(s) && OnCpu(s) && Window(s, b) && s.last <= now <= s.last + b
    ensures Window(Next(s, AwaitChild(pid, now)), b)
  {
  }

  /** Children let go and the process buried: nobody's virtual time changes. */
  lemma BuriedWindow(s: State, p: nat, b: nat)
    requires Window(s, b) && p in s.procs && p in Orphaned(s, p).procs
    ensures var t := Buried(Orphaned(s, p), p);
      Window(t, b) && p in t.procs && t.procs[p].parent == Orphaned(s, p).procs[p].parent
      && forall q :: q in t.procs && q != p ==> q in s.procs && t.procs[q].queue == s.procs[q].queue && t.procs[q].v == s.procs[q].v
  {
  }

  lemma MournedWindow(s: State, p: nat, b: nat)
    requires Inv(s) && Window(s, b) && s.cur.None? && p in s.procs && Unheard(s, p, b)
    ensures Window(Mourned(s, p), b)
  {
    hide Queues, Kin, Killed, Window, Near;
    var q := s.procs[p].parent;
    if q.Some? && q.value in s.procs {
      KilledWindow(s, q.value, if s.procs[p].csig != 0 then s.procs[p].csig else s.sigchld, b);
      if !s.procs[q.value].status.Zombie? {
        AddedWindow(s, q.value, b);
      }
    }
  }

  lemma AddedWindow(s: State, p: nat, b: nat)
    requires Inv(s) && Window(s, b) && s.cur.None? && p in s.procs && (s.procs[p].queue.RunQueue? ==> s.procs[p].v <= b)
    requires !s.procs[p].status.Zombie?
    ensures Window(Added(s, p), b)
  {
    hide Queues, Kin;
    assert Near(s, p, b);
    ChangedSpread(s, Added(s, p), p, b);
  }

  lemma GoneWindow(s: State, p: nat, now: nat, b: nat)
    requires Inv(s) && Live(s, p) && Window(s, b) && s.phase.Active? && s.last <= now && Unheard(s, p, b)
    requires p in Orphaned(s, p).procs && Gone(s, p).last <= now && Gone(s, p).cur.None?
    ensures Window(Rescheduled(Gone(s, p), false, now), b)
  {
    hide Queues, Kin, Fit, Window, Near, Mourned, Buried, Orphaned;
    BuriedWindow(s, p, b);
    OrphanedInv(s, p);
    BuriedInv(Orphaned(s, p), p);
    var t := Buried(Orphaned(s, p), p);
    assert Kin(s, p);
    UnheardKept(s, t, p, b);
    MournedWindow(t, p, b);
    PickingWindow(Mourned(t, p), now, b);
  }

  lemma UnheardKept(s: State, t: State, p: nat, b: nat)
    requires p in s.procs && p in t.procs && t.procs[p].parent == s.procs[p].parent && Unheard(s, p, b) && s.procs[p].parent != Some(p)
    requires forall q :: q in t.procs && q != p ==> q in s.procs && t.procs[q].queue == s.procs[q].queue && t.procs[q].v == s.procs[q].v
    ensures Unheard(t, p, b)
  {
  }

  lemma PickingWindow(s: State, now: nat, b: nat)
    requires Window(s, b)
    ensures Window(s.(phase := Picking(now)), b)
  {
  }

  /** `minv` moves up to the chosen process, so everyone else is at least as near as before. */
  lemma ChosenWindow(s: State, b: nat)
    requires Inv(s) && Window(s, b) && s.phase.Picking? && RunNodes(s) != {}
    ensures Window(Chosen(s, First(s)), b)
  {
  }

  lemma PickWindow(s: State, now: nat, b: nat)
    requires Inv(s) && Window(s, b) && s.phase.Picking? && RunNodes(s) != {} && s.phase.now <= now
    requires Dies(s, First(s)) ==> Unheard(s, First(s), b)
    ensures Window(Picked(s, now), b)
  {
    hide Queues, Kin, Fit, Window, Near, Gone, Dies, FirstSignal;
    var c := First(s);
    ChosenWindow(s, b);
    ChosenInv(s);
    var t := Chosen(s, c);
    if Dies(s, c) {
      assert t.procs[c].parent == s.procs[c].parent;
      GoneInv(t, c, now);
      GoneWindow(t, c, now, b);
    }
  }

  lemma CloneWindow(s: State, csig: nat, thread: bool, toParent: bool, b: nat)
    requires Inv(s) && OnCpu(s) && Window(s, b)
    ensures Window(Cloned(s, s.cur.value, csig, thread, toParent), b)
  {
  }

  lemma ReapWindow(s: State, c: nat, q: nat, b: nat)
    requires Window(s, b) && Inv(s) && c in s.procs && q in s.procs && s.procs[q].status.Zombie?
    ensures Window(Reaped(s, c, q), b)
  {
    hide Queues, Kin;
    var t := Reaped(s, c, q);
    assert forall p :: p in t.procs ==> p in s.procs && Near(s, p, b) && Near(t, p, b);
  }

  lemma NextWindow(s: State, step: Step, b: nat)
    requires Inv(s) && Enabled(s, step) && Window(s, b) && Quiet(s, step, b)
    ensures Window(Next(s, step), b)
  {
    hide InvBut, Window, Near, Ticked, Picked, Slept, Woken, Killed, Cloned, Blocked, Gone;
    match step
    case Tick(now) => TickWindow(s, now, b);
    case Pick(now) => PickWindow(s, now, b);
    case Sleep(ns, at, now) => SleptWindow(s, InSleep(s.cur.value, at + ns), now, b);
    case Block(cv, now) => SleptWindow(s, InEvent(s.cur.value, cv), now, b);
    case Wake(cv, tid) =>
      QueuedAside(s, 0, cv, tid);
      WokenWindow(s, Waiters(s, cv, tid), b);
    case Tkill(p, sig) => KilledWindow(s, p, sig, b);
    case KillCurrent(sig, now) =>
      KilledInv(s, s.cur.value, sig);
      GivenUpWindow(s, sig, now, b);
    case Clone(csig, thread, toParent) => CloneWindow(s, csig, thread, toParent, b);
    case AwaitChild(pid, now) => AwaitWindow(s, pid, now, b);
    case Reap(q) => ReapWindow(s, s.cur.value, q, b);
    case CheckInterrupted => NotedWindow(s, b);
    case Exit(now) =>
      Current(s);
      GoneInv(s, s.cur.value, now);
      GoneWindow(s, s.cur.value, now, b);
  }

  lemma NotedWindow(s: State, b: nat)
    requires Inv(s) && OnCpu(s) && Window(s, b)
    ensures Window(Next(s, CheckInterrupted), b)
  {
  }

  /** The steps lead from `s` to `t`, and each is quiet. */
  ghost predicate QuietlyLeads(s: State, steps: seq<Step>, t: State, b: nat)
    decreases |steps|
  {
    if steps == [] then s == t
    else Inv(s) && Enabled(s, steps[0]) && Quiet(s, steps[0], b) && QuietlyLeads(Next(s, steps[0]), steps[1..], t, b)
  }

  /** Over every quiet run, every runnable process stays between `minv` and `minv + b`, and every
      process that waits brings back at most `b`. */
  lemma {:induction false} RunWindow(s: State, steps: seq<Step>, t: State, b: nat)
    requires Inv(s) && Window(s, b) && QuietlyLeads(s, steps, t, b)
    ensures Inv(t) && Window(t, b)
    ensures forall p :: p in t.procs && t.procs[p].queue.RunQueue? ==> t.minv <= t.procs[p].v <= t.minv + b
    decreases |steps|
  {
    hide Next, Enabled, Quiet, Queues, Kin;
    if steps == [] {
      assert forall p :: p in t.procs ==> Fit(t, p) && Near(t, p, b);
    } else {
      NextInv(s, steps[0]);
      NextWindow(s, steps[0], b);
      RunWindow(Next(s, steps[0]), steps[1..], t, b);
    }
  }

  /** The window holds at the start. */
  lemma InitialWindow(fatal: set<nat>, sigchld: nat, b: nat)
    ensures Window(Initial(fatal, sigchld), b)
  {
  }

  // ---- The signals that do harm -------------------------------------------

  /** Every quiet run from here keeps the spread. */
  ghost predicate Safe(s: State, b: nat) {
    forall steps, t :: QuietlyLeads(s, steps, t, b) ==> Spread(t, b)
  }

  lemma Unsafe(s: State, p: nat, b: nat)
    requires p in s.procs && !Near(s, p, b)
    ensures !Safe(s, b)
  {
    assert QuietlyLeads(s, [], s, b);
  }

  /** A signal to a runnable process beyond `b` puts it out of the window at once. */
  lemma KilledBeyond(s: State, p: nat, sig: nat, b: nat)
    requires Inv(s) && p in s.procs && s.procs[p].queue.RunQueue? && sig != 0 && b < s.procs[p].v
    ensures var t := Killed(s, p, sig); p in t.procs && t.procs[p].queue.RunQueue? && t.procs[p].v == s.procs[p].v + s.minv && !Near(t, p, b)
  {
    hide Queues, Kin;
    assert Fit(s, p);
  }

  /** A signal to the process on the processor puts it out of the window when it is charged next. */
  lemma KilledCurrent(s: State, sig: nat, b: nat)
    requires Inv(s) && Window(s, b) && OnCpu(s) && 0 < sig < SIGNALS && s.minv > 0
    ensures Inv(Killed(s, s.cur.value, sig)) && !Safe(Killed(s, s.cur.value, sig), b)
  {
    hide Queues, Kin, Killed, Blocked;
    var c := s.cur.value;
    var t := Killed(s, c, sig);
    KilledInv(s, c, sig);
    KilledTwice(s, sig, b);
    var step := Block(0, s.last + b);
    var u := Next(t, step);
    BlockedAhead(t, s.last + b, b);
    assert [step][1..] == [];
    assert QuietlyLeads(u, [], u, b);
    assert QuietlyLeads(t, [step], u, b);
  }

  lemma KilledTwice(s: State, sig: nat, b: nat)
    requires Inv(s) && Window(s, b) && OnCpu(s) && 0 < sig < SIGNALS
    ensures var t := Killed(s, s.cur.value, sig); OnCpu(t) && t.procs[t.cur.value].v == 2 * s.minv && t.minv == s.minv && t.last == s.last
  {
    hide Queues, Kin;
    assert Fit(s, s.cur.value);
  }

  lemma BlockedAhead(s: State, now: nat, b: nat)
    requires Inv(s) && OnCpu(s) && now == s.last + b && s.procs[s.cur.value].v == 2 * s.minv && s.minv > 0
    ensures var u := Next(s, Block(0, now)); s.cur.value in u.procs && !Near(u, s.cur.value, b)
  {
    hide Queues, Kin;
    assert Fit(s, s.cur.value);
  }

  /** The exit of a process whose runnable parent is beyond `b`. */
  lemma GoneBeyond(s: State, p: nat, now: nat, b: nat)
    requires Inv(s) && Live(s, p) && s.phase.Active? && s.last <= now && !Unheard(s, p, b)
    requires p in Orphaned(s, p).procs && Gone(s, p).last <= now && Gone(s, p).cur.None?
    ensures !Safe(Rescheduled(Gone(s, p), false, now), b)
  {
    hide Queues, Kin, Fit, Killed, Safe, Orphaned;
    var q := s.procs[p].parent.value;
    OrphanedInv(s, p);
    BuriedInv(Orphaned(s, p), p);
    var t := Buried(Orphaned(s, p), p);
    ParentStays(s, p, q);
    var sig := if t.procs[p].csig != 0 then t.procs[p].csig else t.sigchld;
    KilledBeyond(t, q, sig, b);
    Unsafe(Rescheduled(Gone(s, p), false, now), q, b);
  }

  lemma ParentStays(s: State, p: nat, q: nat)
    requires Inv(s) && Live(s, p) && s.procs[p].parent == Some(q) && q in s.procs && s.procs[q].queue.RunQueue? && p in Orphaned(s, p).procs
    ensures var t := Buried(Orphaned(s, p), p);
      && q != p && p in t.procs && q in t.procs && t.procs[p].parent == Some(q) && t.procs[p].csig == s.procs[p].csig
      && t.procs[q].queue.RunQueue? && t.procs[q].v == s.procs[q].v && !t.procs[q].status.Waiting? && t.sigchld != 0
  {
    hide Queues;
    assert Kin(s, p) && Fit(s, q);
  }

  lemma PickBeyond(s: State, now: nat, b: nat)
    requires Inv(s) && s.phase.Picking? && RunNodes(s) != {} && s.phase.now <= now
    requires Dies(s, First(s)) && !Unheard(s, First(s), b)
    ensures !Safe(Picked(s, now), b)
  {
    hide Queues, Kin, Fit, Safe, Gone, Dies, FirstSignal;
    var c := First(s);
    ChosenInv(s);
    var t := Chosen(s, c);
    assert t.procs[c].parent == s.procs[c].parent;
    ParentOther(s, c);
    GoneInv(t, c, now);
    GoneBeyond(t, c, now, b);
  }

  lemma ParentOther(s: State, c: nat)
    requires Inv(s) && c in s.procs
    ensures s.procs[c].parent != Some(c)
  {
    assert Kin(s, c);
  }

  lemma GivenUpBeyond(s: State, sig: nat, now: nat, b: nat)
    requires Inv(s) && OnCpu(s) && Window(s, b) && 0 < sig < SIGNALS && b < s.minv && s.last <= now
    ensures !Safe(Killed(s, s.cur.value, sig).(cur := None, phase := Picking(now)), b)
  {
    hide Queues, Kin, Killed, Safe;
    var p := s.cur.value;
    KilledBeyond(s, p, sig, b);
    Unsafe(Killed(s, p, sig).(cur := None, phase := Picking(now)), p, b);
  }

  /** A step whose charge is within `b` keeps every later quiet run within the window if and only if the
      signals it sends do no harm. */
  lemma MildIffSafe(s: State, step: Step, b: nat)
    requires Inv(s) && Enabled(s, step) && Window(s, b) && Affordable(s, step, b)
    ensures Mild(s, step, b) <==> Safe(Next(s, step), b)
  {
    hide InvBut, Near, Spread, Safe, Ticked, Picked, Slept, Woken, Killed, Cloned, Blocked, Gone;
    if Mild(s, step, b) {
      MildIsSafe(s, step, b);
    } else {
      match step
      case Pick(now) => PickBeyond(s, now, b);
      case Tkill(p, sig) =>
        if s.phase.Active? && s.cur == Some(p) {
          KilledCurrent(s, sig, b);
        } else {
          KilledBeyond(s, p, sig, b);
          Unsafe(Killed(s, p, sig), p, b);
        }
      case KillCurrent(sig, now) =>
        KilledInv(s, s.cur.value, sig);
        GivenUpBeyond(s, sig, now, b);
      case Exit(now) =>
        Current(s);
        GoneInv(s, s.cur.value, now);
        GoneBeyond(s, s.cur.value, now, b);
      case _ =>
    }
  }

  lemma MildIsSafe(s: State, step: Step, b: nat)
    requires Inv(s) && Enabled(s, step) && Window(s, b) && Quiet(s, step, b)
    ensures Safe(Next(s, step), b)
  {
    hide Next, Enabled, Quiet, InvBut, Near, QuietlyLeads;
    var u := Next(s, step);
    NextInv(s, step);
    NextWindow(s, step, b);
    forall steps, t | QuietlyLeads(u, steps, t, b) ensures Spread(t, b) {
      RunWindow(u, steps, t, b);
    }
  }
}
