/**
 A run from `init` in which `waitpid` comes upon a live child.
 */
module WaitpidRun {
  import opened Options
  import opened Processes
  import opened SchedulerSteps
  import opened SchedulerRuns
  import opened TreeQueues
  import MixedRuns
  import opened Waitpid

  lemma {:induction false} TracesLead(k: Scale, s: State, steps: seq<Step>, t: State, ops: seq<MixedRuns.Op>)
    requires Traces(k, s, steps, t, ops)
    ensures Leads(s, steps, t)
    decreases |steps|
  {
    hide Next, Enabled, Traced, RunOps, RunMap;
    if steps != [] {
      TracesLead(k, Next(s, steps[0]), steps[1..], t, ops[|RunOps(k, s, steps[0])|..]);
    }
  }

  lemma LeadsOne(s: State, step: Step)
    requires Inv(s) && Enabled(s, step)
    ensures Leads(s, [step], Next(s, step))
  {
    hide Next, Enabled;
    assert Leads(Next(s, step), [], Next(s, step)) && [step][1..] == [];
  }

  /** Process 3 is a child of 1, which waits for it unless it is on the processor. */
  ghost predicate Family(s: State) {
    && 1 in s.procs && 3 in s.procs && s.procs[3].parent == Some(1) && s.procs[3].pid == 3
    && (s.cur == Some(1) || (s.procs[1].status.Waiting? && s.procs[1].waitPid == 3))
  }

  lemma CloneFamily(s: State)
    requires Line(s, map[1 := 0, 2 := 0], 1, 3)
    ensures Family(Next(s, Clone(0, false, false)))
  {
    hide InvBut;
    Current(s);
    CloneMap(s, 0, false, false);
  }

  lemma AwaitMap(s: State, pid: int, now: nat)
    requires Inv(s) && OnCpu(s) && s.last <= now && pid > 0
    ensures var t, c := Next(s, AwaitChild(pid, now)), s.cur.value;
      && c in RunMap(s) && RunMap(t) == RunMap(s) - {c} && (Plain(s) ==> Plain(t))
      && t.phase == Picking(now) && t.nextTid == s.nextTid && t.cur == s.cur && t.procs.Keys == s.procs.Keys
      && c in t.procs && t.procs[c].status.Waiting? && t.procs[c].waitPid == pid
      && forall p :: p in s.procs && p != c ==> t.procs[p] == s.procs[p]
  {
    hide Queues;
    Current(s);
  }

  lemma BlockOthers(s: State, now: nat)
    requires Inv(s) && OnCpu(s) && s.last <= now
    ensures var t, c := Next(s, Block(0, now)), s.cur.value;
      t.cur == s.cur && t.procs.Keys == s.procs.Keys && forall p :: p in s.procs && p != c ==> t.procs[p] == s.procs[p]
  {
    hide InvBut;
    Current(s);
  }

  lemma PickOthers(s: State, now: nat)
    requires Inv(s) && s.phase.Picking? && RunNodes(s) != {} && s.phase.now <= now && !Dies(s, First(s))
    ensures var t := Picked(s, now);
      && t.procs.Keys == s.procs.Keys && (forall p :: p in s.procs && t.cur != Some(p) ==> t.procs[p] == s.procs[p])
      && forall p :: p in s.procs ==> t.procs[p].parent == s.procs[p].parent && t.procs[p].pid == s.procs[p].pid
  {
    hide InvBut, Dies, FirstSignal, IsLeast;
  }

  /** A step that leaves the processor, and the pick that follows it. */
  lemma PickNext(s: State, step: Step, m: map<nat, nat>, c: nat, now: nat) returns (t: State)
    requires Inv(s) && Enabled(s, step) && Inv(Next(s, step)) && Next(s, step).nextTid == s.nextTid <= 10
    requires var u := Next(s, step); u.phase == Picking(now) && Plain(u) && InUnits(RunMap(u), m) && Earliest(m, c)
    requires c != 1 && Family(Next(s, step)) && Next(s, step).procs[1].status.Waiting? && Next(s, step).procs[1].waitPid == 3
    ensures Leads(s, [step, Pick(now)], t) && Line(t, m, c, s.nextTid) && Family(t)
  {
    hide Inv, Next, Enabled, RunMap, Plain, Earliest, InUnits, Leads;
    var u := Next(s, step);
    PickLine(u, m, c, now);
    t := Next(u, Pick(now));
    FamilyPicked(u, now);
    LeadsOne(s, step);
    LeadsOne(u, Pick(now));
    LeadsOn(s, [step], u, [Pick(now)], t);
    assert [step] + [Pick(now)] == [step, Pick(now)];
    LineCur(t, m, c, s.nextTid);
  }

  lemma LineCur(s: State, m: map<nat, nat>, c: nat, next: nat)
    requires Line(s, m, c, next)
    ensures s.cur == Some(c) && Inv(s) && OnCpu(s) && Plain(s) && s.nextTid == next && InUnits(RunMap(s), m)
  {
  }

  lemma FamilyPicked(u: State, now: nat)
    requires Inv(u) && Enabled(u, Pick(now)) && Traced(u, Pick(now)) && Family(u) && u.procs[1].status.Waiting? && u.procs[1].waitPid == 3
    ensures Next(u, Pick(now)).cur != Some(1) ==> Family(Next(u, Pick(now)))
  {
    hide InvBut, Dies, FirstSignal, Picked;
    PickOthers(u, now);
  }

  /** 1 waits for 3, and 2 is picked. */
  lemma Awaits(s: State) returns (t: State)
    requires Line(s, map[1 := 0, 2 := 0, 3 := 0], 1, 4) && Family(s)
    ensures Leads(s, [AwaitChild(3, s.last), Pick(s.last)], t) && Line(t, map[2 := 0, 3 := 0], 2, 4) && Family(t)
  {
    hide InvBut, Next, RunMap, Leads, Plain;
    AwaitInv(s, 3, s.last);
    AwaitMap(s, 3, s.last);
    t := PickNext(s, AwaitChild(3, s.last), map[2 := 0, 3 := 0], 2, s.last);
  }

  /** 2 waits for something else, and 3 is picked. */
  lemma Waits(s: State) returns (t: State)
    requires Line(s, map[2 := 0, 3 := 0], 2, 4) && Family(s)
    ensures Leads(s, [Block(0, s.last), Pick(s.last)], t) && Line(t, map[3 := 0], 3, 4) && Family(t)
  {
    hide InvBut, Slept, RunMap, Leads, Plain;
    SleptInv(s, InEvent(2, 0), s.last);
    BlockMap(s, 0, s.last);
    BlockOthers(s, s.last);
    t := PickNext(s, Block(0, s.last), map[3 := 0], 3, s.last);
  }

  /** From `init`: 1 clones 3 and waits for it, 2 waits, 3 makes a thread for 1 and exits. 1 is runnable again,
      its search stops at the thread, which is alive, and deleting that breaks the invariant. */
  lemma LiveChildFound(fatal: set<nat>, sigchld: nat) returns (steps: seq<Step>, t: State)
    requires 0 < sigchld < SIGNALS
    ensures Leads(Initial(fatal, sigchld), steps, t) && Inv(t) && Found(t, 1, 3, 4) && !Dead(t, 4)
    ensures 1 in t.procs && t.procs[1].queue.RunQueue? && !Inv(Reaped(t, 1, 4))
  {
    hide Inv, InvBut, Next, RunMap, Leads, Line, Plain, Enabled, Initial, Family, Traces, Found, Dead, Reaped, Awaited;
    var s0, a0 := StartLine(fatal, sigchld);
    TracesLead(DIGITS, Initial(fatal, sigchld), a0, s0, []);
    var m := map[1 := 0, 2 := 0];
    var s1 := CloneLine(s0, m, 1, 3);
    TracesLead(DIGITS, s0, [Clone(0, false, false)], s1, [MixedRuns.Put(3)]);
    CloneFamily(s0);
    assert m[3 := 0] == map[1 := 0, 2 := 0, 3 := 0];
    var s2 := Awaits(s1);
    var s3 := Waits(s2);
    var made := [Clone(0, false, false)] + [AwaitChild(3, s1.last), Pick(s1.last)] + [Block(0, s2.last), Pick(s2.last)];
    LeadsOn(s0, [Clone(0, false, false)], s1, [AwaitChild(3, s1.last), Pick(s1.last)], s2);
    LeadsOn(s0, [Clone(0, false, false)] + [AwaitChild(3, s1.last), Pick(s1.last)], s2, [Block(0, s2.last), Pick(s2.last)], s3);
    LeadsOn(Initial(fatal, sigchld), a0, s0, made, s3);
    var last;
    last, t := Ends(s3);
    LeadsOn(Initial(fatal, sigchld), a0 + made, s3, last, t);
    steps := a0 + made + last;
  }

  lemma Ends(s: State) returns (steps: seq<Step>, t: State)
    requires Line(s, map[3 := 0], 3, 4) && Family(s)
    ensures Leads(s, steps, t) && Inv(t) && Found(t, 1, 3, 4) && !Dead(t, 4)
    ensures 1 in t.procs && t.procs[1].queue.RunQueue? && !Inv(Reaped(t, 1, 4))
  {
    hide Inv, InvBut, Next, RunMap, Leads, Plain, Enabled, Found, Dead, Reaped;
    LineCur(s, map[3 := 0], 3, 4);
    OnlyChild(s);
    LiveChildDeleted(s, 0, 1, s.last);
    var u := Next(s, Clone(0, true, true));
    t := Next(u, Exit(s.last));
    LeadsOne(s, Clone(0, true, true));
    LeadsOne(u, Exit(s.last));
    steps := [Clone(0, true, true)] + [Exit(s.last)];
    LeadsOn(s, [Clone(0, true, true)], u, [Exit(s.last)], t);
  }

  lemma OnlyChild(s: State)
    requires Inv(s) && OnCpu(s) && s.cur == Some(3) && Family(s)
    ensures Awaited(s, 1)
  {
  }
}
