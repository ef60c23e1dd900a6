/**
 A run from `init` that leaves the window: a signal to the process that is on the processor.
 */
module WindowLoss {
  import opened Options
  import opened Processes
  import opened SchedulerSteps
  import opened SchedulerRuns
  import opened VirtualTime
  import opened Fairness

  /** Two runnable processes and nothing else. */
  ghost predicate Pair(s: State, v1: nat, v2: nat) {
    && Calm(s) && s.procs.Keys == {1, 2} && Runnable(s, 1) && Runnable(s, 2)
    && s.procs[1].v == v1 && s.procs[2].v == v2 && s.minv == s.procs[s.cur.value].v
  }

  lemma NoSleeper(s: State, now: nat)
    requires Inv(s) && forall p :: p in s.procs ==> Runnable(s, p)
    ensures Due(s, now) == {}
  {
    forall h | h in s.nodes ensures !s.nodes[h].InSleep? {
      assert Holds(s, s.nodes[h].tid, h) && Placed(s, s.nodes[h].tid);
    }
  }

  lemma LatencyAtMost(s: State)
    ensures Latency(s) <= SCHED_LATENCY
  {
  }

  /** The first tick and pick after `init`. */
  lemma Started(fatal: set<nat>, sigchld: nat) returns (s: State)
    requires 0 < sigchld < SIGNALS
    ensures Leads(Initial(fatal, sigchld), [Tick(0), Pick(0)], s) && Pair(s, 0, 0) && s.last == 0
  {
    hide Calm, Picked, Ticked, Fresh, InvBut, Queues;
    var i := Initial(fatal, sigchld);
    FirstTick(fatal, sigchld, 0);
    TickInv(i, 0);
    CalmStart(fatal, sigchld, 0);
    var t := Ticked(i, 0);
    PickedCalm(t, 0);
    s := Picked(t, 0);
    FreshIsCalm(s);
    assert [Tick(0), Pick(0)][1..] == [Pick(0)] && [Pick(0)][1..] == [];
    assert Leads(t, [Pick(0)], s);
  }

  lemma FreshIsCalm(s: State)
    requires Fresh(s)
    ensures Calm(s)
  {
  }

  /** One turn of such a pair. */
  lemma PairTurn(s: State, v1: nat, v2: nat, now: nat)
    requires Pair(s, v1, v2) && now == s.last + SCHED_LATENCY
    ensures Turns(s, now)
    ensures var t := Turn(s, now);
      && Fresh(t) && t.last == now
      && if s.cur == Some(1) then Pair(t, v1 + SCHED_LATENCY, v2) else s.cur == Some(2) && Pair(t, v1, v2 + SCHED_LATENCY)
  {
    hide Turn, InvBut, Latency, Due, IsLeast;
    NoSleeper(s, now);
    LatencyAtMost(s);
    TurnRecords(s, now);
    FreshIsCalm(Turn(s, now));
    CurrentTid(s);
  }

  /** After two turns both have run once. */
  lemma TwoTurns(s: State) returns (t: State)
    requires Pair(s, 0, 0) && s.last == 0
    ensures Pair(t, SCHED_LATENCY, SCHED_LATENCY) && t.last == 2 * SCHED_LATENCY
    ensures Leads(s, [Tick(SCHED_LATENCY), Pick(SCHED_LATENCY), Tick(2 * SCHED_LATENCY), Pick(2 * SCHED_LATENCY)], t)
  {
    hide Turn, Calm, Fresh, Leads, Next;
    PairTurn(s, 0, 0, SCHED_LATENCY);
    var u := Turn(s, SCHED_LATENCY);
    var d := SCHED_LATENCY;
    FirstOfAll(u, if s.cur == Some(1) then 2 else 1);
    PairTurn(u, u.procs[1].v, u.procs[2].v, 2 * d);
    t := Turn(u, 2 * d);
    TurnLeads(s, d);
    TurnLeads(u, 2 * d);
    LeadsOn(s, [Tick(d), Pick(d)], u, [Tick(2 * d), Pick(2 * d)], t);
    assert [Tick(d), Pick(d)] + [Tick(2 * d), Pick(2 * d)] == [Tick(d), Pick(d), Tick(2 * d), Pick(2 * d)];
  }

  lemma TurnLeads(s: State, now: nat)
    requires Calm(s) && Turns(s, now)
    ensures Leads(s, [Tick(now), Pick(now)], Turn(s, now))
  {
    hide Next, Calm, Turns;
    TurnReady(s, now);
    CalmInv(s);
    var t := Next(s, Tick(now));
    assert [Tick(now), Pick(now)][1..] == [Pick(now)] && [Pick(now)][1..] == [];
    assert Leads(t, [Pick(now)], Turn(s, now));
  }

  lemma CalmInv(s: State)
    requires Calm(s)
    ensures Inv(s)
  {
  }

  /** From `init`: six steps after which the window holds, a signal to the current process, and a wait. The
      last charge is within the bound, and yet the process brings back more than the bound. */
  lemma LeavesWindow(fatal: set<nat>, sigchld: nat, sig: nat) returns (steps: seq<Step>, s: State)
    requires 0 < sigchld < SIGNALS && 0 < sig < SIGNALS
    ensures Leads(Initial(fatal, sigchld), steps, s) && Inv(s) && OnCpu(s) && Window(s, SCHED_LATENCY)
    ensures var t := Next(s, Tkill(s.cur.value, sig));
      && Inv(t) && OnCpu(t) && Spread(t, SCHED_LATENCY)
      && !Spread(Next(t, Block(0, t.last + SCHED_LATENCY)), SCHED_LATENCY)
  {
    hide Leads, InvBut, Killed, Slept;
    var s0 := Started(fatal, sigchld);
    s := TwoTurns(s0);
    var d := SCHED_LATENCY;
    steps := [Tick(0), Pick(0)] + [Tick(d), Pick(d), Tick(2 * d), Pick(2 * d)];
    LeadsOn(Initial(fatal, sigchld), [Tick(0), Pick(0)], s0, [Tick(d), Pick(d), Tick(2 * d), Pick(2 * d)], s);
    CurrentTid(s);
    assert Near(s, 1, d) && Near(s, 2, d);
    KilledInv(s, s.cur.value, sig);
    KilledTwice(s, sig, d);
    SignalledPair(s, sig);
    var t := Killed(s, s.cur.value, sig);
    BlockedAhead(t, t.last + d, d);
  }

  lemma SignalledPair(s: State, sig: nat)
    requires Pair(s, SCHED_LATENCY, SCHED_LATENCY) && 0 < sig < SIGNALS && Spread(s, SCHED_LATENCY)
    ensures Spread(Killed(s, s.cur.value, sig), SCHED_LATENCY)
  {
    hide InvBut, Killed;
    Current(s);
    KilledRecord(s, s.cur.value, sig);
    ChangedSpread(s, Killed(s, s.cur.value, sig), s.cur.value, SCHED_LATENCY);
  }
}
