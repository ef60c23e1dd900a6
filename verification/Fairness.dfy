/**
 No starvation: while the set of runnable processes is fixed and only the timer reschedules, every
 runnable process is picked within a bound that is known beforehand.
 */
module Fairness {
  import opened Options
  import opened Processes
  import opened SchedulerSteps
  import opened SchedulerRuns

  /** A process runs, and no signal is pending. */
  ghost predicate Calm(s: State) {
    Inv(s) && OnCpu(s) && forall p :: p in s.procs ==> s.procs[p].signals == {}
  }

  /** The current process is the first of the run queue, as it is after every turn. */
  ghost predicate Fresh(s: State) {
    Calm(s) && IsLeast(s, s.procs[s.cur.value].handle)
  }

  /** The timer reschedules at `now`, and no sleeper is due. */
  ghost predicate Turns(s: State, now: nat) {
    s.last <= now && Latency(s) <= now - s.last && Due(s, now) == {}
  }

  predicate Runnable(s: State, p: nat) {
    p in s.procs && s.procs[p].queue.RunQueue?
  }

  /** One reschedule: the tick charges the current process, and the next one is picked. */
  ghost function Turn(s: State, now: nat): State
    requires Calm(s) && Turns(s, now)
  {
    TurnReady(s, now);
    Next(Next(s, Tick(now)), Pick(now))
  }

  /** The reschedules that process `q` can get before `p`. */
  function Share(s: State, p: nat, q: nat): nat
    requires Runnable(s, p)
  {
    if Runnable(s, q) && q != p && s.procs[q].v <= s.procs[p].v
    then (s.procs[p].v - s.procs[q].v) / SCHEDULE_MIN_DELTA + 1
    else 0
  }

  /** The shares of all processes below `n`. */
  function Debt(s: State, p: nat, n: nat): nat
    requires Runnable(s, p)
  {
    if n == 0 then 0 else Debt(s, p, n - 1) + Share(s, p, n - 1)
  }

  lemma NobodyDue(s: State, now: nat)
    requires Inv(s) && OnCpu(s) && Turns(s, now)
    ensures Ticked(s, now) == Charged(s, s.cur.value, now - s.last).(phase := Picking(now))
  {
    hide InvBut, Charged, Woken, Latency, Due;
    QueuedLive(s, now, 0, None);
    WokenNone(s);
  }

  /** What the charge does to the records. */
  lemma ChargedRecords(s: State, c: nat, delta: nat)
    requires Queues(s) && Runnable(s, c)
    ensures var t := Charged(s, c, delta);
      && Beside(s, t) && t.procs == s.procs[c := t.procs[c]] && Runnable(t, c) && t.procs[c].v == s.procs[c].v + delta
      && t.procs[c].signals == s.procs[c].signals && RunNodes(t) != {}
  {
    hide Queues;
    var t := Charged(s, c, delta);
    assert At(c, s.procs[c].serial) in RunNodes(t);
  }

  lemma TurnReady(s: State, now: nat)
    requires Calm(s) && Turns(s, now)
    ensures Enabled(s, Tick(now))
    ensures var t := Next(s, Tick(now)); Inv(t) && Enabled(t, Pick(now))
  {
    hide Inv, InvBut, Queues, Charged, Ticked, Due, Latency, IsLeast, Live;
    Current(s);
    NobodyDue(s, now);
    ChargedRecords(s, s.cur.value, now - s.last);
    TickInv(s, now);
  }

  lemma NoSignal(i: nat)
    ensures FirstSignal({}, i).None?
    decreases SIGNALS - i
  {
  }

  /** A turn charges the current process and nobody else; whoever is first runs. */
  lemma TurnRecords(s: State, now: nat)
    requires Calm(s) && Turns(s, now)
    ensures var t := Turn(s, now); var c := s.cur.value;
      && Fresh(t) && t.nextTid == s.nextTid && t.procs.Keys == s.procs.Keys && t.last == now && t.minv == t.procs[t.cur.value].v
      && (forall q :: Runnable(t, q) <==> Runnable(s, q))
      && (forall q :: Runnable(s, q) ==> t.procs[q].v == s.procs[q].v + if q == c then now - s.last else 0)
  {
    hide Inv, InvBut, Queues, Charged, Ticked;
    var c := s.cur.value;
    TurnReady(s, now);
    Current(s);
    NobodyDue(s, now);
    ChargedRecords(s, c, now - s.last);
    var u := Next(s, Tick(now));
    NextInv(u, Pick(now));
    Current(u);
    NoSignal(0);
    FirstStays(u);
  }

  lemma FirstStays(s: State)
    requires Queues(s) && s.phase.Picking? && RunNodes(s) != {} && s.procs[First(s)].signals == {}
    ensures var t := Chosen(s, First(s)); !Dies(s, First(s)) && First(s) in t.procs && IsLeast(t, t.procs[First(s)].handle)
  {
    hide Queues;
    NoSignal(0);
    var c := First(s);
    var t := Chosen(s, c);
    assert t.nodes == s.nodes && RunNodes(t) == RunNodes(s);
  }

  /** Without signals, a pick leads to a calm state whose current process is the first. */
  lemma PickedCalm(s: State, now: nat)
    requires Inv(s) && s.phase.Picking? && RunNodes(s) != {} && s.phase.now <= now
    requires forall p :: p in s.procs ==> s.procs[p].signals == {}
    ensures var t := Picked(s, now);
      && Fresh(t) && t.procs.Keys == s.procs.Keys && t.last == s.phase.now && t.minv == t.procs[t.cur.value].v
      && forall p :: p in s.procs ==> t.procs[p].v == s.procs[p].v && t.procs[p].queue == s.procs[p].queue
  {
    hide InvBut, Queues, RunNodes, IsLeast;
    Current(s);
    FirstStays(s);
    ChosenInv(s);
    PickInv(s, now);
    NoSignal(0);
  }

  lemma FirstTick(fatal: set<nat>, sigchld: nat, now: nat)
    requires 0 < sigchld < SIGNALS
    ensures var s := Initial(fatal, sigchld);
      && Inv(s) && s.last <= now && Ticked(s, now) == s.(phase := Picking(now)) && At(1, 0) in RunNodes(Ticked(s, now))
  {
    hide InvBut, Queues;
    var s := Initial(fatal, sigchld);
    InitialInv(fatal, sigchld);
    QueuedLive(s, now, 0, None);
    assert Due(s, now) == {};
    WokenNone(s);
  }

  /** The first tick after `init` leads to a calm state. */
  lemma CalmStart(fatal: set<nat>, sigchld: nat, now: nat)
    requires 0 < sigchld < SIGNALS
    ensures var s := Initial(fatal, sigchld);
      && Inv(s) && Enabled(s, Tick(now))
      && var t := Next(s, Tick(now)); Inv(t) && Enabled(t, Pick(now)) && Fresh(Next(t, Pick(now)))
  {
    hide InvBut, Queues, Ticked, Picked, Fresh, RunNodes;
    FirstTick(fatal, sigchld, now);
    var s := Initial(fatal, sigchld);
    TickInv(s, now);
    PickedCalm(Ticked(s, now), now);
  }

  /** A charge of at least the minimum costs one reschedule. */
  lemma ShareFalls(v: nat, w: nat, delta: nat)
    requires w <= v && SCHEDULE_MIN_DELTA <= delta && w + delta <= v
    ensures (v - (w + delta)) / SCHEDULE_MIN_DELTA + 1 <= (v - w) / SCHEDULE_MIN_DELTA
  {
  }

  lemma FirstOfAll(s: State, p: nat)
    requires Fresh(s) && Runnable(s, p)
    ensures s.procs[s.cur.value].v <= s.procs[p].v
  {
    var c := s.cur.value;
    Current(s);
    assert Placed(s, p) && Placed(s, c);
    assert s.procs[p].handle in RunNodes(s);
  }

  lemma CurrentTid(s: State)
    requires Calm(s)
    ensures s.cur.Some? && Runnable(s, s.cur.value) && s.cur.value < s.nextTid
  {
    Current(s);
    assert Kin(s, s.cur.value);
  }

  /** The turn of a process that is not ahead of `p` costs one of its reschedules; the turn of a process
      ahead of `p` costs none, and no other share changes. */
  lemma TurnShares(s: State, now: nat, p: nat)
    requires Calm(s) && Turns(s, now) && Runnable(s, p) && s.cur != Some(p)
    ensures var t, c := Turn(s, now), s.cur.value;
      && Runnable(s, c) && Runnable(t, p)
      && (if s.procs[c].v <= s.procs[p].v then Share(t, p, c) < Share(s, p, c) else Share(t, p, c) == Share(s, p, c))
      && forall q :: q != c ==> Share(t, p, q) == Share(s, p, q)
  {
    hide Calm, Turns, Turn, Fresh;
    CurrentTid(s);
    TurnRecords(s, now);
    LatencyLeast(s, now);
    var c := s.cur.value;
    var v, w, delta := s.procs[p].v, s.procs[c].v, now - s.last;
    if w + delta <= v {
      ShareFalls(v, w, delta);
    }
  }

  lemma LatencyLeast(s: State, now: nat)
    requires Turns(s, now) && Calm(s)
    ensures SCHEDULE_MIN_DELTA <= now - s.last && s.cur.Some?
  {
  }

  lemma {:induction false} DebtFalls(s: State, t: State, p: nat, c: nat, n: nat)
    requires Runnable(s, p) && Runnable(t, p) && Share(t, p, c) <= Share(s, p, c)
    requires forall q :: q != c ==> Share(t, p, q) == Share(s, p, q)
    ensures if c < n then Debt(t, p, n) - Debt(s, p, n) == Share(t, p, c) - Share(s, p, c) else Debt(t, p, n) == Debt(s, p, n)
  {
    hide Share;
    if n > 0 {
      DebtFalls(s, t, p, c, n - 1);
    }
  }

  /** The timer reschedules at each of the times, one after another. */
  ghost predicate TurnsAt(s: State, times: seq<nat>)
    decreases |times|
  {
    times != [] ==> Calm(s) && Turns(s, times[0]) && TurnsAt(Turn(s, times[0]), times[1..])
  }

  ghost function After(s: State, times: seq<nat>, k: nat): State
    requires TurnsAt(s, times) && k <= |times|
    decreases k
  {
    if k == 0 then s else After(Turn(s, times[0]), times[1..], k - 1)
  }

  /** The reschedules until `p` is picked: its debt, and one more if the current process is ahead of it. */
  ghost function Bound(s: State, p: nat): nat
    requires Calm(s) && Runnable(s, p)
  {
    Debt(s, p, s.nextTid) + if s.procs[s.cur.value].v > s.procs[p].v then 1 else 0
  }

  /** A turn of another process brings `p` nearer. */
  lemma BoundFalls(s: State, now: nat, p: nat)
    requires Calm(s) && Turns(s, now) && Runnable(s, p) && s.cur != Some(p)
    ensures var t := Turn(s, now); Calm(t) && Runnable(t, p) && Bound(t, p) < Bound(s, p)
  {
    hide Turns, Share, Debt, Turn, IsLeast, Inv;
    CurrentTid(s);
    TurnShares(s, now, p);
    TurnRecords(s, now);
    var t := Turn(s, now);
    DebtFalls(s, t, p, s.cur.value, s.nextTid);
    FirstOfAll(t, p);
  }

  /** From every calm state, every runnable process is picked within its bound. */
  lemma {:induction false} NoStarvation(s: State, times: seq<nat>, p: nat) returns (k: nat)
    requires Calm(s) && Runnable(s, p) && TurnsAt(s, times) && Bound(s, p) <= |times|
    ensures k <= Bound(s, p) && After(s, times, k).cur == Some(p)
    decreases |times|
  {
    hide Calm, Turns, Bound, Runnable, Turn;
    k := 0;
    if s.cur != Some(p) {
      if times == [] {
        SomeTurnLeft(s, p);
      }
      BoundFalls(s, times[0], p);
      k := NoStarvation(Turn(s, times[0]), times[1..], p);
      k := k + 1;
    }
  }

  /** Until `p` is picked, its bound is not used up. */
  lemma SomeTurnLeft(s: State, p: nat)
    requires Calm(s) && Runnable(s, p) && s.cur != Some(p)
    ensures 0 < Bound(s, p)
  {
    CurrentTid(s);
    DebtCovers(s, p, s.cur.value, s.nextTid);
  }

  lemma {:induction false} DebtCovers(s: State, p: nat, c: nat, n: nat)
    requires Runnable(s, p) && c < n
    ensures Share(s, p, c) <= Debt(s, p, n)
  {
    if n - 1 != c {
      DebtCovers(s, p, c, n - 1);
    }
  }
}
