/**
 The run queue as the tree that it is: which operations on the tree the steps of the scheduler make, and a
 run from `init`, without any signal, in which the tree loses processes.
 */
module TreeQueues {
  import opened Options
  import opened Trees
  import opened Removal
  import opened MixedRuns
  import opened Processes
  import opened SchedulerSteps
  import opened SchedulerRuns
  import opened Fairness

  /** The virtual times of the runnable processes. */
  function RunMap(s: State): map<nat, nat> {
    map p | p in s.procs && s.procs[p].queue.RunQueue? :: s.procs[p].v
  }

  /** How keys of the run queue become keys of the tree: all times are multiples of `unit`, and all ids are
      below `width`. */
  datatype Scale = Scale(unit: nat, width: nat)

  function Rank(k: Scale, v: nat, tid: nat): nat
    requires k.unit > 0
  {
    v / k.unit * k.width + tid
  }

  ghost predicate Fits(k: Scale, m: map<nat, nat>) {
    k.unit > 0 && forall p :: p in m ==> p < k.width && m[p] % k.unit == 0
  }

  /** Ranks are ordered as the run queue is, for processes of equal `nice`. */
  lemma RankOrder(k: Scale, a: Node, b: Node)
    requires a.InRun? && b.InRun? && a.nice == b.nice && k.unit > 0
    requires a.v % k.unit == 0 && b.v % k.unit == 0 && a.tid < k.width && b.tid < k.width
    ensures Less(a, b) <==> Rank(k, a.v, a.tid) < Rank(k, b.v, b.tid)
  {
    hide Rank;
    if a.v < b.v {
      RankStep(k, a.v, a.tid, b.v, b.tid);
    } else if b.v < a.v {
      RankStep(k, b.v, b.tid, a.v, a.tid);
    } else {
      SameTime(k, a.v, a.tid, b.tid);
    }
  }

  lemma SameTime(k: Scale, v: nat, p: nat, q: nat)
    requires k.unit > 0
    ensures Rank(k, v, p) - p == Rank(k, v, q) - q
  {
  }

  lemma RankStep(k: Scale, v: nat, p: nat, w: nat, q: nat)
    requires k.unit > 0 && v % k.unit == 0 && w % k.unit == 0 && p < k.width && v < w
    ensures Rank(k, v, p) < Rank(k, w, q)
  {
    var x, y := v / k.unit, w / k.unit;
    Divided(v, k.unit);
    Divided(w, k.unit);
    if y < x {
      Steps(y, x, k.unit);
    }
    assert x < y;
    Steps(x, y, k.width);
  }

  lemma Divided(v: nat, u: nat)
    requires u > 0 && v % u == 0
    ensures v == v / u * u
  {
  }

  lemma {:induction false} Steps(x: nat, y: nat, w: nat)
    requires x < y
    ensures x * w + w <= y * w
    decreases y
  {
    assert y * w == (y - 1) * w + w;
    if x < y - 1 {
      Steps(x, y - 1, w);
    }
  }

  /** The tree keys of the runnable processes. */
  ghost function RunKeys(k: Scale, m: map<nat, nat>): set<int>
    requires k.unit > 0
  {
    set p | p in m :: Rank(k, m[p], p)
  }

  lemma RankInjective(k: Scale, p: nat, v: nat, q: nat, w: nat)
    requires k.unit > 0 && p < k.width && q < k.width && Rank(k, v, p) == Rank(k, w, q)
    ensures p == q
  {
    var x, y := v / k.unit, w / k.unit;
    if x < y {
      Steps(x, y, k.width);
    } else if y < x {
      Steps(y, x, k.width);
    }
  }

  // ---- The tree operations of a step ------------------------------------------

  /** The steps of the run below: nobody is due, and nobody dies. */
  ghost predicate Traced(s: State, step: Step)
    requires Inv(s) && Enabled(s, step)
  {
    match step
    case Tick(now) => Due(s, now) == {}
    case Pick(_) => !Dies(s, First(s))
    case Block(_, _) => true
    case Clone(_, _, _) => true
    case _ => false
  }

  /** What such a step does to the tree of the run queue. */
  ghost function RunOps(k: Scale, s: State, step: Step): seq<Op>
    requires Inv(s) && Enabled(s, step) && k.unit > 0
  {
    match step
    case Tick(now) =>
      if s.phase.Active? && s.cur.Some? && Latency(s) <= now - s.last then
        var c := s.cur.value;
        [Take(Rank(k, s.procs[c].v, c)), Put(Rank(k, s.procs[c].v + (now - s.last), c))]
      else []
    case Block(_, _) => [Take(Rank(k, s.procs[s.cur.value].v, s.cur.value))]
    case Clone(csig, _, _) => if csig < SIGNALS then [Put(Rank(k, s.minv, s.nextTid))] else []
    case _ => []
  }

  // ---- What the steps do to the runnable processes ------------------------------

  ghost predicate Plain(s: State) {
    && (forall p :: p in s.procs ==> s.procs[p].nice == 0 && s.procs[p].signals == {})
    && (forall h :: h in s.nodes ==> !s.nodes[h].InSleep?)
  }

  lemma CloneMap(s: State, csig: nat, thread: bool, toParent: bool)
    requires Inv(s) && OnCpu(s) && csig < SIGNALS
    ensures var t := Cloned(s, s.cur.value, csig, thread, toParent);
      && RunMap(t) == RunMap(s)[s.nextTid := s.minv] && (Plain(s) ==> Plain(t))
      && t.cur == s.cur && t.minv == s.minv && t.last == s.last && t.phase == s.phase && t.nextTid == s.nextTid + 1
  {
    hide Queues;
    assert s.nextTid !in s.procs by { assert s.nextTid in s.procs ==> Kin(s, s.nextTid); }
  }

  lemma ChargeMap(s: State, c: nat, delta: nat)
    requires Queues(s) && Runnable(s, c)
    ensures var t := Charged(s, c, delta);
      && RunMap(t) == RunMap(s)[c := s.procs[c].v + delta] && (Plain(s) ==> Plain(t)) && Beside(s, t)
  {
    hide Queues;
  }

  lemma TickMap(s: State, now: nat)
    requires Inv(s) && s.last <= now && Due(s, now) == {}
    ensures var t := Ticked(s, now);
      && (if s.phase.Active? && s.cur.Some? && Latency(s) <= now - s.last then
            && s.cur.value in RunMap(s) && RunMap(t) == RunMap(s)[s.cur.value := s.procs[s.cur.value].v + (now - s.last)]
            && t.phase == Picking(now)
          else RunMap(t) == RunMap(s) && (s.phase.Active? && s.cur.None? ==> t.phase == Picking(now)))
      && (Plain(s) ==> Plain(t)) && t.nextTid == s.nextTid && t.last == s.last && t.minv == s.minv
  {
    hide InvBut, Charged, Woken, Latency, Due;
    QueuedLive(s, now, 0, None);
    WokenNone(s);
    Current(s);
    if s.phase.Active? && s.cur.Some? && Latency(s) <= now - s.last {
      ChargeMap(s, s.cur.value, now - s.last);
    }
  }

  lemma BlockMap(s: State, cv: nat, now: nat)
    requires Inv(s) && OnCpu(s) && s.last <= now
    ensures var t := Slept(s, InEvent(s.cur.value, cv), now);
      && s.cur.value in RunMap(s) && RunMap(t) == RunMap(s) - {s.cur.value} && (Plain(s) ==> Plain(t))
      && t.phase == Picking(now) && t.nextTid == s.nextTid && t.last == s.last && t.minv == s.minv
  {
    hide Queues;
    Current(s);
  }

  lemma PickMap(s: State, now: nat)
    requires Inv(s) && s.phase.Picking? && RunNodes(s) != {} && s.phase.now <= now && !Dies(s, First(s))
    ensures var t, c := Picked(s, now), First(s);
      && RunMap(t) == RunMap(s) && (Plain(s) ==> Plain(t)) && t.nextTid == s.nextTid
      && t.cur == Some(c) && t.phase.Active? && c in RunMap(s) && t.minv == RunMap(s)[c] && t.last == s.phase.now
  {
    hide Queues, Dies, FirstSignal, IsLeast;
    var c := First(s);
    assert Chosen(s, c).procs[c].signals <= s.procs[c].signals;
  }

  // ---- The tree follows the map -------------------------------------------------

  lemma KeysPut(k: Scale, m: map<nat, nat>, p: nat, v: nat)
    requires k.unit > 0 && p !in m
    ensures RunKeys(k, m[p := v]) == RunKeys(k, m) + {Rank(k, v, p)}
  {
    hide Rank;
    var n := m[p := v];
    assert forall q :: q in m ==> n[q] == m[q];
    assert n[p] == v;
  }

  lemma KeysTake(k: Scale, m: map<nat, nat>, p: nat)
    requires Fits(k, m) && p in m
    ensures RunKeys(k, m - {p}) == RunKeys(k, m) - {Rank(k, m[p], p)}
  {
    hide Rank;
    var n := m - {p};
    assert forall q :: q in n <==> q in m && q != p;
    assert forall q :: q in n ==> n[q] == m[q];
    forall q | q in m && q != p ensures Rank(k, m[q], q) != Rank(k, m[p], p) {
      if Rank(k, m[q], q) == Rank(k, m[p], p) {
        RankInjective(k, q, m[q], p, m[p]);
      }
    }
  }

  /** The operations on the tree are what the step does to the runnable processes. */
  lemma OpsFollow(k: Scale, s: State, step: Step, ops: seq<Op>)
    requires Inv(s) && Enabled(s, step) && Traced(s, step) && Fits(k, RunMap(s)) && Held(ops) == RunKeys(k, RunMap(s))
    ensures Held(ops + RunOps(k, s, step)) == RunKeys(k, RunMap(Next(s, step)))
  {
    hide InvBut, RunMap, Rank, RunKeys, Held, Ticked, Picked, Slept, Cloned, Latency, Due, Dies;
    var m := RunMap(s);
    assert ops + [] == ops;
    match step
    case Tick(now) =>
      TickMap(s, now);
      if s.phase.Active? && s.cur.Some? && Latency(s) <= now - s.last {
        var c := s.cur.value;
        MapAt(s, c);
        Moved(k, m, c, s.procs[c].v + (now - s.last), ops);
      }
    case Pick(now) => PickMap(s, now);
    case Block(cv, now) =>
      BlockMap(s, cv, now);
      MapAt(s, s.cur.value);
      KeysTake(k, m, s.cur.value);
      HeldMore(ops, Take(Rank(k, m[s.cur.value], s.cur.value)));
    case Clone(csig, thread, toParent) =>
      if csig < SIGNALS {
        CloneMap(s, csig, thread, toParent);
        NewTid(s);
        KeysPut(k, m, s.nextTid, s.minv);
        HeldMore(ops, Put(Rank(k, s.minv, s.nextTid)));
      } else {
        CloneRefused(s, csig, thread, toParent);
      }
  }

  lemma CloneRefused(s: State, csig: nat, thread: bool, toParent: bool)
    requires OnCpu(s) && csig >= SIGNALS
    ensures Cloned(s, s.cur.value, csig, thread, toParent) == s
  {
  }

  lemma Moved(k: Scale, m: map<nat, nat>, c: nat, v: nat, ops: seq<Op>)
    requires Fits(k, m) && c in m && Held(ops) == RunKeys(k, m)
    ensures Held(ops + [Take(Rank(k, m[c], c)), Put(Rank(k, v, c))]) == RunKeys(k, m[c := v])
  {
    hide Held, Rank, RunKeys;
    var a, b := Take(Rank(k, m[c], c)), Put(Rank(k, v, c));
    KeysTake(k, m, c);
    KeysPut(k, m - {c}, c, v);
    assert (m - {c})[c := v] == m[c := v];
    HeldMore(ops, a);
    HeldMore(ops + [a], b);
    assert ops + [a] + [b] == ops + [a, b];
  }

  lemma MapAt(s: State, c: nat)
    requires c in RunMap(s)
    ensures c in s.procs && RunMap(s)[c] == s.procs[c].v
  {
  }

  lemma NewTid(s: State)
    requires Inv(s)
    ensures s.nextTid !in RunMap(s)
  {
    assert s.nextTid in s.procs ==> Kin(s, s.nextTid);
  }

  /** The steps lead from `s` to `t` and make the operations `ops` on the tree. */
  ghost predicate Traces(k: Scale, s: State, steps: seq<Step>, t: State, ops: seq<Op>)
    decreases |steps|
  {
    && Fits(k, RunMap(s))
    && if steps == [] then s == t && ops == []
       else
         && Inv(s) && Enabled(s, steps[0]) && Traced(s, steps[0])
         && var now := RunOps(k, s, steps[0]);
         && |now| <= |ops| && ops[..|now|] == now && Traces(k, Next(s, steps[0]), steps[1..], t, ops[|now|..])
  }

  /** Over every such run: as long as no removal raises the sentinel, the tree of the run queue is exactly
      the set of the runnable processes. */
  lemma {:induction false} TreeFollows(k: Scale, s: State, steps: seq<Step>, t: State, before: seq<Op>, ops: seq<Op>)
    requires Traces(k, s, steps, t, ops) && Held(before) == RunKeys(k, RunMap(s))
    ensures Fits(k, RunMap(t)) && Held(before + ops) == RunKeys(k, RunMap(t))
    ensures Outcome(before + ops).Kept? ==> IsSet(Outcome(before + ops).t, RunKeys(k, RunMap(t)))
    ensures Outcome(before + ops).Lost? <==> exists n: nat :: LosesAt(before + ops, n)
    decreases |steps|
  {
    hide Next, Enabled, Traced, RunOps, Held, Outcome, LosesAt, IsSet, RunKeys, RunMap;
    if steps == [] {
      assert before + ops == before;
    } else {
      var now := RunOps(k, s, steps[0]);
      OpsFollow(k, s, steps[0], before);
      assert ops == now + ops[|now|..];
      TreeFollows(k, Next(s, steps[0]), steps[1..], t, before + now, ops[|now|..]);
      assert before + now + ops[|now|..] == before + ops;
    }
    MixedRun(before + ops);
  }

  lemma TraceOne(k: Scale, s: State, step: Step)
    requires Inv(s) && Enabled(s, step) && Traced(s, step) && Fits(k, RunMap(s)) && Fits(k, RunMap(Next(s, step)))
    ensures Traces(k, s, [step], Next(s, step), RunOps(k, s, step))
  {
    hide Next, Enabled, Traced, RunOps, RunMap;
    var ops := RunOps(k, s, step);
    assert ops[..|ops|] == ops && ops[|ops|..] == [] && [step][1..] == [];
    assert Traces(k, Next(s, step), [], Next(s, step), []);
  }

  lemma {:induction false} TracesOn(k: Scale, s: State, a: seq<Step>, t: State, ops: seq<Op>, b: seq<Step>, u: State, more: seq<Op>)
    requires Traces(k, s, a, t, ops) && Traces(k, t, b, u, more)
    ensures Traces(k, s, a + b, u, ops + more)
    decreases |a|
  {
    hide Next, Enabled, Traced, RunOps, RunMap;
    if a == [] {
      assert a + b == b && ops + more == more;
    } else {
      var now := RunOps(k, s, a[0]);
      assert (a + b)[1..] == a[1..] + b && (ops + more)[..|now|] == now && (ops + more)[|now|..] == ops[|now|..] + more;
      TracesOn(k, Next(s, a[0]), a[1..], t, ops[|now|..], b, u, more);
    }
  }

  // ---- A run in which the tree loses processes ------------------------------------

  /** Times in multiples of the scheduling latency, and ids of one digit. */
  const DIGITS: Scale := Scale(SCHED_LATENCY, 10)

  /** Exactly the processes of `m` are runnable, at `m[p]` units, and `c` runs. */
  ghost predicate Line(s: State, m: map<nat, nat>, c: nat, next: nat) {
    && Inv(s) && OnCpu(s) && Plain(s) && s.cur == Some(c) && s.nextTid == next <= 10 && InUnits(RunMap(s), m)
    && c in m && s.minv == m[c] * SCHED_LATENCY
  }

  ghost predicate InUnits(r: map<nat, nat>, m: map<nat, nat>) {
    (forall p :: p in r <==> p in m) && forall p :: p in m ==> p < 10 && r[p] == m[p] * SCHED_LATENCY
  }

  /** `c` is the first in the order of times and ids. */
  predicate Earliest(m: map<nat, nat>, c: nat) {
    c in m && forall p :: p in m && p != c ==> m[c] < m[p] || (m[c] == m[p] && c < p)
  }

  lemma UnitsFit(r: map<nat, nat>, m: map<nat, nat>)
    requires InUnits(r, m)
    ensures Fits(DIGITS, r) && forall p :: p in m ==> Rank(DIGITS, r[p], p) == 10 * m[p] + p
  {
  }

  /** The pick chooses the earliest. */
  lemma PickLine(s: State, m: map<nat, nat>, c: nat, now: nat)
    requires Inv(s) && s.phase == Picking(now) && Plain(s) && InUnits(RunMap(s), m) && Earliest(m, c) && s.nextTid <= 10
    ensures Enabled(s, Pick(now)) && Traced(s, Pick(now)) && RunOps(DIGITS, s, Pick(now)) == []
    ensures Line(Next(s, Pick(now)), m, c, s.nextTid) && Next(s, Pick(now)).last == now
  {
    hide InvBut, Picked, FirstSignal, RunMap, IsLeast;
    SomeRuns(s, c);
    NoSignal(0);
    FirstEarliest(s, m, c);
    PickMap(s, now);
    PickInv(s, now);
    Current(Picked(s, now));
  }

  lemma SomeRuns(s: State, c: nat)
    requires Inv(s) && c in RunMap(s)
    ensures RunNodes(s) != {} && s.procs[c].handle in RunNodes(s) && c in s.procs
  {
    assert Placed(s, c);
    assert s.procs[c].handle in RunNodes(s);
  }

  lemma FirstEarliest(s: State, m: map<nat, nat>, c: nat)
    requires Inv(s) && Plain(s) && InUnits(RunMap(s), m) && Earliest(m, c) && RunNodes(s) != {}
    ensures First(s) == c
  {
    Current(s);
    var f := First(s);
    assert f in RunMap(s) && c in RunMap(s);
    assert Placed(s, f) && Placed(s, c);
    SomeRuns(s, c);
  }

  /** `clone` puts a new process at the time of its parent. */
  lemma CloneLine(s: State, m: map<nat, nat>, c: nat, next: nat) returns (t: State)
    requires Line(s, m, c, next) && next < 10
    ensures t == Next(s, Clone(0, false, false)) && Line(t, m[next := m[c]], c, next + 1) && t.last == s.last
    ensures Traces(DIGITS, s, [Clone(0, false, false)], t, [Put(10 * m[c] + next)])
  {
    hide InvBut, Cloned, RunMap, Traces;
    t := Next(s, Clone(0, false, false));
    CloneMap(s, 0, false, false);
    CloneInv(s, 0, false, false);
    ClonedOn(s);
    UnitsFit(RunMap(s), m);
    UnitsFit(RunMap(t), m[next := m[c]]);
    TraceOne(DIGITS, s, Clone(0, false, false));
  }

  lemma ClonedOn(s: State)
    requires Inv(s) && OnCpu(s)
    ensures OnCpu(Cloned(s, s.cur.value, 0, false, false))
  {
    CloneInv(s, 0, false, false);
    CloneMap(s, 0, false, false);
    Current(Cloned(s, s.cur.value, 0, false, false));
  }

  lemma TickLine(s: State, m: map<nat, nat>, c: nat, next: nat, d: nat)
    requires Line(s, m, c, next) && d > 0
    ensures var now := s.last + d * SCHED_LATENCY; Enabled(s, Tick(now)) && Traced(s, Tick(now))
    ensures var now := s.last + d * SCHED_LATENCY; var u := Next(s, Tick(now));
      && Inv(u) && Plain(u) && u.phase == Picking(now) && u.nextTid == next && InUnits(RunMap(u), m[c := m[c] + d])
      && RunOps(DIGITS, s, Tick(now)) == [Take(10 * m[c] + c), Put(10 * (m[c] + d) + c)]
      && Fits(DIGITS, RunMap(s)) && Fits(DIGITS, RunMap(u))
  {
    hide InvBut, Ticked, RunMap, Latency, Due;
    var now, n := s.last + d * SCHED_LATENCY, m[c := m[c] + d];
    NobodySleeps(s, now);
    LatencyBelow(s);
    TickMap(s, now);
    TickInv(s, now);
    MapAt(s, c);
    UnitsFit(RunMap(s), m);
    UnitsFit(RunMap(Next(s, Tick(now))), n);
  }

  /** The timer charges the current process with `d` units, and the earliest one runs. */
  lemma TurnLine(s: State, m: map<nat, nat>, c: nat, next: nat, d: nat, c': nat) returns (t: State, steps: seq<Step>)
    requires Line(s, m, c, next) && d > 0 && Earliest(m[c := m[c] + d], c')
    ensures Line(t, m[c := m[c] + d], c', next)
    ensures Traces(DIGITS, s, steps, t, [Take(10 * m[c] + c), Put(10 * (m[c] + d) + c)])
  {
    hide Inv, Next, Enabled, Traced, RunOps, RunMap, Traces, Earliest;
    LineInv(s, m, c, next);
    TickLine(s, m, c, next, d);
    var now := s.last + d * SCHED_LATENCY;
    var u := Next(s, Tick(now));
    t, steps := PickAfter(s, Tick(now), u, m[c := m[c] + d], c', now);
  }

  lemma LineInv(s: State, m: map<nat, nat>, c: nat, next: nat)
    requires Line(s, m, c, next)
    ensures Inv(s) && next <= 10
  {
  }

  /** A step, and the pick that follows it. */
  lemma PickAfter(s: State, step: Step, u: State, m: map<nat, nat>, c: nat, now: nat) returns (t: State, steps: seq<Step>)
    requires Inv(s) && Enabled(s, step) && Traced(s, step) && u == Next(s, step) && Fits(DIGITS, RunMap(s)) && Fits(DIGITS, RunMap(u))
    requires Inv(u) && Plain(u) && u.phase == Picking(now) && u.nextTid <= 10 && InUnits(RunMap(u), m) && Earliest(m, c)
    ensures Line(t, m, c, u.nextTid) && Traces(DIGITS, s, steps, t, RunOps(DIGITS, s, step))
  {
    hide Inv, Next, Enabled, Traced, RunOps, RunMap, Traces, Earliest, Plain;
    PickLine(u, m, c, now);
    t := Next(u, Pick(now));
    LineUnits(t, m, c, u.nextTid);
    UnitsFit(RunMap(t), m);
    TraceOne(DIGITS, s, step);
    TraceOne(DIGITS, u, Pick(now));
    steps := [step] + [Pick(now)];
    var ops := RunOps(DIGITS, s, step);
    TracesOn(DIGITS, s, [step], u, ops, [Pick(now)], t, []);
    assert ops + [] == ops;
  }

  lemma LineUnits(s: State, m: map<nat, nat>, c: nat, next: nat)
    requires Line(s, m, c, next)
    ensures InUnits(RunMap(s), m)
  {
  }

  lemma NobodySleeps(s: State, now: nat)
    requires Plain(s)
    ensures Due(s, now) == {}
  {
  }

  lemma LatencyBelow(s: State)
    ensures Latency(s) <= SCHED_LATENCY
  {
  }

  /** The current process waits, and the earliest one runs. */
  lemma BlockLine(s: State, m: map<nat, nat>, c: nat, next: nat, c': nat) returns (t: State, steps: seq<Step>)
    requires Line(s, m, c, next) && Earliest(m - {c}, c')
    ensures Line(t, m - {c}, c', next)
    ensures Traces(DIGITS, s, steps, t, [Take(10 * m[c] + c)])
  {
    hide InvBut, Slept, RunMap, Traces, Earliest;
    var now := s.last;
    BlockMap(s, 0, now);
    SleptInv(s, InEvent(c, 0), now);
    MapAt(s, c);
    var u := Next(s, Block(0, now));
    UnitsFit(RunMap(s), m);
    UnitsFit(RunMap(u), m - {c});
    t, steps := PickAfter(s, Block(0, now), u, m - {c}, c', now);
  }

  lemma StartUnits(fatal: set<nat>, sigchld: nat)
    requires 0 < sigchld < SIGNALS
    ensures var s := Initial(fatal, sigchld);
      InUnits(RunMap(s), map[1 := 0, 2 := 0]) && RunMap(s.(phase := Picking(0))) == RunMap(s)
  {
  }

  lemma StartTick(fatal: set<nat>, sigchld: nat)
    requires 0 < sigchld < SIGNALS
    ensures var s := Initial(fatal, sigchld);
      && Inv(s) && Enabled(s, Tick(0)) && Inv(Next(s, Tick(0))) && Next(s, Tick(0)) == s.(phase := Picking(0))
      && Traced(s, Tick(0)) && RunOps(DIGITS, s, Tick(0)) == [] && Plain(s) && Plain(Next(s, Tick(0))) && s.nextTid == 3
  {
    hide InvBut, Ticked;
    FirstTick(fatal, sigchld, 0);
    TickInv(Initial(fatal, sigchld), 0);
    NobodySleeps(Initial(fatal, sigchld), 0);
  }

  /** The first tick and pick after `init`. */
  lemma StartLine(fatal: set<nat>, sigchld: nat) returns (t: State, steps: seq<Step>)
    requires 0 < sigchld < SIGNALS
    ensures Traces(DIGITS, Initial(fatal, sigchld), steps, t, []) && Line(t, map[1 := 0, 2 := 0], 1, 3)
  {
    hide InvBut, Ticked, Traces, RunMap, Initial, Plain, Next, Traced, Enabled, RunOps, Inv;
    var s := Initial(fatal, sigchld);
    var m := map[1 := 0, 2 := 0];
    StartTick(fatal, sigchld);
    StartUnits(fatal, sigchld);
    UnitsFit(RunMap(s), m);
    t, steps := PickAfter(s, Tick(0), Next(s, Tick(0)), m, 1, 0);
  }

  /** A run so far: its steps, the operations it made on the tree, and where it stands. */
  datatype Course = Course(steps: seq<Step>, ops: seq<Op>, s: State)

  ghost predicate At(i: State, r: Course, m: map<nat, nat>, c: nat, next: nat)
  {
    Traces(DIGITS, i, r.steps, r.s, r.ops) && Line(r.s, m, c, next)
  }

  /** The process on the processor clones itself. */
  lemma ThenClone(i: State, r: Course, m: map<nat, nat>, c: nat, next: nat, m': map<nat, nat>) returns (r': Course)
    requires At(i, r, m, c, next) && next < 10 && c in m && m' == m[next := m[c]] && m[c] == 0
    ensures At(i, r', m', c, next + 1) && r'.ops == r.ops + [Put(next)]
  {
    hide Line, Traces;
    var step := Clone(0, false, false);
    var t := CloneLine(r.s, m, c, next);
    TracesOn(DIGITS, i, r.steps, r.s, r.ops, [step], t, [Put(next)]);
    r' := Course(r.steps + [step], r.ops + [Put(next)], t);
  }

  /** The process on the processor runs for `d` units, and `c'` is picked. */
  lemma ThenTurn(i: State, r: Course, m: map<nat, nat>, c: nat, next: nat, d: nat, m': map<nat, nat>, c': nat) returns (r': Course)
    requires At(i, r, m, c, next) && d > 0 && c in m && m' == m[c := m[c] + d] && Earliest(m', c')
    ensures At(i, r', m', c', next) && r'.ops == r.ops + [Take(10 * m[c] + c), Put(10 * m'[c] + c)]
  {
    hide Line, Traces, Earliest;
    var t, more := TurnLine(r.s, m, c, next, d, c');
    var ops := [Take(10 * m[c] + c), Put(10 * m'[c] + c)];
    TracesOn(DIGITS, i, r.steps, r.s, r.ops, more, t, ops);
    r' := Course(r.steps + more, r.ops + ops, t);
  }

  /** The process on the processor starts to wait, and `c'` is picked. */
  lemma ThenBlock(i: State, r: Course, m: map<nat, nat>, c: nat, next: nat, m': map<nat, nat>, c': nat) returns (r': Course)
    requires At(i, r, m, c, next) && c in m && m' == m - {c} && Earliest(m', c')
    ensures At(i, r', m', c', next) && r'.ops == r.ops + [Take(10 * m[c] + c)]
  {
    hide Line, Traces, Earliest;
    var t, more := BlockLine(r.s, m, c, next, c');
    var ops := [Take(10 * m[c] + c)];
    TracesOn(DIGITS, i, r.steps, r.s, r.ops, more, t, ops);
    r' := Course(r.steps + more, r.ops + ops, t);
  }

  /** 1 clones twice. */
  lemma Part1(i: State, r: Course) returns (r': Course)
    requires At(i, r, map[1 := 0, 2 := 0], 1, 3)
    ensures At(i, r', map[1 := 0, 2 := 0, 3 := 0, 4 := 0], 1, 5)
    ensures r'.ops == r.ops + [Put(3), Put(4)]
  {
    hide At;
    var m0: map<nat, nat> := map[1 := 0, 2 := 0];
    var m1: map<nat, nat> := map[1 := 0, 2 := 0, 3 := 0];
    var m2: map<nat, nat> := map[1 := 0, 2 := 0, 3 := 0, 4 := 0];
    r' := ThenClone(i, r, m0, 1, 3, m1);
    r' := ThenClone(i, r', m1, 1, 4, m2);
  }

  /** 1 runs for one unit, and 2 for two. */
  lemma Part2(i: State, r: Course) returns (r': Course)
    requires At(i, r, map[1 := 0, 2 := 0, 3 := 0, 4 := 0], 1, 5)
    ensures At(i, r', map[1 := 1, 2 := 2, 3 := 0, 4 := 0], 3, 5)
    ensures r'.ops == r.ops + [Take(1), Put(11), Take(2), Put(22)]
  {
    hide At;
    var m0: map<nat, nat> := map[1 := 0, 2 := 0, 3 := 0, 4 := 0];
    var m1: map<nat, nat> := map[1 := 1, 2 := 0, 3 := 0, 4 := 0];
    var m2: map<nat, nat> := map[1 := 1, 2 := 2, 3 := 0, 4 := 0];
    r' := ThenTurn(i, r, m0, 1, 5, 1, m1, 2);
    r' := ThenTurn(i, r', m1, 2, 5, 2, m2, 3);
  }

  /** 3 clones twice. */
  lemma Part3(i: State, r: Course) returns (r': Course)
    requires At(i, r, map[1 := 1, 2 := 2, 3 := 0, 4 := 0], 3, 5)
    ensures At(i, r', map[1 := 1, 2 := 2, 3 := 0, 4 := 0, 5 := 0, 6 := 0], 3, 7)
    ensures r'.ops == r.ops + [Put(5), Put(6)]
  {
    hide At;
    var m0: map<nat, nat> := map[1 := 1, 2 := 2, 3 := 0, 4 := 0];
    var m1: map<nat, nat> := map[1 := 1, 2 := 2, 3 := 0, 4 := 0, 5 := 0];
    var m2: map<nat, nat> := map[1 := 1, 2 := 2, 3 := 0, 4 := 0, 5 := 0, 6 := 0];
    r' := ThenClone(i, r, m0, 3, 5, m1);
    r' := ThenClone(i, r', m1, 3, 6, m2);
  }

  /** 3 clones twice again. */
  lemma Part4(i: State, r: Course) returns (r': Course)
    requires At(i, r, map[1 := 1, 2 := 2, 3 := 0, 4 := 0, 5 := 0, 6 := 0], 3, 7)
    ensures At(i, r', map[1 := 1, 2 := 2, 3 := 0, 4 := 0, 5 := 0, 6 := 0, 7 := 0, 8 := 0], 3, 9)
    ensures r'.ops == r.ops + [Put(7), Put(8)]
  {
    hide At;
    var m0: map<nat, nat> := map[1 := 1, 2 := 2, 3 := 0, 4 := 0, 5 := 0, 6 := 0];
    var m1: map<nat, nat> := map[1 := 1, 2 := 2, 3 := 0, 4 := 0, 5 := 0, 6 := 0, 7 := 0];
    var m2: map<nat, nat> := map[1 := 1, 2 := 2, 3 := 0, 4 := 0, 5 := 0, 6 := 0, 7 := 0, 8 := 0];
    r' := ThenClone(i, r, m0, 3, 7, m1);
    r' := ThenClone(i, r', m1, 3, 8, m2);
  }

  /** 3 waits, and 4 runs for one unit. */
  lemma Part5(i: State, r: Course) returns (r': Course)
    requires At(i, r, map[1 := 1, 2 := 2, 3 := 0, 4 := 0, 5 := 0, 6 := 0, 7 := 0, 8 := 0], 3, 9)
    ensures At(i, r', map[1 := 1, 2 := 2, 4 := 1, 5 := 0, 6 := 0, 7 := 0, 8 := 0], 5, 9)
    ensures r'.ops == r.ops + [Take(3), Take(4), Put(14)]
  {
    hide At;
    var m0: map<nat, nat> := map[1 := 1, 2 := 2, 3 := 0, 4 := 0, 5 := 0, 6 := 0, 7 := 0, 8 := 0];
    var m1: map<nat, nat> := map[1 := 1, 2 := 2, 4 := 0, 5 := 0, 6 := 0, 7 := 0, 8 := 0];
    var m2: map<nat, nat> := map[1 := 1, 2 := 2, 4 := 1, 5 := 0, 6 := 0, 7 := 0, 8 := 0];
    r' := ThenBlock(i, r, m0, 3, 9, m1, 4);
    r' := ThenTurn(i, r', m1, 4, 9, 1, m2, 5);
  }

  /** 5, 6 and 7 wait. */
  lemma Part6(i: State, r: Course) returns (r': Course)
    requires At(i, r, map[1 := 1, 2 := 2, 4 := 1, 5 := 0, 6 := 0, 7 := 0, 8 := 0], 5, 9)
    ensures At(i, r', map[1 := 1, 2 := 2, 4 := 1, 8 := 0], 8, 9)
    ensures r'.ops == r.ops + [Take(5), Take(6), Take(7)]
  {
    hide At;
    var m0: map<nat, nat> := map[1 := 1, 2 := 2, 4 := 1, 5 := 0, 6 := 0, 7 := 0, 8 := 0];
    var m1: map<nat, nat> := map[1 := 1, 2 := 2, 4 := 1, 6 := 0, 7 := 0, 8 := 0];
    var m2: map<nat, nat> := map[1 := 1, 2 := 2, 4 := 1, 7 := 0, 8 := 0];
    var m3: map<nat, nat> := map[1 := 1, 2 := 2, 4 := 1, 8 := 0];
    r' := ThenBlock(i, r, m0, 5, 9, m1, 6);
    r' := ThenBlock(i, r', m1, 6, 9, m2, 7);
    r' := ThenBlock(i, r', m2, 7, 9, m3, 8);
  }

  /** 8 and 1 wait. */
  lemma Part7(i: State, r: Course) returns (r': Course)
    requires At(i, r, map[1 := 1, 2 := 2, 4 := 1, 8 := 0], 8, 9)
    ensures At(i, r', map[2 := 2, 4 := 1], 4, 9)
    ensures r'.ops == r.ops + [Take(8), Take(11)]
  {
    hide At;
    var m0: map<nat, nat> := map[1 := 1, 2 := 2, 4 := 1, 8 := 0];
    var m1: map<nat, nat> := map[1 := 1, 2 := 2, 4 := 1];
    var m2: map<nat, nat> := map[2 := 2, 4 := 1];
    r' := ThenBlock(i, r, m0, 8, 9, m1, 1);
    r' := ThenBlock(i, r', m1, 1, 9, m2, 4);
  }

  /** From `init`, clones, timer ticks and waits only: at the end two processes are runnable, one of them on
      the processor, and the tree of the run queue is empty. */
  lemma LosesProcesses(fatal: set<nat>, sigchld: nat) returns (t: State, steps: seq<Step>, ops: seq<Op>)
    requires 0 < sigchld < SIGNALS
    ensures Traces(DIGITS, Initial(fatal, sigchld), steps, t, ops) && Inv(t)
    ensures RunMap(t).Keys == {2, 4} && t.cur == Some(4)
    ensures Outcome([Put(1), Put(2)] + ops) == Lost(Leaf)
  {
    hide Traces, Outcome, Line, Initial, Inv, RunMap;
    var i := Initial(fatal, sigchld);
    var s, start := StartLine(fatal, sigchld);
    var r := Part1(i, Course(start, [], s));
    r := Part2(i, r);
    r := Part3(i, r);
    r := Part4(i, r);
    r := Part5(i, r);
    r := Part6(i, r);
    r := Part7(i, r);
    t, steps, ops := r.s, r.steps, r.ops;
    AtEnd(t);
    AllOps();
    LosesEntries();
  }

  lemma AllOps()
    ensures [Put(1), Put(2)] + ([] + [Put(3), Put(4)] + [Take(1), Put(11), Take(2), Put(22)] + [Put(5), Put(6)] + [Put(7), Put(8)]
            + [Take(3), Take(4), Put(14)] + [Take(5), Take(6), Take(7)] + [Take(8), Take(11)]) == RUN
  {
  }

  lemma AtEnd(t: State)
    requires Line(t, map[2 := 2, 4 := 1], 4, 9)
    ensures Inv(t) && RunMap(t).Keys == {2, 4} && t.cur == Some(4)
  {
    hide InvBut, RunMap;
    assert forall p :: p in RunMap(t) <==> p in map[2 := 2, 4 := 1];
  }
}
