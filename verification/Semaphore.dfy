/**
 The counting semaphore as interleaved steps. Each process has a program counter inside `up`, `down`,
 `try_up` or `try_down`; a signal may reach a waiting process between any two steps.
 */
module Semaphores {
  import opened Spinlocks

  /** The operation: `up` or `down`, blocking or not. */
  datatype Op = Op(up: bool, blocking: bool)

  /** Where a process is; `Idle` is outside of the semaphore. */
  datatype Pc =
    | Idle
    | Locking(op: Op)
    | Testing(op: Op)
    | Queueing(op: Op)
    | Leaving(op: Op, signalled: bool)
    | Asleep(op: Op)
    | Relocking(op: Op, signalled: bool)
    | Moving(op: Op)
    | Waking(op: Op)
    | Unlocking(op: Op, done: bool)

  /** `ups` and `downs` count the calls that returned 0. */
  datatype State = State(count: nat, lock: Spinlock, notmin: set<nat>, notmax: set<nat>, pc: map<nat, Pc>, ups: nat, downs: nat)

  datatype Event = Call(p: nat, op: Op) | Go(p: nat) | Signal(p: nat)

  function At(s: State, p: nat): Pc {
    if p in s.pc then s.pc[p] else Idle
  }

  function Moved(s: State, p: nat, pc: Pc): State {
    s.(pc := s.pc[p := pc])
  }

  predicate Blocked(count: nat, max: nat, up: bool) {
    if up then max <= count else count == 0
  }

  /** `condvar::wake` on all waiters. */
  function Woken(pc: map<nat, Pc>, ps: set<nat>): map<nat, Pc> {
    map p | p in pc :: if p in ps && pc[p].Asleep? then Relocking(pc[p].op, false) else pc[p]
  }

  /** What a signal does to a process that is on a wait list. */
  function Signalled(pc: Pc): Pc {
    match pc
    case Asleep(op) => Relocking(op, true)
    case Leaving(op, _) => Leaving(op, true)
    case _ => pc
  }

  function Next(s: State, e: Event, max: nat): State {
    match e
    case Call(p, op) => if At(s, p).Idle? then Moved(s, p, Locking(op)) else s
    case Signal(p) =>
      if p in s.notmin || p in s.notmax
      then Moved(s, p, Signalled(At(s, p))).(notmin := s.notmin - {p}, notmax := s.notmax - {p})
      else s
    case Go(p) => Run(s, p, max)
  }

  /** One step of process `p`. */
  function Run(s: State, p: nat, max: nat): State {
    match At(s, p)
    case Idle => s
    case Locking(op) => if s.lock.Free? then Moved(s, p, Testing(op)).(lock := Held(p)) else s
    case Testing(op) =>
      if !Blocked(s.count, max, op.up) then Moved(s, p, Moving(op))
      else if op.blocking then Moved(s, p, Queueing(op))
      else Moved(s, p, Unlocking(op, false))
    case Queueing(op) =>
      var t := Moved(s, p, Leaving(op, false));
      if op.up then t.(notmax := s.notmax + {p}) else t.(notmin := s.notmin + {p})
    case Leaving(op, signalled) =>
      Moved(s, p, if signalled then Relocking(op, true) else Asleep(op)).(lock := Free)
    case Asleep(_) => s
    case Relocking(op, signalled) =>
      if !s.lock.Free? then s
      else if signalled then Moved(s, p, Idle).(lock := Lost)
      else Moved(s, p, Testing(op)).(lock := Held(p))
    case Moving(op) =>
      Moved(s, p, Waking(op)).(count := if op.up then s.count + 1 else if s.count > 0 then s.count - 1 else 0)
    case Waking(op) =>
      var t := s.(pc := Woken(s.pc, if op.up then s.notmin else s.notmax));
      Moved(if op.up then t.(notmin := {}) else t.(notmax := {}), p, Unlocking(op, true))
    case Unlocking(op, done) =>
      Moved(s, p, Idle).(lock := Free, ups := s.ups + if done && op.up then 1 else 0, downs := s.downs + if done && !op.up then 1 else 0)
  }

  // The invariant

  predicate Critical(pc: Pc) {
    pc.Testing? || pc.Queueing? || pc.Leaving? || pc.Moving? || pc.Waking? || pc.Unlocking?
  }

  /** The process is on the wait list of its operation. */
  predicate Listed(pc: Pc, up: bool) {
    (pc.Asleep? || (pc.Leaving? && !pc.signalled)) && pc.op.up == up
  }

  ghost predicate Sane(s: State, p: nat, max: nat) {
    var pc := At(s, p);
    && (Critical(pc) <==> s.lock == Held(p))
    && (p in s.notmin <==> Listed(pc, false)) && (p in s.notmax <==> Listed(pc, true))
    && (pc.Queueing? || pc.Leaving? ==> Blocked(s.count, max, pc.op.up))
    && (pc.Moving? ==> !Blocked(s.count, max, pc.op.up))
  }

  /** The lock holder is about to wake the waiters of the other operation. */
  predicate WillWake(s: State, up: bool) {
    s.lock.Held? && At(s, s.lock.holder).Waking? && At(s, s.lock.holder).op.up == up
  }

  /** What the lock holder has already done to the count but not yet returned from. */
  function Pending(s: State): int {
    if !s.lock.Held? then 0
    else
      match At(s, s.lock.holder)
      case Waking(op) => if op.up then 1 else -1
      case Unlocking(op, done) => if !done then 0 else if op.up then 1 else -1
      case _ => 0
  }

  ghost predicate Inv(s: State, init: nat, max: nat) {
    && (forall p :: Sane(s, p, max))
    && s.count <= max
    && (s.count > 0 && s.notmin != {} ==> WillWake(s, true))
    && (s.count < max && s.notmax != {} ==> WillWake(s, false))
    && s.count == init + s.ups - s.downs + Pending(s)
  }

  function Initial(init: nat): State {
    State(init, Free, {}, {}, map[], 0, 0)
  }

  /** Everybody but `p` is as sane as before. */
  lemma OthersSane(s: State, t: State, p: nat, max: nat)
    requires forall q :: Sane(s, q, max)
    requires t.pc == s.pc[p := At(t, p)] && t.notmin - {p} == s.notmin - {p} && t.notmax - {p} == s.notmax - {p}
    requires t.lock == s.lock || (s.lock in {Free, Held(p)} && t.lock in {Free, Held(p), Lost})
    requires t.count == s.count || s.lock == Held(p)
    requires Sane(t, p, max)
    ensures forall q :: Sane(t, q, max)
  {
    forall q | q != p ensures Sane(t, q, max) {
      assert Sane(s, q, max) && At(t, q) == At(s, q);
      assert q in t.notmin - {p} <==> q in s.notmin - {p};
      assert q in t.notmax - {p} <==> q in s.notmax - {p};
    }
  }

  lemma CallInv(s: State, p: nat, op: Op, init: nat, max: nat)
    requires Inv(s, init, max)
    ensures Inv(Next(s, Call(p, op), max), init, max)
  {
    var t := Next(s, Call(p, op), max);
    assert Sane(s, p, max);
    if At(s, p).Idle? {
      OthersSane(s, t, p, max);
    }
  }

  lemma SignalInv(s: State, p: nat, init: nat, max: nat)
    requires Inv(s, init, max)
    ensures Inv(Next(s, Signal(p), max), init, max)
  {
    var t := Next(s, Signal(p), max);
    assert Sane(s, p, max);
    if p in s.notmin || p in s.notmax {
      OthersSane(s, t, p, max);
    }
  }

  /** The wake-up: every sleeper of the list leaves it. */
  lemma WakingInv(s: State, p: nat, init: nat, max: nat)
    requires Inv(s, init, max) && At(s, p).Waking?
    ensures Inv(Run(s, p, max), init, max)
  {
    var t := Run(s, p, max);
    assert Sane(s, p, max);
    forall q ensures Sane(t, q, max) {
      assert Sane(s, q, max);
    }
  }

  lemma GoInv(s: State, p: nat, init: nat, max: nat)
    requires Inv(s, init, max)
    ensures Inv(Run(s, p, max), init, max)
  {
    if At(s, p).Waking? {
      WakingInv(s, p, init, max);
    } else {
      var t := Run(s, p, max);
      assert Sane(s, p, max);
      if t != s {
        OthersSane(s, t, p, max);
      }
    }
  }

  lemma NextInv(s: State, e: Event, init: nat, max: nat)
    requires Inv(s, init, max)
    ensures Inv(Next(s, e, max), init, max)
  {
    hide Inv, Run;
    match e
    case Call(p, op) => CallInv(s, p, op, init, max);
    case Signal(p) => SignalInv(s, p, init, max);
    case Go(p) => GoInv(s, p, init, max);
  }

  /** All events in order. */
  function Runs(s: State, es: seq<Event>, max: nat): State
    decreases |es|
  {
    if es == [] then s else Runs(Next(s, es[0], max), es[1..], max)
  }

  lemma {:induction false} RunsInv(s: State, es: seq<Event>, init: nat, max: nat)
    requires Inv(s, init, max)
    ensures Inv(Runs(s, es, max), init, max)
    decreases |es|
  {
    hide Inv, Next;
    if es != [] {
      NextInv(s, es[0], init, max);
      RunsInv(Next(s, es[0], max), es[1..], init, max);
    }
  }

  /** Over every interleaving: the count is within bounds; two processes are never inside the lock;
      and while nobody is inside the count is the initial one plus the completed ups minus the
      completed downs, and nobody waits who could go on. */
  lemma Correct(es: seq<Event>, init: nat, max: nat)
    requires init <= max
    ensures var t := Runs(Initial(init), es, max);
      && 0 <= t.count <= max
      && (forall p, q :: Critical(At(t, p)) && Critical(At(t, q)) ==> p == q)
      && (!t.lock.Held? ==>
            && t.count == init + t.ups - t.downs
            && (t.count > 0 ==> t.notmin == {}) && (t.count < max ==> t.notmax == {})
            && (forall p :: At(t, p).Asleep? ==> Blocked(t.count, max, At(t, p).op.up)))
  {
    hide Inv, Runs, Sane;
    StartInv(init, max);
    RunsInv(Initial(init), es, init, max);
    var t := Runs(Initial(init), es, max);
    forall p, q ensures Critical(At(t, p)) && Critical(At(t, q)) ==> p == q {
      Consequences(t, p, init, max);
      Consequences(t, q, init, max);
    }
    forall p ensures !t.lock.Held? && At(t, p).Asleep? ==> Blocked(t.count, max, At(t, p).op.up) {
      Consequences(t, p, init, max);
    }
    Consequences(t, 0, init, max);
  }

  lemma StartInv(init: nat, max: nat)
    requires init <= max
    ensures Inv(Initial(init), init, max)
  {
  }

  /** What the invariant says of one process. */
  lemma Consequences(t: State, p: nat, init: nat, max: nat)
    requires Inv(t, init, max)
    ensures t.count <= max && (Critical(At(t, p)) ==> t.lock == Held(p))
    ensures !t.lock.Held? ==> t.count == init + t.ups - t.downs
    ensures !t.lock.Held? ==> (t.count > 0 ==> t.notmin == {}) && (t.count < max ==> t.notmax == {})
    ensures !t.lock.Held? && At(t, p).Asleep? ==> Blocked(t.count, max, At(t, p).op.up)
  {
    assert Sane(t, p, max);
  }

  // What a call does

  /** While `p` holds the lock nobody else changes the count or the lists of waiters, but for signals. */
  lemma OthersWait(s: State, e: Event, p: nat, init: nat, max: nat)
    requires Inv(s, init, max) && s.lock == Held(p) && e != Go(p) && (e == Signal(p) ==> !At(s, p).Leaving?)
    ensures var t := Next(s, e, max);
      && t.lock == Held(p) && At(t, p) == At(s, p) && t.count == s.count && t.ups == s.ups && t.downs == s.downs
      && t.notmin <= s.notmin && t.notmax <= s.notmax
      && (p in s.notmin ==> p in t.notmin) && (p in s.notmax ==> p in t.notmax)
  {
    assert Sane(s, e.p, max) && Sane(s, p, max);
  }

  /** `p` is inside of an operation that will succeed: what is left to do. */
  predicate Going(s: State, p: nat, op: Op, max: nat, n: nat) {
    match n
    case 4 => At(s, p) == Testing(op) && if op.up then s.count < max else 0 < s.count
    case 3 => At(s, p) == Moving(op)
    case 2 => At(s, p) == Waking(op)
    case 1 => At(s, p) == Unlocking(op, true) && if op.up then s.notmin == {} else s.notmax == {}
    case _ => false
  }

  lemma GoingStep(s: State, p: nat, op: Op, init: nat, max: nat, n: nat)
    requires Inv(s, init, max) && s.lock == Held(p) && Going(s, p, op, max, n)
    ensures var t := Next(s, Go(p), max);
      && t.count == s.count + (if n != 3 then 0 else if op.up then 1 else -1)
      && t.ups == s.ups + (if n == 1 && op.up then 1 else 0) && t.downs == s.downs + (if n == 1 && !op.up then 1 else 0)
      && if n == 1 then t.lock.Free? && At(t, p).Idle? && (if op.up then t.notmin == {} else t.notmax == {})
         else t.lock == Held(p) && Going(t, p, op, max, n - 1)
  {
    assert Sane(s, p, max);
  }

  lemma {:induction false} GoesThrough(s: State, es: seq<Event>, p: nat, op: Op, init: nat, max: nat, n: nat)
    requires Inv(s, init, max) && s.lock == Held(p) && Going(s, p, op, max, n) && EndsAfter(es, Go(p), n)
    ensures var t := Runs(s, es, max);
      && t.lock.Free? && At(t, p).Idle? && (if op.up then t.notmin == {} else t.notmax == {})
      && t.count == s.count + (if n < 3 then 0 else if op.up then 1 else -1)
      && t.ups == s.ups + (if op.up then 1 else 0) && t.downs == s.downs + (if op.up then 0 else 1)
    decreases |es|
  {
    hide Inv, Next, EndsAfter;
    EndsRest(es, Go(p), n);
    var t := Next(s, es[0], max);
    NextInv(s, es[0], init, max);
    if es[0] == Go(p) {
      GoingStep(s, p, op, init, max, n);
      if n == 1 {
        assert es[1..] == [] && Runs(s, es, max) == t;
      } else {
        GoesThrough(t, es[1..], p, op, init, max, n - 1);
      }
    } else {
      OthersWait(s, es[0], p, init, max);
      GoesThrough(t, es[1..], p, op, init, max, n);
    }
  }

  /** `p` waits to enter the lock: it has just called, or was woken up. */
  predicate AtDoor(s: State, p: nat, op: Op) {
    At(s, p) == Locking(op) || At(s, p) == Relocking(op, false)
  }

  lemma Enters(s: State, p: nat, op: Op, init: nat, max: nat)
    requires Inv(s, init, max) && s.lock.Free? && AtDoor(s, p, op)
    ensures var t := Next(s, Go(p), max);
      && Inv(t, init, max) && t.lock == Held(p) && At(t, p) == Testing(op) && t.count == s.count
      && t.ups == s.ups && t.downs == s.downs && t.notmin == s.notmin && t.notmax == s.notmax
  {
    hide Inv;
    NextInv(s, Go(p), init, max);
  }

  /** An operation that may go on, once it has entered the lock: whatever the others do meanwhile, after its
      own four steps the count is one up or down, the call has returned 0, and nobody is left on the list
      that it wakes. */
  lemma Served(s: State, es: seq<Event>, p: nat, op: Op, init: nat, max: nat)
    requires Inv(s, init, max) && s.lock.Free? && AtDoor(s, p, op) && EndsAfter(es, Go(p), 4)
    requires if op.up then s.count < max else 0 < s.count
    ensures var t := Runs(s, [Go(p)] + es, max);
      && t.lock.Free? && At(t, p).Idle? && (if op.up then t.notmin == {} else t.notmax == {})
      && t.count == s.count + (if op.up then 1 else -1)
      && t.ups == s.ups + (if op.up then 1 else 0) && t.downs == s.downs + (if op.up then 0 else 1)
  {
    hide Inv, Next, EndsAfter, Runs;
    Enters(s, p, op, init, max);
    GoesThrough(Next(s, Go(p), max), es, p, op, init, max, 4);
    RunsFirst(s, Go(p), es, max);
  }

  /** `p` is inside of a non-blocking operation that cannot go on. */
  predicate Failing(s: State, p: nat, op: Op, max: nat, n: nat) {
    match n
    case 2 => At(s, p) == Testing(op) && !op.blocking && if op.up then max <= s.count else s.count == 0
    case 1 => At(s, p) == Unlocking(op, false)
    case _ => false
  }

  lemma {:induction false} FailsThrough(s: State, es: seq<Event>, p: nat, op: Op, init: nat, max: nat, n: nat)
    requires Inv(s, init, max) && s.lock == Held(p) && Failing(s, p, op, max, n) && EndsAfter(es, Go(p), n)
    ensures var t := Runs(s, es, max);
      t.lock.Free? && At(t, p).Idle? && t.count == s.count && t.ups == s.ups && t.downs == s.downs
    decreases |es|
  {
    hide Inv, EndsAfter;
    EndsRest(es, Go(p), n);
    var t := Next(s, es[0], max);
    NextInv(s, es[0], init, max);
    if es[0] == Go(p) {
      if n == 1 {
        assert es[1..] == [] && Runs(s, es, max) == t;
      } else {
        FailsThrough(t, es[1..], p, op, init, max, n - 1);
      }
    } else {
      OthersWait(s, es[0], p, init, max);
      FailsThrough(t, es[1..], p, op, init, max, n);
    }
  }

  /** A non-blocking operation that cannot go on returns and changes nothing. */
  lemma Refused(s: State, es: seq<Event>, p: nat, op: Op, init: nat, max: nat)
    requires Inv(s, init, max) && s.lock.Free? && AtDoor(s, p, op) && EndsAfter(es, Go(p), 2) && !op.blocking
    requires if op.up then max <= s.count else s.count == 0
    ensures var t := Runs(s, [Go(p)] + es, max);
      t.lock.Free? && At(t, p).Idle? && t.count == s.count && t.ups == s.ups && t.downs == s.downs
  {
    hide Inv, Next, EndsAfter, Runs;
    Enters(s, p, op, init, max);
    FailsThrough(Next(s, Go(p), max), es, p, op, init, max, 2);
    RunsFirst(s, Go(p), es, max);
  }

  /** `p` is inside of a blocking operation that cannot go on. */
  predicate Stuck(s: State, p: nat, op: Op, max: nat, n: nat) {
    match n
    case 3 => At(s, p) == Testing(op) && op.blocking && if op.up then max <= s.count else s.count == 0
    case 2 => At(s, p) == Queueing(op)
    case 1 => At(s, p) == Leaving(op, false)
    case _ => false
  }

  lemma StuckStep(s: State, p: nat, op: Op, init: nat, max: nat, n: nat)
    requires Inv(s, init, max) && s.lock == Held(p) && Stuck(s, p, op, max, n)
    ensures var t := Next(s, Go(p), max);
      && t.count == s.count && t.ups == s.ups && t.downs == s.downs
      && if n == 1 then t.lock.Free? && At(t, p) == Asleep(op) && (if op.up then p in t.notmax else p in t.notmin)
         else t.lock == Held(p) && Stuck(t, p, op, max, n - 1)
  {
    assert Sane(s, p, max);
  }

  lemma {:induction false} StuckThrough(s: State, es: seq<Event>, p: nat, op: Op, init: nat, max: nat, n: nat)
    requires Inv(s, init, max) && s.lock == Held(p) && Stuck(s, p, op, max, n) && EndsAfter(es, Go(p), n) && Signal(p) !in es
    ensures var t := Runs(s, es, max);
      && t.lock.Free? && At(t, p) == Asleep(op) && (if op.up then p in t.notmax else p in t.notmin)
      && t.count == s.count && t.ups == s.ups && t.downs == s.downs
    decreases |es|
  {
    hide Inv, Next, EndsAfter;
    EndsRest(es, Go(p), n);
    var t := Next(s, es[0], max);
    NextInv(s, es[0], init, max);
    if es[0] == Go(p) {
      StuckStep(s, p, op, init, max, n);
      if n == 1 {
        assert es[1..] == [] && Runs(s, es, max) == t;
      } else {
        StuckThrough(t, es[1..], p, op, init, max, n - 1);
      }
    } else {
      OthersWait(s, es[0], p, init, max);
      StuckThrough(t, es[1..], p, op, init, max, n);
    }
  }

  /** A blocking operation that cannot go on ends asleep on its list, unless it is signalled before. */
  lemma Waits(s: State, es: seq<Event>, p: nat, op: Op, init: nat, max: nat)
    requires Inv(s, init, max) && s.lock.Free? && AtDoor(s, p, op) && EndsAfter(es, Go(p), 3) && op.blocking && Signal(p) !in es
    requires if op.up then max <= s.count else s.count == 0
    ensures var t := Runs(s, [Go(p)] + es, max);
      && t.lock.Free? && At(t, p) == Asleep(op) && (if op.up then p in t.notmax else p in t.notmin)
      && t.count == s.count && t.ups == s.ups && t.downs == s.downs
  {
    hide Inv, Next, EndsAfter, Runs;
    Enters(s, p, op, init, max);
    StuckThrough(Next(s, Go(p), max), es, p, op, init, max, 3);
    RunsFirst(s, Go(p), es, max);
  }

  /** A call by an idle process that finds the lock free: all three outcomes. */
  lemma CallServed(s: State, es: seq<Event>, p: nat, op: Op, init: nat, max: nat)
    requires Inv(s, init, max) && s.lock.Free? && At(s, p).Idle?
    ensures var can, t := if op.up then s.count < max else 0 < s.count, Runs(s, [Call(p, op)] + ([Go(p)] + es), max);
      && (can && EndsAfter(es, Go(p), 4) ==>
            && t.lock.Free? && At(t, p).Idle? && (if op.up then t.notmin == {} else t.notmax == {})
            && t.count == s.count + (if op.up then 1 else -1)
            && t.ups == s.ups + (if op.up then 1 else 0) && t.downs == s.downs + (if op.up then 0 else 1))
      && (!can && !op.blocking && EndsAfter(es, Go(p), 2) ==>
            t.lock.Free? && At(t, p).Idle? && t.count == s.count && t.ups == s.ups && t.downs == s.downs)
      && (!can && op.blocking && EndsAfter(es, Go(p), 3) && Signal(p) !in es ==>
            && t.lock.Free? && At(t, p) == Asleep(op) && (if op.up then p in t.notmax else p in t.notmin)
            && t.count == s.count && t.ups == s.ups && t.downs == s.downs)
  {
    hide Inv, EndsAfter, Runs, Run;
    var u := Next(s, Call(p, op), max);
    NextInv(s, Call(p, op), init, max);
    RunsFirst(s, Call(p, op), [Go(p)] + es, max);
    var can := if op.up then s.count < max else 0 < s.count;
    if can && EndsAfter(es, Go(p), 4) {
      Served(u, es, p, op, init, max);
    } else if !can && !op.blocking && EndsAfter(es, Go(p), 2) {
      Refused(u, es, p, op, init, max);
    } else if !can && op.blocking && EndsAfter(es, Go(p), 3) && Signal(p) !in es {
      Waits(u, es, p, op, init, max);
    }
  }

  lemma RunsFirst(s: State, e: Event, es: seq<Event>, max: nat)
    ensures Runs(s, [e] + es, max) == Runs(Next(s, e, max), es, max)
  {
  }

  // The interrupted wait

  /** Once an interrupted wait has returned, no call ever completes again. */
  lemma {:induction false} LostForever(s: State, es: seq<Event>, init: nat, max: nat)
    requires Inv(s, init, max) && s.lock.Lost?
    ensures var t := Runs(s, es, max); t.lock.Lost? && t.count == s.count && t.ups == s.ups && t.downs == s.downs
    decreases |es|
  {
    hide Inv;
    if es != [] {
      LostStays(s, es[0], init, max);
      NextInv(s, es[0], init, max);
      LostForever(Next(s, es[0], max), es[1..], init, max);
    }
  }

  lemma LostStays(s: State, e: Event, init: nat, max: nat)
    requires Inv(s, init, max) && s.lock.Lost?
    ensures var t := Next(s, e, max); t.lock.Lost? && t.count == s.count && t.ups == s.ups && t.downs == s.downs
  {
    assert Sane(s, e.p, max);
  }

  /** The steps that the lock holder still makes before it lets go of the lock. */
  function Left(pc: Pc): nat {
    match pc
    case Testing(_) => 4
    case Moving(_) => 3
    case Queueing(_) => 2
    case Waking(_) => 2
    case Leaving(_, _) => 1
    case Unlocking(_, _) => 1
    case _ => 0
  }

  /** The holder lets the lock go in at most four steps of its own. */
  lemma {:induction false} Releases(s: State, p: nat, init: nat, max: nat) returns (es: seq<Event>)
    requires Inv(s, init, max) && s.lock == Held(p)
    ensures |es| <= 4 && |es| <= Left(At(s, p)) && (forall e :: e in es ==> e == Go(p)) && Runs(s, es, max).lock.Free?
    decreases Left(At(s, p))
  {
    hide Inv, Next;
    var t := Next(s, Go(p), max);
    HolderMoves(s, p, init, max);
    if t.lock.Free? {
      es := [Go(p)];
      assert es[1..] == [];
      assert Runs(t, es[1..], max) == t;
    } else {
      NextInv(s, Go(p), init, max);
      var rest := Releases(t, p, init, max);
      es := [Go(p)] + rest;
      assert es[1..] == rest;
    }
  }

  lemma HolderMoves(s: State, p: nat, init: nat, max: nat)
    requires Inv(s, init, max) && s.lock == Held(p)
    ensures var t := Next(s, Go(p), max);
      0 < Left(At(s, p)) && (t.lock.Free? || (t.lock == Held(p) && Left(At(t, p)) < Left(At(s, p))))
  {
    assert Sane(s, p, max);
  }

  /** In the step `e` a waiter that was interrupted takes the lock again. */
  predicate Retakes(s: State, e: Event) {
    e.Go? && s.lock.Free? && At(s, e.p).Relocking? && At(s, e.p).signalled
  }

  lemma LostWhen(s: State, e: Event, init: nat, max: nat)
    requires Inv(s, init, max) && !s.lock.Lost?
    ensures Next(s, e, max).lock.Lost? <==> Retakes(s, e)
  {
  }

  /** Event `k` of the run is such a step. */
  predicate RetakesAt(s: State, es: seq<Event>, max: nat, k: nat) {
    k < |es| && Retakes(Runs(s, es[..k], max), es[k])
  }

  /** A run loses the lock if and only if an interrupted waiter takes it again somewhere on the way. */
  lemma {:induction false} RunLoses(s: State, es: seq<Event>, init: nat, max: nat)
    requires Inv(s, init, max) && !s.lock.Lost?
    ensures Runs(s, es, max).lock.Lost? <==> exists k: nat :: RetakesAt(s, es, max, k)
    decreases |es|
  {
    hide Inv, Next, Retakes;
    if es != [] {
      var t := Next(s, es[0], max);
      LostWhen(s, es[0], init, max);
      NextInv(s, es[0], init, max);
      assert es[..0] == [] && (RetakesAt(s, es, max, 0) <==> t.lock.Lost?);
      if t.lock.Lost? {
        LostForever(t, es[1..], init, max);
      } else {
        RunLoses(t, es[1..], init, max);
        forall k: nat | k < |es| - 1 ensures RetakesAt(s, es, max, k + 1) <==> RetakesAt(t, es[1..], max, k) {
          assert es[..k + 1][1..] == es[1..][..k] && es[..k + 1][0] == es[0];
        }
        if exists k: nat :: RetakesAt(s, es, max, k) {
          var k: nat :| RetakesAt(s, es, max, k);
          assert k > 0 && RetakesAt(t, es[1..], max, k - 1);
        }
      }
    }
  }

  /** No process carries a signal out of its wait. */
  ghost predicate Undisturbed(s: State) {
    !s.lock.Lost? && forall p :: !((At(s, p).Leaving? || At(s, p).Relocking?) && At(s, p).signalled)
  }

  /** No signal of the run reaches a process on a wait list. */
  ghost predicate NoSignalLands(s: State, es: seq<Event>, max: nat)
    decreases |es|
  {
    es != [] ==>
      && (es[0].Signal? ==> es[0].p !in s.notmin && es[0].p !in s.notmax)
      && NoSignalLands(Next(s, es[0], max), es[1..], max)
  }

  lemma StaysUndisturbed(s: State, e: Event, max: nat)
    requires Undisturbed(s) && (e.Signal? ==> e.p !in s.notmin && e.p !in s.notmax)
    ensures Undisturbed(Next(s, e, max))
  {
    forall p ensures !((At(Next(s, e, max), p).Leaving? || At(Next(s, e, max), p).Relocking?) && At(Next(s, e, max), p).signalled) {
      assert !((At(s, p).Leaving? || At(s, p).Relocking?) && At(s, p).signalled);
    }
  }

  /** Such a run never loses the lock. */
  lemma {:induction false} NeverLost(s: State, es: seq<Event>, max: nat)
    requires Undisturbed(s) && NoSignalLands(s, es, max)
    ensures !Runs(s, es, max).lock.Lost?
    decreases |es|
  {
    hide Undisturbed, Next;
    if es == [] {
      UndisturbedLock(s);
    } else {
      StaysUndisturbed(s, es[0], max);
      NeverLost(Next(s, es[0], max), es[1..], max);
    }
  }

  lemma UndisturbedLock(s: State)
    requires Undisturbed(s)
    ensures !s.lock.Lost?
  {
  }

  /** From the start: the lock is lost exactly when an interrupted waiter takes it again, and never in a
      run in which no signal reaches a waiter. */
  lemma LostIff(init: nat, es: seq<Event>, max: nat)
    requires init <= max
    ensures Runs(Initial(init), es, max).lock.Lost? <==> exists k: nat :: RetakesAt(Initial(init), es, max, k)
    ensures NoSignalLands(Initial(init), es, max) ==> !Runs(Initial(init), es, max).lock.Lost?
  {
    var s := Initial(init);
    StartInv(init, max);
    assert Undisturbed(s);
    RunLoses(s, es, init, max);
    if NoSignalLands(s, es, max) {
      NeverLost(s, es, max);
    }
  }

  /** A signal to a waiting `down` is enough to lose the lock. */
  lemma InterruptLoses()
    ensures var es := [Call(1, Op(false, true))] + ([Go(1)] + ([Go(1)] + ([Go(1)] + ([Go(1)] + ([Signal(1)] + ([Go(1)] + []))))));
      Runs(Initial(0), es, 1).lock.Lost?
  {
    hide Runs;
    var down := Op(false, true);
    var s1 := State(0, Free, {}, {}, map[1 := Locking(down)], 0, 0);
    var s2 := State(0, Held(1), {}, {}, map[1 := Testing(down)], 0, 0);
    var s3 := State(0, Held(1), {}, {}, map[1 := Queueing(down)], 0, 0);
    var s4 := State(0, Held(1), {1}, {}, map[1 := Leaving(down, false)], 0, 0);
    var s5 := State(0, Free, {1}, {}, map[1 := Asleep(down)], 0, 0);
    var s6 := State(0, Free, {}, {}, map[1 := Relocking(down, true)], 0, 0);
    assert Next(Initial(0), Call(1, down), 1) == s1 && Next(s1, Go(1), 1) == s2 && Next(s2, Go(1), 1) == s3;
    assert Next(s3, Go(1), 1) == s4 && Next(s4, Go(1), 1) == s5 && Next(s5, Signal(1), 1) == s6;
    LostNow(s6);
    RunsFirst(s6, Go(1), [], 1);
    RunsFirst(s5, Signal(1), [Go(1)] + [], 1);
    RunsFirst(s4, Go(1), [Signal(1)] + ([Go(1)] + []), 1);
    RunsFirst(s3, Go(1), [Go(1)] + ([Signal(1)] + ([Go(1)] + [])), 1);
    RunsFirst(s2, Go(1), [Go(1)] + ([Go(1)] + ([Signal(1)] + ([Go(1)] + []))), 1);
    RunsFirst(s1, Go(1), [Go(1)] + ([Go(1)] + ([Go(1)] + ([Signal(1)] + ([Go(1)] + [])))), 1);
    RunsFirst(Initial(0), Call(1, down), [Go(1)] + ([Go(1)] + ([Go(1)] + ([Go(1)] + ([Signal(1)] + ([Go(1)] + []))))), 1);
  }

  lemma LostNow(s: State)
    requires s.lock.Free? && At(s, 1) == Relocking(Op(false, true), true)
    ensures Runs(Next(s, Go(1), 1), [], 1).lock.Lost?
  {
  }
}
