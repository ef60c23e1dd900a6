/**
 The mutex as interleaved steps: a program counter per process inside `lock`, `try_lock` or `unlock`.
 */
module Mutexes {
  import opened Options
  import opened Spinlocks

  datatype Op = Lock | TryLock | Unlock

  datatype Pc =
    | Idle
    | Locking(op: Op)
    | Testing(op: Op)
    | Queueing
    | Leaving(signalled: bool)
    | Asleep
    | Relocking(signalled: bool)
    | Taking(op: Op)
    | Clearing
    | Unlocking(op: Op, done: bool)

  /** `owner` is `lockproc`; `inside` are the processes whose `lock` returned 0 and whose `unlock` has not. */
  datatype State = State(owner: Option<nat>, lock: Spinlock, waiters: set<nat>, pc: map<nat, Pc>, inside: set<nat>)

  datatype Event = Call(p: nat, op: Op) | Go(p: nat) | Signal(p: nat)

  function At(s: State, p: nat): Pc {
    if p in s.pc then s.pc[p] else Idle
  }

  function Moved(s: State, p: nat, pc: Pc): State {
    s.(pc := s.pc[p := pc])
  }

  function Next(s: State, e: Event): State {
    match e
    case Call(p, op) => if At(s, p).Idle? then Moved(s, p, Locking(op)) else s
    case Signal(p) =>
      if p !in s.waiters then s
      else Moved(s, p, if At(s, p).Asleep? then Relocking(true) else Leaving(true)).(waiters := s.waiters - {p})
    case Go(p) => Run(s, p)
  }

  /** One step of process `p`. */
  function Run(s: State, p: nat): State {
    match At(s, p)
    case Idle => s
    case Locking(op) => if s.lock.Free? then Moved(s, p, Testing(op)).(lock := Held(p)) else s
    case Testing(op) =>
      if op.Unlock? then Moved(s, p, if s.owner == Some(p) then Clearing else Unlocking(op, false))
      else if s.owner.None? then Moved(s, p, Taking(op))
      else Moved(s, p, if op.Lock? then Queueing else Unlocking(op, false))
    case Queueing => Moved(s, p, Leaving(false)).(waiters := s.waiters + {p})
    case Leaving(signalled) => Moved(s, p, if signalled then Relocking(true) else Asleep).(lock := Free)
    case Asleep => s
    case Relocking(signalled) =>
      if !s.lock.Free? then s
      else if signalled then Moved(s, p, Idle).(lock := Lost)
      else Moved(s, p, Testing(Lock)).(lock := Held(p))
    case Taking(op) => Moved(s, p, Unlocking(op, true)).(owner := Some(p))
    case Clearing => Moved(s, p, Unlocking(Unlock, true)).(owner := None)
    case Unlocking(op, done) =>
      Moved(s, p, Idle).(lock := Free, inside := if !done then s.inside else if op.Unlock? then s.inside - {p} else s.inside + {p})
  }

  predicate Critical(pc: Pc) {
    pc.Testing? || pc.Queueing? || pc.Leaving? || pc.Taking? || pc.Clearing? || pc.Unlocking?
  }

  ghost predicate Sane(s: State, p: nat) {
    var pc := At(s, p);
    && (Critical(pc) <==> s.lock == Held(p))
    && (p in s.waiters <==> pc.Asleep? || pc == Leaving(false))
    && (pc.Taking? ==> s.owner.None? && !pc.op.Unlock?)
    && (pc.Clearing? ==> s.owner == Some(p))
    && (pc.Unlocking? && pc.done ==> s.owner == if pc.op.Unlock? then None else Some(p))
    && (p in s.inside ==> s.owner == Some(p) || pc == Unlocking(Unlock, true))
    && (s.owner == Some(p) ==> p in s.inside || (pc.Unlocking? && pc.done))
  }

  ghost predicate Inv(s: State) {
    forall p :: Sane(s, p)
  }

  function Initial(): State {
    State(None, Free, {}, map[], {})
  }

  lemma OthersSane(s: State, t: State, p: nat)
    requires Inv(s) && Sane(t, p)
    requires t.pc == s.pc[p := At(t, p)] && t.waiters - {p} == s.waiters - {p} && t.inside - {p} == s.inside - {p}
    requires t.lock == s.lock || (s.lock in {Free, Held(p)} && t.lock in {Free, Held(p), Lost})
    requires t.owner == s.owner || (s.lock == Held(p) && s.owner in {None, Some(p)} && t.owner in {None, Some(p)})
    ensures Inv(t)
  {
    forall q | q != p ensures Sane(t, q) {
      assert Sane(s, q) && Sane(s, p) && At(t, q) == At(s, q);
      assert q in t.waiters - {p} <==> q in s.waiters - {p};
      assert q in t.inside - {p} <==> q in s.inside - {p};
    }
  }

  lemma NextInv(s: State, e: Event)
    requires Inv(s)
    ensures Inv(Next(s, e))
  {
    var t := Next(s, e);
    assert Sane(s, e.p);
    if t != s {
      OthersSane(s, t, e.p);
    }
  }

  function Runs(s: State, es: seq<Event>): State
    decreases |es|
  {
    if es == [] then s else Runs(Next(s, es[0]), es[1..])
  }

  lemma {:induction false} RunsInv(s: State, es: seq<Event>)
    requires Inv(s)
    ensures Inv(Runs(s, es))
    decreases |es|
  {
    hide Inv, Next;
    if es != [] {
      NextInv(s, es[0]);
      RunsInv(Next(s, es[0]), es[1..]);
    }
  }

  /** Over every interleaving, at most one process is inside the mutex, and while the spinlock is free
      it is the one that the mutex names. */
  lemma Exclusion(es: seq<Event>, p: nat, q: nat)
    ensures var t := Runs(Initial(), es);
      && (p in t.inside && q in t.inside ==> p == q)
      && (t.lock.Free? ==> (p in t.inside <==> t.owner == Some(p)))
  {
    assert Inv(Initial());
    RunsInv(Initial(), es);
    var t := Runs(Initial(), es);
    assert Sane(t, p) && Sane(t, q);
  }

  /** Only the owner clears the mutex, in its own `unlock`; nobody takes it over from an owner. */
  lemma OnlyOwnerClears(s: State, e: Event, p: nat)
    requires Inv(s) && s.owner == Some(p) && Next(s, e).owner != Some(p)
    ensures e == Go(p) && At(s, p).Clearing? && Next(s, e).owner.None?
  {
    assert Sane(s, e.p);
  }

  /** Only a signal takes a waiter off the wait list: `unlock` wakes nobody. */
  lemma {:induction false} WaitsForever(s: State, es: seq<Event>, p: nat)
    requires Inv(s) && At(s, p).Asleep? && Signal(p) !in es
    ensures At(Runs(s, es), p).Asleep?
    decreases |es|
  {
    hide Inv;
    if es != [] {
      NextInv(s, es[0]);
      WaitsForever(Next(s, es[0]), es[1..], p);
    }
  }

  /** The process waits, or was interrupted and has not returned yet, or the spinlock is lost. */
  predicate Doomed(s: State, p: nat) {
    s.lock.Lost? || At(s, p) in {Leaving(false), Leaving(true), Asleep, Relocking(true)}
  }

  lemma DoomedStays(s: State, e: Event, p: nat)
    requires Inv(s) && Doomed(s, p) && s.owner != Some(p)
    ensures Doomed(Next(s, e), p) && Next(s, e).owner != Some(p)
  {
    assert Sane(s, e.p) && Sane(s, p);
  }

  /** A process that has begun to wait in `lock` never becomes the owner, signalled or not: when it is
      interrupted, it returns with the spinlock held, and then nobody ever becomes the owner again. */
  lemma {:induction false} NeverOwner(s: State, es: seq<Event>, p: nat)
    requires Inv(s) && Doomed(s, p) && s.owner != Some(p)
    ensures Runs(s, es).owner != Some(p)
    decreases |es|
  {
    hide Inv, Doomed, Next;
    if es != [] {
      DoomedStays(s, es[0], p);
      NextInv(s, es[0]);
      NeverOwner(Next(s, es[0]), es[1..], p);
    }
  }

  // What a call does

  /** What the call finds: the mutex is free, or its own; it is refused, or has to wait. */
  datatype Finding = Takes | Clears | Fails | Waits

  function Found(owner: Option<nat>, p: nat, op: Op): Finding {
    if op.Unlock? then (if owner == Some(p) then Clears else Fails)
    else if owner.None? then Takes
    else if op.Lock? then Waits
    else Fails
  }

  /** The owner when the call is done. */
  function Owner(f: Finding, p: nat, owner: Option<nat>): Option<nat> {
    match f
    case Takes => Some(p)
    case Clears => None
    case _ => owner
  }

  /** The call holds the spinlock and has `n` steps left; `owner` was the owner when it came. */
  predicate Under(s: State, p: nat, op: Op, owner: Option<nat>, n: nat) {
    var f, pc := Found(owner, p, op), At(s, p);
    && s.lock == Held(p) && s.owner == (if n == 1 then Owner(f, p, owner) else owner)
    && if n == (if f.Fails? then 2 else 3) then pc == Testing(op)
       else if n == 2 then pc == if f.Takes? then Taking(op) else if f.Clears? then Clearing else Queueing
       else n == 1 && pc == if f.Waits? then Leaving(false) else Unlocking(op, !f.Fails?)
  }

  lemma UnderStep(s: State, p: nat, op: Op, owner: Option<nat>, n: nat)
    requires Inv(s) && Under(s, p, op, owner, n)
    ensures var t, f := Next(s, Go(p)), Found(owner, p, op);
      if n > 1 then Under(t, p, op, owner, n - 1) && t.inside == s.inside
      else
        && t.lock.Free? && t.owner == Owner(f, p, owner)
        && t.inside == (if f.Takes? then s.inside + {p} else if f.Clears? then s.inside - {p} else s.inside)
        && if f.Waits? then At(t, p).Asleep? && p in t.waiters else At(t, p).Idle?
  {
    assert Sane(s, p);
  }

  /** While `p` holds the spinlock nobody else changes the owner, or who is inside. */
  lemma OthersWait(s: State, e: Event, p: nat)
    requires Inv(s) && s.lock == Held(p) && e != Go(p) && (e == Signal(p) ==> !At(s, p).Leaving?)
    ensures var t := Next(s, e); t.lock == Held(p) && At(t, p) == At(s, p) && t.owner == s.owner && t.inside == s.inside
  {
    assert Sane(s, e.p) && Sane(s, p);
  }

  lemma {:induction false} UnderRuns(s: State, es: seq<Event>, p: nat, op: Op, owner: Option<nat>, n: nat)
    requires Inv(s) && Under(s, p, op, owner, n) && EndsAfter(es, Go(p), n)
    requires Found(owner, p, op).Waits? ==> Signal(p) !in es
    ensures var t, f := Runs(s, es), Found(owner, p, op);
      && t.lock.Free? && t.owner == Owner(f, p, owner)
      && t.inside == (if f.Takes? then s.inside + {p} else if f.Clears? then s.inside - {p} else s.inside)
      && if f.Waits? then At(t, p).Asleep? && p in t.waiters else At(t, p).Idle?
    decreases |es|
  {
    hide Inv, Next, EndsAfter;
    EndsRest(es, Go(p), n);
    var t := Next(s, es[0]);
    NextInv(s, es[0]);
    if es[0] == Go(p) {
      UnderStep(s, p, op, owner, n);
      if n == 1 {
        assert es[1..] == [] && Runs(s, es) == t;
      } else {
        UnderRuns(t, es[1..], p, op, owner, n - 1);
      }
    } else {
      OthersWait(s, es[0], p);
      UnderRuns(t, es[1..], p, op, owner, n);
    }
  }

  lemma RunsFirst(s: State, e: Event, es: seq<Event>)
    ensures Runs(s, [e] + es) == Runs(Next(s, e), es)
  {
  }

  /** A call by an idle process that finds the spinlock free. Whatever the others do from then on, after its
      own steps: a free mutex is taken by `lock` and `try_lock`; `try_lock` of an owned one and `unlock` of
      another's change nothing; `unlock` by the owner frees it; `lock` of an owned one sleeps. */
  lemma CallEnds(s: State, es: seq<Event>, p: nat, op: Op)
    requires Inv(s) && s.lock.Free? && At(s, p).Idle?
    ensures var t := Runs(s, [Call(p, op)] + ([Go(p)] + es));
      && (!op.Unlock? && s.owner.None? && EndsAfter(es, Go(p), 3) ==>
            t.lock.Free? && At(t, p).Idle? && t.owner == Some(p) && t.inside == s.inside + {p})
      && (op.TryLock? && s.owner.Some? && EndsAfter(es, Go(p), 2) ==>
            t.lock.Free? && At(t, p).Idle? && t.owner == s.owner && t.inside == s.inside)
      && (op.Unlock? && s.owner == Some(p) && EndsAfter(es, Go(p), 3) ==>
            t.lock.Free? && At(t, p).Idle? && t.owner.None? && t.inside == s.inside - {p})
      && (op.Unlock? && s.owner != Some(p) && EndsAfter(es, Go(p), 2) ==>
            t.lock.Free? && At(t, p).Idle? && t.owner == s.owner && t.inside == s.inside)
      && (op.Lock? && s.owner.Some? && EndsAfter(es, Go(p), 3) && Signal(p) !in es ==>
            t.lock.Free? && At(t, p).Asleep? && p in t.waiters && t.owner == s.owner && t.inside == s.inside)
  {
    hide Inv, EndsAfter, Runs;
    var u := Next(s, Call(p, op));
    var v := Next(u, Go(p));
    NextInv(s, Call(p, op));
    NextInv(u, Go(p));
    RunsFirst(s, Call(p, op), [Go(p)] + es);
    RunsFirst(u, Go(p), es);
    var f := Found(s.owner, p, op);
    var n := if f.Fails? then 2 else 3;
    if EndsAfter(es, Go(p), n) && (f.Waits? ==> Signal(p) !in es) {
      UnderRuns(v, es, p, op, s.owner, n);
    }
  }

  /** A signal to a process that waits in `lock`: it returns with the spinlock held, for good. */
  lemma InterruptLoses(s: State, p: nat)
    requires Inv(s) && s.lock.Free? && At(s, p).Asleep?
    ensures var t := Runs(s, [Signal(p)] + ([Go(p)] + []));
      t.lock.Lost? && At(t, p).Idle? && p !in t.waiters && t.owner == s.owner && t.inside == s.inside
  {
    assert Sane(s, p);
    RunsFirst(s, Signal(p), [Go(p)] + []);
    RunsFirst(Next(s, Signal(p)), Go(p), []);
  }

  /** The spinlock is lost exactly when a waiter that was interrupted takes it again. */
  lemma LostWhen(s: State, e: Event)
    requires Inv(s) && !s.lock.Lost?
    ensures Next(s, e).lock.Lost? <==> e.Go? && s.lock.Free? && At(s, e.p) == Relocking(true)
  {
    assert Sane(s, e.p);
  }

  /** And then nobody ever enters or leaves the mutex again. */
  lemma {:induction false} LostForever(s: State, es: seq<Event>)
    requires Inv(s) && s.lock.Lost?
    ensures var t := Runs(s, es); t.lock.Lost? && t.owner == s.owner && t.inside == s.inside
    decreases |es|
  {
    hide Inv;
    if es != [] {
      LostStays(s, es[0]);
      NextInv(s, es[0]);
      LostForever(Next(s, es[0]), es[1..]);
    }
  }

  lemma LostStays(s: State, e: Event)
    requires Inv(s) && s.lock.Lost?
    ensures var t := Next(s, e); t.lock.Lost? && t.owner == s.owner && t.inside == s.inside
  {
    assert Sane(s, e.p);
  }

  /** A call, and four steps of the caller. */
  function Whole(p: nat, op: Op): seq<Event> {
    [Call(p, op)] + ([Go(p)] + [Go(p), Go(p), Go(p)])
  }

  /** Events of `p` leave the others where they are. */
  lemma {:induction false} OthersStay(s: State, es: seq<Event>, p: nat, q: nat)
    requires q != p && forall e :: e in es ==> e.p == p
    ensures At(Runs(s, es), q) == At(s, q)
    decreases |es|
  {
    if es != [] {
      OthersStay(Next(s, es[0]), es[1..], p, q);
    }
  }

  /** An undisturbed call that takes four steps. */
  lemma WholeCall(s: State, p: nat, op: Op, q: nat)
    requires Inv(s) && s.lock.Free? && At(s, p).Idle? && q != p && !Found(s.owner, p, op).Fails?
    ensures var t, f := Runs(s, Whole(p, op)), Found(s.owner, p, op);
      Inv(t) && t.lock.Free? && t.owner == Owner(f, p, s.owner) && At(t, q) == At(s, q) && if f.Waits? then At(t, p).Asleep? else At(t, p).Idle?
  {
    hide Inv, Runs;
    assert EndsAfter([Go(p), Go(p), Go(p)], Go(p), 3);
    CallEnds(s, [Go(p), Go(p), Go(p)], p, op);
    OthersStay(s, Whole(p, op), p, q);
    RunsInv(s, Whole(p, op));
  }

  lemma {:induction false} RunsConcat(s: State, es: seq<Event>, fs: seq<Event>)
    ensures Runs(s, es + fs) == Runs(Runs(s, es), fs)
    decreases |es|
  {
    if es == [] {
      assert es + fs == fs;
    } else {
      assert (es + fs)[1..] == es[1..] + fs;
      RunsConcat(Next(s, es[0]), es[1..], fs);
    }
  }

  /** Concrete run: 1 locks, 2 waits, 1 unlocks. The mutex is free, and 2 is still asleep. */
  lemma UnlockedAsleep()
    ensures var t := Runs(Initial(), Whole(1, Lock) + Whole(2, Lock) + Whole(1, Unlock));
      t.owner.None? && t.lock.Free? && At(t, 2).Asleep?
  {
    hide Runs, Whole;
    var s := Initial();
    WholeCall(s, 1, Lock, 2);
    var s1 := Runs(s, Whole(1, Lock));
    WholeCall(s1, 2, Lock, 1);
    var s2 := Runs(s1, Whole(2, Lock));
    WholeCall(s2, 1, Unlock, 2);
    RunsConcat(s, Whole(1, Lock) + Whole(2, Lock), Whole(1, Unlock));
    RunsConcat(s, Whole(1, Lock), Whole(2, Lock));
  }
}
