/**
 The search of `waitpid` after the wait, and how it can come upon a live child.
 */
module Waitpid {
  import opened Options
  import opened Processes
  import opened SchedulerSteps
  import opened SchedulerRuns

  ghost predicate Child(s: State, c: nat, p: nat) {
    p in s.procs && s.procs[p].parent == Some(c)
  }

  predicate Dead(s: State, p: nat) {
    p in s.procs && s.procs[p].status.Zombie?
  }

  /** The search stops at such a child. */
  predicate Stops(pr: Proc, pid: int) {
    (pid >= 1 && pr.pid == pid) || pr.status.Zombie?
  }

  /** The search stops at `q`: siblings are linked from the newest to the oldest. */
  ghost predicate Found(s: State, c: nat, pid: int, q: nat) {
    && Child(s, c, q) && Stops(s.procs[q], pid)
    && forall p :: Child(s, c, p) && q < p ==> !Stops(s.procs[p], pid)
  }

  lemma FoundOther(s: State, c: nat, pid: int, q: nat)
    requires Inv(s) && Found(s, c, pid, q)
    ensures q in s.procs && q != c
  {
    assert Kin(s, q);
  }

  /** A dead child is newer than `p`. */
  ghost predicate Shadowed(s: State, c: nat, p: nat) {
    exists d :: Child(s, c, d) && Dead(s, d) && p < d
  }

  /** The child found is dead if and only if every live child with the awaited pid is older than a dead one. */
  lemma FoundDead(s: State, c: nat, pid: int, q: nat)
    requires Found(s, c, pid, q)
    ensures Dead(s, q) <==> forall p :: Child(s, c, p) && !Dead(s, p) && pid >= 1 && s.procs[p].pid == pid ==> Shadowed(s, c, p)
  {
    if Dead(s, q) {
      forall p: nat | Child(s, c, p) && !Dead(s, p) && pid >= 1 && s.procs[p].pid == pid ensures Shadowed(s, c, p) {
        assert Child(s, c, q) && p < q;
      }
    } else {
      assert Child(s, c, q) && !Shadowed(s, c, q);
    }
  }

  /** The parent of the current process waits for its pid. */
  ghost predicate Awaited(s: State, q: nat) {
    && OnCpu(s) && q in s.procs && s.procs[s.cur.value].parent == Some(q)
    && s.procs[q].status.Waiting? && s.procs[q].waitPid == s.procs[s.cur.value].pid > 0
  }

  lemma ThreadAdded(s: State, csig: nat, q: nat)
    requires Inv(s) && Awaited(s, q) && csig < SIGNALS
    ensures var n, c := s.nextTid, s.cur.value; var t := Cloned(s, c, csig, true, true);
      && Inv(t) && Awaited(t, q) && t.cur == s.cur && t.last == s.last && t.nextTid == n + 1 && n != c && n != q
      && n in t.procs && t.procs[n].queue.RunQueue? && t.procs[n].status.Ready? && t.procs[n].parent == Some(q)
      && t.procs[n].pid == s.procs[c].pid && t.procs[c].pid == s.procs[c].pid && t.procs[q] == s.procs[q]
  {
    hide Queues;
    CloneInv(s, csig, true, true);
    assert s.nextTid !in s.procs by { assert s.nextTid in s.procs ==> Kin(s, s.nextTid); }
  }

  /** Letting the children of `c` go leaves a child of another process alone. */
  lemma LetGoOthers(s: State, c: nat, q: nat, n: nat)
    requires Inv(s) && Live(s, c) && Live(s, q) && Child(s, q, n) && Child(s, q, c) && q != c && n != c
    ensures var o := Orphaned(s, c);
      && c in o.procs && n in o.procs && q in o.procs && o.procs[n] == s.procs[n] && o.procs[c] == s.procs[c]
      && (o.procs[q] == s.procs[q] || o.procs[q] == s.procs[q].(parent := None))
  {
  }

  lemma BuriedOthers(s: State, c: nat, p: nat)
    requires c in s.procs && p in s.procs && p != c
    ensures var t := Buried(s, c); p in t.procs && t.procs[p] == s.procs[p] && c in t.procs && t.procs[c].parent == s.procs[c].parent && t.procs[c].pid == s.procs[c].pid
  {
  }

  lemma MournedAwaited(s: State, c: nat, q: nat, n: nat)
    requires c in s.procs && s.procs[c].parent == Some(q) && q in s.procs && n in s.procs && n != q
    requires s.procs[q].status.Waiting? && s.procs[q].waitPid == s.procs[c].pid
    ensures var t := Mourned(s, c);
      && Beside(s, t) && n in t.procs && t.procs[n] == s.procs[n]
      && q in t.procs && t.procs[q].queue.RunQueue? && t.procs[q].interrupted == s.procs[q].interrupted
  {
  }

  lemma AwaitedLive(s: State, q: nat)
    requires Inv(s) && Awaited(s, q)
    ensures Live(s, s.cur.value) && Live(s, q) && q != s.cur.value
  {
    assert Kin(s, s.cur.value);
  }

  lemma ExitIs(s: State, now: nat)
    requires Inv(s) && Enabled(s, Exit(now))
    ensures s.cur.value in Orphaned(s, s.cur.value).procs && Beside(s.(cur := None), Gone(s, s.cur.value))
    ensures Next(s, Exit(now)) == Gone(s, s.cur.value).(phase := Picking(now))
  {
    hide InvBut, Orphaned, Gone;
    Current(s);
    GoneInv(s, s.cur.value, now);
  }

  /** When the current process exits, its waiting parent is made runnable, and other processes stay. */
  lemma ParentWoken(s: State, q: nat, n: nat, now: nat)
    requires Inv(s) && Awaited(s, q) && s.last <= now && n != s.cur.value && n != q && Child(s, q, n)
    requires Enabled(s, Exit(now))
    ensures var t := Next(s, Exit(now));
      && Inv(t) && t.nextTid == s.nextTid && t.cur.None? && n in t.procs && t.procs[n] == s.procs[n]
      && q in t.procs && t.procs[q].queue.RunQueue? && t.procs[q].interrupted == s.procs[q].interrupted
  {
    hide Inv, InvBut, Orphaned, Buried, Mourned, Next, Enabled, Live;
    var c := s.cur.value;
    AwaitedLive(s, q);
    NextInv(s, Exit(now));
    ExitIs(s, now);
    LetGoOthers(s, c, q, n);
    var o := Orphaned(s, c);
    BuriedOthers(o, c, q);
    BuriedOthers(o, c, n);
    MournedAwaited(Buried(o, c), c, q, n);
  }

  /** From any state in which the parent waits for the pid of the current process: the process adds a thread
      to its parent and exits. The parent is runnable again and was not interrupted, so it searches; the
      search stops at the thread, which is alive; and deleting that breaks the invariant. */
  lemma LiveChildDeleted(s: State, csig: nat, q: nat, now: nat)
    requires Inv(s) && Awaited(s, q) && csig < SIGNALS && s.last <= now
    ensures Enabled(s, Clone(csig, true, true)) && Inv(Next(s, Clone(csig, true, true)))
    ensures Enabled(Next(s, Clone(csig, true, true)), Exit(now))
    ensures var t, n, pid := Next(Next(s, Clone(csig, true, true)), Exit(now)), s.nextTid, s.procs[s.cur.value].pid;
      && Inv(t) && q in t.procs && t.procs[q].queue.RunQueue? && t.procs[q].interrupted == s.procs[q].interrupted
      && Found(t, q, pid, n) && !Dead(t, n) && !Inv(Reaped(t, q, n))
  {
    hide InvBut, Cloned, Gone;
    ThreadAdded(s, csig, q);
    var u, n := Cloned(s, s.cur.value, csig, true, true), s.nextTid;
    ParentWoken(u, q, n, now);
    var t := Next(u, Exit(now));
    TidsBelow(t);
    ReapIff(t, q, n);
  }

  lemma TidsBelow(s: State)
    requires Inv(s)
    ensures forall p :: p in s.procs ==> p < s.nextTid
  {
    assert forall p :: p in s.procs ==> Kin(s, p);
  }
}
