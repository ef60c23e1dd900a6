/**
 Process records, the three kinds of queue, and the scheduler's operations on them.

 The nodes of all queues are in one map, and a node's constructor tells its queue. A node is named by
 the process it was made for and a serial number. A run-queue node holds the ordering key as it was
 when the node was inserted.
 */
module Processes {
  import opened Options

  datatype Status = Created | Ready | Running | Waiting | WaitingNoInterrupt | Zombie

  datatype Queue = NoQueue | RunQueue | SleepQueue | EventQueue

  datatype Handle = Null | At(tid: nat, serial: nat)

  datatype Proc = Proc(status: Status, queue: Queue, handle: Handle, serial: nat, v: nat, nice: int,
    interrupted: bool, signals: set<nat>, parent: Option<nat>, pid: nat, waitPid: int, csig: nat)

  /** An entry of a queue. */
  datatype Node =
    | InRun(tid: nat, v: nat, nice: int)
    | InSleep(tid: nat, wakeup: nat)
    | InEvent(tid: nat, condvar: nat)

  /** `Picking` is the part of `schedule` after the old process was charged, including the idle loop. */
  datatype Phase = Active | Picking(now: nat)

  /** `fatal` holds the signals whose default action is exit. */
  datatype State = State(procs: map<nat, Proc>, nodes: map<Handle, Node>,
    cur: Option<nat>, minv: nat, last: nat, nextTid: nat, phase: Phase, fatal: set<nat>, sigchld: nat)

  const SCHEDULE_MIN_DELTA: nat := 1000000
  const SCHED_LATENCY: nat := 20000000
  const SIGNALS: nat := 32

  function QueueOf(n: Node): Queue {
    match n
    case InRun(_, _, _) => RunQueue
    case InSleep(_, _) => SleepQueue
    case InEvent(_, _) => EventQueue
  }

  /** The order of the run queue. */
  predicate Less(a: Node, b: Node)
    requires a.InRun? && b.InRun?
  {
    if a.v != b.v then a.v < b.v else if a.nice != b.nice then a.nice < b.nice else a.tid < b.tid
  }

  function With(s: State, p: nat, pr: Proc): State {
    s.(procs := s.procs[p := pr])
  }

  /** `remove_from_queue`: erases the node that the handle names from the queue that the tag names. */
  function Removed(s: State, p: nat): State
    requires p in s.procs
  {
    var pr := s.procs[p];
    s.(nodes := if pr.handle in s.nodes && QueueOf(s.nodes[pr.handle]) == pr.queue then s.nodes - {pr.handle} else s.nodes,
       procs := s.procs[p := pr.(queue := NoQueue, handle := Null)])
  }

  function Tagged(pr: Proc, p: nat, q: Queue): Proc {
    pr.(queue := q, handle := At(p, pr.serial), serial := pr.serial + 1)
  }

  /** Inserts a new node and records it in the process. */
  function Entered(s: State, p: nat, n: Node): State
    requires p in s.procs
  {
    var pr := s.procs[p];
    With(s, p, Tagged(pr, p, QueueOf(n))).(nodes := s.nodes[At(p, pr.serial) := n])
  }

  /** `add_proc_run`, when it succeeds. */
  function Added(s: State, p: nat): State
    requires p in s.procs
  {
    var s1 := Removed(s, p);
    var pr := s1.procs[p];
    Entered(With(s1, p, pr.(v := pr.v + s.minv, status := Ready)), p, InRun(p, pr.v + s.minv, pr.nice))
  }

  /** `add_proc_run` with `interrupted` set. */
  function Interrupted(s: State, p: nat): State
    requires p in s.procs
  {
    var pr := s.procs[p];
    if pr.status.Waiting? then Added(With(s, p, pr.(interrupted := true)), p)
    else if pr.status.WaitingNoInterrupt? then s
    else Added(s, p)
  }

  /** `remove_proc_run`, followed by the status the callers set. */
  function Blocked(s: State, p: nat): State
    requires p in s.procs
  {
    var s1 := Removed(s, p);
    var pr := s1.procs[p];
    With(s1, p, pr.(v := if s.minv <= pr.v then pr.v - s.minv else pr.v, status := Waiting))
  }

  /** `_tkill`. */
  function Killed(s: State, p: nat, sig: nat): State
    requires p in s.procs
  {
    var pr := s.procs[p];
    if sig == 0 || pr.status.Zombie? then s
    else Interrupted(With(s, p, pr.(signals := pr.signals + {sig})), p)
  }

  /** Charges the current process for `delta`, re-entering it at its new key if it is runnable. */
  function Charged(s: State, c: nat, delta: nat): State
    requires c in s.procs
  {
    var pr := s.procs[c];
    if pr.queue.RunQueue? then
      var s1 := Removed(s, c);
      Entered(With(s1, c, s1.procs[c].(v := pr.v + delta, status := Ready)), c, InRun(c, pr.v + delta, pr.nice))
    else
      With(s, c, pr.(v := pr.v + delta))
  }

  function RunNodes(s: State): set<Handle> {
    set h | h in s.nodes && s.nodes[h].InRun?
  }

  function Latency(s: State): nat {
    var l := if |RunNodes(s)| > 0 then SCHED_LATENCY / |RunNodes(s)| else 0;
    if l < SCHEDULE_MIN_DELTA then SCHEDULE_MIN_DELTA else l
  }

  /** `schedule` up to the choice of the next process; `timer` tells a call from the timer interrupt. */
  function Rescheduled(s: State, timer: bool, now: nat): State
    requires s.last <= now && (s.cur.Some? ==> s.cur.value in s.procs)
  {
    if s.phase.Picking? then s
    else if s.cur.None? then s.(phase := Picking(now))
    else if timer && now - s.last < Latency(s) then s
    else Charged(s, s.cur.value, now - s.last).(phase := Picking(now))
  }

  /** The first node of the run queue. */
  ghost predicate IsLeast(s: State, h: Handle) {
    h in RunNodes(s) && forall g :: g in RunNodes(s) && g != h ==> Less(s.nodes[h], s.nodes[g])
  }

  /** The lowest numbered signal from `i` on. */
  function FirstSignal(signals: set<nat>, i: nat): Option<nat>
    decreases SIGNALS - i
  {
    if i >= SIGNALS then None else if i in signals then Some(i) else FirstSignal(signals, i + 1)
  }

  /** The choice of the next process: `minv` follows it, and its first pending signal is taken. */
  function Chosen(s: State, c: nat): State
    requires c in s.procs && s.phase.Picking?
  {
    var pr := s.procs[c];
    var sig := FirstSignal(pr.signals, 0);
    var signals := if sig.Some? then pr.signals - {sig.value} else pr.signals;
    With(s, c, pr.(signals := signals, status := if Dies(s, c) then pr.status else Running))
      .(cur := Some(c), minv := pr.v, last := s.phase.now, phase := Active)
  }

  /** The process has a pending signal that makes it exit. */
  predicate Dies(s: State, c: nat)
    requires c in s.procs
  {
    var sig := FirstSignal(s.procs[c].signals, 0);
    sig.Some? && sig.value in s.fatal
  }

  /** `exit` lets go of the children: dead ones are deleted, live ones are orphaned. */
  function Orphaned(s: State, p: nat): State {
    s.(procs := map q | q in s.procs && !(s.procs[q].parent == Some(p) && s.procs[q].status.Zombie?) ::
         if s.procs[q].parent == Some(p) then s.procs[q].(parent := None) else s.procs[q])
  }

  /** The current process leaves its queue and becomes a zombie. */
  function Buried(s: State, p: nat): State
    requires p in s.procs
  {
    var s1 := Removed(s, p);
    With(s1, p, s1.procs[p].(status := Zombie)).(cur := None)
  }

  /** `exit` wakes a parent that waits for this process, and signals it otherwise. */
  function Mourned(s: State, p: nat): State
    requires p in s.procs
  {
    var pr := s.procs[p];
    if pr.parent.None? || pr.parent.value !in s.procs then s
    else
      var q := pr.parent.value;
      if s.procs[q].status.Waiting? && (s.procs[q].waitPid < 0 || s.procs[q].waitPid == pr.pid) then Added(s, q)
      else Killed(s, q, if pr.csig != 0 then pr.csig else s.sigchld)
  }

  /** The children of `p` are let go, `p` is buried, and its parent told. */
  function Gone(s: State, p: nat): State
    requires p in Orphaned(s, p).procs
  {
    Mourned(Buried(Orphaned(s, p), p), p)
  }

  /** The sleepers whose time has come. */
  function Due(s: State, now: nat): set<nat> {
    set h | h in s.nodes && s.nodes[h].InSleep? && s.nodes[h].wakeup <= now :: s.nodes[h].tid
  }

  /** The waiters of a condition variable: all of them, or the one named. */
  function Waiters(s: State, cv: nat, tid: Option<nat>): set<nat> {
    set h | h in s.nodes && s.nodes[h].InEvent? && s.nodes[h].condvar == cv && (tid.None? || s.nodes[h].tid == tid.value) :: s.nodes[h].tid
  }

  /** The record of a process that joins the run queue, and its node. */
  function Awake(s: State, p: nat): Proc
    requires p in s.procs
  {
    Tagged(s.procs[p].(v := s.procs[p].v + s.minv, status := Ready), p, RunQueue)
  }

  function AwakeNode(s: State, p: nat): Node
    requires p in s.procs
  {
    InRun(p, s.procs[p].v + s.minv, s.procs[p].nice)
  }

  /** The nodes of processes other than `ps`. */
  function Others(nodes: map<Handle, Node>, ps: set<nat>): map<Handle, Node> {
    map h | h in nodes && nodes[h].tid !in ps :: nodes[h]
  }

  /** The new nodes of `ps`. */
  function AwakeNodes(s: State, ps: set<nat>): map<Handle, Node>
    requires ps <= s.procs.Keys
  {
    map p | p in ps :: At(p, s.procs[p].serial) := AwakeNode(s, p)
  }

  /** All of `ps` leave their queues and join the run queue. */
  function Woken(s: State, ps: set<nat>): State
    requires ps <= s.procs.Keys
  {
    s.(procs := map p | p in s.procs :: if p in ps then Awake(s, p) else s.procs[p],
       nodes := Others(s.nodes, ps) + AwakeNodes(s, ps))
  }

  /** The queue part of `clone`: a new process joins the run queue. */
  function Cloned(s: State, c: nat, csig: nat, thread: bool, toParent: bool): State
    requires c in s.procs
  {
    if csig >= SIGNALS then s
    else
      var p, parent := s.nextTid, s.procs[c];
      var child := Proc(Created, NoQueue, Null, 0, 0, parent.nice, false, {},
        if toParent then parent.parent else Some(c), if thread then parent.pid else p, 0, csig);
      Added(With(s, p, child).(nextTid := p + 1), p)
  }
}
