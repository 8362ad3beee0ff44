/** semaphores.c as transitions between values, joined with the scheduler of schedule.c: who holds a
    token, who waits for one, and what the scheduler knows of the waiters. */
module Signalling {
  import opened Scheduling

  const MAX_BLOCKED_PIDS: nat := 16
  const WORD: nat := 0x1_0000_0000

  // ----- blocked processes -----

  ghost predicate InState(q: seq<Proc>, pid: nat, state: State) {
    exists p :: p in q && p.pid == pid && p.state == state
  }

  /** The process is off the processor until somebody wakes it. */
  ghost predicate IsBlocked(s: Sched, pid: nat) {
    InState(s.queue, pid, BLOCKED)
  }

  /** What is on the processor between two calls is READY. */
  predicate CurrentReady(s: Sched) {
    s.current.Running? ==> s.current.proc.state == READY
  }

  /** The operations that end the wait of a BLOCKED process: it is unblocked or killed, or it has a
      foreground child that is killed while it runs. */
  predicate Wakes(s: Sched, op: Op, pid: nat) {
    match op
    case Unblock(x) => x == pid
    case Kill(x) => x > 2 && (x == pid || (IsCurrent(s, x) && IsFgChild(s, pid)))
    case KillFg => s.current.Running? && s.current.proc.pid > 2 && IsFgChild(s, pid)
    case _ => false
  }

  /** The current process is a foreground child of the process. */
  predicate IsFgChild(s: Sched, pid: nat) {
    s.current.Running? && s.current.proc.fg && s.current.proc.ppid == pid
  }

  lemma {:induction false} CountTwice(q: seq<nat>, i: nat, j: nat)
    requires i < j < |q| && q[i] == q[j]
    ensures multiset(q)[q[i]] >= 2
  {
    assert q == q[..j] + q[j..];
    assert q[..j][i] == q[i] && q[j..][0] == q[j];
    assert q[i] in multiset(q[..j]) && q[j] in multiset(q[j..]);
  }

  lemma ActiveDistinct(s: Sched)
    requires Inv(s)
    ensures forall i: nat, j: nat | i < j < |Active(s)| :: Active(s)[i] != Active(s)[j]
    ensures forall i: nat | i < |Active(s)| :: Active(s)[i] > 0
  {
    var a := Active(s);
    hide Active;
    assert forall x :: multiset(a)[x] <= multiset(s.created)[x] <= 1;
    forall i: nat, j: nat | i < j < |a| ensures a[i] != a[j] {
      if a[i] == a[j] {
        CountTwice(a, i, j);
      }
    }
    forall i: nat | i < |a| ensures a[i] > 0 {
      assert a[i] in multiset(a);
      assert a[i] in multiset(s.created);
    }
  }

  /** No pid is queued twice, and neither the current process nor the idle one is queued. */
  lemma PidsDistinct(s: Sched)
    requires Inv(s)
    ensures forall i: nat, j: nat | i < j < |s.queue| :: s.queue[i].pid != s.queue[j].pid
    ensures forall i: nat | i < |s.queue| :: s.queue[i].pid != 0 && !IsCurrent(s, s.queue[i].pid)
  {
    ActiveDistinct(s);
    var a, n := Active(s), |s.queue|;
    assert forall i: nat | i < n :: a[i] == s.queue[i].pid;
    assert s.current.Running? ==> a[n] == s.current.proc.pid;
  }

  lemma SwitchInState(s: Sched, pid: nat)
    ensures IsBlocked(SwitchIn(s), pid) <==> IsBlocked(s, pid)
  {
    if HasReady(s.queue) {
      var k := FirstReady(s.queue);
      RestBlocked(s.queue);
      assert forall p :: p in Rest(s.queue) && p.state == BLOCKED <==> p in s.queue && p.state == BLOCKED;
    }
  }

  lemma RestBlocked(q: seq<Proc>)
    requires HasReady(q)
    ensures forall p: Proc | p.state == BLOCKED :: p in Rest(q) <==> p in q
  {
    var k := FirstReady(q);
    ThoseMembers(q[..k], BLOCKED);
    assert q == q[..k] + [q[k]] + q[k + 1..];
  }

  /** Replacing a queued process, where pids are distinct. */
  lemma UpdateInState(q: seq<Proc>, i: nat, p: Proc, pid: nat)
    requires i < |q| && p.pid == q[i].pid
    requires forall a: nat, b: nat | a < b < |q| :: q[a].pid != q[b].pid
    ensures InState(q[i := p], pid, BLOCKED) <==>
            if pid == p.pid then p.state == BLOCKED else InState(q, pid, BLOCKED)
  {
    var r := q[i := p];
    if pid == p.pid {
      assert r[i] in r;
    } else if InState(q, pid, BLOCKED) {
      var v :| v in q && v.pid == pid && v.state == BLOCKED;
      var j :| 0 <= j < |q| && q[j] == v;
      assert r[j] in r;
    }
  }

  lemma SetStateBlocked(s: Sched, x: nat, state: State, pid: nat)
    requires Inv(s) && IsBlocked(s, pid)
    ensures IsBlocked(SetState(s, x, state), pid) <==> (x == pid ==> state == BLOCKED)
  {
    PidsDistinct(s);
    QueuedElsewhere(s, pid);
    if Known(s, x) && Lookup(s, x).state != KILLED && !IsCurrent(s, x) {
      var i := Index(s.queue, x);
      UpdateInState(s.queue, i, s.queue[i].(state := state), pid);
    }
  }

  lemma ReplaceBlocked(s: Sched, x: nat, p: Proc, pid: nat)
    requires Inv(s) && IsBlocked(s, pid) && Known(s, x) && p.pid == x && p.state == Lookup(s, x).state
    ensures IsBlocked(Replace(s, x, p), pid)
  {
    PidsDistinct(s);
    QueuedElsewhere(s, pid);
    if !IsCurrent(s, x) {
      var i := Index(s.queue, x);
      UpdateInState(s.queue, i, p, pid);
    }
  }

  /** A scheduler call wakes nobody but the parent of a foreground child it reaps. */
  lemma TickBlocked(s: Sched, pid: nat)
    requires Inv(s) && IsBlocked(s, pid)
    ensures IsBlocked(Tick(s), pid) <==>
            !(s.current.Running? && s.current.proc.state == KILLED && IsFgChild(s, pid))
  {
    if !KeepsCpu(s) {
      SwitchInState(PutAway(s), pid);
      PutAwayBlocked(s, pid);
    }
  }

  lemma PutAwayBlocked(s: Sched, pid: nat)
    requires Inv(s) && IsBlocked(s, pid)
    ensures IsBlocked(PutAway(s), pid) <==>
            !(s.current.Running? && s.current.proc.state == KILLED && IsFgChild(s, pid))
  {
    QueuedElsewhere(s, pid);
    if s.current.Running? {
      var p := s.current.proc;
      if p.state != KILLED {
        assert forall v | v in s.queue :: v in s.queue + [p];
      } else {
        SetStateBlocked(s, p.ppid, READY, pid);
      }
    }
  }

  /** A process that goes to sleep is BLOCKED, and off the processor. */
  lemma CallerSleeps(s: Sched)
    requires Inv(s) && s.current.Running? && s.current.proc.state == READY
    ensures IsBlocked(BlockProcess(s, s.current.proc.pid), s.current.proc.pid)
  {
    var pid := s.current.proc.pid;
    var s1 := SetState(s, pid, BLOCKED);
    var q := PutAway(s1).queue;
    assert q[|s.queue|] in q;
    SwitchInState(PutAway(s1), pid);
  }

  lemma BlockBlocked(s: Sched, x: nat, pid: nat)
    requires Inv(s) && CurrentReady(s) && IsBlocked(s, pid)
    ensures IsBlocked(BlockProcess(s, x), pid)
  {
    SetStateBlocked(s, x, BLOCKED, pid);
    SetStateKeepsInv(s, x, BLOCKED);
    var s1 := SetState(s, x, BLOCKED);
    if IsCurrent(s1, x) {
      TickBlocked(s1, pid);
    }
  }

  lemma KillBlocked(s: Sched, x: nat, pid: nat)
    requires Inv(s) && CurrentReady(s) && IsBlocked(s, pid)
    ensures IsBlocked(KillProcess(s, x), pid) <==> !Wakes(s, Kill(x), pid)
  {
    if x > 2 {
      QueuedElsewhere(s, pid);
      if IsCurrent(s, x) {
        KillSelfBlocked(s, pid);
      } else {
        SetStateBlocked(s, x, KILLED, pid);
      }
    }
  }

  lemma KillSelfBlocked(s: Sched, pid: nat)
    requires Inv(s) && s.current.Running? && s.current.proc.state == READY && IsBlocked(s, pid)
    ensures IsBlocked(Tick(SetState(s, s.current.proc.pid, KILLED)), pid) <==> !IsFgChild(s, pid)
  {
    var x := s.current.proc.pid;
    SetStateKeepsInv(s, x, KILLED);
    TickBlocked(SetState(s, x, KILLED), pid);
  }

  lemma QueuedElsewhere(s: Sched, pid: nat)
    requires Inv(s) && IsBlocked(s, pid)
    ensures pid > 0 && !IsCurrent(s, pid) && Known(s, pid) && Lookup(s, pid).state == BLOCKED
  {
    PidsDistinct(s);
    var v :| v in s.queue && v.pid == pid && v.state == BLOCKED;
    var j: nat :| j < |s.queue| && s.queue[j] == v;
    assert Index(s.queue, pid) == j;
  }

  lemma AddBlocked(s: Sched, fg: int, pid: nat)
    requires Inv(s) && CurrentReady(s) && IsBlocked(s, pid)
    ensures IsBlocked(AddProcess(s, fg), pid)
  {
    if fg == 0 || fg == 1 {
      var p := NewProc(s, fg);
      var s' := s.(queue := s.queue + [p], nextPid := s.nextPid + 1, created := s.created + {p.pid});
      EnqueueKeepsInv(s, p);
      assert forall v | v in s.queue :: v in s'.queue;
      if p.fg && p.ppid != 0 {
        BlockBlocked(s', p.ppid, pid);
      }
    }
  }

  /** A BLOCKED process stays BLOCKED exactly until an operation wakes it. */
  lemma StepBlocked(s: Sched, op: Op, pid: nat)
    requires Inv(s) && CurrentReady(s) && IsBlocked(s, pid)
    ensures IsBlocked(Step(s, op), pid) <==> !Wakes(s, op, pid)
  {
    match op
    case TimerTick => TickBlocked(s, pid);
    case Yield =>
      assert IsBlocked(s.(cyclesLeft := 0), pid);
      TickBlocked(s.(cyclesLeft := 0), pid);
    case Add(fg) => AddBlocked(s, fg, pid);
    case Kill(x) => KillBlocked(s, x, pid);
    case Block(x) => BlockBlocked(s, x, pid);
    case Unblock(x) => SetStateBlocked(s, x, READY, pid);
    case Nice(x, priority) =>
      if Known(s, x) {
        ReplaceBlocked(s, x, Lookup(s, x).(priority := Clamp(priority)), pid);
      }
    case WaitFor(x) =>
      if Known(s, x) && s.current != Nobody {
        var p := Lookup(s, x).(fg := true);
        ReplaceBlocked(s, x, p, pid);
        ReplaceBounded(s, x, p);
        ReplaceConserves(s, x, p);
        BlockBlocked(Replace(s, x, p), CurrentProc(s).pid, pid);
      }
    case KillFg => KillFgBlocked(s, pid);
  }

  lemma KillFgBlocked(s: Sched, pid: nat)
    requires Inv(s) && CurrentReady(s) && IsBlocked(s, pid)
    ensures IsBlocked(KillFgProcess(s), pid) <==> !Wakes(s, KillFg, pid)
  {
    QueuedElsewhere(s, pid);
    if s.current != Nobody {
      KillBlocked(s, CurrentProc(s).pid, pid);
    }
  }

  lemma TickReady(s: Sched)
    requires CurrentReady(s) || !KeepsCpu(s)
    ensures CurrentReady(Tick(s))
  {}

  /** The running process is READY after every operation. */
  lemma StepReady(s: Sched, op: Op)
    requires CurrentReady(s)
    ensures CurrentReady(Step(s, op))
  {
    match op
    case Yield => TickReady(s.(cyclesLeft := 0));
    case WaitFor(pid) =>
      if Known(s, pid) && s.current != Nobody {
        var s1 := Replace(s, pid, Lookup(s, pid).(fg := true));
        assert CurrentReady(s1);
      }
    case _ =>
  }

  // ----- semaphores -----

  /** What has happened to a semaphore since it was made: its first value, the posts, the waits that
      passed without blocking, the processes that blocked, and those that were handed a token. */
  datatype History = History(initial: nat, posts: nat, passes: nat, arrivals: seq<nat>, handed: seq<nat>)

  /** struct Semaphore; `waiters` is blockedPIDs up to blockedPIDsSize. */
  datatype Sem = Sem(id: nat, value: nat, listeners: nat, waiters: seq<nat>, history: History)

  function NewSem(id: nat, initial: nat): Sem {
    Sem(id, initial, 0, [], History(initial, 0, 0, [], []))
  }

  /** sWait, on a semaphore: take a token, or queue up for one. */
  function Acquire(s: Sem, pid: nat): Sem {
    var h := s.history;
    if s.value > 0 then s.(value := s.value - 1, history := h.(passes := h.passes + 1))
    else s.(waiters := s.waiters + [pid], history := h.(arrivals := h.arrivals + [pid]))
  }

  /** sPost, on a semaphore: hand the token to the first waiter, or bank it. */
  function Release(s: Sem): Sem {
    var h := s.history;
    if s.waiters != []
    then s.(waiters := s.waiters[1..], history := h.(posts := h.posts + 1, handed := h.handed + [s.waiters[0]]))
    else s.(value := (s.value + 1) % WORD, history := h.(posts := h.posts + 1))
  }

  ghost predicate NoRepeats(q: seq<nat>) {
    forall i: nat, j: nat | i < j < |q| :: q[i] != q[j]
  }

  /** Tokens are conserved: those there were at first and those posted are still there, or were taken
      by a wait that passed, or were handed to a waiter; and waiters are handed theirs in the order in
      which they came. */
  ghost predicate SemInv(s: Sem) {
    var h := s.history;
    && s.value < WORD
    && 1 <= s.listeners <= MAX_BLOCKED_PIDS && |s.waiters| <= MAX_BLOCKED_PIDS
    && (s.value > 0 ==> s.waiters == [])
    && (h.initial + h.posts) % WORD == (s.value + h.passes + |h.handed|) % WORD
    && h.arrivals == h.handed + s.waiters
    && NoRepeats(s.waiters)
  }

  lemma AcquireKeepsInv(s: Sem, pid: nat)
    requires SemInv(s) && pid !in s.waiters && (s.value > 0 || |s.waiters| < MAX_BLOCKED_PIDS)
    ensures SemInv(Acquire(s, pid))
  {
    assert s.history.arrivals + [pid] == s.history.handed + (s.waiters + [pid]);
  }

  lemma ReleaseKeepsInv(s: Sem)
    requires SemInv(s)
    ensures SemInv(Release(s))
  {
    var h := s.history;
    if s.waiters != [] {
      assert h.handed + s.waiters == (h.handed + [s.waiters[0]]) + s.waiters[1..];
      ModPlusOne(h.initial + h.posts, s.value + h.passes + |h.handed|);
    } else {
      ModPlusOne(h.initial + h.posts, s.value + h.passes + |h.handed|);
      ModLeft(s.value + 1, h.passes + |h.handed|);
    }
  }

  lemma ModPlusOne(a: nat, b: nat)
    requires a % WORD == b % WORD
    ensures (a + 1) % WORD == (b + 1) % WORD
  {}

  lemma ModLeft(a: nat, b: nat)
    ensures (a % WORD + b) % WORD == (a + b) % WORD
  {}

  // ----- the joint machine -----

  /** The scheduler, the list of semaphores, and the processes that went to sleep in sWait and were
      not handed a token yet. */
  datatype World = World(sched: Sched, sems: seq<Sem>, asleep: set<nat>)

  datatype Call =
    | Scheduler(op: Op)
    | OpenSem(id: nat, initial: nat)
    | WaitSem(id: nat)
    | PostSem(id: nat)
    | CloseSem(id: nat)

  /** findSem. */
  function Find(sems: seq<Sem>, id: nat): (i: nat)
    ensures i <= |sems|
    ensures i < |sems| ==> sems[i].id == id
    ensures forall j: nat | j < i :: sems[j].id != id
  {
    if sems == [] || sems[0].id == id then 0 else 1 + Find(sems[1..], id)
  }

  predicate Exists(w: World, id: nat) {
    Find(w.sems, id) < |w.sems|
  }

  /** sOpen. A semaphore that is not there is made first. */
  function Open(sems: seq<Sem>, id: nat, initial: nat): seq<Sem> {
    var all := if Find(sems, id) < |sems| then sems else sems + [NewSem(id, initial)];
    var i := Find(sems, id);
    if all[i].listeners >= MAX_BLOCKED_PIDS then all
    else all[i := all[i].(listeners := all[i].listeners + 1)]
  }

  /** sWait, by the current process. */
  function Take(w: World, id: nat): World
    requires w.sched.current.Running?
  {
    var i, pid := Find(w.sems, id), w.sched.current.proc.pid;
    if i == |w.sems| then w
    else if w.sems[i].value > 0 then w.(sems := w.sems[i := Acquire(w.sems[i], pid)])
    else World(BlockProcess(w.sched, pid), w.sems[i := Acquire(w.sems[i], pid)], w.asleep + {pid})
  }

  /** sPost. */
  function Post(w: World, id: nat): World {
    var i := Find(w.sems, id);
    if i == |w.sems| then w
    else if w.sems[i].waiters == [] then w.(sems := w.sems[i := Release(w.sems[i])])
    else
      var pid := w.sems[i].waiters[0];
      World(SetState(w.sched, pid, READY), w.sems[i := Release(w.sems[i])], w.asleep - {pid})
  }

  /** sClose. The last listener frees the semaphore. */
  function Close(sems: seq<Sem>, id: nat): seq<Sem> {
    var i := Find(sems, id);
    if i == |sems| then sems
    else if sems[i].listeners > 1 then sems[i := sems[i].(listeners := sems[i].listeners - 1)]
    else sems[..i] + sems[i + 1..]
  }

  /** The calls that make sense: a process waits, and values are machine words. */
  predicate Callable(w: World, call: Call) {
    match call
    case OpenSem(_, initial) => initial < WORD
    case WaitSem(_) => w.sched.current.Running?
    case _ => true
  }

  /** blockedPIDs has a place for one more, if the wait blocks at all. sWait does not look. */
  predicate HasRoom(w: World, id: nat) {
    Exists(w, id) ==>
      var s := w.sems[Find(w.sems, id)];
      s.value > 0 || |s.waiters| < MAX_BLOCKED_PIDS
  }

  /** A process waits, and there is room for it. */
  predicate MayWait(w: World, id: nat) {
    w.sched.current.Running? && HasRoom(w, id)
  }

  function Do(w: World, call: Call): World
    requires Callable(w, call)
  {
    match call
    case Scheduler(op) => w.(sched := Step(w.sched, op))
    case OpenSem(id, initial) => w.(sems := Open(w.sems, id, initial))
    case WaitSem(id) => Take(w, id)
    case PostSem(id) => Post(w, id)
    case CloseSem(id) => w.(sems := Close(w.sems, id))
  }

  /** What the semaphores rely on: nobody wakes or kills a waiter from outside, no more processes wait
      than there are places, and no semaphore is freed while processes wait on it. */
  predicate Allowed(w: World, call: Call) {
    match call
    case Scheduler(op) => forall pid | pid in w.asleep :: !Wakes(w.sched, op, pid)
    case WaitSem(id) => HasRoom(w, id)
    case CloseSem(id) =>
      Exists(w, id) ==>
        var s := w.sems[Find(w.sems, id)];
        s.listeners > 1 || s.waiters == []
    case _ => true
  }

  ghost predicate Listed(sems: seq<Sem>, pid: nat) {
    exists i: nat :: i < |sems| && pid in sems[i].waiters
  }

  /** Ids are distinct, and nobody waits in two places. */
  ghost predicate Separate(sems: seq<Sem>) {
    && (forall i: nat, j: nat | i < j < |sems| :: sems[i].id != sems[j].id)
    && (forall i: nat, j: nat, pid | i < j < |sems| && pid in sems[i].waiters :: pid !in sems[j].waiters)
  }

  /** No lost wakeup: a process sleeps on a semaphore exactly when it is on that semaphore's list, and
      then the scheduler has it BLOCKED. */
  ghost predicate JointInv(w: World) {
    && Inv(w.sched) && CurrentReady(w.sched)
    && (forall i: nat | i < |w.sems| :: SemInv(w.sems[i]))
    && Separate(w.sems)
    && (forall pid :: pid in w.asleep <==> Listed(w.sems, pid))
    && (forall pid | pid in w.asleep :: IsBlocked(w.sched, pid))
  }

  lemma UpdateSeparate(sems: seq<Sem>, i: nat, t: Sem)
    requires Separate(sems) && i < |sems| && t.id == sems[i].id
    requires forall pid | pid in t.waiters :: pid in sems[i].waiters || !Listed(sems, pid)
    ensures Separate(sems[i := t])
  {
    var r := sems[i := t];
    forall a: nat, b: nat, pid | a < b < |sems| && pid in r[a].waiters
      ensures pid !in r[b].waiters
    {
      if pid in r[b].waiters {
        assert a != i ==> pid in sems[a].waiters;
        assert b != i ==> pid in sems[b].waiters;
        assert Listed(sems, pid);
      }
    }
  }

  lemma UpdateListed(sems: seq<Sem>, i: nat, t: Sem)
    requires Separate(sems) && i < |sems|
    ensures forall pid ::
              Listed(sems[i := t], pid) <==> pid in t.waiters || (Listed(sems, pid) && pid !in sems[i].waiters)
  {
    var r := sems[i := t];
    forall pid
      ensures Listed(r, pid) <==> pid in t.waiters || (Listed(sems, pid) && pid !in sems[i].waiters)
    {
      if Listed(sems, pid) && pid !in sems[i].waiters {
        var j: nat :| j < |sems| && pid in sems[j].waiters;
        assert r[j] == sems[j];
      }
      if pid in t.waiters {
        assert r[i] == t;
      }
      if Listed(r, pid) && pid !in t.waiters {
        var j: nat :| j < |r| && pid in r[j].waiters;
        assert r[j] == sems[j];
        assert pid !in sems[i].waiters;
      }
    }
  }

  /** Where the list changes in one place, the rest of the invariant follows. */
  lemma UpdateJoint(w: World, w': World, i: nat, t: Sem)
    requires JointInv(w) && i < |w.sems| && w'.sems == w.sems[i := t]
    requires SemInv(t) && t.id == w.sems[i].id
    requires forall pid | pid in t.waiters :: pid in w.sems[i].waiters || !Listed(w.sems, pid)
    requires forall pid :: pid in w'.asleep <==> pid in t.waiters || (pid in w.asleep && pid !in w.sems[i].waiters)
    requires Inv(w'.sched) && CurrentReady(w'.sched) && forall pid | pid in w'.asleep :: IsBlocked(w'.sched, pid)
    ensures JointInv(w')
  {
    UpdateSeparate(w.sems, i, t);
    UpdateListed(w.sems, i, t);
  }

  lemma RunningAwake(w: World)
    requires JointInv(w) && w.sched.current.Running?
    ensures w.sched.current.proc.pid !in w.asleep
  {
    var pid := w.sched.current.proc.pid;
    if pid in w.asleep {
      QueuedElsewhere(w.sched, pid);
    }
  }

  /** The caller goes to sleep, and the sleepers stay BLOCKED. */
  lemma FallAsleep(w: World)
    requires JointInv(w) && w.sched.current.Running?
    ensures var pid := w.sched.current.proc.pid; var s := BlockProcess(w.sched, pid);
            Inv(s) && CurrentReady(s) && pid !in w.asleep && forall p | p in w.asleep + {pid} :: IsBlocked(s, p)
  {
    var pid := w.sched.current.proc.pid;
    hide Listed, Separate, SemInv;
    RunningAwake(w);
    CallerSleeps(w.sched);
    StepReady(w.sched, Block(pid));
    BlockKeepsInv(w.sched, pid);
    forall p | p in w.asleep ensures IsBlocked(BlockProcess(w.sched, pid), p) {
      BlockBlocked(w.sched, pid, p);
    }
  }

  lemma TakeKeepsJoint(w: World, id: nat)
    requires JointInv(w) && MayWait(w, id)
    ensures JointInv(Take(w, id))
  {
    var i, pid := Find(w.sems, id), w.sched.current.proc.pid;
    if i < |w.sems| {
      FallAsleep(w);
      AsleepListed(w, i);
      AcquireKeepsInv(w.sems[i], pid);
      hide Inv, IsBlocked, BlockProcess, CurrentReady, Find;
      UpdateJoint(w, Take(w, id), i, Acquire(w.sems[i], pid));
    }
  }

  /** A wait keeps the invariant exactly when there is room. */
  lemma TakeJoint(w: World, id: nat)
    requires JointInv(w) && w.sched.current.Running?
    ensures JointInv(Take(w, id)) <==> HasRoom(w, id)
  {
    if HasRoom(w, id) {
      TakeKeepsJoint(w, id);
    } else {
      assert !SemInv(Take(w, id).sems[Find(w.sems, id)]);
    }
  }

  lemma AsleepListed(w: World, i: nat)
    requires JointInv(w) && i < |w.sems|
    ensures forall pid | pid in w.sems[i].waiters :: pid in w.asleep && Listed(w.sems, pid)
    ensures forall pid | Listed(w.sems, pid) :: pid in w.asleep
  {
    forall pid | pid in w.sems[i].waiters ensures Listed(w.sems, pid) {}
  }

  /** Waking the first waiter leaves the other sleepers BLOCKED. */
  lemma HandOver(w: World, pid: nat)
    requires JointInv(w) && pid in w.asleep
    ensures var s := SetState(w.sched, pid, READY);
            Inv(s) && CurrentReady(s) && forall p | p in w.asleep && p != pid :: IsBlocked(s, p)
  {
    SetStateKeepsInv(w.sched, pid, READY);
    StepReady(w.sched, Unblock(pid));
    forall p | p in w.asleep && p != pid ensures IsBlocked(SetState(w.sched, pid, READY), p) {
      SetStateBlocked(w.sched, pid, READY, p);
    }
  }

  lemma PostKeepsJoint(w: World, id: nat)
    requires JointInv(w)
    ensures JointInv(Post(w, id))
  {
    var i := Find(w.sems, id);
    if i < |w.sems| {
      var s := w.sems[i];
      ReleaseKeepsInv(s);
      AsleepListed(w, i);
      if s.waiters != [] {
        HandOver(w, s.waiters[0]);
        FirstLeaves(s.waiters);
      }
      hide Inv, IsBlocked, SetState, SemInv, CurrentReady, Find;
      UpdateJoint(w, Post(w, id), i, Release(s));
    }
  }

  lemma FirstLeaves(q: seq<nat>)
    requires q != [] && NoRepeats(q)
    ensures forall x :: x in q[1..] <==> x in q && x != q[0]
  {
    assert q == [q[0]] + q[1..];
  }

  lemma OpenKeepsJoint(w: World, id: nat, initial: nat)
    requires JointInv(w) && initial < WORD
    ensures JointInv(w.(sems := Open(w.sems, id, initial)))
  {
    var i := Find(w.sems, id);
    if i == |w.sems| {
      OpenMakes(w.sems, id, initial);
      AppendJoint(w, NewSem(id, initial).(listeners := 1));
    } else if w.sems[i].listeners < MAX_BLOCKED_PIDS {
      AddListener(w, i);
    }
    hide JointInv;
  }

  lemma OpenMakes(sems: seq<Sem>, id: nat, initial: nat)
    requires Find(sems, id) == |sems|
    ensures Open(sems, id, initial) == sems + [NewSem(id, initial).(listeners := 1)]
  {}

  lemma AddListener(w: World, i: nat)
    requires JointInv(w) && i < |w.sems| && w.sems[i].listeners < MAX_BLOCKED_PIDS
    ensures JointInv(w.(sems := w.sems[i := w.sems[i].(listeners := w.sems[i].listeners + 1)]))
  {
    AsleepListed(w, i);
    hide Inv, IsBlocked, CurrentReady, Find;
    var t := w.sems[i].(listeners := w.sems[i].listeners + 1);
    UpdateJoint(w, w.(sems := w.sems[i := t]), i, t);
  }

  lemma AppendJoint(w: World, t: Sem)
    requires JointInv(w) && SemInv(t) && t.waiters == [] && Find(w.sems, t.id) == |w.sems|
    ensures JointInv(w.(sems := w.sems + [t]))
  {
    AppendListed(w.sems, t);
    hide Inv, IsBlocked, CurrentReady, Listed;
  }

  lemma AppendListed(sems: seq<Sem>, t: Sem)
    requires t.waiters == []
    ensures forall pid :: Listed(sems + [t], pid) <==> Listed(sems, pid)
  {
    var r := sems + [t];
    forall pid ensures Listed(r, pid) <==> Listed(sems, pid) {
      if j: nat :| j < |sems| && pid in sems[j].waiters {
        assert r[j] == sems[j];
      }
    }
  }

  lemma CloseJoint(w: World, id: nat)
    requires JointInv(w)
    ensures JointInv(w.(sems := Close(w.sems, id))) <==> Allowed(w, CloseSem(id))
  {
    var i, n := Find(w.sems, id), |w.sems|;
    var w' := w.(sems := Close(w.sems, id));
    if i < n {
      AsleepListed(w, i);
      var s := w.sems[i];
      if s.listeners > 1 {
        UpdateJoint(w, w', i, s.(listeners := s.listeners - 1));
      } else {
        RemoveListed(w.sems, i);
        if s.waiters == [] {
          RemoveSeparate(w.sems, i);
        } else {
          hide Separate, SemInv, Inv, IsBlocked, CurrentReady, Find;
          assert s.waiters[0] in w'.asleep && !Listed(w'.sems, s.waiters[0]);
        }
      }
    }
  }

  lemma RemoveListed(sems: seq<Sem>, i: nat)
    requires Separate(sems) && i < |sems|
    ensures forall pid :: Listed(sems[..i] + sems[i + 1..], pid) <==> Listed(sems, pid) && pid !in sems[i].waiters
  {
    var r := sems[..i] + sems[i + 1..];
    forall pid ensures Listed(r, pid) <==> Listed(sems, pid) && pid !in sems[i].waiters {
      if Listed(sems, pid) && pid !in sems[i].waiters {
        var j: nat :| j < |sems| && pid in sems[j].waiters;
        assert sems[j] == if j < i then r[j] else r[j - 1];
      }
      if Listed(r, pid) {
        var j: nat :| j < |r| && pid in r[j].waiters;
        assert r[j] == if j < i then sems[j] else sems[j + 1];
      }
    }
  }

  lemma RemoveSeparate(sems: seq<Sem>, i: nat)
    requires Separate(sems) && i < |sems|
    ensures Separate(sems[..i] + sems[i + 1..])
  {
    var r := sems[..i] + sems[i + 1..];
    assert forall j: nat | j < |r| :: r[j] == if j < i then sems[j] else sems[j + 1];
  }

  lemma SchedulerJoint(w: World, op: Op)
    requires JointInv(w)
    ensures JointInv(w.(sched := Step(w.sched, op))) <==> Allowed(w, Scheduler(op))
  {
    assert Inv(w.sched) && CurrentReady(w.sched) && forall pid | pid in w.asleep :: IsBlocked(w.sched, pid);
    hide JointInv, Inv, CurrentReady, IsBlocked, Wakes, Step;
    SchedulerParts(w, Step(w.sched, op));
    StepKeepsInv(w.sched, op);
    StepReady(w.sched, op);
    forall pid | pid in w.asleep ensures IsBlocked(Step(w.sched, op), pid) <==> !Wakes(w.sched, op, pid) {
      StepBlocked(w.sched, op, pid);
    }
  }

  /** What the invariant asks of a scheduler that has moved. */
  lemma SchedulerParts(w: World, s: Sched)
    requires JointInv(w)
    ensures JointInv(w.(sched := s)) <==> Inv(s) && CurrentReady(s) && forall pid | pid in w.asleep :: IsBlocked(s, pid)
  {
    hide Inv, CurrentReady, IsBlocked, SemInv, Separate, Listed;
  }

  /** A call keeps the joint invariant exactly when it is allowed. */
  lemma KeepsJointIffAllowed(w: World, call: Call)
    requires JointInv(w) && Callable(w, call)
    ensures JointInv(Do(w, call)) <==> Allowed(w, call)
  {
    match call
    case Scheduler(op) => SchedulerJoint(w, op);
    case OpenSem(id, initial) => OpenKeepsJoint(w, id, initial);
    case WaitSem(id) => TakeJoint(w, id);
    case PostSem(id) => PostKeepsJoint(w, id);
    case CloseSem(id) => CloseJoint(w, id);
  }

  // ----- whole runs -----

  /** Every call of the run makes sense and is allowed where it is made. */
  predicate Legal(w: World, calls: seq<Call>)
    decreases |calls|
  {
    calls == [] || (Callable(w, calls[0]) && Allowed(w, calls[0]) && Legal(Do(w, calls[0]), calls[1..]))
  }

  function DoAll(w: World, calls: seq<Call>): World
    requires Legal(w, calls)
    decreases |calls|
  {
    if calls == [] then w else DoAll(Do(w, calls[0]), calls[1..])
  }

  lemma {:induction false} DoAllKeepsJoint(w: World, calls: seq<Call>)
    requires JointInv(w) && Legal(w, calls)
    ensures JointInv(DoAll(w, calls))
    decreases |calls|
  {
    if calls != [] {
      KeepsJointIffAllowed(w, calls[0]);
      DoAllKeepsJoint(Do(w, calls[0]), calls[1..]);
    }
  }

  /** No wakeup is lost in any run from boot. */
  lemma NoLostWakeup(calls: seq<Call>)
    requires Legal(World(Initial(), [], {}), calls)
    ensures JointInv(DoAll(World(Initial(), [], {}), calls))
  {
    assert JointInv(World(Initial(), [], {}));
    DoAllKeepsJoint(World(Initial(), [], {}), calls);
  }

  // ----- waiters are served -----

  /** Who waits on a semaphore, if there is one with that id. */
  function WaitersOf(w: World, id: nat): seq<nat> {
    if Exists(w, id) then w.sems[Find(w.sems, id)].waiters else []
  }

  lemma FindIs(sems: seq<Sem>, id: nat, i: nat)
    requires Separate(sems) && i < |sems| && sems[i].id == id
    ensures Find(sems, id) == i
  {}

  /** The semaphore with an id. */
  function At(w: World, id: nat): Sem
    requires Exists(w, id)
  {
    w.sems[Find(w.sems, id)]
  }

  /** The same semaphore, but perhaps for the number of listeners. */
  predicate SameTokens(s: Sem, t: Sem) {
    t == s.(listeners := t.listeners)
  }

  lemma AtUpdate(w: World, w': World, i: nat, t: Sem, id: nat)
    requires Separate(w.sems) && i < |w.sems| && t.id == w.sems[i].id && w'.sems == w.sems[i := t]
    ensures Exists(w', id) <==> Exists(w, id)
    ensures Exists(w, id) ==> At(w', id) == if w.sems[i].id == id then t else At(w, id)
  {
    var j := Find(w.sems, id);
    assert forall a: nat, b: nat | a < b < |w.sems| :: w'.sems[a].id != w'.sems[b].id;
    if j < |w.sems| {
      assert w'.sems[j].id == id;
    }
  }

  lemma AtRemove(w: World, w': World, i: nat, id: nat)
    requires Separate(w.sems) && i < |w.sems| && w'.sems == w.sems[..i] + w.sems[i + 1..]
    ensures Exists(w', id) <==> Exists(w, id) && id != w.sems[i].id
    ensures Exists(w', id) ==> At(w', id) == At(w, id)
  {
    var j := Find(w.sems, id);
    RemoveSeparate(w.sems, i);
    assert forall a: nat | a < |w'.sems| :: w'.sems[a] == if a < i then w.sems[a] else w.sems[a + 1];
    if j < |w.sems| && j != i {
      FindIs(w'.sems, id, if j < i then j else j - 1);
    }
  }

  lemma AtClose(w: World, id: nat, x: nat)
    requires JointInv(w) && Exists(w, id) && (x == id ==> At(w, id).listeners > 1)
    ensures var w' := w.(sems := Close(w.sems, x));
            Exists(w', id) && SameTokens(At(w, id), At(w', id))
  {
    var i := Find(w.sems, x);
    var w' := w.(sems := Close(w.sems, x));
    if i < |w.sems| {
      hide JointInv;
      if w.sems[i].listeners > 1 {
        AtUpdate(w, w', i, w.sems[i].(listeners := w.sems[i].listeners - 1), id);
      } else {
        AtRemove(w, w', i, id);
      }
    }
  }

  lemma AtOpen(w: World, id: nat, x: nat, initial: nat)
    requires JointInv(w) && Exists(w, id)
    ensures var w' := w.(sems := Open(w.sems, x, initial));
            Exists(w', id) && SameTokens(At(w, id), At(w', id))
  {
    var i := Find(w.sems, x);
    var w' := w.(sems := Open(w.sems, x, initial));
    if i < |w.sems| {
      if w.sems[i].listeners < MAX_BLOCKED_PIDS {
        AtUpdate(w, w', i, w.sems[i].(listeners := w.sems[i].listeners + 1), id);
      }
    } else {
      AtAppend(w, w', NewSem(x, initial).(listeners := 1), id);
    }
  }

  lemma AtAppend(w: World, w': World, t: Sem, id: nat)
    requires w'.sems == w.sems + [t] && Exists(w, id)
    ensures Exists(w', id) && At(w', id) == At(w, id)
  {
    var j := Find(w.sems, id);
    FirstAt(w'.sems, id, j);
  }

  lemma FirstAt(sems: seq<Sem>, id: nat, i: nat)
    requires i < |sems| && sems[i].id == id && forall j: nat | j < i :: sems[j].id != id
    ensures Find(sems, id) == i
  {}

  /** What a semaphore makes of a call: waits and posts on it do what they should, and nothing else
      touches its tokens or its waiters. */
  lemma AtStep(w: World, call: Call, id: nat)
    requires JointInv(w) && Callable(w, call) && Exists(w, id)
    requires call == CloseSem(id) ==> At(w, id).listeners > 1
    ensures var w' := Do(w, call);
            Exists(w', id) &&
            SameTokens(if call == WaitSem(id) then Acquire(At(w, id), w.sched.current.proc.pid)
                       else if call == PostSem(id) then Release(At(w, id)) else At(w, id), At(w', id))
  {
    match call
    case Scheduler(op) =>
    case OpenSem(x, initial) => AtOpen(w, id, x, initial);
    case CloseSem(x) => AtClose(w, id, x);
    case WaitSem(x) =>
      var i := Find(w.sems, x);
      if i < |w.sems| {
        AtUpdate(w, Do(w, call), i, Acquire(w.sems[i], w.sched.current.proc.pid), id);
      }
    case PostSem(x) =>
      var i := Find(w.sems, x);
      if i < |w.sems| {
        AtUpdate(w, Do(w, call), i, Release(w.sems[i]), id);
      }
  }

  /** Only a wait puts anyone to sleep. */
  lemma AsleepStep(w: World, call: Call)
    requires Callable(w, call)
    ensures forall pid | pid in Do(w, call).asleep ::
              pid in w.asleep || (call.WaitSem? && pid == w.sched.current.proc.pid)
  {}

  lemma OpenOther(w: World, id: nat, initial: nat, other: nat)
    requires !Exists(w, id) && !Exists(w, other) && id != other
    ensures !Exists(w.(sems := Open(w.sems, id, initial)), other)
  {
    var sems := Open(w.sems, id, initial);
    assert sems == w.sems + [NewSem(id, initial).(listeners := 1)];
    assert forall k: nat | k < |sems| :: sems[k].id != other;
  }

  /** A call that is not about a semaphore leaves it as it is, or not there. */
  lemma AtOther(w: World, call: Call, id: nat)
    requires JointInv(w) && Callable(w, call)
    requires call.Scheduler? || call.id != id
    ensures var w' := Do(w, call);
            (Exists(w', id) <==> Exists(w, id)) && (Exists(w, id) ==> At(w', id) == At(w, id))
  {
    match call
    case Scheduler(op) =>
    case OpenSem(x, initial) =>
      var i := Find(w.sems, x);
      if i == |w.sems| {
        OpenMakes(w.sems, x, initial);
        if Exists(w, id) {
          AtAppend(w, Do(w, call), NewSem(x, initial).(listeners := 1), id);
        } else {
          OpenOther(w, x, initial, id);
        }
      } else if w.sems[i].listeners < MAX_BLOCKED_PIDS {
        AtUpdate(w, Do(w, call), i, w.sems[i].(listeners := w.sems[i].listeners + 1), id);
      }
    case CloseSem(x) => AtCloseOther(w, x, id);
    case WaitSem(x) =>
      var i := Find(w.sems, x);
      if i < |w.sems| {
        AtUpdate(w, Do(w, call), i, Acquire(w.sems[i], w.sched.current.proc.pid), id);
      }
    case PostSem(x) =>
      var i := Find(w.sems, x);
      if i < |w.sems| {
        AtUpdate(w, Do(w, call), i, Release(w.sems[i]), id);
      }
  }

  lemma AtCloseOther(w: World, x: nat, id: nat)
    requires JointInv(w) && x != id
    ensures var w' := w.(sems := Close(w.sems, x));
            (Exists(w', id) <==> Exists(w, id)) && (Exists(w, id) ==> At(w', id) == At(w, id))
  {
    var i := Find(w.sems, x);
    var w' := w.(sems := Close(w.sems, x));
    if i < |w.sems| {
      if w.sems[i].listeners > 1 {
        AtUpdate(w, w', i, w.sems[i].(listeners := w.sems[i].listeners - 1), id);
      } else {
        AtRemove(w, w', i, id);
      }
    }
  }

  /** A list of waiters loses only its head, to a post, and grows only at its end. */
  lemma WaitersStep(w: World, call: Call, id: nat)
    requires JointInv(w) && Callable(w, call) && Allowed(w, call) && WaitersOf(w, id) != []
    ensures var q, q' := WaitersOf(w, id), WaitersOf(Do(w, call), id);
            if call == PostSem(id) then q' == q[1..] else q <= q'
  {
    hide JointInv;
    AtStep(w, call, id);
  }

  /** The process has its token: it sleeps no more, and stands READY in the queue. */
  ghost predicate Granted(w: World, pid: nat) {
    pid !in w.asleep && exists j: nat :: Queued(w.sched, pid, j)
  }

  /** A post gives the first waiter its token. */
  lemma PostGrants(w: World, id: nat)
    requires JointInv(w) && WaitersOf(w, id) != []
    ensures Granted(Post(w, id), WaitersOf(w, id)[0])
  {
    var i := Find(w.sems, id);
    var pid := w.sems[i].waiters[0];
    AsleepListed(w, i);
    assert pid in w.sems[i].waiters;
    QueuedElsewhere(w.sched, pid);
    assert Queued(Post(w, id).sched, pid, Index(w.sched.queue, pid));
  }

  function Posts(calls: seq<Call>, id: nat): nat {
    if calls == [] then 0 else (if calls[0] == PostSem(id) then 1 else 0) + Posts(calls[1..], id)
  }

  function StateAfter(w: World, calls: seq<Call>, n: nat): World
    requires Legal(w, calls) && n <= |calls|
    decreases n
  {
    if n == 0 then w else StateAfter(Do(w, calls[0]), calls[1..], n - 1)
  }

  /** Posts reach the waiters in order: the one with k others in front of it has its token by the time
      of the (k + 1)st post, whatever else happens meanwhile. */
  lemma {:induction false} WaiterServed(w: World, calls: seq<Call>, id: nat, k: nat)
    requires JointInv(w) && Legal(w, calls) && k < |WaitersOf(w, id)| && Posts(calls, id) > k
    ensures exists n: nat :: n <= |calls| && Granted(StateAfter(w, calls, n), WaitersOf(w, id)[k])
    decreases |calls|
  {
    hide JointInv, WaitersOf, Granted, Do, Allowed;
    var call, rest := calls[0], calls[1..];
    var w' := Do(w, call);
    KeepsJointIffAllowed(w, call);
    WaitersStep(w, call, id);
    var pid := WaitersOf(w, id)[k];
    var n: nat;
    if call == PostSem(id) && k == 0 {
      PostGrants(w, id);
      assert w' == Post(w, id) by { PostIsDo(w, id); }
      n := 1;
      assert StateAfter(w', rest, 0) == w';
    } else {
      var k' := if call == PostSem(id) then k - 1 else k;
      assert WaitersOf(w', id)[k'] == pid;
      WaiterServed(w', rest, id, k');
      var n': nat :| n' <= |rest| && Granted(StateAfter(w', rest, n'), pid);
      n := n' + 1;
    }
    assert Granted(StateAfter(w, calls, n), pid);
  }

  lemma PostIsDo(w: World, id: nat)
    ensures Do(w, PostSem(id)) == Post(w, id)
  {}

  // ----- woken waiters run -----

  /** What a call asks of the scheduler, if anything. */
  function OpsOf(w: World, call: Call): seq<Op>
    requires Callable(w, call)
  {
    match call
    case Scheduler(op) => [op]
    case WaitSem(id) => if Exists(w, id) && At(w, id).value == 0 then [Block(w.sched.current.proc.pid)] else []
    case PostSem(id) => if WaitersOf(w, id) != [] then [Unblock(WaitersOf(w, id)[0])] else []
    case _ => []
  }

  function AllOps(w: World, calls: seq<Call>): seq<Op>
    requires Legal(w, calls)
    decreases |calls|
  {
    if calls == [] then [] else OpsOf(w, calls[0]) + AllOps(Do(w, calls[0]), calls[1..])
  }

  lemma DoIsOps(w: World, call: Call)
    requires Callable(w, call)
    ensures Do(w, call).sched == Run(w.sched, OpsOf(w, call)) && |OpsOf(w, call)| <= 1
  {
    var ops := OpsOf(w, call);
    if ops != [] {
      assert ops[1..] == [];
      assert Run(Step(w.sched, ops[0]), []) == Step(w.sched, ops[0]);
    }
  }

  /** A process that some prefix of the scheduler's operations brings to run, some prefix of the calls
      does. */
  lemma {:induction false} RunsAfterCalls(w: World, calls: seq<Call>, m: nat, pid: nat)
    requires Legal(w, calls) && m <= |AllOps(w, calls)| && IsRunning(Run(w.sched, AllOps(w, calls)[..m]), pid)
    ensures exists n: nat :: n <= |calls| && IsRunning(StateAfter(w, calls, n).sched, pid)
    decreases |calls|
  {
    var all := AllOps(w, calls);
    if m == 0 {
      assert all[..0] == [];
      assert IsRunning(StateAfter(w, calls, 0).sched, pid);
    } else {
      var w', rest, ops := Do(w, calls[0]), calls[1..], OpsOf(w, calls[0]);
      DoIsOps(w, calls[0]);
      var later := AllOps(w', rest);
      assert all == ops + later;
      hide Do, OpsOf, AllOps, Step, IsRunning;
      var k := m - |ops|;
      if ops != [] {
        assert all[..m][0] == ops[0] && all[..m][1..] == later[..k];
        assert ops[1..] == [];
      } else {
        assert all[..m] == later[..k];
      }
      RunsAfterCalls(w', rest, k, pid);
      var n: nat :| n <= |rest| && IsRunning(StateAfter(w', rest, n).sched, pid);
      assert StateAfter(w, calls, n + 1) == StateAfter(w', rest, n);
    }
  }

  /** A waiter that was handed its token, with j others queued before it, goes on within
      (PRIO_CAP + 1) * (j + 1) scheduler calls, whatever is asked of the semaphores and the scheduler
      meanwhile. */
  lemma WokenRuns(w: World, calls: seq<Call>, pid: nat, j: nat)
    requires Inv(w.sched) && Queued(w.sched, pid, j) && Legal(w, calls) && LeavesAlone(AllOps(w, calls), pid)
    requires SchedulerCalls(w.sched, AllOps(w, calls)) >= (PRIO_CAP + 1) * (j + 1)
    ensures exists n: nat :: n <= |calls| && IsRunning(StateAfter(w, calls, n).sched, pid)
  {
    var all := AllOps(w, calls);
    BoundedWaiting(w.sched, all, pid, j);
    var m: nat :| m <= |all| && IsRunning(Run(w.sched, all[..m]), pid);
    RunsAfterCalls(w, calls, m, pid);
  }

  /** Where only listeners wait, and each opened the semaphore once, blockedPIDs has room for a
      listener that comes to wait. */
  lemma OpenersFit(s: Sem, openers: set<nat>, pid: nat)
    requires SemInv(s) && |openers| == s.listeners
    requires (forall p | p in s.waiters :: p in openers) && pid in openers && pid !in s.waiters
    ensures |s.waiters| < MAX_BLOCKED_PIDS
  {
    CountDistinct(s.waiters);
    CountSubset(Elements(s.waiters), openers - {pid});
  }

  ghost function Elements(q: seq<nat>): set<nat> {
    set p | p in q
  }

  lemma {:induction false} CountDistinct(q: seq<nat>)
    requires NoRepeats(q)
    ensures |Elements(q)| == |q|
  {
    if q != [] {
      CountDistinct(q[1..]);
      FirstLeaves(q);
      assert Elements(q) == {q[0]} + Elements(q[1..]);
    }
  }

  lemma {:induction false} CountSubset(a: set<nat>, b: set<nat>)
    requires a <= b
    ensures |a| <= |b|
  {
    if a != {} {
      var x :| x in a;
      CountSubset(a - {x}, b - {x});
    }
  }

  // ----- calls that are not allowed -----

  /** A run from boot: two processes are made, the first runs, opens a semaphore without tokens and
      waits on it. */
  function SleeperRun(): seq<Call> {
    [Scheduler(Add(0)), Scheduler(Add(0)), Scheduler(TimerTick), OpenSem(7, 0), WaitSem(7)]
  }

  function Boot(): World {
    World(Initial(), [], {})
  }

  lemma BootIs()
    ensures Boot() == World(Initial(), [], {})
  {}

  /** What the run leads to: the second process runs, and the first one sleeps. */
  function SleeperWorld(): World {
    var p, q := Proc(1, 0, false, 1, BLOCKED), Proc(2, 0, false, 1, READY);
    World(Sched([p], Running(q), Initial().idle, 1, 3, {1, 2}, []),
          [Sem(7, 0, 1, [1], History(0, 0, 0, [1], []))], {1})
  }

  lemma AddTwo()
    ensures Step(Step(Initial(), Add(0)), Add(0)) ==
            Initial().(queue := [Proc(1, 0, false, 1, READY), Proc(2, 0, false, 1, READY)], nextPid := 3,
              created := {1, 2})
  {
    assert {1} + {2} == {1, 2};
  }

  /** The first of a queue is picked at once when it is READY. */
  lemma PicksFirst(s: Sched)
    requires s.queue != [] && s.queue[0].state == READY
    ensures SwitchIn(s) == s.(queue := s.queue[1..], current := Running(s.queue[0]), cyclesLeft := s.queue[0].priority)
  {
    FirstReadyIs(s.queue, 0);
    assert s.queue[..0] == [];
    assert s.queue[1..] + [] == s.queue[1..] && s.freed + [] == s.freed;
  }

  /** A run goes on from where its first call leads. */
  lemma FirstCall(w: World, call: Call, w': World, calls: seq<Call>)
    requires Callable(w, call) && Allowed(w, call) && Do(w, call) == w' && Legal(w', calls)
    ensures Legal(w, [call] + calls) && DoAll(w, [call] + calls) == DoAll(w', calls)
  {
    var all := [call] + calls;
    assert all[0] == call && all[1..] == calls;
  }

  /** The first process waits: it goes to sleep, and the second one runs. */
  lemma SleeperWaits(s: Sched)
    requires s == Sched([Proc(2, 0, false, 1, READY)], Running(Proc(1, 0, false, 1, READY)), Initial().idle, 1, 3,
             {1, 2}, [])
    ensures var w := World(s, [Sem(7, 0, 1, [], History(0, 0, 0, [], []))], {});
            MayWait(w, 7) && Take(w, 7) == SleeperWorld()
  {
    var q, p' := Proc(2, 0, false, 1, READY), Proc(1, 0, false, 1, BLOCKED);
    PicksFirst(s.(queue := [q, p'], current := Running(p')));
    assert [q] + [p'] == [q, p'] && [q, p'][1..] == [p'];
    assert BlockProcess(s, 1) == SleeperWorld().sched;
    assert {} + {1} == {1} && [] + [1] == [1];
  }

  /** Both processes are made, and the first one runs. */
  lemma SleeperMade()
    ensures var p, q := Proc(1, 0, false, 1, READY), Proc(2, 0, false, 1, READY);
            var s2 := Initial().(queue := [p, q], nextPid := 3, created := {1, 2});
            && Step(Step(Initial(), Add(0)), Add(0)) == s2
            && Step(s2, TimerTick) == s2.(queue := [q], current := Running(p), cyclesLeft := 1)
  {
    var p, q := Proc(1, 0, false, 1, READY), Proc(2, 0, false, 1, READY);
    AddTwo();
    PicksFirst(Initial().(queue := [p, q], nextPid := 3, created := {1, 2}));
    assert [p, q][1..] == [q];
  }

  lemma NoCalls(w: World)
    ensures Legal(w, []) && DoAll(w, []) == w
  {}

  lemma SleeperRuns()
    ensures Legal(Boot(), SleeperRun()) && DoAll(Boot(), SleeperRun()) == SleeperWorld()
  {
    var p, q := Proc(1, 0, false, 1, READY), Proc(2, 0, false, 1, READY);
    var s1, s2 := Step(Initial(), Add(0)), Initial().(queue := [p, q], nextPid := 3, created := {1, 2});
    var s3 := s2.(queue := [q], current := Running(p), cyclesLeft := 1);
    var calls := SleeperRun();
    SleeperMade();
    assert calls[2..] == [Scheduler(TimerTick)] + SleeperLater() && calls == [calls[0]] + ([calls[1]] + calls[2..]);
    hide Step, SleeperWorld, Initial, Legal, DoAll, SleeperLater;
    SleeperGoes(s3);
    FirstCall(World(s2, [], {}), Scheduler(TimerTick), World(s3, [], {}), SleeperLater());
    FirstCall(World(s1, [], {}), Scheduler(Add(0)), World(s2, [], {}), calls[2..]);
    FirstCall(Boot(), Scheduler(Add(0)), World(s1, [], {}), [calls[1]] + calls[2..]);
  }

  function SleeperLater(): seq<Call> {
    [OpenSem(7, 0), WaitSem(7)]
  }

  lemma SleeperGoes(s: Sched)
    requires s == Sched([Proc(2, 0, false, 1, READY)], Running(Proc(1, 0, false, 1, READY)), Initial().idle, 1, 3,
                        {1, 2}, [])
    ensures Legal(World(s, [], {}), SleeperLater()) && DoAll(World(s, [], {}), SleeperLater()) == SleeperWorld()
  {
    var w := World(s, [Sem(7, 0, 1, [], History(0, 0, 0, [], []))], {});
    SleeperWaits(s);
    assert Do(World(s, [], {}), OpenSem(7, 0)) == w;
    hide Take, Step, Open, SleeperWorld, HasRoom, Legal, DoAll;
    NoCalls(SleeperWorld());
    FirstCall(w, WaitSem(7), SleeperWorld(), []);
    FirstCall(World(s, [], {}), OpenSem(7, 0), w, [WaitSem(7)] + []);
    assert [OpenSem(7, 0)] + ([WaitSem(7)] + []) == SleeperLater();
  }

  /** There the other process may not wake the sleeper, nor close the semaphore: either would break the
      invariant, which held till then. */
  lemma DisallowedExample()
    ensures Legal(Boot(), SleeperRun()) && JointInv(DoAll(Boot(), SleeperRun()))
    ensures var w := DoAll(Boot(), SleeperRun());
            !JointInv(Do(w, Scheduler(Unblock(1)))) && !JointInv(Do(w, CloseSem(7)))
  {
    var w := SleeperWorld();
    assert 1 in w.asleep && Wakes(w.sched, Unblock(1), 1);
    assert !Allowed(w, Scheduler(Unblock(1))) && !Allowed(w, CloseSem(7));
    hide JointInv, Legal, DoAll, Do, SleeperRun, SleeperWorld, Boot, Allowed;
    SleeperRuns();
    BootIs();
    NoLostWakeup(SleeperRun());
    KeepsJointIffAllowed(w, Scheduler(Unblock(1)));
    KeepsJointIffAllowed(w, CloseSem(7));
  }
}
