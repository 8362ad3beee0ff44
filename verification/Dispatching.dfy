/** What each entry point of schedule.c does, told by what a process can see of it: which processes are
    there, with which fields, and who runs next. */
module Dispatching {
  import opened Scheduling
  import opened Signalling

  /** The process is on the processor or in the queue. */
  predicate Present(s: Sched, p: Proc) {
    s.current == Running(p) || p in s.queue
  }

  /** The line is served: its first READY process has the processor, for as many cycles as its priority
      says; those behind it come first in the queue now, those that it was chosen before come next, in
      order, but for the KILLED ones, which are freed; or nobody is READY, and the idle process runs. */
  ghost predicate Served(line: seq<Proc>, s: Sched) {
    if exists p :: p in line && p.state == READY then
      exists k: nat :: FirstOf(line, k) && s.current == Running(line[k]) && s.cyclesLeft == line[k].priority &&
                       line[k + 1..] <= s.queue && InOrder(line[..k], s.queue[|line| - k - 1..]) &&
                       forall i: nat | i < k && line[i].state == KILLED :: line[i].pid in s.freed
    else s.current == Idle && s.cyclesLeft == s.idle.priority && s.queue == line
  }

  /** What is in r is in q, in the same order. */
  ghost predicate InOrder(q: seq<Proc>, r: seq<Proc>) {
    && (forall p | p in r :: p in q)
    && forall a: nat, b: nat | a < b < |r| :: Before(q, r[a], r[b])
  }

  ghost predicate Before(q: seq<Proc>, x: Proc, y: Proc) {
    exists i: nat, j: nat :: i < j < |q| && q[i] == x && q[j] == y
  }

  predicate FirstOf(line: seq<Proc>, k: nat) {
    k < |line| && line[k].state == READY && forall i: nat | i < k :: line[i].state != READY
  }

  /** The operation ends the current process, which is a foreground child of p, who waits for it. */
  predicate EndsChild(s: Sched, op: Op, p: Proc) {
    && s.current.Running? && s.current.proc.pid > 2 && s.current.proc.fg && s.current.proc.ppid == p.pid
    && p.state == BLOCKED
    && (op == Kill(s.current.proc.pid) || op == KillFg)
  }

  /** The operation is about the process: it names it, or the process asks it of itself. */
  predicate Concerns(s: Sched, op: Op, p: Proc) {
    match op
    case TimerTick => false
    case Yield => false
    case Add(_) => s.current == Running(p)
    case Kill(pid) => pid == p.pid
    case Block(pid) => pid == p.pid
    case Unblock(pid) => pid == p.pid
    case Nice(pid, _) => pid == p.pid
    case WaitFor(pid) => pid == p.pid || s.current == Running(p)
    case KillFg => s.current == Running(p)
  }

  // ----- who is there -----

  lemma PresentOnce(s: Sched, p: Proc)
    requires Inv(s) && Present(s, p)
    ensures p.pid > 0 && Known(s, p.pid) && Lookup(s, p.pid) == p
    ensures s.current == Running(p) <==> IsCurrent(s, p.pid)
    ensures p in s.queue ==> s.queue[Index(s.queue, p.pid)] == p && s.current != Running(p)
  {
    PidsDistinct(s);
    ActiveDistinct(s);
    if p in s.queue {
      var i: nat :| i < |s.queue| && s.queue[i] == p;
    } else {
      assert Active(s)[|s.queue|] == p.pid;
    }
  }

  lemma KnownIsPresent(s: Sched, pid: nat)
    requires Inv(s) && pid > 0
    ensures Known(s, pid) <==> exists p :: Present(s, p) && p.pid == pid
  {
    if Known(s, pid) {
      assert Present(s, Lookup(s, pid));
    } else if p :| Present(s, p) && p.pid == pid {
      PresentOnce(s, p);
    }
  }

  /** Only the process of the pid is replaced. */
  lemma ReplaceSelf(s: Sched, p: Proc, r: Proc)
    requires Inv(s) && Present(s, p)
    ensures Present(Replace(s, p.pid, r), r)
    ensures Replace(s, p.pid, r).current == (if s.current == Running(p) then Running(r) else s.current)
  {
    PresentOnce(s, p);
    hide Inv;
    if p in s.queue {
      assert s.queue[Index(s.queue, p.pid) := r][Index(s.queue, p.pid)] == r;
    }
  }

  lemma ReplaceOther(s: Sched, p: Proc, r: Proc, q: Proc)
    requires Inv(s) && Present(s, p) && Present(s, q) && q != p
    ensures Present(Replace(s, p.pid, r), q)
  {
    PresentOnce(s, p);
    PresentOnce(s, q);
    hide Inv;
    if q in s.queue && p in s.queue {
      assert s.queue[Index(s.queue, p.pid) := r][Index(s.queue, q.pid)] == q;
    }
  }

  lemma SetPresent(s: Sched, p: Proc, state: State, q: Proc)
    requires Inv(s) && Present(s, p) && Present(s, q) && p.state != KILLED
    ensures var s' := SetState(s, p.pid, state);
            && Inv(s') && Present(s', if q == p then p.(state := state) else q)
            && s'.current == (if s.current == Running(p) then Running(p.(state := state)) else s.current)
  {
    PresentOnce(s, p);
    SetStateKeepsInv(s, p.pid, state);
    ReplaceSelf(s, p, p.(state := state));
    if q != p {
      ReplaceOther(s, p, p.(state := state), q);
    }
    hide Inv;
  }

  // ----- the scheduler -----

  lemma SwitchPresent(s: Sched, p: Proc)
    requires p in s.queue && p.state != KILLED
    ensures Present(SwitchIn(s), p)
  {
    if HasReady(s.queue) {
      var k := FirstReady(s.queue);
      RestBlocked(s.queue);
      var i: nat :| i < |s.queue| && s.queue[i] == p;
      if p.state == READY && i != k {
        assert s.queue[k + 1..][i - k - 1] == p;
      }
    }
  }

  lemma SwitchServes(s: Sched)
    ensures Served(s.queue, SwitchIn(s))
  {
    if HasReady(s.queue) {
      var q, s' := s.queue, SwitchIn(s);
      var k := FirstReady(q);
      PassedOf(q[..k]);
      hide FirstReady, Those, Pids, InOrder;
      assert s'.queue[|q| - k - 1..] == Those(q[..k], BLOCKED);
      forall i: nat | i < k && q[i].state == KILLED ensures q[i].pid in s'.freed {
        assert q[..k][i] == q[i];
      }
      assert FirstOf(q, k);
    }
  }

  /** Of those that are passed over, the BLOCKED ones stay in order, and the KILLED ones are freed. */
  lemma PassedOf(q: seq<Proc>)
    ensures InOrder(q, Those(q, BLOCKED))
    ensures forall p | p in q && p.state == KILLED :: p.pid in Pids(Those(q, KILLED))
  {
    ThoseInOrder(q, BLOCKED);
    ThoseMembers(q, KILLED);
    hide Those, InOrder;
    forall p | p in q && p.state == KILLED ensures p.pid in Pids(Those(q, KILLED)) {
      assert p in Those(q, KILLED);
      PidsMembers(Those(q, KILLED), p.pid);
    }
  }

  lemma {:induction false} ThoseInOrder(q: seq<Proc>, state: State)
    ensures InOrder(q, Those(q, state))
  {
    if q != [] {
      var p, t, r := q[0], q[1..], Those(q[1..], state);
      ThoseInOrder(t, state);
      assert q == [p] + t && [] + r == r;
      hide InOrder;
      MoreInOrder(p, t, r);
    }
  }

  lemma MoreInOrder(p: Proc, q: seq<Proc>, r: seq<Proc>)
    requires InOrder(q, r)
    ensures InOrder([p] + q, r) && InOrder([p] + q, [p] + r)
  {
    forall x, y | Before(q, x, y) ensures Before([p] + q, x, y) {
      var i: nat, j: nat :| i < j < |q| && q[i] == x && q[j] == y;
      assert ([p] + q)[i + 1] == x && ([p] + q)[j + 1] == y;
    }
    forall y | y in q ensures Before([p] + q, p, y) {
      var j: nat :| j < |q| && q[j] == y;
      assert ([p] + q)[0] == p && ([p] + q)[j + 1] == y;
    }
    hide Before;
  }

  lemma ZeroUnknown(s: Sched)
    requires Inv(s) && s.current.Running?
    ensures !Known(s, 0) && Present(s, s.current.proc) && s.current.proc.pid > 0
  {
    PresentOnce(s, s.current.proc);
    PidsDistinct(s);
  }

  /** The current process joins the end of the line, or ends and wakes the parent that waits for it. */
  lemma PutAwayPresent(s: Sched, p: Proc)
    requires Inv(s) && Present(s, p) && p.state != KILLED
    ensures (if Ending(s, p) then p.(state := READY) else p) in PutAway(s).queue
  {
    PresentOnce(s, p);
    if s.current.Running? && s.current.proc.state == KILLED {
      ZeroUnknown(s);
      var x := s.current.proc.ppid;
      if Known(s, x) && Lookup(s, x).state == BLOCKED {
        var q := Lookup(s, x);
        assert Present(s, q) && q.pid == x by { hide Inv; }
        PresentOnce(s, q);
        SetPresent(s, q, READY, p);
      }
      hide Inv;
    }
  }

  /** The current process is KILLED, and a foreground child of p, who waits for it. */
  predicate Ending(s: Sched, p: Proc) {
    s.current.Running? && s.current.proc.state == KILLED && IsFgChild(s, p.pid) && p.state == BLOCKED
  }

  /** The scheduler changes no process but the parent that it wakes. */
  lemma TickPresent(s: Sched, p: Proc)
    requires Inv(s) && Present(s, p) && p.state != KILLED
    ensures Present(Tick(s), if Ending(s, p) then p.(state := READY) else p)
  {
    PutAwayPresent(s, p);
    SwitchPresent(PutAway(s), if Ending(s, p) then p.(state := READY) else p);
    hide Inv, PutAway, SwitchIn;
  }

  // ----- processes that an operation is not about -----

  lemma SetOther(s: Sched, x: nat, state: State, p: Proc)
    requires Inv(s) && Present(s, p) && p.pid != x
    ensures Inv(SetState(s, x, state)) && Present(SetState(s, x, state), p)
    ensures var c := s.current;
            SetState(s, x, state).current == if c.Running? && c.proc.pid == x && c.proc.state != KILLED
                                             then Running(c.proc.(state := state)) else c
  {
    SetStateKeepsInv(s, x, state);
    PresentOnce(s, p);
    if x == 0 {
      PidsDistinct(s);
      IdleAside(s, state, p);
    } else if Known(s, x) && Lookup(s, x).state != KILLED {
      LookupPresent(s, x);
      SetPresent(s, Lookup(s, x), state, p);
    }
    hide Inv, Present;
  }

  lemma LookupPresent(s: Sched, x: nat)
    requires Inv(s) && Known(s, x) && x > 0
    ensures Present(s, Lookup(s, x)) && Lookup(s, x).pid == x
  {}

  /** The idle process is set apart from all others. */
  lemma IdleAside(s: Sched, state: State, p: Proc)
    requires Inv(s) && Present(s, p)
    requires forall i: nat | i < |s.queue| :: s.queue[i].pid != 0
    ensures Present(SetState(s, 0, state), p) && SetState(s, 0, state).current == s.current
  {
    if s.current.Running? {
      ZeroUnknown(s);
    }
    hide Inv;
  }

  lemma ReplacedOther(s: Sched, x: nat, r: Proc, p: Proc)
    requires Inv(s) && Present(s, p) && p.pid != x && Known(s, x) && r.pid == x && r.priority <= PRIO_CAP
    ensures Inv(Replace(s, x, r)) && Present(Replace(s, x, r), p)
    ensures s.current.Running? ==>
              Replace(s, x, r).current == if s.current.proc.pid == x then Running(r) else s.current
  {
    ReplaceConserves(s, x, r);
    ReplaceBounded(s, x, r);
    if x == 0 {
      PidsDistinct(s);
    } else {
      var q := Lookup(s, x);
      assert Present(s, q) && q.pid == x by { hide Inv; }
      ReplaceOther(s, q, r, p);
    }
    hide Inv;
  }

  lemma BlockOther(s: Sched, x: nat, p: Proc)
    requires Inv(s) && CurrentReady(s) && Present(s, p) && p.state != KILLED && p.pid != x
    ensures Present(BlockProcess(s, x), p)
  {
    SetOther(s, x, BLOCKED, p);
    TickPresent(SetState(s, x, BLOCKED), p);
    hide Inv;
  }

  lemma KillOther(s: Sched, x: nat, p: Proc)
    requires Inv(s) && CurrentReady(s) && Present(s, p) && p.state != KILLED && p.pid != x && x > 2
    ensures Present(KillProcess(s, x), if EndsChild(s, Kill(x), p) then p.(state := READY) else p)
  {
    SetOther(s, x, KILLED, p);
    TickPresent(SetState(s, x, KILLED), p);
    hide Inv;
  }

  /** The state in which a new process has just joined the queue. */
  function Joined(s: Sched, p: Proc): Sched {
    s.(queue := s.queue + [p], nextPid := s.nextPid + 1, created := s.created + {p.pid})
  }

  /** The pid of a process is one that was given out. */
  lemma PresentCreated(s: Sched, p: Proc)
    requires Inv(s) && Present(s, p)
    ensures p.pid in s.created && p.pid < s.nextPid
  {
    var a := Active(s);
    if p in s.queue {
      var i: nat :| i < |s.queue| && s.queue[i] == p;
      assert a[i] == p.pid;
    } else {
      assert a[|s.queue|] == p.pid;
    }
    hide Active;
    assert p.pid in multiset(a);
    assert p.pid in multiset(s.created);
  }

  lemma JoinedPresent(s: Sched, fg: int, p: Proc)
    requires Inv(s) && Present(s, p)
    ensures var s' := Joined(s, NewProc(s, fg));
            Inv(s') && Present(s', p) && s'.current == s.current && p.pid < s.nextPid
  {
    PresentCreated(s, p);
    EnqueueKeepsInv(s, NewProc(s, fg));
    hide Inv;
  }

  lemma AddOther(s: Sched, fg: int, p: Proc)
    requires Inv(s) && CurrentReady(s) && Present(s, p) && p.state != KILLED && s.current != Running(p)
    ensures Present(AddProcess(s, fg), p)
  {
    if fg == 0 || fg == 1 {
      var child := NewProc(s, fg);
      JoinedPresent(s, fg, p);
      if child.fg && child.ppid != 0 {
        PresentOnce(s, p);
        BlockOther(Joined(s, child), child.ppid, p);
      }
    }
    hide Inv;
  }

  lemma WaitOther(s: Sched, x: nat, p: Proc)
    requires Inv(s) && CurrentReady(s) && Present(s, p) && p.state != KILLED && p.pid != x && s.current != Running(p)
    ensures Present(WaitForPid(s, x), p)
  {
    if Known(s, x) && s.current != Nobody {
      PresentOnce(s, p);
      var r := Lookup(s, x).(fg := true);
      var s1 := Replace(s, x, r);
      LookupBounded(s, x);
      ReplacedOther(s, x, r, p);
      hide Inv;
      BlockOther(s1, CurrentProc(s).pid, p);
    }
  }

  lemma LookupBounded(s: Sched, x: nat)
    requires Inv(s) && Known(s, x)
    ensures Lookup(s, x).priority <= PRIO_CAP && Lookup(s, x).pid == x
  {}

  lemma NiceOther(s: Sched, x: nat, priority: int, p: Proc)
    requires Inv(s) && Present(s, p) && p.pid != x
    ensures Present(SetPriority(s, x, priority), p)
  {
    if Known(s, x) {
      ReplacedOther(s, x, Lookup(s, x).(priority := Clamp(priority)), p);
    }
  }

  /** A process that an operation is not about is afterwards as it was, unless it is woken by the end
      of its foreground child. */
  lemma OthersStay(s: Sched, op: Op, p: Proc)
    requires Inv(s) && CurrentReady(s) && Present(s, p) && p.state != KILLED && !Concerns(s, op, p)
    ensures Present(Step(s, op), if EndsChild(s, op, p) then p.(state := READY) else p)
  {
    hide Inv;
    match op
    case TimerTick => TickPresent(s, p);
    case Yield => YieldPresent(s, p);
    case Add(fg) => AddOther(s, fg, p);
    case Kill(x) =>
      if x > 2 {
        KillOther(s, x, p);
      }
    case Block(x) => BlockOther(s, x, p);
    case Unblock(x) => SetOther(s, x, READY, p);
    case Nice(x, priority) => NiceOther(s, x, priority, p);
    case WaitFor(x) => WaitOther(s, x, p);
    case KillFg => KillFgOther(s, p);
  }

  lemma YieldPresent(s: Sched, p: Proc)
    requires Inv(s) && CurrentReady(s) && Present(s, p) && p.state != KILLED
    ensures Present(Step(s, Yield), p)
  {
    TickPresent(s.(cyclesLeft := 0), p);
  }

  lemma KillFgOther(s: Sched, p: Proc)
    requires Inv(s) && CurrentReady(s) && Present(s, p) && p.state != KILLED && s.current != Running(p)
    ensures Present(KillFgProcess(s), if EndsChild(s, KillFg, p) then p.(state := READY) else p)
  {
    PresentOnce(s, p);
    if s.current != Nobody && CurrentProc(s).pid > 2 {
      KillOther(s, CurrentProc(s).pid, p);
    }
  }

  // ----- processes that an operation is about -----

  /** blockProcess and unblockProcess: the process is BLOCKED, or READY, wherever it stands. */
  lemma BlockBlocks(s: Sched, p: Proc)
    requires Inv(s) && CurrentReady(s) && Present(s, p) && p.state != KILLED
    ensures IsBlocked(Step(s, Block(p.pid)), p.pid) && p.(state := BLOCKED) in Step(s, Block(p.pid)).queue
  {
    SetPresent(s, p, BLOCKED, p);
    BlockStep(s, p.pid);
    TickPresent(SetState(s, p.pid, BLOCKED), p.(state := BLOCKED));
    StepReady(s, Block(p.pid));
    hide Inv, SetState, Tick, Step;
  }

  lemma BlockStep(s: Sched, pid: nat)
    ensures Step(s, Block(pid)) == TickIfSelf(SetState(s, pid, BLOCKED), pid) == BlockProcess(s, pid)
  {}

  lemma UnblockReadies(s: Sched, p: Proc)
    requires Inv(s) && Present(s, p) && p.state != KILLED
    ensures var s' := Step(s, Unblock(p.pid));
            Present(s', p.(state := READY)) && (s'.current == s.current || s.current == Running(p))
  {
    hide Inv, SetState, Present, Step;
    UnblockIs(s, p.pid);
    SetPresent(s, p, READY, p);
  }

  lemma UnblockIs(s: Sched, pid: nat)
    ensures Step(s, Unblock(pid)) == SetState(s, pid, READY)
  {}

  /** setNewCycle: the priority is stored, but for what is out of bounds. */
  lemma NiceStores(s: Sched, p: Proc, priority: int)
    requires Inv(s) && Present(s, p)
    ensures var s' := Step(s, Nice(p.pid, priority));
            && (0 <= priority <= 40 ==> Present(s', p.(priority := priority)))
            && (priority < 0 ==> Present(s', p.(priority := 0)))
            && (priority > 40 ==> Present(s', p.(priority := 40)))
            && s'.cyclesLeft == s.cyclesLeft
  {
    PresentOnce(s, p);
    ReplaceSelf(s, p, p.(priority := Clamp(priority)));
    hide Inv;
  }

  /** killProcess: a process past the first two is freed if it asks for its own end, and marked if it is
      queued; nobody else is touched, and no other pid is anything to kill. */
  lemma KillKills(s: Sched, p: Proc)
    requires Inv(s) && CurrentReady(s) && Present(s, p) && p.pid > 2
    ensures var s' := Step(s, Kill(p.pid));
            if s.current == Running(p) then p.pid in s'.freed
            else s'.current == s.current && s'.cyclesLeft == s.cyclesLeft && Present(s', p.(state := KILLED))
  {
    PresentOnce(s, p);
    hide Inv, Step;
    if s.current == Running(p) {
      KillSelf(s);
    } else {
      KillQueued(s, p);
    }
  }

  lemma KillQueued(s: Sched, p: Proc)
    requires Inv(s) && Present(s, p) && p.pid > 2 && s.current != Running(p)
    ensures var s' := Step(s, Kill(p.pid));
            s'.current == s.current && s'.cyclesLeft == s.cyclesLeft && Present(s', p.(state := KILLED))
  {
    PresentOnce(s, p);
    if p.state != KILLED {
      SetPresent(s, p, KILLED, p);
    }
    hide Inv, Present;
  }

  lemma KillSelf(s: Sched)
    requires s.current.Running? && s.current.proc.state == READY && s.current.proc.pid > 2
    ensures s.current.proc.pid in Step(s, Kill(s.current.proc.pid)).freed
  {
    var s2 := PutAway(SetState(s, s.current.proc.pid, KILLED));
    assert s2.freed == s.freed + [s.current.proc.pid];
    SwitchFreed(s2);
    hide SwitchIn;
  }

  lemma SwitchFreed(s: Sched)
    ensures s.freed <= SwitchIn(s).freed
  {}

  lemma KillNothing(s: Sched, pid: nat)
    requires Inv(s)
    requires pid <= 2 || forall p :: Present(s, p) ==> p.pid != pid
    ensures Step(s, Kill(pid)) == s
  {
    if pid > 2 {
      KnownIsPresent(s, pid);
    }
  }

  /** killFgProcess ends the process at the keyboard, and no other. */
  lemma KillFgEnds(s: Sched)
    requires Inv(s) && CurrentReady(s) && s.current.Running?
    ensures var p, s' := s.current.proc, Step(s, KillFg);
            if p.fg && p.pid > 2 then p.pid in s'.freed else s' == s
  {
    if s.current.proc.fg && s.current.proc.pid > 2 {
      KillKills(s, s.current.proc);
    }
  }

  /** waitForPID: the caller is BLOCKED, and the process that it waits for is in the foreground, so that
      its end wakes the caller if it is the caller's child. */
  lemma WaitForBlocks(s: Sched, p: Proc)
    requires Inv(s) && CurrentReady(s) && s.current.Running? && Present(s, p) && p.state != KILLED
    ensures var c, s' := s.current.proc, Step(s, WaitFor(p.pid));
            if p == c then Present(s', p.(fg := true, state := BLOCKED))
            else Present(s', p.(fg := true)) && Present(s', c.(state := BLOCKED)) && IsBlocked(s', c.pid)
  {
    var c, r := s.current.proc, p.(fg := true);
    PresentOnce(s, p);
    ForegroundSet(s, p);
    var s1 := Replace(s, p.pid, r);
    WaitIs(s, p);
    hide Inv, Replace, Step, BlockProcess, CurrentReady, SetState, Known, Lookup, Served, InState;
    BlockBlocks(s1, if p == c then r else c);
    if p != c {
      BlockOther(s1, c.pid, r);
    }
    BlockStep(s1, c.pid);
  }

  lemma WaitIs(s: Sched, p: Proc)
    requires Known(s, p.pid) && Lookup(s, p.pid) == p && s.current.Running?
    ensures Step(s, WaitFor(p.pid)) == BlockProcess(Replace(s, p.pid, p.(fg := true)), s.current.proc.pid)
  {}

  /** With one process brought to the foreground, another one still runs. */
  lemma ForegroundSet(s: Sched, p: Proc)
    requires Inv(s) && CurrentReady(s) && s.current.Running? && Present(s, p)
    ensures var c, r, s1 := s.current.proc, p.(fg := true), Replace(s, p.pid, p.(fg := true));
            && Inv(s1) && CurrentReady(s1) && Present(s1, r) && (p != c ==> Present(s1, c) && c.pid != p.pid)
            && s1.current == (if p == c then Running(r) else s.current)
  {
    var c, r := s.current.proc, p.(fg := true);
    PresentOnce(s, p);
    PresentOnce(s, c);
    LookupBounded(s, p.pid);
    ReplaceSelf(s, p, r);
    ReplaceConserves(s, p.pid, r);
    ReplaceBounded(s, p.pid, r);
    if p != c {
      ReplaceOther(s, p, r, c);
    }
    hide Present, IsCurrent;
  }

  // ----- new processes -----

  /** addProcess: a child that the process in the foreground makes in the foreground blocks it; the
      processor goes down the line, the child last in it. */
  lemma ForegroundBlocks(s: Sched)
    requires Inv(s) && CurrentReady(s) && s.current.Running? && s.current.proc.fg
    ensures var c, child := s.current.proc, Proc(s.nextPid, s.current.proc.pid, true, 2, READY);
            var s' := Step(s, Add(1));
            && IsBlocked(s', c.pid) && c.(state := BLOCKED) in s'.queue
            && Present(s', child) && s'.nextPid == s.nextPid + 1 && s'.created == s.created + {s.nextPid}
            && Served(s.queue + [child] + [c.(state := BLOCKED)], s')
  {
    var c, child := s.current.proc, NewProc(s, 1);
    var s1 := Joined(s, child);
    ZeroUnknown(s);
    JoinedPresent(s, 1, c);
    assert Present(s1, child) by { assert s1.queue[|s.queue|] == child; }
    BlockBlocks(s1, c);
    BlockOther(s1, c.pid, child);
    hide Inv;
    SelfBlocked(s1);
  }

  /** Who blocks itself goes to the end of the line, which is served. */
  lemma SelfBlocked(s: Sched)
    requires s.current.Running? && s.current.proc.state == READY
    ensures var c, s' := s.current.proc, BlockProcess(s, s.current.proc.pid);
            Served(s.queue + [c.(state := BLOCKED)], s') && s'.nextPid == s.nextPid && s'.created == s.created
  {
    var s1 := SetState(s, s.current.proc.pid, BLOCKED);
    SwitchServes(PutAway(s1));
    hide SwitchIn, Served;
    assert BlockProcess(s, s.current.proc.pid) == SwitchIn(PutAway(s1));
  }

  /** Any other child just joins the queue: its parent goes on. It is in the foreground if that was asked
      for before the first tick, or from the foreground. */
  lemma BackgroundJoins(s: Sched, fg: int)
    requires fg == 0 || fg == 1
    requires s.current.Running? && s.current.proc.fg ==> fg == 0
    requires s.current.Idle? ==> s.idle.pid == 0
    ensures var inFg := fg == 1 && (s.current == Nobody || (s.current.Idle? && s.idle.fg));
            var ppid := if s.current.Running? then s.current.proc.pid else 0;
            Step(s, Add(fg)) == s.(queue := s.queue + [Proc(s.nextPid, ppid, inFg, if inFg then 2 else 1, READY)],
                                   nextPid := s.nextPid + 1, created := s.created + {s.nextPid})
  {}

  /** The child that addProcess makes of the process on the processor. */
  predicate IsChild(s: Sched, fg: int, p: Proc) {
    && p.pid == s.nextPid && p.state == READY
    && p.ppid == (if s.current.Running? then s.current.proc.pid else 0)
    && (p.fg <==> fg == 1 && (s.current == Nobody || CurrentProc(s).fg))
    && p.priority == if p.fg then 2 else 1
  }

  /** Whenever fg is accepted, the child is there, and READY. */
  lemma ChildAdded(s: Sched, fg: int)
    requires Inv(s) && CurrentReady(s) && (fg == 0 || fg == 1)
    ensures exists p :: IsChild(s, fg, p) && Present(Step(s, Add(fg)), p)
  {
    if s.current.Running? && s.current.proc.fg && fg == 1 {
      ForegroundBlocks(s);
      hide Step, Inv, Served;
      assert IsChild(s, fg, Proc(s.nextPid, s.current.proc.pid, true, 2, READY));
    } else {
      BackgroundJoins(s, fg);
      var s' := Step(s, Add(fg));
      hide Step, Inv;
      assert s'.queue[|s.queue|] in s'.queue && IsChild(s, fg, s'.queue[|s.queue|]);
    }
  }

  /** A request for neither the foreground nor the background makes nobody, but uses up a pid. */
  lemma RefusedTakesPid(s: Sched, fg: int)
    requires fg < 0 || fg > 1
    ensures Step(s, Add(fg)) == s.(nextPid := s.nextPid + 1)
  {}

  // ----- waiting for a child -----

  /** None of the operations of a run ends the wait of a BLOCKED process. */
  predicate NobodyWakes(s: Sched, ops: seq<Op>, pid: nat)
    decreases |ops|
  {
    ops == [] || (!Wakes(s, ops[0], pid) && NobodyWakes(Step(s, ops[0]), ops[1..], pid))
  }

  lemma {:induction false} StaysBlocked(s: Sched, ops: seq<Op>, pid: nat)
    requires Inv(s) && CurrentReady(s) && IsBlocked(s, pid) && NobodyWakes(s, ops, pid)
    ensures Inv(Run(s, ops)) && CurrentReady(Run(s, ops)) && IsBlocked(Run(s, ops), pid)
    decreases |ops|
  {
    if ops != [] {
      StepBlocked(s, ops[0], pid);
      StepKeepsInv(s, ops[0]);
      StepReady(s, ops[0]);
      hide Inv, CurrentReady, IsBlocked, Wakes, Step;
      StaysBlocked(Step(s, ops[0]), ops[1..], pid);
    }
  }

  /** A process in the foreground that makes a child in the foreground is BLOCKED from then on, whatever
      is asked of the scheduler short of waking it, until such a child ends while it runs: then it is
      READY. */
  lemma ForegroundWaits(s: Sched, ops: seq<Op>)
    requires Inv(s) && CurrentReady(s) && s.current.Running? && s.current.proc.fg
    requires NobodyWakes(Step(s, Add(1)), ops, s.current.proc.pid)
    ensures var c, s' := s.current.proc, Run(Step(s, Add(1)), ops);
            && IsBlocked(s', c.pid)
            && (IsFgChild(s', c.pid) && s'.current.proc.pid > 2 ==>
                  exists p: Proc :: p.pid == c.pid && p.state == READY &&
                                    Present(Step(s', Kill(s'.current.proc.pid)), p))
  {
    var c, s1 := s.current.proc, Step(s, Add(1));
    ForegroundBlocks(s);
    StepKeepsInv(s, Add(1));
    StepReady(s, Add(1));
    hide Inv, Step, Served, NobodyWakes, CurrentReady;
    StaysBlocked(s1, ops, c.pid);
    var s' := Run(s1, ops);
    if IsFgChild(s', c.pid) && s'.current.proc.pid > 2 {
      ChildEnds(s', c.pid);
    }
  }

  lemma ChildEnds(s: Sched, pid: nat)
    requires Inv(s) && CurrentReady(s) && IsBlocked(s, pid) && s.current.Running?
    requires s.current.proc.fg && s.current.proc.ppid == pid && s.current.proc.pid > 2
    ensures exists p: Proc :: p.pid == pid && p.state == READY && Present(Step(s, Kill(s.current.proc.pid)), p)
  {
    var p :| p in s.queue && p.pid == pid && p.state == BLOCKED;
    PresentOnce(s, p);
    hide Inv, Step;
    OthersStay(s, Kill(s.current.proc.pid), p);
  }

  // ----- cycles -----

  function Ticks(n: nat): seq<Op> {
    seq(n, _ => TimerTick)
  }

  /** While the cycles last, the timer only counts them down: a process that was given the processor keeps
      it for as many further calls as its priority says. */
  lemma {:induction false} SliceLasts(s: Sched, n: nat)
    requires s.current.Running? && s.current.proc.state == READY && n <= s.cyclesLeft
    ensures Run(s, Ticks(n)) == s.(cyclesLeft := s.cyclesLeft - n)
    decreases n
  {
    if n > 0 {
      assert Ticks(n)[1..] == Ticks(n - 1);
      SliceLasts(s.(cyclesLeft := s.cyclesLeft - 1), n - 1);
    }
  }

  /** With no cycles left, or given away by yield, the processor goes down the line, the process that had
      it last in it. */
  lemma SliceEnds(s: Sched, op: Op)
    requires CurrentReady(s)
    requires op == Yield || (op == TimerTick && (s.cyclesLeft == 0 || s.current == Nobody))
    ensures Served(s.queue + if s.current.Running? then [s.current.proc] else [], Step(s, op))
  {
    var s1 := s.(cyclesLeft := 0);
    SwitchServes(PutAway(s1));
    SwitchServes(s);
    assert s.queue + [] == s.queue;
    hide SwitchIn, Served;
  }

  /** The end of a process: the parent that waits for it in the foreground is READY again, at its place
      in the line, which is served. */
  lemma EndServes(s: Sched)
    requires Inv(s) && CurrentReady(s) && s.current.Running? && s.current.proc.pid > 2
    ensures exists line :: Served(line, Step(s, Kill(s.current.proc.pid))) && LineAfter(s, line)
  {
    var s1 := SetState(s, s.current.proc.pid, KILLED);
    SwitchServes(PutAway(s1));
    EndLine(s);
    EndIs(s);
    hide Step, SetState, PutAway, SwitchIn, Served, Inv, LineAfter, CurrentReady;
  }

  lemma EndIs(s: Sched)
    requires CurrentReady(s) && s.current.Running? && s.current.proc.pid > 2
    ensures Step(s, Kill(s.current.proc.pid)) == SwitchIn(PutAway(SetState(s, s.current.proc.pid, KILLED)))
  {
    hide SwitchIn, PutAway;
  }

  /** The queue without the current process, which ends, and with its parent woken. */
  predicate LineAfter(s: Sched, line: seq<Proc>)
    requires s.current.Running?
  {
    && |line| == |s.queue|
    && forall i: nat | i < |line| :: line[i] == if EndsChild(s, Kill(s.current.proc.pid), s.queue[i])
                                                then s.queue[i].(state := READY) else s.queue[i]
  }

  lemma EndLine(s: Sched)
    requires Inv(s) && CurrentReady(s) && s.current.Running? && s.current.proc.pid > 2
    ensures LineAfter(s, PutAway(SetState(s, s.current.proc.pid, KILLED)).queue)
  {
    var c := s.current.proc;
    var i := Index(s.queue, c.ppid);
    PidsDistinct(s);
    ZeroUnknown(s);
    SelfKilled(s);
    hide Inv, SetState, PutAway, Known, Lookup;
    assert forall j: nat | j < |s.queue| && s.queue[j].pid == c.ppid :: j == i;
  }

  /** What is left in the queue when the current process has ended. */
  lemma SelfKilled(s: Sched)
    requires CurrentReady(s) && s.current.Running?
    ensures var c, q := s.current.proc, s.queue;
            var i := Index(q, c.ppid);
            PutAway(SetState(s, c.pid, KILLED)).queue ==
              if c.fg && c.ppid != c.pid && i < |q| && q[i].state == BLOCKED then q[i := q[i].(state := READY)] else q
  {}
}
