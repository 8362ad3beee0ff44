/** schedule.c as it is written: a linked ready queue with counters, relinked in place. Each entry
    point is proved to do what Scheduling says, from states that satisfy the invariant to states
    that satisfy it. */
module Scheduler {
  import opened Scheduling
  import opened Signalling
  import opened Dispatching

  /** struct ProcessNode: what the scheduler uses of the process, and the link. */
  class ProcessNode {
    var pcb: Proc
    var next: ProcessNode?

    /** A new node starts unlinked. */
    constructor (p: Proc)
      ensures pcb == p && next == null
    {
      pcb, next := p, null;
    }
  }

  ghost predicate Distinct(q: seq<ProcessNode>) {
    forall i, j | 0 <= i < j < |q| :: q[i] != q[j]
  }

  /** How many processes of a queue are READY. */
  ghost function ReadyCount(q: seq<Proc>): nat {
    |Those(q, READY)|
  }

  lemma ReadyCountPositive(q: seq<Proc>)
    ensures ReadyCount(q) > 0 <==> HasReady(q)
  {
    ThoseMembers(q, READY);
    if ReadyCount(q) > 0 {
      assert Those(q, READY)[0] in Those(q, READY);
    }
  }

  lemma ReadyCountAppend(q: seq<Proc>, p: Proc)
    ensures ReadyCount(q + [p]) == ReadyCount(q) + if p.state == READY then 1 else 0
  {
    ThoseConcat(q, [p], READY);
    ThoseOne(p, READY);
  }

  lemma ReadyCountDrop(q: seq<Proc>)
    requires q != []
    ensures ReadyCount(q) == (if q[0].state == READY then 1 else 0) + ReadyCount(q[1..])
  {}

  lemma {:induction false} ReadyCountUpdate(q: seq<Proc>, i: nat, p: Proc)
    requires i < |q|
    ensures ReadyCount(q[i := p]) ==
            ReadyCount(q) - (if q[i].state == READY then 1 else 0) + (if p.state == READY then 1 else 0)
  {
    ReadyCountDrop(q);
    ReadyCountDrop(q[i := p]);
    if i > 0 {
      ReadyCountUpdate(q[1..], i - 1, p);
      assert q[i := p][1..] == q[1..][i - 1 := p];
    } else {
      assert q[i := p][1..] == q[1..];
    }
  }

  lemma IndexIs(q: seq<Proc>, pid: nat, i: nat)
    requires i <= |q| && (i < |q| ==> q[i].pid == pid) && forall j | 0 <= j < i :: q[j].pid != pid
    ensures Index(q, pid) == i
  {}

  /** struct ProcessList with the scheduler's globals. The ghost fields hold the nodes in queue
      order and the state as Scheduling sees it. */
  class Kernel {
    var size: nat
    var readySize: nat
    var first: ProcessNode?
    var last: ProcessNode?
    var currentProcess: ProcessNode?
    var cyclesLeft: nat
    var idleProcess: ProcessNode
    var newPIDVal: nat

    ghost var queue: seq<ProcessNode>
    ghost var s: Sched

    ghost function Nodes(): set<ProcessNode>
      reads this`queue
    {
      set n | n in queue
    }

    /** The nodes of the queue are chained from first to last, and the last one links nowhere. */
    ghost predicate ChainValid()
      reads this`queue, this`first, this`last, Nodes()`next
    {
      && Distinct(queue)
      && (forall i: nat, j: nat | j < |queue| && j == i + 1 :: queue[i].next == queue[j])
      && (if queue == [] then first == null
          else first == queue[0] && last == queue[|queue| - 1] && last.next == null)
    }

    /** The nodes hold the queued processes, and the counters count them. */
    ghost predicate QueueValid()
      reads this`queue, this`s, this`first, this`last, this`size, this`readySize, Nodes()
    {
      && ChainValid()
      && |queue| == |s.queue| == size
      && (forall i | 0 <= i < |queue| :: queue[i].pcb == s.queue[i])
      && readySize == ReadyCount(s.queue)
    }

    /** The linking half of processQueue. The node's own link is cleared only when the queue is not
        empty. */
    method LinkLast(p: ProcessNode)
      requires ChainValid() && |queue| == size && p !in queue && (queue == [] ==> p.next == null)
      modifies this`first, this`last, this`queue, p`next, Nodes()`next
      ensures ChainValid() && queue == old(queue) + [p]
    {
      if size == 0 {
        first := p;
        last := first;
      } else {
        assert last in queue;
        last.next := p;
        p.next := null;
        last := p;
      }
      queue := queue + [p];
    }

    /** processQueue. */
    method ProcessQueue(p: ProcessNode)
      requires QueueValid() && p !in queue && (queue == [] ==> p.next == null)
      modifies this`first, this`last, this`size, this`readySize, this`queue, this`s, p`next, Nodes()`next
      ensures QueueValid() && queue == old(queue) + [p] && s == old(s).(queue := old(s).queue + [p.pcb])
    {
      ReadyCountAppend(s.queue, p.pcb);
      hide ReadyCount, ChainValid;
      LinkLast(p);
      if p.pcb.state == READY {
        readySize := readySize + 1;
      }
      size := size + 1;
      s := s.(queue := s.queue + [p.pcb]);
    }

    /** processDequeue, on a queue that is not empty. */
    method ProcessDequeue() returns (p: ProcessNode)
      requires QueueValid() && queue != []
      modifies this`first, this`size, this`readySize, this`queue, this`s
      ensures QueueValid() && p == old(queue)[0] && queue == old(queue)[1..] && p !in queue
      ensures p.pcb == old(s).queue[0] && s == old(s).(queue := old(s).queue[1..])
      ensures queue == [] ==> p.next == null
    {
      ReadyCountDrop(s.queue);
      hide ReadyCount;
      p := first;
      assert |queue| > 1 ==> queue[0].next == queue[1];
      first := first.next;
      size := size - 1;
      if p.pcb.state == READY {
        readySize := readySize - 1;
      }
      queue := queue[1..];
      s := s.(queue := s.queue[1..]);
    }

    /** Neither the idle process nor the current one is queued, and the current one links nowhere
        when the queue is empty. */
    ghost predicate Placed()
      reads this, Nodes(), currentProcess, idleProcess
    {
      && QueueValid()
      && idleProcess !in queue && idleProcess.pcb == s.idle
      && (currentProcess != null ==> currentProcess !in queue)
      && (currentProcess != null && currentProcess != idleProcess && queue == [] ==> currentProcess.next == null)
      && s.current == (if currentProcess == null then Nobody
                       else if currentProcess == idleProcess then Idle else Running(currentProcess.pcb))
      && cyclesLeft == s.cyclesLeft && newPIDVal == s.nextPid
    }

    ghost predicate Valid()
      reads this, Nodes(), currentProcess, idleProcess
    {
      Placed() && Inv(s)
    }

    /** The nodes outside the queue. */
    ghost function Held(): set<ProcessNode>
      reads this`idleProcess, this`currentProcess
    {
      if currentProcess == null then {idleProcess}
      else var c: ProcessNode := currentProcess; {idleProcess, c}
    }

    /** initScheduler: the idle process is made, queued and taken off the queue again. */
    constructor ()
      ensures Valid() && s == Initial()
      ensures s == Sched([], Nobody, Proc(0, 0, false, 1, READY), 0, 1, {}, [])
    {
      size, readySize, first, last, queue := 0, 0, null, null, [];
      idleProcess := new ProcessNode(Initial().idle);
      currentProcess, cyclesLeft, newPIDVal := null, 0, 1;
      s := Initial();
    }

    /** getProcessOfPID: the current process, or the first in the chain with the pid. */
    method GetProcessOfPID(pid: nat) returns (p: ProcessNode?)
      requires Placed()
      ensures p != null <==> Known(s, pid)
      ensures p != null ==> p.pcb == Lookup(s, pid)
      ensures IsCurrent(s, pid) ==> p == currentProcess
      ensures p != null && !IsCurrent(s, pid) ==>
                p != currentProcess && p != idleProcess &&
                Index(s.queue, pid) < |queue| && p == queue[Index(s.queue, pid)]
    {
      if currentProcess != null && currentProcess.pcb.pid == pid {
        return currentProcess;
      }
      ghost var i := 0;
      p := first;
      while p != null
        invariant 0 <= i <= |queue|
        invariant if i < |queue| then p == queue[i] else p == null
        invariant forall j | 0 <= j < i :: s.queue[j].pid != pid
        decreases |queue| - i
      {
        if p.pcb.pid == pid {
          break;
        }
        assert i + 1 < |queue| ==> queue[i].next == queue[i + 1];
        p := p.next;
        i := i + 1;
      }
      IndexIs(s.queue, pid, i);
    }

    /** setNewState. */
    method SetNewState(pid: nat, newState: State) returns (r: int)
      requires Placed()
      modifies this`readySize, this`s, Nodes()`pcb, Held()`pcb
      ensures Placed() && s == SetState(old(s), pid, newState)
      ensures r == if Known(old(s), pid) && Lookup(old(s), pid).state != KILLED then pid else -1
    {
      var process := GetProcessOfPID(pid);
      if process == null || process.pcb.state == KILLED {
        return -1;
      }
      if process == currentProcess {
        SetCurrent(process.pcb.(state := newState));
      } else {
        SetQueuedState(process, newState, Index(s.queue, pid));
      }
      r := pid;
    }

    /** Rewrites the PCB of the current process. */
    method SetCurrent(p: Proc)
      requires Placed() && currentProcess != null
      modifies this`s, currentProcess`pcb
      ensures Placed() && s == WithCurrent(old(s), p)
    {
      currentProcess.pcb := p;
      s := WithCurrent(s, p);
    }

    /** The READY counter when a queued process goes from one state to another. */
    method CountChange(was: State, newState: State)
      requires was == READY && newState != READY ==> readySize > 0
      modifies this`readySize
      ensures readySize == old(readySize) - (if was == READY then 1 else 0) + (if newState == READY then 1 else 0)
    {
      if was != READY && newState == READY {
        readySize := readySize + 1;
      }
      if was == READY && newState != READY {
        readySize := readySize - 1;
      }
    }

    /** setNewState, for a queued process: the READY counter follows. */
    method SetQueuedState(process: ProcessNode, newState: State, ghost i: nat)
      requires Placed() && i < |queue| && process == queue[i]
      modifies this`readySize, this`s, process`pcb
      ensures Placed() && s == old(s).(queue := old(s).queue[i := old(s).queue[i].(state := newState)])
    {
      ReadyCountUpdate(s.queue, i, s.queue[i].(state := newState));
      hide ReadyCount;
      assert process in queue;
      CountChange(process.pcb.state, newState);
      process.pcb := process.pcb.(state := newState);
      s := s.(queue := s.queue[i := process.pcb]);
    }

    /** The first half of the scheduler: the current process, unless it is the idle one, goes back to
        the queue, or its node is freed if it is KILLED. */
    method PutCurrentAway()
      requires Valid() && currentProcess != null
      modifies this`first, this`last, this`size, this`readySize, this`queue, this`s, Nodes(), Held()
      ensures QueueValid() && idleProcess !in queue && idleProcess.pcb == s.idle && newPIDVal == s.nextPid
      ensures s == PutAway(old(s)) && Nodes() <= old(Nodes()) + old(Held())
    {
      RunningIsNotIdle(s);
      hide Inv, ChainValid, ReadyCount;
      if currentProcess.pcb.pid != idleProcess.pcb.pid {
        if currentProcess.pcb.state == KILLED {
          ReapCurrent();
        } else {
          ProcessQueue(currentProcess);
        }
      }
    }

    /** A KILLED current process: its parent, if it waits for this foreground child, is woken, and
        its node is freed. */
    method ReapCurrent()
      requires Placed() && s.current.Running? && s.current.proc.state == KILLED
      modifies this`readySize, this`s, Nodes()`pcb, Held()`pcb
      ensures QueueValid() && idleProcess.pcb == s.idle && newPIDVal == s.nextPid
      ensures s == PutAway(old(s))
    {
      hide ChainValid, ReadyCount, SetState;
      var parent := GetProcessOfPID(currentProcess.pcb.ppid);
      if parent != null && currentProcess.pcb.fg && parent.pcb.state == BLOCKED {
        LookupPid(s, currentProcess.pcb.ppid);
        var _ := SetNewState(parent.pcb.pid, READY);
      }
      s := s.(freed := old(s).freed + [old(currentProcess.pcb.pid)]);
    }

    /** The dequeue loop of the scheduler: it frees the KILLED processes it takes off and puts the
        BLOCKED ones back until it meets a READY one. */
    method DequeueReady() returns (p: ProcessNode)
      requires QueueValid() && idleProcess !in queue && HasReady(s.queue)
      modifies this`first, this`last, this`size, this`readySize, this`queue, this`s, Nodes()`next
      ensures QueueValid() && TakenOff(p)
      ensures p.pcb == Picked(old(s).queue)
      ensures s == old(s).(queue := Rest(old(s).queue), freed := old(s).freed + Reaped(old(s).queue))
    {
      ghost var s0 := s;
      assert queue != [] && s.queue != [];
      hide QueueValid, Rest, Reaped, Picked, HasReady, FirstReady;
      p := ProcessDequeue();
      assert [p.pcb] + s.queue == s0.queue;
      while p.pcb.state != READY
        invariant QueueValid() && TakenOff(p)
        invariant SameOutcome([p.pcb] + s.queue, s, s0)
        invariant {p} + Nodes() <= old(Nodes())
        decreases FirstReady([p.pcb] + s.queue)
      {
        p := PassOver(p, s0);
      }
      PickNow([p.pcb] + s.queue);
    }

    /** One pass of the loop. */
    method PassOver(p: ProcessNode, ghost s0: Sched) returns (p': ProcessNode)
      requires QueueValid() && TakenOff(p) && p.pcb.state != READY
      requires SameOutcome([p.pcb] + s.queue, s, s0)
      modifies this`first, this`last, this`size, this`readySize, this`queue, this`s, Nodes()`next, p`next
      ensures QueueValid() && TakenOff(p') && {p'} + Nodes() <= {p} + old(Nodes())
      ensures SameOutcome([p'.pcb] + s.queue, s, s0)
      ensures FirstReady([p'.pcb] + s.queue) < FirstReady([p.pcb] + old(s).queue)
    {
      hide QueueValid, SameOutcome, FirstReady;
      Dispose(p, s0);
      assert idleProcess !in queue;
      ghost var rest, was, q := s.queue, s, queue;
      p' := ProcessDequeue();
      assert [p'.pcb] + s.queue == rest;
      assert p' in q && forall n | n in queue :: n in q;
      OutcomeKept(rest, was, s, s0);
    }

    /** p was just taken off the queue, and is not the idle process. */
    ghost predicate TakenOff(p: ProcessNode)
      reads this`queue, this`idleProcess, p`next
    {
      p !in queue && p != idleProcess && idleProcess !in queue && (queue == [] ==> p.next == null)
    }

    /** What the loop does with a process that is not READY. The state is read before the node is
        freed. */
    method Dispose(p: ProcessNode, ghost s0: Sched)
      requires QueueValid() && TakenOff(p) && p.pcb.state != READY
      requires SameOutcome([p.pcb] + s.queue, s, s0)
      modifies this`first, this`last, this`size, this`readySize, this`queue, this`s, Nodes()`next, p`next
      ensures QueueValid() && queue == (if p.pcb.state == BLOCKED then old(queue) + [p] else old(queue))
      ensures queue != [] && SameOutcome(s.queue, s, s0)
      ensures FirstReady(s.queue) < FirstReady([p.pcb] + old(s).queue)
    {
      hide ChainValid, ReadyCount, SameOutcome, FirstReady, StillSame;
      ghost var t := s;
      var state := p.pcb.state;
      if state == KILLED {
        s := s.(freed := s.freed + [p.pcb.pid]);
      }
      if state == BLOCKED {
        ProcessQueue(p);
      }
      DisposedSame(p.pcb, t, s, s0);
    }

    /** The second half: the first READY process of the queue, or the idle one. */
    method SelectNext()
      requires QueueValid() && idleProcess !in queue && idleProcess.pcb == s.idle && newPIDVal == s.nextPid
      modifies this`first, this`last, this`size, this`readySize, this`queue, this`s, Nodes()`next
      modifies this`currentProcess, this`cyclesLeft
      ensures Placed() && s == SwitchIn(old(s))
    {
      ReadyCountPositive(s.queue);
      hide ReadyCount, HasReady, ChainValid, Rest, Picked, Reaped;
      ghost var s0 := s;
      if readySize > 0 {
        currentProcess := DequeueReady();
      } else {
        currentProcess := idleProcess;
      }
      cyclesLeft := currentProcess.pcb.priority;
      s := SwitchIn(s0);
    }

    /** scheduler. */
    method Tick()
      requires Valid()
      modifies this`first, this`last, this`size, this`readySize, this`queue, this`s, Nodes(), Held()
      modifies this`currentProcess, this`cyclesLeft
      ensures Valid() && s == Scheduling.Tick(old(s))
    {
      TickKeepsInv(s);
      hide Inv, QueueValid, PutAway, SwitchIn;
      if currentProcess != null && currentProcess.pcb.state == READY && cyclesLeft > 0 {
        SetCycles(cyclesLeft - 1);
      } else {
        Switch();
      }
    }

    method SetCycles(n: nat)
      requires Placed()
      modifies this`cyclesLeft, this`s
      ensures Placed() && s == old(s).(cyclesLeft := n)
    {
      hide ChainValid, ReadyCount;
      cyclesLeft := n;
      KeepQueue(s.(cyclesLeft := n));
    }

    /** Changes the abstract state where it does not concern the queue. */
    ghost method KeepQueue(s': Sched)
      requires QueueValid() && s'.queue == s.queue
      modifies this`s
      ensures QueueValid() && s == s'
    {
      hide ReadyCount, ChainValid;
      s := s';
    }

    /** The rest of the scheduler, when the current process does not keep the processor. */
    method Switch()
      requires Valid()
      modifies this`first, this`last, this`size, this`readySize, this`queue, this`s, Nodes(), Held()
      modifies this`currentProcess, this`cyclesLeft
      ensures Placed() && s == SwitchIn(PutAway(old(s)))
    {
      hide QueueValid, SwitchIn, Inv;
      if currentProcess != null {
        hide PutAway;
        PutCurrentAway();
      }
      SelectNext();
    }

    /** killProcess. */
    method KillProcess(pid: nat) returns (r: int)
      requires Valid() && currentProcess != null
      modifies this`first, this`last, this`size, this`readySize, this`queue, this`s, Nodes(), Held()
      modifies this`currentProcess, this`cyclesLeft
      ensures Valid() && s == Scheduling.KillProcess(old(s), pid)
      ensures r == if pid > 2 && Known(old(s), pid) && Lookup(old(s), pid).state != KILLED then pid else -1
    {
      if pid <= 2 {
        return -1;
      }
      r := ChangeState(pid, KILLED);
    }

    /** blockProcess. */
    method BlockProcess(pid: nat) returns (r: int)
      requires Valid() && currentProcess != null
      modifies this`first, this`last, this`size, this`readySize, this`queue, this`s, Nodes(), Held()
      modifies this`currentProcess, this`cyclesLeft
      ensures Valid() && s == Scheduling.BlockProcess(old(s), pid)
      ensures r == if Known(old(s), pid) && Lookup(old(s), pid).state != KILLED then pid else -1
    {
      r := ChangeState(pid, BLOCKED);
    }

    /** What killProcess and blockProcess share: the state changes, and a process that asks this of
        itself gives the processor away. */
    method ChangeState(pid: nat, newState: State) returns (r: int)
      requires Valid() && currentProcess != null
      modifies this`first, this`last, this`size, this`readySize, this`queue, this`s, Nodes(), Held()
      modifies this`currentProcess, this`cyclesLeft
      ensures Valid() && s == TickIfSelf(SetState(old(s), pid, newState), pid)
      ensures r == if Known(old(s), pid) && Lookup(old(s), pid).state != KILLED then pid else -1
    {
      SetStateKeepsInv(s, pid, newState);
      SameCurrent(s, pid, newState);
      hide Inv, QueueValid, SetState, Scheduling.Tick, Known, Lookup;
      r := SetNewState(pid, newState);
      if pid == currentProcess.pcb.pid {
        Tick();
      }
    }

    /** unblockProcess. */
    method UnblockProcess(pid: nat) returns (r: int)
      requires Valid()
      modifies this`readySize, this`s, Nodes()`pcb, Held()`pcb
      ensures Valid() && s == SetState(old(s), pid, READY)
      ensures r == if Known(old(s), pid) && Lookup(old(s), pid).state != KILLED then pid else -1
    {
      SetStateKeepsInv(s, pid, READY);
      hide Inv, QueueValid, SetState;
      r := SetNewState(pid, READY);
    }

    /** setNewCycle. */
    method SetNewCycle(pid: nat, priority: int)
      requires Valid()
      modifies this`s, Nodes()`pcb, Held()`pcb
      ensures Valid() && s == SetPriority(old(s), pid, priority)
    {
      PriorityKeepsInv(s, pid, priority);
      hide Inv, ReadyCount, ChainValid;
      var prio := priority;
      if prio < 0 {
        prio := 0;
      }
      if prio > PRIO_CAP {
        prio := PRIO_CAP;
      }
      var p := GetProcessOfPID(pid);
      if p != null {
        Rewrite(p, pid, p.pcb.(priority := prio));
      }
    }

    /** Rewrites the PCB of a process found by its pid, but for its state. */
    method Rewrite(process: ProcessNode, pid: nat, p: Proc)
      requires Placed() && Known(s, pid) && p.state == process.pcb.state
      requires IsCurrent(s, pid) ==> process == currentProcess
      requires !IsCurrent(s, pid) ==> Index(s.queue, pid) < |queue| && process == queue[Index(s.queue, pid)]
      modifies this`s, process`pcb
      ensures Placed() && s == Replace(old(s), pid, p)
    {
      if process == currentProcess {
        SetCurrent(p);
      } else {
        RewriteQueued(process, Index(s.queue, pid), p);
      }
    }

    method RewriteQueued(process: ProcessNode, ghost i: nat, p: Proc)
      requires Placed() && i < |queue| && process == queue[i] && p.state == process.pcb.state
      modifies this`s, process`pcb
      ensures Placed() && s == old(s).(queue := old(s).queue[i := p])
    {
      ReadyCountUpdate(s.queue, i, p);
      hide ReadyCount;
      assert process in queue;
      process.pcb := p;
      s := s.(queue := s.queue[i := p]);
    }

    /** yield. */
    method Yield()
      requires Valid()
      modifies this`first, this`last, this`size, this`readySize, this`queue, this`s, Nodes(), Held()
      modifies this`currentProcess, this`cyclesLeft
      ensures Valid() && s == Step(old(s), Op.Yield)
    {
      hide QueueValid, Scheduling.Tick;
      SetCycles(0);
      Tick();
    }

    /** waitForPID. */
    method WaitForPID(pid: nat)
      requires Valid() && currentProcess != null
      modifies this`first, this`last, this`size, this`readySize, this`queue, this`s, Nodes(), Held()
      modifies this`currentProcess, this`cyclesLeft
      ensures Valid() && s == WaitForPid(old(s), pid)
    {
      KeepsCurrent(s, pid);
      hide Inv, QueueValid, Replace, Scheduling.BlockProcess, Known, Lookup;
      var found := FindAndSetForeground(pid);
      if found {
        var _ := BlockProcess(currentProcess.pcb.pid);
      }
    }

    method FindAndSetForeground(pid: nat) returns (found: bool)
      requires Valid()
      modifies this`s, Nodes()`pcb, Held()`pcb
      ensures Valid() && found == Known(old(s), pid)
      ensures s == if found then Replace(old(s), pid, Lookup(old(s), pid).(fg := true)) else old(s)
    {
      hide Inv, QueueValid, Replace;
      var process := GetProcessOfPID(pid);
      if process != null {
        SetForeground(process, pid);
      }
      found := process != null;
    }

    method SetForeground(process: ProcessNode, pid: nat)
      requires Valid() && Known(s, pid)
      requires IsCurrent(s, pid) ==> process == currentProcess
      requires !IsCurrent(s, pid) ==> Index(s.queue, pid) < |queue| && process == queue[Index(s.queue, pid)]
      modifies this`s, process`pcb
      ensures Valid() && s == Replace(old(s), pid, Lookup(old(s), pid).(fg := true))
    {
      ReplaceBounded(s, pid, Lookup(s, pid).(fg := true));
      ReplaceConserves(s, pid, Lookup(s, pid).(fg := true));
      Rewrite(process, pid, process.pcb.(fg := true));
    }

    /** killFgProcess. */
    method KillFgProcess()
      requires Valid()
      modifies this`first, this`last, this`size, this`readySize, this`queue, this`s, Nodes(), Held()
      modifies this`currentProcess, this`cyclesLeft
      ensures Valid() && s == Scheduling.KillFgProcess(old(s))
    {
      hide QueueValid, Inv, Scheduling.KillProcess;
      if currentProcess != null && currentProcess.pcb.fg && currentProcess.pcb.state == READY {
        var _ := KillProcess(currentProcess.pcb.pid);
      }
    }

    /** addProcess and createPCB. A pid is consumed even when fg is refused. */
    method AddProcess(fg: int) returns (r: int)
      requires Valid()
      modifies this`first, this`last, this`size, this`readySize, this`queue, this`s, Nodes(), Held()
      modifies this`currentProcess, this`cyclesLeft, this`newPIDVal
      ensures Valid() && s == Scheduling.AddProcess(old(s), fg)
      ensures r == if fg == 0 || fg == 1 then old(s).nextPid else -1
      ensures r >= 0 && CurrentReady(old(s)) ==> exists p :: IsChild(old(s), fg, p) && p.pid == r && Present(s, p)
      ensures fg == 1 && CurrentReady(old(s)) && old(s).current.Running? && old(s).current.proc.fg ==>
                IsBlocked(s, old(s).current.proc.pid)
    {
      Added(s, fg);
      hide Inv, QueueValid, Scheduling.AddProcess;
      if fg > 1 || fg < 0 {
        TakePid();
        r := -1;
      } else {
        r := AddReady(fg);
      }
    }

    lemma Added(s: Sched, fg: int)
      requires Inv(s)
      ensures var s' := Scheduling.AddProcess(s, fg);
              && ((fg == 0 || fg == 1) && CurrentReady(s) ==> exists p :: IsChild(s, fg, p) && Present(s', p))
              && (fg == 1 && CurrentReady(s) && s.current.Running? && s.current.proc.fg ==>
                    IsBlocked(s', s.current.proc.pid))
              && (fg != 0 && fg != 1 ==> s' == s.(nextPid := s.nextPid + 1))
    {
      hide Inv, CurrentReady, IsChild, Present, Scheduling.BlockProcess;
      if (fg == 0 || fg == 1) && CurrentReady(s) {
        ChildAdded(s, fg);
        if fg == 1 && s.current.Running? && s.current.proc.fg {
          ForegroundBlocks(s);
        }
      }
    }

    /** addProcess, once fg is accepted: a foreground child blocks its parent. */
    method AddReady(fg: int) returns (r: int)
      requires Valid() && (fg == 0 || fg == 1)
      modifies this`first, this`last, this`size, this`readySize, this`queue, this`s, Nodes(), Held()
      modifies this`currentProcess, this`cyclesLeft, this`newPIDVal
      ensures Valid() && s == Scheduling.AddProcess(old(s), fg) && r == old(s).nextPid
    {
      hide Inv, QueueValid, Scheduling.BlockProcess, NewProc;
      r := newPIDVal;
      var p := CreatePCB(fg);
      Enqueue(p);
      if p.fg && p.ppid != 0 {
        var _ := BlockProcess(p.ppid);
      }
    }

    /** createPCB: only a foreground process, or the kernel before the first tick, makes a foreground
        one, which starts with a higher priority. */
    method CreatePCB(fg: int) returns (p: Proc)
      requires Placed() && (fg == 0 || fg == 1)
      ensures p.fg <==> fg == 1 && (currentProcess == null || currentProcess.pcb.fg)
      ensures p.fg <==> p.priority > INIT_PRIO
      ensures p.pid == newPIDVal && p.state == READY && p.priority <= PRIO_CAP
      ensures p.ppid != 0 ==> currentProcess != null
      ensures p == NewProc(s, fg)
    {
      var ppid := if currentProcess == null then 0 else currentProcess.pcb.pid;
      var inFg := if currentProcess == null then fg == 1 else currentProcess.pcb.fg && fg == 1;
      p := Proc(newPIDVal, ppid, inFg, if inFg then INIT_PRIO_AUG else INIT_PRIO, READY);
    }

    /** getNewPID. */
    method TakePid()
      requires Placed()
      modifies this`newPIDVal, this`s
      ensures Placed() && s == old(s).(nextPid := old(s).nextPid + 1) && newPIDVal == old(newPIDVal) + 1
    {
      hide ChainValid, ReadyCount;
      newPIDVal := newPIDVal + 1;
      KeepQueue(s.(nextPid := s.nextPid + 1));
    }

    /** The new process gets its node, which starts unlinked, and joins the queue. */
    method Enqueue(p: Proc)
      requires Valid() && p.pid == newPIDVal && p.priority <= PRIO_CAP
      modifies this`first, this`last, this`size, this`readySize, this`queue, this`s, this`newPIDVal, Nodes()`next
      ensures Valid() && fresh(Nodes() - old(Nodes()))
      ensures s == old(s).(queue := old(s).queue + [p], nextPid := old(s).nextPid + 1,
                           created := old(s).created + {p.pid})
    {
      EnqueueKeepsInv(s, p);
      hide Inv, QueueValid;
      var node := new ProcessNode(p);
      EnqueueNode(node);
    }

    method EnqueueNode(node: ProcessNode)
      requires Placed() && node !in queue && node != currentProcess && node != idleProcess && node.next == null
      modifies this`first, this`last, this`size, this`readySize, this`queue, this`s, this`newPIDVal
      modifies node`next, Nodes()`next
      ensures Placed() && queue == old(queue) + [node]
      ensures s == old(s).(queue := old(s).queue + [node.pcb], nextPid := old(s).nextPid + 1,
                           created := old(s).created + {old(s).nextPid})
    {
      hide ReadyCount, ChainValid;
      ProcessQueue(node);
      newPIDVal := newPIDVal + 1;
      KeepQueue(s.(nextPid := s.nextPid + 1, created := s.created + {s.nextPid}));
    }
  }

  /** From the state t, with q still to go through, the loop ends as it would from s0. */
  ghost predicate SameOutcome(q: seq<Proc>, t: Sched, s0: Sched) {
    && HasReady(q) && HasReady(s0.queue)
    && Picked(q) == Picked(s0.queue) && Rest(q) == Rest(s0.queue)
    && t.freed + Reaped(q) == s0.freed + Reaped(s0.queue)
    && t == s0.(queue := t.queue, freed := t.freed)
  }

  lemma OutcomeRequeued(p: Proc, t: Sched, s0: Sched)
    requires p.state == BLOCKED && SameOutcome([p] + t.queue, t, s0)
    ensures StillSame(p, t, t.(queue := t.queue + [p]), s0)
  {
    var q := [p] + t.queue;
    hide FirstReady, Rest, Reaped, Picked, HasReady;
    LoopPass(q);
    assert q[1..] + [q[0]] == t.queue + [p];
    assert [] + Reaped(t.queue + [p]) == Reaped(t.queue + [p]);
  }

  lemma OutcomeReaped(p: Proc, t: Sched, s0: Sched)
    requires p.state == KILLED && SameOutcome([p] + t.queue, t, s0)
    ensures StillSame(p, t, t.(freed := t.freed + [p.pid]), s0)
  {
    var q := [p] + t.queue;
    hide FirstReady, Rest, Reaped, Picked, HasReady;
    LoopPass(q);
    assert q[1..] == t.queue;
    HasReadyNonempty(t.queue);
    assert t.freed + ([p.pid] + Reaped(t.queue)) == (t.freed + [p.pid]) + Reaped(t.queue);
  }

  lemma DisposedSame(p: Proc, t: Sched, t': Sched, s0: Sched)
    requires p.state != READY && SameOutcome([p] + t.queue, t, s0)
    requires t' == if p.state == BLOCKED then t.(queue := t.queue + [p]) else t.(freed := t.freed + [p.pid])
    ensures StillSame(p, t, t', s0)
    ensures t'.queue != [] && SameOutcome(t'.queue, t', s0) && HasReady([p] + t.queue)
    ensures FirstReady(t'.queue) < FirstReady([p] + t.queue)
  {
    hide SameOutcome, HasReady, FirstReady;
    if p.state == BLOCKED {
      OutcomeRequeued(p, t, s0);
    } else {
      OutcomeReaped(p, t, s0);
    }
  }

  lemma HasReadyNonempty(q: seq<Proc>)
    requires HasReady(q)
    ensures q != []
  {}

  lemma OutcomeKept(q: seq<Proc>, t: Sched, t': Sched, s0: Sched)
    requires SameOutcome(q, t, s0) && t' == t.(queue := t'.queue)
    ensures SameOutcome(q, t', s0)
  {}

  ghost predicate StillSame(p: Proc, t: Sched, t': Sched, s0: Sched) {
    t'.queue != [] && SameOutcome(t'.queue, t', s0) && HasReady([p] + t.queue) &&
    FirstReady(t'.queue) < FirstReady([p] + t.queue)
  }

  lemma SameCurrent(s: Sched, pid: nat, state: State)
    ensures var s' := SetState(s, pid, state);
            (s'.current == Nobody <==> s.current == Nobody) &&
            (s.current != Nobody ==> CurrentProc(s').pid == CurrentProc(s).pid)
  {}

  lemma KeepsCurrent(s: Sched, pid: nat)
    requires s.current != Nobody
    ensures Known(s, pid) ==>
              var s' := Replace(s, pid, Lookup(s, pid).(fg := true));
              s'.current != Nobody && CurrentProc(s').pid == CurrentProc(s).pid
  {}

  lemma LookupPid(s: Sched, pid: nat)
    requires Known(s, pid)
    ensures Lookup(s, pid).pid == pid
  {}

  lemma PickNow(q: seq<Proc>)
    requires q != [] && q[0].state == READY && HasReady(q)
    ensures Picked(q) == q[0] && Rest(q) == q[1..] && Reaped(q) == []
  {
    assert FirstReady(q) == 0 && q[..0] == [];
  }

  lemma RunningIsNotIdle(s: Sched)
    requires Inv(s)
    ensures s.idle.pid == 0 && (s.current.Running? ==> s.current.proc.pid > 0)
  {
    if s.current.Running? {
      var pid := s.current.proc.pid;
      assert Active(s)[|s.queue|] == pid && pid in Active(s);
      assert pid in multiset(s.created);
    }
  }
}
