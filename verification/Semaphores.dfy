/** semaphores.c as it is written: a linked list of semaphores, each with its array of blocked pids,
    on top of the scheduler of schedule.c. Each call is proved to do what Signalling says. The mutex
    of a semaphore is never contended, as system calls run with interrupts off. */
module Semaphores {
  import opened Signalling
  import Scheduling
  import Scheduler

  /** struct Semaphore. */
  class Semaphore {
    var id: nat
    var value: nat
    var listeners: nat
    const blockedPIDs: array<nat>
    var blockedPIDsSize: nat
    var next: Semaphore?

    constructor (id: nat, initial: nat)
      ensures Holds(NewSem(id, initial)) && next == null && fresh(blockedPIDs)
    {
      this.id, value, listeners, blockedPIDsSize, next := id, initial, 0, 0, null;
      blockedPIDs := new nat[MAX_BLOCKED_PIDS];
    }

    /** The fields hold the semaphore s. */
    ghost predicate Holds(s: Sem)
      reads this`id, this`value, this`listeners, this`blockedPIDsSize, blockedPIDs
    {
      && blockedPIDs.Length == MAX_BLOCKED_PIDS && blockedPIDsSize <= MAX_BLOCKED_PIDS
      && id == s.id && value == s.value && listeners == s.listeners
      && blockedPIDs[..blockedPIDsSize] == s.waiters
    }

    /** sWait: take a token, or go after the last blocked pid. */
    method Wait(ghost s: Sem, pid: nat) returns (block: bool)
      requires Holds(s) && (value > 0 || blockedPIDsSize < MAX_BLOCKED_PIDS)
      modifies this`value, this`blockedPIDsSize, blockedPIDs
      ensures Holds(Acquire(s, pid)) && block == (s.value == 0)
    {
      block := value == 0;
      if value > 0 {
        value := value - 1;
      } else {
        blockedPIDs[blockedPIDsSize] := pid;
        blockedPIDsSize := blockedPIDsSize + 1;
      }
    }

    /** sPost: hand the token to the first blocked pid, or bank it. */
    method Post(ghost s: Sem) returns (wake: bool, pid: nat)
      requires Holds(s)
      modifies this`value, this`blockedPIDsSize, blockedPIDs
      ensures Holds(Release(s)) && wake == (s.waiters != []) && (wake ==> pid == s.waiters[0])
    {
      wake, pid := blockedPIDsSize > 0, 0;
      if wake {
        pid := Shift(s.waiters);
      } else {
        value := (value + 1) % WORD;
      }
    }

    /** The first blocked pid comes off and the others move up. */
    method Shift(ghost was: seq<nat>) returns (pid: nat)
      requires 0 < blockedPIDsSize <= blockedPIDs.Length && blockedPIDs[..blockedPIDsSize] == was
      modifies this`blockedPIDsSize, blockedPIDs
      ensures blockedPIDsSize == old(blockedPIDsSize) - 1
      ensures blockedPIDs[..blockedPIDsSize] == was[1..] && pid == was[0]
    {
      pid := blockedPIDs[0];
      var i: nat := 0;
      while i < blockedPIDsSize - 1
        invariant i <= blockedPIDsSize - 1
        invariant forall k | 0 <= k < i :: blockedPIDs[k] == was[k + 1]
        invariant forall k | i <= k < blockedPIDsSize :: blockedPIDs[k] == was[k]
        modifies blockedPIDs
      {
        blockedPIDs[i] := blockedPIDs[i + 1];
        i := i + 1;
      }
      blockedPIDsSize := blockedPIDsSize - 1;
    }
  }

  /** The list of semaphores, and the scheduler. The ghost fields hold the nodes in list order, the
      semaphores as Signalling sees them, and the processes asleep on them. */
  class Table {
    var semaphores: Semaphore?
    const kernel: Scheduler.Kernel
    ghost var nodes: seq<Semaphore>
    ghost var sems: seq<Sem>
    ghost var asleep: set<nat>

    ghost function Nodes(): set<Semaphore>
      reads this`nodes
    {
      set n | n in nodes
    }

    ghost function Arrays(): set<array<nat>>
      reads this`nodes
    {
      set n | n in nodes :: n.blockedPIDs
    }

    /** The list runs through the nodes of q, and no other. */
    ghost predicate Chain(q: seq<Semaphore>)
      reads this`semaphores, (set n | n in q)`next
    {
      && (forall i, j | 0 <= i < j < |q| :: q[i] != q[j] && q[i].blockedPIDs != q[j].blockedPIDs)
      && (forall i: nat, j: nat | j < |q| && j == i + 1 :: q[i].next == q[j])
      && (if q == [] then semaphores == null else semaphores == q[0] && q[|q| - 1].next == null)
    }

    ghost predicate Linked()
      reads this`semaphores, this`nodes, Nodes()`next
    {
      Chain(nodes)
    }

    ghost predicate Filled()
      reads this`nodes, this`sems, Nodes()`id, Nodes()`value, Nodes()`listeners, Nodes()`blockedPIDsSize, Arrays()
    {
      |nodes| == |sems| && forall i: nat | i < |nodes| :: nodes[i].Holds(sems[i])
    }

    ghost function W(): World
      reads this`sems, this`asleep, kernel`s
    {
      World(kernel.s, sems, asleep)
    }

    ghost predicate Valid()
      reads this, Nodes(), Arrays(), kernel, kernel.Nodes(), kernel.Held()
    {
      Base() && JointInv(W())
    }

    /** The list and the scheduler share no object. */
    lemma Apart()
      ensures forall o: object | o in Nodes() :: o != this && o != kernel && o !in kernel.Nodes() && o !in kernel.Held()
      ensures forall o: object | o in Arrays() ::
                o != this && o != kernel && o !in kernel.Nodes() && o !in kernel.Held()
      ensures var o: object := this;
              o !in kernel.Nodes() && o !in kernel.Held() && o != kernel && o !in Nodes() && o !in Arrays()
    {}

    constructor (kernel: Scheduler.Kernel)
      requires kernel.Valid() && CurrentReady(kernel.s)
      ensures Valid() && W() == World(kernel.s, [], {}) && this.kernel == kernel
    {
      EmptyJoint(kernel.s);
      semaphores, nodes, sems, asleep := null, [], [], {};
      this.kernel := kernel;
      new;
      hide JointInv, Scheduler.Kernel.Valid;
    }

    /** findSem. */
    method FindSem(id: nat) returns (sem: Semaphore?, ghost i: nat)
      requires Linked() && Filled()
      ensures Linked() && Filled() && i == Find(sems, id) && |nodes| == |sems|
      ensures if Find(sems, id) < |nodes| then sem == nodes[Find(sems, id)] else sem == null
    {
      sem, i := semaphores, 0;
      while sem != null
        invariant i <= |nodes|
        invariant if i < |nodes| then sem == nodes[i] else sem == null
        invariant forall j: nat | j < i :: sems[j].id != id
        decreases |nodes| - i
      {
        assert nodes[i].Holds(sems[i]);
        if sem.id == id {
          break;
        }
        assert i + 1 < |nodes| ==> nodes[i].next == nodes[i + 1];
        sem := sem.next;
        i := i + 1;
      }
      FindAt(sems, id, i);
    }

    /** The step of one semaphore in the list is a step of the list. */
    ghost method Record(i: nat, t: Sem)
      requires Linked() && i < |nodes| == |sems| && nodes[i].Holds(t)
      requires forall j: nat | j < |nodes| && j != i :: nodes[j].Holds(sems[j])
      modifies this`sems
      ensures Filled() && sems == old(sems)[i := t]
    {
      sems := sems[i := t];
    }

    /** sWait as far as the semaphore is concerned. */
    method WaitOn(sem: Semaphore, ghost i: nat, pid: nat) returns (block: bool)
      requires Linked() && Filled() && i < |nodes| && sem == nodes[i]
      requires sems[i].value > 0 || |sems[i].waiters| < MAX_BLOCKED_PIDS
      modifies this`sems, sem`value, sem`blockedPIDsSize, sem.blockedPIDs
      ensures Linked() && Filled() && sems == old(sems)[i := Acquire(old(sems)[i], pid)]
      ensures block <==> old(sems)[i].value == 0
    {
      assert nodes[i].Holds(sems[i]);
      block := sem.Wait(sems[i], pid);
      Record(i, Acquire(sems[i], pid));
    }

    /** sPost as far as the semaphore is concerned. */
    method PostOn(sem: Semaphore, ghost i: nat) returns (wake: bool, pid: nat)
      requires Linked() && Filled() && i < |nodes| && sem == nodes[i]
      modifies this`sems, sem`value, sem`blockedPIDsSize, sem.blockedPIDs
      ensures Linked() && Filled() && sems == old(sems)[i := Release(old(sems)[i])]
      ensures wake <==> old(sems)[i].waiters != []
      ensures wake ==> pid == old(sems)[i].waiters[0]
    {
      assert nodes[i].Holds(sems[i]);
      wake, pid := sem.Post(sems[i]);
      Record(i, Release(sems[i]));
    }

    /** The list and the scheduler are each in order. */
    ghost predicate Base()
      reads this`semaphores, this`nodes, this`sems, Nodes(), Arrays(), kernel, kernel.Nodes(), kernel.Held()
    {
      Linked() && Filled() && kernel.Valid()
    }

    /** blockProcess, next to which the list stands still. */
    method Sleep(pid: nat)
      requires Base() && kernel.currentProcess != null
      modifies kernel, kernel.Nodes(), kernel.Held()
      ensures Base() && kernel.s == Scheduling.BlockProcess(old(kernel.s), pid)
    {
      hide Scheduler.Kernel.Valid, Scheduler.Kernel.Placed, Scheduler.Kernel.QueueValid, Semaphore.Holds;
      var _ := kernel.BlockProcess(pid);
    }

    /** unblockProcess, next to which the list stands still. */
    method Wake(pid: nat)
      requires Base()
      modifies kernel`readySize, kernel`s, kernel.Nodes()`pcb, kernel.Held()`pcb
      ensures Base() && kernel.s == Scheduling.SetState(old(kernel.s), pid, Scheduling.READY)
    {
      hide Scheduler.Kernel.Valid, Scheduler.Kernel.Placed, Scheduler.Kernel.QueueValid, Semaphore.Holds;
      var _ := kernel.UnblockProcess(pid);
    }

    /** WaitOn, next to which the scheduler stands still. */
    method WaitBeside(sem: Semaphore, ghost i: nat, pid: nat) returns (block: bool)
      requires Base() && i < |nodes| == |sems| && sem == nodes[i]
      requires sems[i].value > 0 || |sems[i].waiters| < MAX_BLOCKED_PIDS
      modifies this`sems, sem`value, sem`blockedPIDsSize, sem.blockedPIDs
      ensures Base() && sems == old(sems)[i := Acquire(old(sems)[i], pid)]
      ensures block <==> old(sems)[i].value == 0
    {
      Apart();
      assert sem in Nodes() && sem.blockedPIDs in Arrays();
      hide Linked, Filled, Nodes, Arrays, Scheduler.Kernel.Valid;
      block := WaitOn(sem, i, pid);
    }

    /** PostOn, next to which the scheduler stands still. */
    method PostBeside(sem: Semaphore, ghost i: nat) returns (wake: bool, pid: nat)
      requires Base() && i < |nodes| == |sems| && sem == nodes[i]
      modifies this`sems, sem`value, sem`blockedPIDsSize, sem.blockedPIDs
      ensures Base() && sems == old(sems)[i := Release(old(sems)[i])]
      ensures wake <==> old(sems)[i].waiters != []
      ensures wake ==> pid == old(sems)[i].waiters[0]
    {
      Apart();
      assert sem in Nodes() && sem.blockedPIDs in Arrays();
      hide Linked, Filled, Nodes, Arrays, Scheduler.Kernel.Valid;
      wake, pid := PostOn(sem, i);
    }

    ghost method Note(a: set<nat>)
      requires Base()
      modifies this`asleep
      ensures Base() && asleep == a
    {
      Apart();
      hide Linked, Filled, Nodes, Arrays, Scheduler.Kernel.Valid;
      asleep := a;
    }

    /** getCurrPID, for a process that calls it. */
    method CurrentPid() returns (pid: nat)
      requires Base() && kernel.s.current.Running?
      ensures Base() && pid == kernel.s.current.proc.pid && kernel.currentProcess != null
    {
      hide Linked, Filled;
      pid := kernel.currentProcess.pcb.pid;
    }

    /** findSem, next to which everything stands still. */
    method Search(id: nat) returns (sem: Semaphore?, ghost i: nat)
      requires Base()
      ensures Base() && i == Find(sems, id) && |nodes| == |sems|
      ensures if i < |nodes| then sem == nodes[i] && sem in Nodes() && sem.blockedPIDs in Arrays() else sem == null
    {
      hide Linked, Filled;
      sem, i := FindSem(id);
    }

    /** sWait. When it blocks, the caller goes on from here only once it was handed a token. */
    method Wait(id: nat) returns (r: int, blocked: bool)
      requires Valid() && MayWait(W(), id)
      modifies this`sems, this`asleep, Nodes(), Arrays(), kernel, kernel.Nodes(), kernel.Held()
      ensures Valid() && W() == Take(old(W()), id)
      ensures r == if Exists(old(W()), id) then 0 else -1
      ensures blocked <==> Exists(old(W()), id) && At(old(W()), id).value == 0
      ensures !blocked ==>
              nodes == old(nodes) && kernel.queue == old(kernel.queue) &&
              kernel.idleProcess == old(kernel.idleProcess) &&
              kernel.currentProcess == old(kernel.currentProcess)
    {
      TakeKeepsJoint(W(), id);
      hide JointInv, Base, Nodes, Arrays, Scheduler.Kernel.Nodes, Scheduler.Kernel.Held;
      r, blocked := TakeOrSleep(id);
    }

    method TakeOrSleep(id: nat) returns (r: int, blocked: bool)
      requires Base() && MayWait(W(), id)
      modifies this`sems, this`asleep, Nodes(), Arrays(), kernel, kernel.Nodes(), kernel.Held()
      ensures Base() && W() == Take(old(W()), id)
      ensures r == if Exists(old(W()), id) then 0 else -1
      ensures blocked <==> Exists(old(W()), id) && At(old(W()), id).value == 0
      ensures !blocked ==>
              nodes == old(nodes) && kernel.queue == old(kernel.queue) &&
              kernel.idleProcess == old(kernel.idleProcess) &&
              kernel.currentProcess == old(kernel.currentProcess)
    {
      hide Acquire, Base, Find, Nodes, Arrays, Scheduler.Kernel.Nodes, Scheduler.Kernel.Held;
      r, blocked := -1, false;
      var sem, i := Search(id);
      if sem != null {
        var currPid := CurrentPid();
        blocked := WaitBeside(sem, i, currPid);
        if blocked {
          Note(asleep + {currPid});
          Sleep(currPid);
        }
        r := 0;
      }
    }

    /** sPost. */
    method Post(id: nat) returns (r: int)
      requires Valid()
      modifies this`sems, this`asleep, Nodes(), Arrays(), kernel, kernel.Nodes(), kernel.Held()
      ensures Valid() && W() == Signalling.Post(old(W()), id)
      ensures r == if Exists(old(W()), id) then 0 else -1
      ensures nodes == old(nodes) && kernel.queue == old(kernel.queue) &&
              kernel.idleProcess == old(kernel.idleProcess) &&
              kernel.currentProcess == old(kernel.currentProcess)
    {
      PostKeepsJoint(W(), id);
      hide Signalling.Post, Exists, JointInv, Base, Nodes, Arrays, Scheduler.Kernel.Nodes, Scheduler.Kernel.Held;
      r := HandOrBank(id);
    }

    method HandOrBank(id: nat) returns (r: int)
      requires Base()
      modifies this`sems, this`asleep, Nodes(), Arrays(), kernel, kernel.Nodes(), kernel.Held()
      ensures Base() && W() == Signalling.Post(old(W()), id)
      ensures r == if Exists(old(W()), id) then 0 else -1
      ensures nodes == old(nodes) && kernel.queue == old(kernel.queue) &&
              kernel.idleProcess == old(kernel.idleProcess) &&
              kernel.currentProcess == old(kernel.currentProcess)
    {
      hide Release, Base, Find, Nodes, Arrays, Scheduler.Kernel.Nodes, Scheduler.Kernel.Held;
      r := -1;
      var sem, i := Search(id);
      if sem != null {
        var wake, nextPid := PostBeside(sem, i);
        if wake {
          Note(asleep - {nextPid});
          Wake(nextPid);
        }
        r := 0;
      }
    }

    // ----- sOpen and sClose -----

    /** The walk to the end of the list. */
    method Last() returns (lastSem: Semaphore)
      requires Linked() && semaphores != null
      ensures nodes != [] && lastSem == nodes[|nodes| - 1]
    {
      lastSem := semaphores;
      ghost var i: nat := 0;
      assert |nodes| > 1 ==> nodes[0].next == nodes[1];
      while lastSem.next != null
        invariant i < |nodes| && lastSem == nodes[i]
        invariant i + 1 < |nodes| ==> nodes[i].next == nodes[i + 1]
        decreases |nodes| - i
      {
        assert i + 2 < |nodes| ==> nodes[i + 1].next == nodes[i + 2];
        lastSem := lastSem.next;
        i := i + 1;
      }
    }

    method Link(sem: Semaphore)
      requires Linked() && sem !in nodes && sem.blockedPIDs !in Arrays() && sem.next == null
      modifies this`semaphores, Nodes()`next
      ensures Chain(nodes + [sem])
    {
      if semaphores == null {
        semaphores := sem;
      } else {
        var lastSem := Last();
        lastSem.next := sem;
      }
    }

    /** A new semaphore goes after the last one. */
    method Append(sem: Semaphore, ghost t: Sem)
      requires Linked() && Filled() && sem !in nodes && sem.blockedPIDs !in Arrays() && sem.next == null && sem.Holds(t)
      modifies this`semaphores, this`nodes, this`sems, Nodes()`next
      ensures Linked() && Filled() && sems == old(sems) + [t] && nodes == old(nodes) + [sem]
    {
      hide Chain;
      Link(sem);
      nodes, sems := nodes + [sem], sems + [t];
    }

    method SetListeners(sem: Semaphore, ghost i: nat, n: nat)
      requires Linked() && Filled() && i < |nodes| == |sems| && sem == nodes[i]
      modifies this`sems, sem`listeners
      ensures Linked() && Filled() && sems == old(sems)[i := old(sems)[i].(listeners := n)]
    {
      assert nodes[i].Holds(sems[i]);
      sem.listeners := n;
      Record(i, sems[i].(listeners := n));
    }

    /** The semaphore is taken out of the list. */
    method Unlink(sem: Semaphore, ghost i: nat)
      requires Linked() && Filled() && i < |nodes| == |sems| && sem == nodes[i]
      modifies this`semaphores, this`nodes, this`sems, Nodes()`next
      ensures Linked() && Filled() && sems == old(sems)[..i] + old(sems)[i + 1..]
      ensures nodes == old(nodes)[..i] + old(nodes)[i + 1..]
    {
      hide Chain, Filled;
      Bypass(sem, i);
      Forget(i);
    }

    method Bypass(sem: Semaphore, ghost i: nat)
      requires Linked() && Filled() && i < |nodes| == |sems| && sem == nodes[i]
      modifies this`semaphores, Nodes()`next
      ensures Chain(nodes[..i] + nodes[i + 1..]) && Filled()
    {
      hide Semaphore.Holds;
      ghost var q := nodes[..i] + nodes[i + 1..];
      assert i + 1 < |nodes| ==> nodes[i].next == nodes[i + 1];
      var aux := semaphores;
      if aux == sem {
        semaphores := aux.next;
      } else {
        aux := Before(sem, i);
        aux.next := sem.next;
      }
    }

    ghost method Forget(i: nat)
      requires Filled() && i < |nodes| == |sems| && Chain(nodes[..i] + nodes[i + 1..])
      modifies this`nodes, this`sems
      ensures Filled() && Linked() && nodes == old(nodes)[..i] + old(nodes)[i + 1..]
      ensures sems == old(sems)[..i] + old(sems)[i + 1..]
    {
      nodes, sems := nodes[..i] + nodes[i + 1..], sems[..i] + sems[i + 1..];
    }

    /** The node that links to a semaphore. */
    method Before(sem: Semaphore, ghost i: nat) returns (aux: Semaphore)
      requires Linked() && i < |nodes| && sem == nodes[i] && semaphores != sem
      ensures i > 0 && aux == nodes[i - 1]
    {
      aux := semaphores;
      ghost var k: nat := 0;
      assert |nodes| > 1 ==> nodes[0].next == nodes[1];
      while aux.next != sem
        invariant k < i && aux == nodes[k]
        invariant k + 1 < |nodes| && nodes[k].next == nodes[k + 1]
        decreases i - k
      {
        assert k + 2 < |nodes| ==> nodes[k + 1].next == nodes[k + 2];
        aux := aux.next;
        k := k + 1;
      }
    }

    /** One more listener, if there is room for it. */
    method Join(sem: Semaphore, ghost i: nat) returns (full: bool)
      requires Base() && i < |nodes| == |sems| && sem == nodes[i]
      modifies this`sems, sem`listeners
      ensures Base() && full == (old(sems)[i].listeners >= MAX_BLOCKED_PIDS)
      ensures sems == if full then old(sems)
                      else old(sems)[i := old(sems)[i].(listeners := old(sems)[i].listeners + 1)]
    {
      hide Base, Nodes, Arrays;
      var listeners := Listeners(sem, i);
      full := listeners >= MAX_BLOCKED_PIDS;
      if !full {
        ListenersBeside(sem, i, listeners + 1);
      }
    }

    /** SetListeners, next to which the scheduler stands still. */
    method ListenersBeside(sem: Semaphore, ghost i: nat, n: nat)
      requires Base() && i < |nodes| == |sems| && sem == nodes[i]
      modifies this`sems, sem`listeners
      ensures Base() && sems == old(sems)[i := old(sems)[i].(listeners := n)]
    {
      Apart();
      assert sem in Nodes() && sem.blockedPIDs in Arrays();
      hide Linked, Filled, Nodes, Arrays, Scheduler.Kernel.Valid;
      SetListeners(sem, i, n);
    }

    /** A semaphore that is not there is made, and put at the end of the list. */
    method Make(id: nat, initial: nat) returns (sem: Semaphore)
      requires Base()
      modifies this`semaphores, this`nodes, this`sems, Nodes()`next
      ensures Base() && fresh(sem) && nodes == old(nodes) + [sem]
      ensures sems == old(sems) + [NewSem(id, initial)] && |nodes| == |sems|
    {
      sem := new Semaphore(id, initial);
      Apart();
      hide Chain, Semaphore.Holds, Scheduler.Kernel.Valid;
      Append(sem, NewSem(id, initial));
    }

    /** sOpen. */
    method Open(id: nat, initial: nat) returns (r: nat)
      requires Valid() && id < WORD && initial < WORD
      modifies this`semaphores, this`nodes, this`sems, Nodes()
      ensures Valid() && W() == old(W()).(sems := Signalling.Open(old(sems), id, initial))
      ensures fresh(Nodes() - old(Nodes()))
      ensures r == if Find(old(sems), id) < |old(sems)| && old(sems)[Find(old(sems), id)].listeners >= MAX_BLOCKED_PIDS
                   then WORD - 1 else id
    {
      OpenKeepsJoint(W(), id, initial);
      hide JointInv, Base, Nodes, Arrays, Scheduler.Kernel.Nodes, Scheduler.Kernel.Held;
      r := OpenOrMake(id, initial);
    }

    method OpenOrMake(id: nat, initial: nat) returns (r: nat)
      requires Base() && initial < WORD
      modifies this`semaphores, this`nodes, this`sems, Nodes()
      ensures Base() && sems == Signalling.Open(old(sems), id, initial)
      ensures fresh(Nodes() - old(Nodes()))
      ensures r == if Find(old(sems), id) < |old(sems)| && old(sems)[Find(old(sems), id)].listeners >= MAX_BLOCKED_PIDS
                   then WORD - 1 else id
    {
      hide Base, Find, Arrays, Scheduler.Kernel.Nodes, Scheduler.Kernel.Held;
      var found, i := Search(id);
      var full: bool;
      if found != null {
        full := Join(found, i);
      } else {
        var sem := Make(id, initial);
        full := Join(sem, i);
      }
      r := if full then WORD - 1 else id;
    }

    /** sClose. Freeing a semaphore that others still wait on loses the invariant, and nothing else does. */
    method Close(id: nat) returns (r: int)
      requires Valid()
      modifies this`semaphores, this`nodes, this`sems, Nodes()
      ensures Base() && (Valid() <==> Allowed(old(W()), CloseSem(id)))
      ensures W() == old(W()).(sems := Signalling.Close(old(sems), id))
      ensures r == if Exists(old(W()), id) then 0 else -1
    {
      hide Signalling.Close, JointInv, Allowed, Base, Nodes, Arrays, Scheduler.Kernel.Nodes, Scheduler.Kernel.Held;
      hide Listening;
      CloseJoint(W(), id);
      AllListening(W());
      r := Leave(id);
    }

    method Leave(id: nat) returns (r: int)
      requires Base() && Listening(sems)
      modifies this`semaphores, this`nodes, this`sems, Nodes()
      ensures Base() && sems == Signalling.Close(old(sems), id)
      ensures r == if Find(old(sems), id) < |old(sems)| then 0 else -1
    {
      hide Base, Find, Nodes, Arrays, Scheduler.Kernel.Nodes, Scheduler.Kernel.Held;
      r := -1;
      var sem, i := Search(id);
      if sem != null {
        var listeners := Listeners(sem, i);
        ListenersBeside(sem, i, listeners - 1);
        if listeners - 1 == 0 {
          UnlinkBeside(sem, i);
        }
        r := 0;
      }
    }

    method Listeners(sem: Semaphore, ghost i: nat) returns (n: nat)
      requires Base() && i < |nodes| == |sems| && sem == nodes[i]
      ensures Base() && n == sems[i].listeners
    {
      assert nodes[i].Holds(sems[i]);
      hide Linked, Filled;
      n := sem.listeners;
    }

    /** Unlink, next to which the scheduler stands still. */
    method UnlinkBeside(sem: Semaphore, ghost i: nat)
      requires Base() && i < |nodes| == |sems| && sem == nodes[i]
      modifies this`semaphores, this`nodes, this`sems, Nodes()`next
      ensures Base() && sems == old(sems)[..i] + old(sems)[i + 1..]
    {
      Apart();
      hide Linked, Filled, Nodes, Arrays, Scheduler.Kernel.Valid;
      Unlink(sem, i);
    }
  }

  ghost predicate Listening(q: seq<Sem>) {
    forall i: nat | i < |q| :: q[i].listeners >= 1
  }

  lemma AllListening(w: World)
    requires JointInv(w)
    ensures Listening(w.sems)
  {
    assert forall i: nat | i < |w.sems| :: SemInv(w.sems[i]);
  }

  lemma EmptyJoint(s: Scheduling.Sched)
    requires Scheduling.Inv(s) && CurrentReady(s)
    ensures JointInv(World(s, [], {}))
  {
    hide Scheduling.Inv;
  }

  lemma FindAt(sems: seq<Sem>, id: nat, i: nat)
    requires i <= |sems| && (i < |sems| ==> sems[i].id == id) && forall j: nat | j < i :: sems[j].id != id
    ensures Find(sems, id) == i
  {}
}
