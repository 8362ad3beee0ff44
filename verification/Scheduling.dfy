/** schedule.c as transitions between values: what each kernel entry point does to the ready queue,
    the running process and the cycles it has left. */
module Scheduling {

  const INIT_PRIO: nat := 1
  const INIT_PRIO_AUG: nat := 2
  const PRIO_CAP: nat := 40

  datatype State = READY | BLOCKED | KILLED

  datatype Proc = Proc(pid: nat, ppid: nat, fg: bool, priority: nat, state: State)

  /** The current process: none before the first tick, the idle process, or one of the others. */
  datatype Current = Nobody | Idle | Running(proc: Proc)

  /** The scheduler's state. `idle` is the idle process, which is never queued; `created` and
      `freed` record the pids of the processes made and of those whose node was freed. */
  datatype Sched = Sched(queue: seq<Proc>, current: Current, idle: Proc, cyclesLeft: nat,
                         nextPid: nat, created: set<nat>, freed: seq<nat>)

  function CurrentProc(s: Sched): Proc
    requires s.current != Nobody
  {
    if s.current.Idle? then s.idle else s.current.proc
  }

  predicate IsCurrent(s: Sched, pid: nat) {
    s.current != Nobody && CurrentProc(s).pid == pid
  }

  function WithCurrent(s: Sched, p: Proc): Sched
    requires s.current != Nobody
  {
    if s.current.Idle? then s.(idle := p) else s.(current := Running(p))
  }

  // ----- the queue -----

  predicate HasReady(q: seq<Proc>) {
    exists p :: p in q && p.state == READY
  }

  /** Position of the first READY process. */
  function FirstReady(q: seq<Proc>): (k: nat)
    requires HasReady(q)
    ensures k < |q| && q[k].state == READY
    ensures forall i | 0 <= i < k :: q[i].state != READY
  {
    if q[0].state == READY then 0
    else
      assert q == [q[0]] + q[1..];
      1 + FirstReady(q[1..])
  }

  /** The processes of a state, in queue order. */
  function Those(q: seq<Proc>, state: State): seq<Proc> {
    if q == [] then []
    else (if q[0].state == state then [q[0]] else []) + Those(q[1..], state)
  }

  function Pids(q: seq<Proc>): (r: seq<nat>)
    ensures |r| == |q|
    ensures forall i | 0 <= i < |q| :: r[i] == q[i].pid
  {
    if q == [] then [] else [q[0].pid] + Pids(q[1..])
  }

  /** The process the dequeue loop settles on: the first READY one. */
  function Picked(q: seq<Proc>): Proc
    requires HasReady(q)
  {
    q[FirstReady(q)]
  }

  /** The queue it leaves: what came after, then the BLOCKED ones it went past. */
  function Rest(q: seq<Proc>): seq<Proc>
    requires HasReady(q)
  {
    q[FirstReady(q) + 1..] + Those(q[..FirstReady(q)], BLOCKED)
  }

  /** The KILLED processes it went past, whose nodes it frees. */
  function Reaped(q: seq<Proc>): seq<nat>
    requires HasReady(q)
  {
    Pids(Those(q[..FirstReady(q)], KILLED))
  }

  /** The queue after one pass of the dequeue loop over a process that is not READY: a BLOCKED process
      goes to the end, a KILLED one is freed. */
  function PassedOver(q: seq<Proc>): seq<Proc>
    requires q != []
  {
    if q[0].state == BLOCKED then q[1..] + [q[0]] else q[1..]
  }

  /** One pass changes none of the three outcomes, apart from freeing the process if it is KILLED. */
  lemma LoopPass(q: seq<Proc>)
    requires HasReady(q) && q[0].state != READY
    ensures var r := PassedOver(q);
            HasReady(r) && Picked(r) == Picked(q) && Rest(r) == Rest(q) &&
            FirstReady(r) == FirstReady(q) - 1 &&
            Reaped(q) == (if q[0].state == KILLED then [q[0].pid] else []) + Reaped(r)
  {
    PassFirst(q);
    PassRest(q);
    PassReaped(q);
    hide FirstReady, Rest, Reaped;
  }

  lemma PassRest(q: seq<Proc>)
    requires HasReady(q) && q[0].state != READY && HasReady(PassedOver(q))
    ensures Rest(PassedOver(q)) == Rest(q)
  {
    PassFirst(q);
    PassThose(q, BLOCKED);
    var k, r := FirstReady(q), PassedOver(q);
    hide FirstReady, HasReady, Those;
    var passed := Those(r[..k - 1], BLOCKED);
    if q[0].state == BLOCKED {
      assert r[k..] == q[k + 1..] + [q[0]];
      assert q[k + 1..] + ([q[0]] + passed) == (q[k + 1..] + [q[0]]) + passed;
    } else {
      assert r[k..] == q[k + 1..];
      assert [] + passed == passed;
    }
  }

  lemma PassReaped(q: seq<Proc>)
    requires HasReady(q) && q[0].state != READY && HasReady(PassedOver(q))
    ensures Reaped(q) == (if q[0].state == KILLED then [q[0].pid] else []) + Reaped(PassedOver(q))
  {
    PassFirst(q);
    PassThose(q, KILLED);
    var passed := Those(PassedOver(q)[..FirstReady(q) - 1], KILLED);
    hide FirstReady, HasReady, Those, Pids;
    PidsConcat([q[0]], passed);
    PidsOne(q[0]);
    assert [] + passed == passed && [] + Pids(passed) == Pids(passed);
  }

  lemma PassFirst(q: seq<Proc>)
    requires HasReady(q) && q[0].state != READY
    ensures var r, k := PassedOver(q), FirstReady(q);
            k > 0 && HasReady(r) && FirstReady(r) == k - 1 && r[k - 1] == q[k] && q[..k] == [q[0]] + r[..k - 1]
  {
    hide FirstReady, HasReady;
    var k, r := FirstReady(q), PassedOver(q);
    assert k > 0;
    assert forall i | 0 <= i < k :: r[i] == q[i + 1];
    FirstReadyIs(r, k - 1);
    assert q[..k] == [q[0]] + r[..k - 1];
  }

  lemma PassThose(q: seq<Proc>, state: State)
    requires HasReady(q) && q[0].state != READY
    ensures var r, k := PassedOver(q), FirstReady(q);
            Those(q[..k], state) == (if q[0].state == state then [q[0]] else []) + Those(r[..k - 1], state)
  {
    PassFirst(q);
    var k, r := FirstReady(q), PassedOver(q);
    hide FirstReady, HasReady, Those;
    ThoseConcat([q[0]], r[..k - 1], state);
    ThoseOne(q[0], state);
  }

  lemma PidsOne(p: Proc)
    ensures Pids([p]) == [p.pid] && Pids([]) == []
  {}

  lemma FirstReadyIs(q: seq<Proc>, k: nat)
    requires k < |q| && q[k].state == READY && forall i | 0 <= i < k :: q[i].state != READY
    ensures HasReady(q) && FirstReady(q) == k
  {
    assert q[k] in q;
  }

  lemma {:induction false} ThoseConcat(a: seq<Proc>, b: seq<Proc>, state: State)
    ensures Those(a + b, state) == Those(a, state) + Those(b, state)
  {
    if a == [] {
      assert a + b == b;
    } else {
      ThoseConcat(a[1..], b, state);
      var head := if a[0].state == state then [a[0]] else [];
      assert (a + b)[1..] == a[1..] + b;
      assert Those(a + b, state) == head + Those(a[1..] + b, state);
      assert head + (Those(a[1..], state) + Those(b, state)) == (head + Those(a[1..], state)) + Those(b, state);
    }
  }

  // ----- transitions -----

  /** Position of a pid in the queue, or the queue's length. */
  function Index(q: seq<Proc>, pid: nat): (i: nat)
    ensures i <= |q|
    ensures i < |q| ==> q[i].pid == pid
    ensures forall j | 0 <= j < i :: q[j].pid != pid
  {
    if q == [] then 0 else if q[0].pid == pid then 0 else 1 + Index(q[1..], pid)
  }

  /** getProcessOfPID finds the current process before it looks in the queue. */
  predicate Known(s: Sched, pid: nat) {
    IsCurrent(s, pid) || Index(s.queue, pid) < |s.queue|
  }

  function Lookup(s: Sched, pid: nat): Proc
    requires Known(s, pid)
  {
    if IsCurrent(s, pid) then CurrentProc(s) else s.queue[Index(s.queue, pid)]
  }

  /** The state with the process of a pid replaced. */
  function Replace(s: Sched, pid: nat, p: Proc): Sched
    requires Known(s, pid)
  {
    if IsCurrent(s, pid) then WithCurrent(s, p) else s.(queue := s.queue[Index(s.queue, pid) := p])
  }

  /** setNewState: a KILLED process stays so. */
  function SetState(s: Sched, pid: nat, state: State): Sched {
    if Known(s, pid) && Lookup(s, pid).state != KILLED
    then Replace(s, pid, Lookup(s, pid).(state := state))
    else s
  }

  /** scheduler, first half: the current process goes back to the queue, or is freed if it is
      KILLED, after waking a parent that waits for its foreground child. */
  function PutAway(s: Sched): Sched {
    if !s.current.Running? then s
    else
      var p := s.current.proc;
      if p.state != KILLED then s.(queue := s.queue + [p])
      else
        var woken := if p.fg && Known(s, p.ppid) && Lookup(s, p.ppid).state == BLOCKED
                     then SetState(s, p.ppid, READY) else s;
        woken.(freed := s.freed + [p.pid])
  }

  /** scheduler, second half: the first READY process, or the idle one. */
  function SwitchIn(s: Sched): Sched {
    if HasReady(s.queue) then
      var p := Picked(s.queue);
      s.(queue := Rest(s.queue), current := Running(p), cyclesLeft := p.priority,
         freed := s.freed + Reaped(s.queue))
    else s.(current := Idle, cyclesLeft := s.idle.priority)
  }

  predicate KeepsCpu(s: Sched) {
    s.current != Nobody && CurrentProc(s).state == READY && s.cyclesLeft > 0
  }

  /** scheduler. */
  function Tick(s: Sched): Sched {
    if KeepsCpu(s) then s.(cyclesLeft := s.cyclesLeft - 1) else SwitchIn(PutAway(s))
  }

  /** What a process or an interrupt can ask for. */
  datatype Op =
    | TimerTick
    | Add(fg: int)
    | Kill(pid: nat)
    | Block(pid: nat)
    | Unblock(pid: nat)
    | Nice(pid: nat, priority: int)
    | Yield
    | WaitFor(pid: nat)
    | KillFg

  /** A syscall that ends in callTimerTick when it was about the caller. */
  function TickIfSelf(s: Sched, pid: nat): Sched {
    if IsCurrent(s, pid) then Tick(s) else s
  }

  function KillProcess(s: Sched, pid: nat): Sched {
    if pid <= 2 then s else TickIfSelf(SetState(s, pid, KILLED), pid)
  }

  function BlockProcess(s: Sched, pid: nat): Sched {
    TickIfSelf(SetState(s, pid, BLOCKED), pid)
  }

  function NewProc(s: Sched, fg: int): Proc {
    var inFg := if s.current == Nobody then fg == 1 else CurrentProc(s).fg && fg == 1;
    Proc(s.nextPid, if s.current == Nobody then 0 else CurrentProc(s).pid, inFg,
         if inFg then INIT_PRIO_AUG else INIT_PRIO, READY)
  }

  /** addProcess: a foreground child blocks its parent, which is the caller. */
  function AddProcess(s: Sched, fg: int): Sched {
    if fg != 0 && fg != 1 then s.(nextPid := s.nextPid + 1)
    else
      var p := NewProc(s, fg);
      var s' := s.(queue := s.queue + [p], nextPid := s.nextPid + 1, created := s.created + {p.pid});
      if p.fg && p.ppid != 0 then BlockProcess(s', p.ppid) else s'
  }

  function Clamp(priority: int): nat {
    if priority < 0 then 0 else if priority > PRIO_CAP then PRIO_CAP else priority
  }

  function SetPriority(s: Sched, pid: nat, priority: int): Sched {
    if Known(s, pid) then Replace(s, pid, Lookup(s, pid).(priority := Clamp(priority))) else s
  }

  function WaitForPid(s: Sched, pid: nat): Sched {
    if Known(s, pid) && s.current != Nobody
    then BlockProcess(Replace(s, pid, Lookup(s, pid).(fg := true)), CurrentProc(s).pid)
    else s
  }

  function KillFgProcess(s: Sched): Sched {
    if s.current != Nobody && CurrentProc(s).fg && CurrentProc(s).state == READY
    then KillProcess(s, CurrentProc(s).pid) else s
  }

  function Step(s: Sched, op: Op): Sched {
    match op
    case TimerTick => Tick(s)
    case Add(fg) => AddProcess(s, fg)
    case Kill(pid) => KillProcess(s, pid)
    case Block(pid) => BlockProcess(s, pid)
    case Unblock(pid) => SetState(s, pid, READY)
    case Nice(pid, priority) => SetPriority(s, pid, priority)
    case Yield => Tick(s.(cyclesLeft := 0))
    case WaitFor(pid) => WaitForPid(s, pid)
    case KillFg => KillFgProcess(s)
  }

  function Run(s: Sched, ops: seq<Op>): Sched
    decreases |ops|
  {
    if ops == [] then s else Run(Step(s, ops[0]), ops[1..])
  }

  /** initScheduler. */
  function Initial(): Sched {
    Sched([], Nobody, Proc(0, 0, false, INIT_PRIO, READY), 0, 1, {}, [])
  }

  // ----- conservation -----

  /** The pids of the processes that are current or queued. */
  function Active(s: Sched): seq<nat> {
    Pids(s.queue) + if s.current.Running? then [s.current.proc.pid] else []
  }

  ghost predicate Bounded(s: Sched) {
    && s.cyclesLeft <= PRIO_CAP && s.idle.priority <= PRIO_CAP
    && (s.current.Running? ==> s.current.proc.priority <= PRIO_CAP)
    && (forall p | p in s.queue :: p.priority <= PRIO_CAP)
  }

  /** Every process ever created is current, queued or freed, exactly once in all. */
  ghost predicate Conserved(s: Sched) {
    && multiset(Active(s)) + multiset(s.freed) == multiset(s.created)
    && (forall pid | pid in s.created :: 0 < pid < s.nextPid)
    && s.nextPid > 0 && s.idle.pid == 0
  }

  ghost predicate Inv(s: Sched) {
    Conserved(s) && Bounded(s)
  }

  lemma {:induction false} PidsConcat(a: seq<Proc>, b: seq<Proc>)
    ensures Pids(a + b) == Pids(a) + Pids(b)
  {
    if a == [] {
      assert a + b == b;
    } else {
      assert (a + b)[1..] == a[1..] + b;
      PidsConcat(a[1..], b);
    }
  }

  /** The pids in a queue, in no order. */
  ghost function Bag(q: seq<Proc>): multiset<nat> {
    multiset(Pids(q))
  }

  lemma BagConcat(a: seq<Proc>, b: seq<Proc>)
    ensures Bag(a + b) == Bag(a) + Bag(b)
  {
    PidsConcat(a, b);
  }

  lemma BagOne(p: Proc)
    ensures Bag([p]) == multiset{p.pid}
  {
    assert Pids([p]) == [p.pid];
  }

  lemma PidsUpdate(q: seq<Proc>, i: nat, p: Proc)
    requires i < |q| && p.pid == q[i].pid
    ensures Pids(q[i := p]) == Pids(q)
  {}

  /** The processes in front of the first READY one are each BLOCKED or KILLED. */
  lemma {:induction false} PrefixSplits(q: seq<Proc>)
    requires forall i | 0 <= i < |q| :: q[i].state != READY
    ensures Bag(q) == Bag(Those(q, BLOCKED)) + Bag(Those(q, KILLED))
  {
    hide Bag, Those, Pids;
    if q == [] {
      NoneSplits();
    } else {
      PrefixSplits(q[1..]);
      PrefixGrows(q[0], q[1..]);
      assert q == [q[0]] + q[1..];
    }
  }

  lemma NoneSplits()
    ensures Bag([]) == Bag(Those([], BLOCKED)) + Bag(Those([], KILLED))
  {}

  lemma PrefixGrows(p: Proc, q: seq<Proc>)
    requires p.state != READY
    requires Bag(q) == Bag(Those(q, BLOCKED)) + Bag(Those(q, KILLED))
    ensures Bag([p] + q) == Bag(Those([p] + q, BLOCKED)) + Bag(Those([p] + q, KILLED))
  {
    var other := if p.state == BLOCKED then KILLED else BLOCKED;
    hide Bag, Those, Pids;
    ThoseOne(p, p.state);
    ThoseOne(p, other);
    ThoseConcat([p], q, p.state);
    ThoseConcat([p], q, other);
    assert [] + Those(q, other) == Those(q, other);
    BagCons(p, q);
    BagCons(p, Those(q, p.state));
  }

  lemma ThoseOne(p: Proc, state: State)
    ensures Those([p], state) == if p.state == state then [p] else []
  {
    assert [p][1..] == [];
  }

  lemma BagCons(p: Proc, q: seq<Proc>)
    ensures Bag([p] + q) == multiset{p.pid} + Bag(q)
  {
    BagConcat([p], q);
    BagOne(p);
  }

  /** Switching loses no process and duplicates none. */
  lemma SwitchConserves(s: Sched)
    ensures multiset(Active(SwitchIn(s))) + multiset(SwitchIn(s).freed) == Bag(s.queue) + multiset(s.freed)
  {
    if HasReady(s.queue) {
      LoopConserves(s.queue);
      var r := SwitchIn(s);
      assert multiset(Active(r)) == Bag(r.queue) + multiset{r.current.proc.pid};
    }
  }

  lemma LoopConserves(q: seq<Proc>)
    requires HasReady(q)
    ensures Bag(q) == Bag(Rest(q)) + multiset{Picked(q).pid} + multiset(Reaped(q))
  {
    var k := FirstReady(q);
    assert multiset(Reaped(q)) == Bag(Those(q[..k], KILLED));
    assert Rest(q) == q[k + 1..] + Those(q[..k], BLOCKED) && Picked(q) == q[k];
    hide Bag, Pids, Those, Rest, Reaped;
    PrefixSplits(q[..k]);
    BagOne(q[k]);
    BagConcat(q[k + 1..], Those(q[..k], BLOCKED));
    BagAround(q, k);
  }

  lemma BagAround(q: seq<Proc>, k: nat)
    requires k < |q|
    ensures Bag(q) == Bag(q[..k]) + Bag([q[k]]) + Bag(q[k + 1..])
  {
    hide Bag, Pids;
    BagConcat(q[..k], [q[k]]);
    BagConcat(q[..k] + [q[k]], q[k + 1..]);
    assert q == q[..k] + [q[k]] + q[k + 1..];
  }

  lemma ReplaceConserves(s: Sched, pid: nat, p: Proc)
    requires Known(s, pid) && p.pid == pid
    ensures Active(Replace(s, pid, p)) == Active(s)
  {
    if !IsCurrent(s, pid) {
      PidsUpdate(s.queue, Index(s.queue, pid), p);
    }
  }

  lemma SetStateConserves(s: Sched, pid: nat, state: State)
    ensures var s' := SetState(s, pid, state);
            Active(s') == Active(s) && s' == s.(queue := s'.queue, current := s'.current, idle := s'.idle) &&
            |s'.queue| == |s.queue| && s'.idle.pid == s.idle.pid
  {
    if Known(s, pid) && Lookup(s, pid).state != KILLED {
      ReplaceConserves(s, pid, Lookup(s, pid).(state := state));
    }
  }

  lemma PutAwayConserves(s: Sched)
    ensures var s' := PutAway(s);
            Bag(s'.queue) + multiset(s'.freed) == multiset(Active(s)) + multiset(s.freed)
  {
    if s.current.Running? {
      var p := s.current.proc;
      assert multiset(Active(s)) == Bag(s.queue) + multiset{p.pid};
      if p.state != KILLED {
        BagOne(p);
        BagConcat(s.queue, [p]);
      } else {
        SetStateConserves(s, p.ppid, READY);
        SetStateKeepsQueue(s, p.ppid, READY);
        assert multiset(s.freed + [p.pid]) == multiset(s.freed) + multiset{p.pid};
      }
    }
  }

  lemma SetStateKeepsQueue(s: Sched, pid: nat, state: State)
    ensures Bag(SetState(s, pid, state).queue) == Bag(s.queue)
  {
    if Known(s, pid) && Lookup(s, pid).state != KILLED && !IsCurrent(s, pid) {
      PidsUpdate(s.queue, Index(s.queue, pid), Lookup(s, pid).(state := state));
    }
  }

  // ----- the invariant over every run -----

  lemma {:induction false} ThoseMembers(q: seq<Proc>, state: State)
    ensures forall p :: p in Those(q, state) <==> p in q && p.state == state
  {
    if q != [] {
      ThoseMembers(q[1..], state);
      assert q == [q[0]] + q[1..];
    }
  }

  lemma RestMembers(q: seq<Proc>)
    requires HasReady(q)
    ensures forall p | p in Rest(q) :: p in q
    ensures Picked(q) in q
  {
    ThoseMembers(q[..FirstReady(q)], BLOCKED);
  }

  lemma ReplaceBounded(s: Sched, pid: nat, p: Proc)
    requires Bounded(s) && Known(s, pid) && p.priority <= PRIO_CAP
    ensures Bounded(Replace(s, pid, p))
  {}

  lemma SetStateBounded(s: Sched, pid: nat, state: State)
    requires Bounded(s)
    ensures Bounded(SetState(s, pid, state))
  {
    if Known(s, pid) && Lookup(s, pid).state != KILLED {
      ReplaceBounded(s, pid, Lookup(s, pid).(state := state));
    }
  }

  lemma SwitchBounded(s: Sched)
    requires Bounded(s)
    ensures Bounded(SwitchIn(s))
  {
    if HasReady(s.queue) {
      RestMembers(s.queue);
    }
  }

  lemma PutAwayBounded(s: Sched)
    requires Bounded(s)
    ensures Bounded(PutAway(s))
  {
    if s.current.Running? && s.current.proc.state == KILLED {
      SetStateBounded(s, s.current.proc.ppid, READY);
    }
  }

  lemma TickKeepsInv(s: Sched)
    requires Inv(s)
    ensures Inv(Tick(s))
  {
    if !KeepsCpu(s) {
      PutAwayBounded(s);
      SwitchBounded(PutAway(s));
      PutAwayConserves(s);
      SwitchConserves(PutAway(s));
      if s.current.Running? && s.current.proc.state == KILLED {
        SetStateConserves(s, s.current.proc.ppid, READY);
      }
    }
  }

  lemma SetStateKeepsInv(s: Sched, pid: nat, state: State)
    requires Inv(s)
    ensures Inv(SetState(s, pid, state))
  {
    SetStateBounded(s, pid, state);
    SetStateConserves(s, pid, state);
  }

  lemma BlockKeepsInv(s: Sched, pid: nat)
    requires Inv(s)
    ensures Inv(BlockProcess(s, pid))
  {
    SetStateKeepsInv(s, pid, BLOCKED);
    var s' := SetState(s, pid, BLOCKED);
    hide Inv;
    if IsCurrent(s', pid) {
      TickKeepsInv(s');
    }
  }

  lemma KillKeepsInv(s: Sched, pid: nat)
    requires Inv(s)
    ensures Inv(KillProcess(s, pid))
  {
    SetStateKeepsInv(s, pid, KILLED);
    var s' := SetState(s, pid, KILLED);
    hide Inv;
    if IsCurrent(s', pid) {
      TickKeepsInv(s');
    }
  }

  lemma EnqueueKeepsInv(s: Sched, p: Proc)
    requires Inv(s) && p.pid == s.nextPid && p.priority <= PRIO_CAP
    ensures Inv(s.(queue := s.queue + [p], nextPid := s.nextPid + 1, created := s.created + {p.pid}))
  {
    var s' := s.(queue := s.queue + [p], nextPid := s.nextPid + 1, created := s.created + {p.pid});
    EnqueueActive(s, s', p);
    assert p.pid !in s.created;
    SetPlusOne(s.created, p.pid);
    EnqueueBounded(s, p);
    hide Active, Bounded;
    BothPlusOne(multiset(Active(s)), multiset(s.freed), multiset(s.created), p.pid);
  }

  lemma BothPlusOne(active: multiset<nat>, freed: multiset<nat>, created: multiset<nat>, x: nat)
    requires active + freed == created
    ensures (active + multiset{x}) + freed == created + multiset{x}
  {}

  lemma EnqueueBounded(s: Sched, p: Proc)
    requires Bounded(s) && p.priority <= PRIO_CAP
    ensures Bounded(s.(queue := s.queue + [p], nextPid := s.nextPid + 1, created := s.created + {p.pid}))
  {}

  lemma SetPlusOne(a: set<nat>, x: nat)
    requires x !in a
    ensures multiset(a + {x}) == multiset(a) + multiset{x}
  {}

  lemma EnqueueActive(s: Sched, s': Sched, p: Proc)
    requires s'.queue == s.queue + [p] && s'.current == s.current
    ensures multiset(Active(s')) == multiset(Active(s)) + multiset{p.pid}
  {
    ActiveBag(s);
    ActiveBag(s');
    BagOne(p);
    BagConcat(s.queue, [p]);
  }

  lemma ActiveBag(s: Sched)
    ensures multiset(Active(s)) ==
            Bag(s.queue) + if s.current.Running? then multiset{s.current.proc.pid} else multiset{}
  {}

  lemma AddKeepsInv(s: Sched, fg: int)
    requires Inv(s)
    ensures Inv(AddProcess(s, fg))
  {
    if fg == 0 || fg == 1 {
      var p := NewProc(s, fg);
      var s' := s.(queue := s.queue + [p], nextPid := s.nextPid + 1, created := s.created + {p.pid});
      EnqueueKeepsInv(s, p);
      hide Inv;
      if p.fg && p.ppid != 0 {
        BlockKeepsInv(s', p.ppid);
      }
    }
  }

  lemma StepKeepsInv(s: Sched, op: Op)
    requires Inv(s)
    ensures Inv(Step(s, op))
  {
    match op
    case TimerTick => TickKeepsInv(s);
    case Add(fg) => AddKeepsInv(s, fg);
    case Kill(pid) => KillKeepsInv(s, pid);
    case Block(pid) => BlockKeepsInv(s, pid);
    case Unblock(pid) => SetStateKeepsInv(s, pid, READY);
    case Nice(pid, priority) => PriorityKeepsInv(s, pid, priority);
    case Yield => TickKeepsInv(s.(cyclesLeft := 0));
    case WaitFor(pid) => WaitKeepsInv(s, pid);
    case KillFg => if s.current != Nobody { KillKeepsInv(s, CurrentProc(s).pid); }
  }

  lemma PriorityKeepsInv(s: Sched, pid: nat, priority: int)
    requires Inv(s)
    ensures Inv(SetPriority(s, pid, priority))
  {
    if Known(s, pid) {
      var p := Lookup(s, pid).(priority := Clamp(priority));
      ReplaceBounded(s, pid, p);
      ReplaceConserves(s, pid, p);
    }
  }

  lemma WaitKeepsInv(s: Sched, pid: nat)
    requires Inv(s)
    ensures Inv(WaitForPid(s, pid))
  {
    if Known(s, pid) && s.current != Nobody {
      var p := Lookup(s, pid).(fg := true);
      ReplaceBounded(s, pid, p);
      ReplaceConserves(s, pid, p);
      BlockKeepsInv(Replace(s, pid, p), CurrentProc(s).pid);
    }
  }

  lemma {:induction false} RunKeepsInv(s: Sched, ops: seq<Op>)
    requires Inv(s)
    ensures Inv(Run(s, ops))
    decreases |ops|
  {
    if ops != [] {
      StepKeepsInv(s, ops[0]);
      RunKeepsInv(Step(s, ops[0]), ops[1..]);
    }
  }

  /** From boot, whatever is asked of the scheduler, each process created is current, queued or
      freed, exactly once in all. */
  lemma EveryProcessOnce(ops: seq<Op>)
    ensures var s := Run(Initial(), ops);
            forall pid :: (multiset(Active(s)) + multiset(s.freed))[pid] == if pid in s.created then 1 else 0
  {
    assert Inv(Initial());
    RunKeepsInv(Initial(), ops);
  }

  // ----- a killed process stays killed, and only killed processes are freed -----

  /** The process is current or queued, and KILLED. */
  ghost predicate IsKilled(s: Sched, pid: nat) {
    (s.current.Running? && s.current.proc.pid == pid && s.current.proc.state == KILLED) ||
    (exists p :: p in s.queue && p.pid == pid && p.state == KILLED)
  }

  /** Whatever a scheduler call frees was KILLED when it was called. */
  lemma TickFreesKilled(s: Sched, pid: nat)
    requires pid in Tick(s).freed && pid !in s.freed
    ensures IsKilled(s, pid)
  {
    var s1 := PutAway(s);
    if pid !in s1.freed {
      var q := s1.queue;
      var k := FirstReady(q);
      ThoseMembers(q[..k], KILLED);
      PidsMembers(Those(q[..k], KILLED), pid);
      var p :| p in Those(q[..k], KILLED) && p.pid == pid;
      assert p in q;
      PutAwayKilled(s, p);
    }
  }

  lemma {:induction false} PidsMembers(q: seq<Proc>, pid: nat)
    ensures pid in Pids(q) <==> exists p :: p in q && p.pid == pid
  {
    if pid in Pids(q) {
      var i :| 0 <= i < |q| && Pids(q)[i] == pid;
      assert q[i] in q && q[i].pid == pid;
    }
    if p :| p in q && p.pid == pid {
      var i :| 0 <= i < |q| && q[i] == p;
      assert Pids(q)[i] == pid;
    }
  }

  lemma PutAwayKilled(s: Sched, p: Proc)
    requires p in PutAway(s).queue && p.state == KILLED
    ensures IsKilled(s, p.pid)
  {
    if s.current.Running? && s.current.proc.state == KILLED && p !in s.queue {
      assert false;
    }
  }

  lemma ReplaceKeepsKilled(s: Sched, pid: nat, p: Proc, victim: nat)
    requires Known(s, pid) && p.pid == pid && (Lookup(s, pid).state == KILLED ==> p.state == KILLED)
    requires IsKilled(s, victim)
    ensures IsKilled(Replace(s, pid, p), victim)
  {
    if !(s.current.Running? && s.current.proc.pid == victim && s.current.proc.state == KILLED) {
      var v :| v in s.queue && v.pid == victim && v.state == KILLED;
      var j :| 0 <= j < |s.queue| && s.queue[j] == v;
      var q := Replace(s, pid, p).queue;
      assert q[j] in q && q[j].pid == victim && q[j].state == KILLED;
    }
  }

  lemma SetStateKeepsKilled(s: Sched, pid: nat, state: State, victim: nat)
    requires IsKilled(s, victim)
    ensures IsKilled(SetState(s, pid, state), victim)
  {
    if Known(s, pid) && Lookup(s, pid).state != KILLED {
      ReplaceKeepsKilled(s, pid, Lookup(s, pid).(state := state), victim);
    }
  }

  lemma SwitchKeepsKilled(s: Sched, v: Proc)
    requires v in s.queue && v.state == KILLED
    ensures IsKilled(SwitchIn(s), v.pid) || v.pid in SwitchIn(s).freed
  {
    var q := s.queue;
    if HasReady(q) {
      var k := FirstReady(q);
      var j :| 0 <= j < |q| && q[j] == v;
      if j < k {
        assert q[..k][j] == v;
        ThoseMembers(q[..k], KILLED);
        PidsMembers(Those(q[..k], KILLED), v.pid);
      } else {
        assert q[k + 1..][j - k - 1] == v;
        assert v in Rest(q);
      }
    }
  }

  lemma PutAwayKeepsKilled(s: Sched, victim: nat)
    requires IsKilled(s, victim)
    ensures victim in PutAway(s).freed || exists v :: v in PutAway(s).queue && v.pid == victim && v.state == KILLED
  {
    if s.current.Running? && s.current.proc.state == KILLED {
      SetStateKeepsKilled(s, s.current.proc.ppid, READY, victim);
    }
  }

  lemma TickKeepsKilled(s: Sched, victim: nat)
    requires IsKilled(s, victim)
    ensures IsKilled(Tick(s), victim) || victim in Tick(s).freed
  {
    if !KeepsCpu(s) {
      PutAwayKeepsKilled(s, victim);
      var s1 := PutAway(s);
      if victim !in s1.freed {
        var v :| v in s1.queue && v.pid == victim && v.state == KILLED;
        SwitchKeepsKilled(s1, v);
      }
    }
  }

  /** KILLED is final: no operation brings the process back, and it leaves only by being freed. */
  lemma KilledIsFinal(s: Sched, op: Op, victim: nat)
    requires IsKilled(s, victim)
    ensures IsKilled(Step(s, op), victim) || victim in Step(s, op).freed
  {
    match op
    case TimerTick => TickKeepsKilled(s, victim);
    case Add(fg) => AddKeepsKilled(s, fg, victim);
    case Kill(pid) => KillKeepsKilled(s, pid, victim);
    case Block(pid) => BlockKeepsKilled(s, pid, victim);
    case Unblock(pid) => SetStateKeepsKilled(s, pid, READY, victim);
    case Nice(pid, priority) =>
      if Known(s, pid) {
        ReplaceKeepsKilled(s, pid, Lookup(s, pid).(priority := Clamp(priority)), victim);
      }
    case Yield =>
      assert IsKilled(s.(cyclesLeft := 0), victim);
      TickKeepsKilled(s.(cyclesLeft := 0), victim);
    case WaitFor(pid) => WaitKeepsKilled(s, pid, victim);
    case KillFg => if s.current != Nobody { KillKeepsKilled(s, CurrentProc(s).pid, victim); }
  }

  lemma AddKeepsKilled(s: Sched, fg: int, victim: nat)
    requires IsKilled(s, victim)
    ensures IsKilled(AddProcess(s, fg), victim) || victim in AddProcess(s, fg).freed
  {
    if fg == 0 || fg == 1 {
      var p := NewProc(s, fg);
      var s' := s.(queue := s.queue + [p], nextPid := s.nextPid + 1, created := s.created + {p.pid});
      assert IsKilled(s', victim);
      BlockKeepsKilled(s', p.ppid, victim);
    }
  }

  lemma WaitKeepsKilled(s: Sched, pid: nat, victim: nat)
    requires IsKilled(s, victim)
    ensures IsKilled(WaitForPid(s, pid), victim) || victim in WaitForPid(s, pid).freed
  {
    if Known(s, pid) && s.current != Nobody {
      var p := Lookup(s, pid).(fg := true);
      ReplaceKeepsKilled(s, pid, p, victim);
      BlockKeepsKilled(Replace(s, pid, p), CurrentProc(s).pid, victim);
    }
  }

  lemma BlockKeepsKilled(s: Sched, pid: nat, victim: nat)
    requires IsKilled(s, victim)
    ensures IsKilled(BlockProcess(s, pid), victim) || victim in BlockProcess(s, pid).freed
  {
    SetStateKeepsKilled(s, pid, BLOCKED, victim);
    TickKeepsKilled(SetState(s, pid, BLOCKED), victim);
  }

  lemma KillKeepsKilled(s: Sched, pid: nat, victim: nat)
    requires IsKilled(s, victim)
    ensures IsKilled(KillProcess(s, pid), victim) || victim in KillProcess(s, pid).freed
  {
    SetStateKeepsKilled(s, pid, KILLED, victim);
    TickKeepsKilled(SetState(s, pid, KILLED), victim);
  }

  // ----- the foreground -----

  /** There is a current process, and neither it nor any other is in the foreground. */
  ghost predicate Background(s: Sched) {
    s.current != Nobody && !CurrentProc(s).fg && !s.idle.fg && forall p | p in s.queue :: !p.fg
  }

  lemma SetStateBackground(s: Sched, pid: nat, state: State)
    requires Background(s)
    ensures Background(SetState(s, pid, state))
  {}

  lemma TickBackground(s: Sched)
    requires Background(s)
    ensures Background(Tick(s))
  {
    var s1 := PutAway(s);
    if !KeepsCpu(s) && HasReady(s1.queue) {
      RestMembers(s1.queue);
    }
  }

  lemma TickIfSelfBackground(s: Sched, pid: nat)
    requires Background(s)
    ensures Background(TickIfSelf(s, pid))
  {
    TickBackground(s);
  }

  /** Where nobody is in the foreground, no operation but waitForPID brings anybody there. */
  lemma StepKeepsBackground(s: Sched, op: Op)
    requires Background(s) && !op.WaitFor?
    ensures Background(Step(s, op))
  {
    match op
    case TimerTick => TickBackground(s);
    case Yield => TickBackground(s.(cyclesLeft := 0));
    case Kill(pid) =>
      SetStateBackground(s, pid, KILLED);
      TickIfSelfBackground(SetState(s, pid, KILLED), pid);
    case Block(pid) =>
      SetStateBackground(s, pid, BLOCKED);
      TickIfSelfBackground(SetState(s, pid, BLOCKED), pid);
    case Unblock(pid) => SetStateBackground(s, pid, READY);
    case _ =>
  }

  /** A foreground process descends from foreground processes only: from a state without any, no run
      without waitForPID ever has one, whatever the processes ask for their children. */
  lemma {:induction false} RunKeepsBackground(s: Sched, ops: seq<Op>)
    requires Background(s) && forall op | op in ops :: !op.WaitFor?
    ensures Background(Run(s, ops))
    decreases |ops|
  {
    if ops != [] {
      assert ops[0] in ops;
      StepKeepsBackground(s, ops[0]);
      RunKeepsBackground(Step(s, ops[0]), ops[1..]);
    }
  }

  // ----- bounded waiting -----

  /** The process is READY in the queue with k others in front of it. */
  ghost predicate Queued(s: Sched, pid: nat, k: nat) {
    k < |s.queue| && s.queue[k].pid == pid && s.queue[k].state == READY
  }

  /** How many scheduler calls the process may still have to wait. */
  function Wait(s: Sched, k: nat): nat {
    (PRIO_CAP + 1) * k + s.cyclesLeft + 1
  }

  /** Whether the operation calls the scheduler. */
  predicate CallsScheduler(s: Sched, op: Op) {
    match op
    case TimerTick => true
    case Yield => true
    case Add(fg) => (fg == 0 || fg == 1) && NewProc(s, fg).fg && NewProc(s, fg).ppid != 0
    case Kill(pid) => pid > 2 && IsCurrent(s, pid)
    case Block(pid) => IsCurrent(s, pid)
    case Unblock(_) => false
    case Nice(_, _) => false
    case WaitFor(pid) => s.current != Nobody && Known(s, pid)
    case KillFg => s.current != Nobody && CurrentProc(s).fg && CurrentProc(s).state == READY && CurrentProc(s).pid > 2
  }

  function SchedulerCalls(s: Sched, ops: seq<Op>): nat
    decreases |ops|
  {
    if ops == [] then 0
    else (if CallsScheduler(s, ops[0]) then 1 else 0) + SchedulerCalls(Step(s, ops[0]), ops[1..])
  }

  /** Nobody else takes the process out of the READY state. */
  ghost predicate LeavesAlone(ops: seq<Op>, pid: nat) {
    forall op | op in ops :: op != Kill(pid) && op != Block(pid)
  }

  ghost predicate IsRunning(s: Sched, pid: nat) {
    s.current.Running? && s.current.proc.pid == pid
  }

  /** A scheduler call brings a READY process nearer: it becomes current, or its wait shrinks. */
  lemma TickAdvances(s: Sched, pid: nat, k: nat)
    requires Inv(s) && Queued(s, pid, k)
    ensures IsRunning(Tick(s), pid) || exists k': nat :: Queued(Tick(s), pid, k') && Wait(Tick(s), k') < Wait(s, k)
  {
    if KeepsCpu(s) {
      assert Queued(Tick(s), pid, k);
    } else {
      var s1 := PutAway(s);
      PutAwayBounded(s);
      PutAwayKeepsPlace(s, pid, k);
      var q := s1.queue;
      assert q[k] in q;
      var j := FirstReady(q);
      RestMembers(q);
      if j < k {
        assert Rest(q)[k - j - 1] == q[k];
        assert Queued(Tick(s), pid, k - j - 1);
      } else {
        assert j == k;
      }
    }
  }

  lemma PutAwayKeepsPlace(s: Sched, pid: nat, k: nat)
    requires Queued(s, pid, k)
    ensures Queued(PutAway(s), pid, k)
  {}

  lemma ReplaceKeepsPlace(s: Sched, x: nat, p: Proc, pid: nat, k: nat)
    requires Queued(s, pid, k) && Known(s, x) && p.pid == x
    requires x == pid ==> IsCurrent(s, x) || p.state == Lookup(s, x).state || p.state == READY
    ensures Queued(Replace(s, x, p), pid, k) && Replace(s, x, p).cyclesLeft == s.cyclesLeft
  {
    if !IsCurrent(s, x) && Index(s.queue, x) == k {
      assert x == pid;
    }
  }

  lemma SetStateKeepsPlace(s: Sched, x: nat, state: State, pid: nat, k: nat)
    requires Queued(s, pid, k) && (x == pid ==> IsCurrent(s, x) || state == READY)
    ensures Queued(SetState(s, x, state), pid, k) && SetState(s, x, state).cyclesLeft == s.cyclesLeft
    ensures forall y :: IsCurrent(SetState(s, x, state), y) == IsCurrent(s, y)
  {
    if Known(s, x) && Lookup(s, x).state != KILLED {
      ReplaceKeepsPlace(s, x, Lookup(s, x).(state := state), pid, k);
    }
  }

  /** What a step must achieve for a waiting process. */
  ghost predicate Advances(s: Sched, s': Sched, ticks: nat, pid: nat, k: nat) {
    IsRunning(s', pid) || exists k': nat :: Queued(s', pid, k') && Wait(s', k') + ticks <= Wait(s, k)
  }

  lemma TickAfter(s: Sched, s1: Sched, pid: nat, k: nat)
    requires Inv(s1) && Queued(s1, pid, k) && s1.cyclesLeft <= s.cyclesLeft
    ensures Advances(s, Tick(s1), 1, pid, k)
  {
    TickAdvances(s1, pid, k);
  }

  lemma BlockAdvances(s: Sched, s1: Sched, x: nat, pid: nat, k: nat)
    requires Inv(s1) && Queued(s1, pid, k) && s1.cyclesLeft == s.cyclesLeft
    requires x == pid ==> IsCurrent(s1, x)
    ensures Advances(s, BlockProcess(s1, x), if IsCurrent(s1, x) then 1 else 0, pid, k)
  {
    SetStateKeepsPlace(s1, x, BLOCKED, pid, k);
    SetStateKeepsInv(s1, x, BLOCKED);
    if IsCurrent(s1, x) {
      TickAfter(s, SetState(s1, x, BLOCKED), pid, k);
    }
  }

  lemma KillAdvances(s: Sched, x: nat, pid: nat, k: nat)
    requires Inv(s) && Queued(s, pid, k) && (x == pid ==> IsCurrent(s, x))
    ensures Advances(s, KillProcess(s, x), if x > 2 && IsCurrent(s, x) then 1 else 0, pid, k)
  {
    SetStateKeepsPlace(s, x, KILLED, pid, k);
    SetStateKeepsInv(s, x, KILLED);
    if x > 2 && IsCurrent(s, x) {
      TickAfter(s, SetState(s, x, KILLED), pid, k);
    }
  }

  /** No operation but one aimed at the process pushes it back. */
  lemma StepAdvances(s: Sched, op: Op, pid: nat, k: nat)
    requires Inv(s) && Queued(s, pid, k) && op != Kill(pid) && op != Block(pid)
    ensures Advances(s, Step(s, op), if CallsScheduler(s, op) then 1 else 0, pid, k)
  {
    match op
    case TimerTick => TickAfter(s, s, pid, k);
    case Yield =>
      assert Queued(s.(cyclesLeft := 0), pid, k);
      TickAfter(s, s.(cyclesLeft := 0), pid, k);
    case Add(fg) => AddAdvances(s, fg, pid, k);
    case Kill(x) => KillAdvances(s, x, pid, k);
    case Block(x) => BlockAdvances(s, s, x, pid, k);
    case Unblock(x) => SetStateKeepsPlace(s, x, READY, pid, k);
    case Nice(x, priority) =>
      if Known(s, x) {
        ReplaceKeepsPlace(s, x, Lookup(s, x).(priority := Clamp(priority)), pid, k);
      }
    case WaitFor(x) => WaitAdvances(s, x, pid, k);
    case KillFg =>
      if s.current != Nobody {
        KillAdvances(s, CurrentProc(s).pid, pid, k);
      }
  }

  lemma AddAdvances(s: Sched, fg: int, pid: nat, k: nat)
    requires Inv(s) && Queued(s, pid, k)
    ensures Advances(s, AddProcess(s, fg), if CallsScheduler(s, Add(fg)) then 1 else 0, pid, k)
  {
    if fg == 0 || fg == 1 {
      var p := NewProc(s, fg);
      var s' := s.(queue := s.queue + [p], nextPid := s.nextPid + 1, created := s.created + {p.pid});
      EnqueueKeepsInv(s, p);
      assert Queued(s', pid, k);
      if p.fg && p.ppid != 0 {
        BlockAdvances(s, s', p.ppid, pid, k);
      }
    } else {
      assert Queued(AddProcess(s, fg), pid, k);
    }
  }

  lemma WaitAdvances(s: Sched, x: nat, pid: nat, k: nat)
    requires Inv(s) && Queued(s, pid, k)
    ensures Advances(s, WaitForPid(s, x), if CallsScheduler(s, WaitFor(x)) then 1 else 0, pid, k)
  {
    if Known(s, x) && s.current != Nobody {
      var p := Lookup(s, x).(fg := true);
      ReplaceKeepsPlace(s, x, p, pid, k);
      ReplaceBounded(s, x, p);
      ReplaceConserves(s, x, p);
      BlockAdvances(s, Replace(s, x, p), CurrentProc(s).pid, pid, k);
    }
  }

  /** A waiting process becomes current before its wait runs out. */
  lemma {:induction false} WaitRunsOut(s: Sched, ops: seq<Op>, pid: nat, k: nat)
    requires Inv(s) && Queued(s, pid, k) && LeavesAlone(ops, pid)
    requires SchedulerCalls(s, ops) >= Wait(s, k)
    ensures exists n: nat :: n <= |ops| && IsRunning(Run(s, ops[..n]), pid)
    decreases |ops|
  {
    hide Inv, Queued, Step;
    var op, rest := ops[0], ops[1..];
    assert op in ops;
    var s' := Step(s, op);
    StepAdvances(s, op, pid, k);
    StepKeepsInv(s, op);
    var n: nat;
    if IsRunning(s', pid) {
      n := 1;
      assert ops[..1] == [op];
      assert Run(s', []) == s';
    } else {
      var k': nat :| Queued(s', pid, k') && Wait(s', k') + (if CallsScheduler(s, op) then 1 else 0) <= Wait(s, k);
      assert forall o | o in rest :: o in ops;
      WaitRunsOut(s', rest, pid, k');
      var n' :| 0 <= n' <= |rest| && IsRunning(Run(s', rest[..n']), pid);
      n := n' + 1;
      assert ops[..n] == [op] + rest[..n'];
    }
    assert ops[..n][0] == op;
    assert ops[..n][1..] == rest[..n - 1];
  }

  /** Bounded waiting: a READY process with k others queued in front of it becomes current within
      (PRIO_CAP + 1) * (k + 1) scheduler calls, whatever else is asked of the scheduler meanwhile. */
  lemma BoundedWaiting(s: Sched, ops: seq<Op>, pid: nat, k: nat)
    requires Inv(s) && Queued(s, pid, k) && LeavesAlone(ops, pid)
    requires SchedulerCalls(s, ops) >= (PRIO_CAP + 1) * (k + 1)
    ensures exists n: nat :: n <= |ops| && IsRunning(Run(s, ops[..n]), pid)
  {
    assert Wait(s, k) <= (PRIO_CAP + 1) * (k + 1);
    WaitRunsOut(s, ops, pid, k);
  }
}
