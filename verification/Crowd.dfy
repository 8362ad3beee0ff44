/** More `inc` processes than the semaphore has places for. The seventeenth is refused and does no harm; with
    eighteen, two of which add something, there are runs in which both are in slowInc at once, and in which
    an update of the counter is lost. */
module Crowd {
  import opened Scheduling
  import opened Signalling
  import opened TestSync

  type State = TestSync.State

  // ----- what a run can lead to -----

  ghost predicate Reaches(st: State, st': State) {
    exists events :: LegalRun(st, events) && After(st, events) == st'
  }

  lemma {:induction false} Joined(st: State, a: seq<Event>, b: seq<Event>)
    requires LegalRun(st, a) && LegalRun(After(st, a), b)
    ensures LegalRun(st, a + b) && After(st, a + b) == After(After(st, a), b)
    decreases |a|
  {
    if a == [] {
      assert a + b == b;
    } else {
      Joined(Next(st, a[0]), a[1..], b);
      assert (a + b)[0] == a[0] && (a + b)[1..] == a[1..] + b;
    }
  }

  lemma ReachesOn(st: State, mid: State, st': State)
    requires Reaches(st, mid) && Reaches(mid, st')
    ensures Reaches(st, st')
  {
    var a :| LegalRun(st, a) && After(st, a) == mid;
    var b :| LegalRun(mid, b) && After(mid, b) == st';
    Joined(st, a, b);
  }

  lemma ReachesSelf(st: State)
    ensures Reaches(st, st)
  {
    assert LegalRun(st, []) && After(st, []) == st;
  }

  lemma ReachesNext(st: State, e: Event)
    requires Enabled(st, e)
    ensures Reaches(st, Next(st, e))
  {
    assert [e][1..] == [];
    assert LegalRun(Next(st, e), []) && After(Next(st, e), []) == Next(st, e);
    assert LegalRun(st, [e]) && After(st, [e]) == Next(st, e);
  }

  // ----- everybody gets to run -----

  /** The process is READY: on the processor or in the queue. */
  ghost predicate Alive(s: Sched, pid: nat) {
    IsRunning(s, pid) || exists k: nat :: Queued(s, pid, k)
  }

  /** All processes are READY. */
  ghost predicate Lively(st: State) {
    JointInv(st.w) && forall i: nat | i < |st.procs| :: Alive(st.w.sched, st.procs[i].pid)
  }

  /** Only the scheduler has moved. */
  predicate SameButSched(st: State, st': State) {
    st' == st.(w := st.w.(sched := st'.w.sched))
  }

  lemma YieldAlive(s: Sched, pid: nat)
    requires Inv(s) && CurrentReady(s) && Alive(s, pid)
    ensures Alive(Step(s, Yield), pid)
  {
    var s0 := s.(cyclesLeft := 0);
    var k: nat := if IsRunning(s, pid) then |s.queue| else QueuedAt(s, pid);
    var q := PutAway(s0).queue;
    assert q[k].pid == pid && q[k].state == READY;
    hide FirstReady, Inv;
    SwitchAlive(PutAway(s0), pid, k);
  }

  ghost function QueuedAt(s: Sched, pid: nat): (k: nat)
    requires exists k: nat :: Queued(s, pid, k)
    ensures Queued(s, pid, k)
  {
    var k: nat :| Queued(s, pid, k);
    k
  }

  lemma SwitchAlive(s: Sched, pid: nat, k: nat)
    requires Queued(s, pid, k)
    ensures Alive(SwitchIn(s), pid)
  {
    var q := s.queue;
    assert q[k] in q;
    var j := FirstReady(q);
    if j < k {
      assert Rest(q)[k - j - 1] == q[k];
      assert Queued(SwitchIn(s), pid, k - j - 1);
    }
  }

  lemma YieldIsStep(st: State)
    requires Lively(st)
    ensures var e := Other(Scheduler(Yield));
            Enabled(st, e) && Lively(Next(st, e)) && SameButSched(st, Next(st, e)) &&
            Next(st, e).w.sched == Step(st.w.sched, Yield) && (SyncInv(st) ==> SyncInv(Next(st, e)))
  {
    var e := Other(Scheduler(Yield));
    YieldEnabled(st);
    hide SyncInv, Alive, Step, Enabled, Next;
    if SyncInv(st) {
      StepKeepsSync(st, e);
    }
    KeepsJointIffAllowed(st.w, Scheduler(Yield));
    forall i: nat | i < |st.procs| ensures Alive(Step(st.w.sched, Yield), st.procs[i].pid) {
      YieldAlive(st.w.sched, st.procs[i].pid);
    }
    hide JointInv;
  }

  lemma YieldEnabled(st: State)
    ensures var e, call := Other(Scheduler(Yield)), Scheduler(Yield);
            && Enabled(st, e) && Placed(st, e) && Callable(st.w, call) && Allowed(st.w, call)
            && Do(st.w, call) == st.w.(sched := Step(st.w.sched, Yield)) && Next(st, e) == st.(w := Do(st.w, call))
  {
    hide Step;
  }

  /** Any of them can be brought on by others yielding. */
  lemma {:induction false} Bring(st: State, i: nat) returns (st': State)
    requires Lively(st) && i < |st.procs|
    ensures Reaches(st, st') && SameButSched(st, st') && Lively(st') && Runs(st'.w, st.procs[i].pid)
    ensures SyncInv(st) ==> SyncInv(st')
  {
    var pid := st.procs[i].pid;
    if IsRunning(st.w.sched, pid) {
      st' := st;
      ReachesSelf(st);
    } else {
      var k: nat :| Queued(st.w.sched, pid, k);
      st' := BringFrom(st, i, k);
    }
  }

  lemma {:induction false} BringFrom(st: State, i: nat, k: nat) returns (st': State)
    requires Lively(st) && i < |st.procs| && Queued(st.w.sched, st.procs[i].pid, k)
    ensures Reaches(st, st') && SameButSched(st, st') && Lively(st') && Runs(st'.w, st.procs[i].pid)
    ensures SyncInv(st) ==> SyncInv(st')
    decreases Wait(st.w.sched, k)
  {
    var pid, e := st.procs[i].pid, Other(Scheduler(Yield));
    YieldIsStep(st);
    ReachesNext(st, e);
    var mid := Next(st, e);
    StepAdvances(st.w.sched, Yield, pid, k);
    hide SyncInv, Reaches, Enabled, Next, Queued, Step, Wait;
    if IsRunning(mid.w.sched, pid) {
      st' := mid;
    } else {
      var k': nat :| Queued(mid.w.sched, pid, k') && Wait(mid.w.sched, k') + 1 <= Wait(st.w.sched, k);
      st' := BringFrom(mid, i, k');
      ReachesOn(st, mid, st');
    }
  }

  // ----- steps that wait for nobody -----

  /** What the step does to the semaphores, when it does not block and wakes nobody. */
  function SemsAfter(st: State, t: Thread): seq<Sem> {
    var sems, k := st.w.sems, Find(st.w.sems, SEM_ID);
    if t.pc == Start then Open(sems, SEM_ID, 1)
    else if t.pc == Ready && t.left == 0 then Close(sems, SEM_ID)
    else if k == |sems| then sems
    else if t.pc == Ready then sems[k := Acquire(sems[k], t.pid)]
    else if t.pc == Stored then sems[k := Release(sems[k])]
    else sems
  }

  /** The next step waits for nobody, and nobody for it. */
  predicate Unhindered(st: State, i: nat) {
    && i < |st.procs| && st.procs[i].pc != Done
    && (Exists(st.w, SEM_ID) ==>
          match st.procs[i].pc
          case Ready => if st.procs[i].left == 0 then WaitersOf(st.w, SEM_ID) == [] else At(st.w, SEM_ID).value > 0
          case Stored => WaitersOf(st.w, SEM_ID) == []
          case _ => true)
  }

  /** The state after the step, when only the process has moved. */
  predicate MovedOnly(st: State, st': State, i: nat)
    requires i < |st.procs|
  {
    && st'.procs == st.procs[i := Moved(st, st.procs[i])] && st'.w.sems == SemsAfter(st, st.procs[i])
    && st'.global == if st.procs[i].pc == Yielded then st.procs[i].aux else st.global
  }

  lemma FreeWorld(st: State, i: nat)
    requires JointInv(st.w) && Unhindered(st, i) && Runs(st.w, st.procs[i].pid)
    ensures var e := Go(i);
            Enabled(st, e) && MovedOnly(st, Next(st, e), i) && JointInv(Next(st, e).w) &&
            (Next(st, e).w.sched == st.w.sched || Next(st, e).w.sched == Step(st.w.sched, Yield))
  {
    hide JointInv, Step;
    AllowedHere(st, i);
    if ActionOf(st.procs[i]).Asks? {
      KeepsJointIffAllowed(st.w, ActionOf(st.procs[i]).call);
    }
    hide Moved;
  }

  lemma AllowedHere(st: State, i: nat)
    requires Unhindered(st, i) && Runs(st.w, st.procs[i].pid)
    ensures match ActionOf(st.procs[i])
            case Asks(call) => Callable(st.w, call) && Allowed(st.w, call)
            case Local => true
  {}

  lemma StepsFreely(st: State, i: nat)
    requires Lively(st) && Unhindered(st, i) && Runs(st.w, st.procs[i].pid)
    ensures var e := Go(i);
            Enabled(st, e) && MovedOnly(st, Next(st, e), i) && Lively(Next(st, e))
    ensures SyncInv(st) && Placed(st, Go(i)) ==> SyncInv(Next(st, Go(i)))
  {
    FreeWorld(st, i);
    assert i < |st.procs|;
    hide SyncInv, JointInv, Step, Enabled, Placed, Unhindered, MovedOnly, Next;
    if SyncInv(st) {
      StepKeepsSync(st, Go(i));
    }
    MovedLively(st, Next(st, Go(i)), i);
  }

  lemma MovedLively(st: State, st': State, i: nat)
    requires Lively(st) && i < |st.procs| && MovedOnly(st, st', i) && JointInv(st'.w)
    requires st'.w.sched == st.w.sched || st'.w.sched == Step(st.w.sched, Yield)
    ensures Lively(st')
  {
    SamePid(st, st.procs[i]);
    hide Moved, SemsAfter, Step, Alive;
    forall j: nat | j < |st.procs| ensures Alive(Step(st.w.sched, Yield), st.procs[j].pid) {
      YieldAlive(st.w.sched, st.procs[j].pid);
    }
    hide JointInv;
  }

  lemma SamePid(st: State, t: Thread)
    ensures Moved(st, t).pid == t.pid
  {
    hide Wrap64, Exists, At;
  }

  /** The process is brought on, and steps. */
  lemma Act(st: State, i: nat) returns (st': State)
    requires Lively(st) && Unhindered(st, i)
    ensures Reaches(st, st') && Lively(st') && MovedOnly(st, st', i)
    ensures SyncInv(st) && Placed(st, Go(i)) ==> SyncInv(st')
  {
    assert i < |st.procs|;
    hide SyncInv, Reaches, Lively, Enabled, Next, Unhindered, MovedOnly, Placed, SameButSched;
    var mid := Bring(st, i);
    SameMoves(st, mid, i);
    StepsFreely(mid, i);
    st' := Next(mid, Go(i));
    ReachesNext(mid, Go(i));
    ReachesOn(st, mid, st');
  }

  /** What a step does does not depend on the scheduler. */
  lemma SameMoves(st: State, mid: State, i: nat)
    requires SameButSched(st, mid) && Unhindered(st, i)
    ensures mid.procs == st.procs && Unhindered(mid, i) && Placed(st, Go(i)) == Placed(mid, Go(i))
    ensures forall st' :: MovedOnly(mid, st', i) <==> MovedOnly(st, st', i)
  {
    hide Wrap64;
  }

  // ----- all come in -----

  /** The first k processes have gone past sOpen, from a state in which none had started. */
  ghost predicate Entered(st0: State, st: State, k: nat) {
    && |st.procs| == |st0.procs| && k <= |st0.procs| && st.global == st0.global
    && (forall i: nat | i < |st0.procs| ::
          st.procs[i] == if i < k then st0.procs[i].(pc := Ready) else st0.procs[i])
    && (Exists(st.w, SEM_ID) <==> k > 0)
    && (k > 0 ==> var s := At(st.w, SEM_ID);
                  s.listeners == (if k < MAX_BLOCKED_PIDS then k else MAX_BLOCKED_PIDS) && s.waiters == []
                  && s.value == 1)
  }

  lemma OpensOne(sems: seq<Sem>, w: World)
    requires w.sems == Open(sems, SEM_ID, 1) && Separate(w.sems)
    ensures Exists(w, SEM_ID)
    ensures var i := Find(sems, SEM_ID);
            At(w, SEM_ID) ==
            if i == |sems| then NewSem(SEM_ID, 1).(listeners := 1)
            else if sems[i].listeners < MAX_BLOCKED_PIDS then sems[i].(listeners := sems[i].listeners + 1)
            else sems[i]
  {
    FindIs(w.sems, SEM_ID, Find(sems, SEM_ID));
  }

  lemma EntersNext(st0: State, st: State, k: nat) returns (st': State)
    requires AtStart(st0) && Lively(st) && Entered(st0, st, k) && k < |st0.procs|
    ensures Reaches(st, st') && Lively(st') && Entered(st0, st', k + 1)
    ensures SyncInv(st) && k < MAX_BLOCKED_PIDS ==> SyncInv(st')
  {
    st' := Act(st, k);
    EnteredOne(st0, st, st', k);
    hide SyncInv, Reaches, JointInv, AtStart, Lively, Open, MovedOnly;
  }

  lemma EnteredOne(st0: State, st: State, st': State, k: nat)
    requires AtStart(st0) && Entered(st0, st, k) && k < |st0.procs| && MovedOnly(st, st', k) && JointInv(st'.w)
    ensures Entered(st0, st', k + 1)
  {
    OpensOne(st.w.sems, st'.w);
    hide JointInv, Open, Find;
  }

  lemma {:induction false} Enter(st0: State, k: nat) returns (st: State)
    requires AtStart(st0) && Lively(st0) && k <= |st0.procs|
    ensures Reaches(st0, st) && Lively(st) && Entered(st0, st, k)
    ensures k <= MAX_BLOCKED_PIDS ==> SyncInv(st)
  {
    if k == 0 {
      st := st0;
      StartIsSync(st0);
      ReachesSelf(st0);
    } else {
      var mid := Enter(st0, k - 1);
      st := EntersNext(st0, mid, k - 1);
      ReachesOn(st0, mid, st);
    }
    hide Reaches, SyncInv, Lively, Entered;
  }

  /** With all processes READY at the start, every run keeps the semaphore's listeners equal to the processes
      past sOpen exactly when there are sixteen of them at most. */
  lemma SixteenFit(st: State)
    requires AtStart(st) && Lively(st)
    ensures (forall events | LegalRun(st, events) :: SyncInv(After(st, events))) <==> |st.procs| <= MAX_BLOCKED_PIDS
  {
    hide SyncInv, After, LegalRun, AtStart, Lively;
    if |st.procs| <= MAX_BLOCKED_PIDS {
      forall events | LegalRun(st, events) ensures SyncInv(After(st, events)) {
        FewStay(st, events);
      }
    } else {
      var st' := Breaks(st);
      var events :| LegalRun(st, events) && After(st, events) == st';
      assert !SyncInv(After(st, events));
    }
  }

  lemma FewStay(st: State, events: seq<Event>)
    requires AtStart(st) && LegalRun(st, events) && |st.procs| <= MAX_BLOCKED_PIDS
    ensures SyncInv(After(st, events))
  {
    hide SyncInv, After, LegalRun, AtStart;
    StartIsSync(st);
    FewArePlaced(st, events);
    RunKeepsSync(st, events);
  }

  /** Seventeen come in one after the other. */
  lemma Breaks(st: State) returns (st': State)
    requires AtStart(st) && Lively(st) && |st.procs| > MAX_BLOCKED_PIDS
    ensures Reaches(st, st') && !SyncInv(st')
  {
    var mid := Enter(st, MAX_BLOCKED_PIDS);
    var on := Bring(mid, MAX_BLOCKED_PIDS);
    hide SyncInv, Reaches, Lively, Next;
    StepsFreely(on, MAX_BLOCKED_PIDS);
    assert !HasPlace(on.w);
    StepKeepsSync(on, Go(MAX_BLOCKED_PIDS));
    st' := Next(on, Go(MAX_BLOCKED_PIDS));
    ReachesNext(on, Go(MAX_BLOCKED_PIDS));
    ReachesOn(st, mid, on);
    ReachesOn(st, on, st');
  }

  // ----- a process goes through its loop alone -----

  /** The semaphore has so many listeners and so many tokens, and nobody waits; without listeners it is not
      there. */
  predicate Sema(w: World, listeners: nat, value: nat) {
    && (Exists(w, SEM_ID) <==> listeners > 0)
    && (listeners > 0 ==>
          At(w, SEM_ID).listeners == listeners && At(w, SEM_ID).waiters == [] && At(w, SEM_ID).value == value)
  }

  /** All are READY, and the semaphore is as said. */
  ghost predicate Mid(st: State, listeners: nat, value: nat) {
    Lively(st) && Sema(st.w, listeners, value)
  }

  function ListenersAfter(t: Thread, listeners: nat): nat {
    if t.pc == Ready && t.left == 0 && listeners > 0 then listeners - 1 else listeners
  }

  function ValueAfter(t: Thread, value: nat): nat {
    if t.pc == Ready && t.left > 0 then 0 else if t.pc == Stored then 1 else value
  }

  /** The process may go on: it finds the token when it asks for it, and has it when it gives it back. */
  predicate InTurn(t: Thread, value: nat) {
    match t.pc
    case Ready => value == 1
    case Inside => true
    case Loaded => true
    case Yielded => true
    case Stored => value == 0
    case _ => false
  }

  lemma ClosesOne(w: World, w': World)
    requires JointInv(w) && JointInv(w') && Exists(w, SEM_ID) && w'.sems == Close(w.sems, SEM_ID)
    ensures Exists(w', SEM_ID) <==> At(w, SEM_ID).listeners > 1
    ensures Exists(w', SEM_ID) ==> At(w', SEM_ID) == At(w, SEM_ID).(listeners := At(w, SEM_ID).listeners - 1)
  {
    var i := Find(w.sems, SEM_ID);
    if w.sems[i].listeners > 1 {
      AtUpdate(w, w', i, w.sems[i].(listeners := w.sems[i].listeners - 1), SEM_ID);
    } else {
      AtRemove(w, w', i, SEM_ID);
    }
  }

  lemma SemaAfter(st: State, w: World, t: Thread, listeners: nat, value: nat)
    requires JointInv(st.w) && JointInv(w) && Sema(st.w, listeners, value) && InTurn(t, value)
    requires w.sems == SemsAfter(st, t)
    ensures Sema(w, ListenersAfter(t, listeners), ValueAfter(t, value))
  {
    var k := Find(st.w.sems, SEM_ID);
    if listeners > 0 {
      if t.pc == Ready && t.left == 0 {
        ClosesOne(st.w, w);
      } else if t.pc == Ready {
        AtUpdate(st.w, w, k, Acquire(st.w.sems[k], t.pid), SEM_ID);
      } else if t.pc == Stored {
        AtUpdate(st.w, w, k, Release(st.w.sems[k]), SEM_ID);
      }
    }
    hide JointInv, Acquire, Release;
  }

  /** One step of a process in turn. */
  lemma Walk(st: State, i: nat, listeners: nat, value: nat) returns (st': State)
    requires Mid(st, listeners, value) && i < |st.procs| && InTurn(st.procs[i], value)
    ensures Reaches(st, st')
    ensures Mid(st', ListenersAfter(st.procs[i], listeners), ValueAfter(st.procs[i], value))
    ensures st'.procs == st.procs[i := Moved(st, st.procs[i])]
    ensures st'.global == if st.procs[i].pc == Yielded then st.procs[i].aux else st.global
  {
    assert Unhindered(st, i) by { InTurnGoes(st, i, listeners, value); }
    st' := Act(st, i);
    hide Unhindered, Reaches, SyncInv, SemsAfter, Moved, Sema, Placed, InTurn;
    assert JointInv(st.w) && JointInv(st'.w) by { hide JointInv, Alive; }
    SemaAfter(st, st'.w, st.procs[i], listeners, value);
    hide Lively, JointInv;
  }

  lemma InTurnGoes(st: State, i: nat, listeners: nat, value: nat)
    requires Sema(st.w, listeners, value) && i < |st.procs| && InTurn(st.procs[i], value)
    ensures Unhindered(st, i)
  {}

  /** The process has moved to a point in its code, and nothing else has changed but the counter. */
  predicate OnlyAt(st: State, st': State, i: nat, pc: Pc, left: nat) {
    && i < |st.procs| == |st'.procs|
    && st'.procs == st.procs[i := st.procs[i].(pc := pc, left := left, aux := st'.procs[i].aux)]
  }

  /** Everyone is READY, the token is in the semaphore if it is there, and the counter lacks d. */
  ghost predicate Calm(st: State, listeners: nat, d: int) {
    Mid(st, listeners, 1) && st.global == Wrap64(Sum(st.procs) - d)
  }

  /** From sWait to before the write. */
  lemma Reads(st: State, i: nat, listeners: nat) returns (st': State)
    requires Mid(st, listeners, 1) && i < |st.procs| && st.procs[i].pc == Ready && st.procs[i].left > 0
    ensures Reaches(st, st') && Mid(st', listeners, 0) && st'.global == st.global
    ensures var t := st.procs[i];
            st'.procs == st.procs[i := t.(pc := Yielded, aux := Wrap64(st.global + t.value))]
  {
    hide Reaches, Mid, Wrap64, Moved;
    GetsToken(st, i, listeners);
    var mid := Walk(st, i, listeners, 1);
    st' := Yields(mid, i, listeners);
    ReachesOn(st, mid, st');
  }

  lemma Yields(st: State, i: nat, listeners: nat) returns (st': State)
    requires Mid(st, listeners, 0) && i < |st.procs| && st.procs[i].pc == Inside
    ensures Reaches(st, st') && Mid(st', listeners, 0) && st'.global == st.global
    ensures var t := st.procs[i];
            st'.procs == st.procs[i := t.(pc := Yielded, aux := Wrap64(st.global + t.value))]
  {
    hide Reaches, Mid, Wrap64, Moved;
    MovedIs(st, st.procs[i]);
    var mid := Walk(st, i, listeners, 0);
    MovedIs(mid, mid.procs[i]);
    st' := Walk(mid, i, listeners, 0);
    ReachesOn(st, mid, st');
  }

  lemma MovedIs(st: State, t: Thread)
    ensures t.pc == Inside ==> Moved(st, t) == t.(pc := Loaded, aux := Wrap64(st.global + t.value))
    ensures t.pc == Loaded ==> Moved(st, t) == t.(pc := Yielded)
    ensures t.pc == Yielded ==> Moved(st, t) == t.(pc := Stored)
    ensures t.pc == Stored && t.left > 0 ==> Moved(st, t) == t.(pc := Ready, left := t.left - 1)
  {
    hide Wrap64, Exists, At;
  }

  lemma GetsToken(st: State, i: nat, listeners: nat)
    requires Mid(st, listeners, 1) && i < |st.procs| && st.procs[i].pc == Ready && st.procs[i].left > 0
    ensures Moved(st, st.procs[i]) == st.procs[i].(pc := Inside)
  {
    hide Lively;
  }

  /** From the write to the end of the turn. */
  lemma Writes(st: State, i: nat, listeners: nat) returns (st': State)
    requires Mid(st, listeners, 0) && i < |st.procs| && st.procs[i].pc == Yielded && st.procs[i].left > 0
    ensures Reaches(st, st') && Mid(st', listeners, 1) && st'.global == st.procs[i].aux
    ensures st'.procs == st.procs[i := st.procs[i].(pc := Ready, left := st.procs[i].left - 1)]
  {
    hide Reaches, Mid, Sema, Wrap64, Moved;
    MovedIs(st, st.procs[i]);
    var st1 := Walk(st, i, listeners, 0);
    MovedIs(st1, st1.procs[i]);
    st' := Walk(st1, i, listeners, 0);
    ReachesOn(st, st1, st');
  }

  /** One turn of the loop. */
  lemma TurnsOnce(st: State, i: nat, listeners: nat, d: int) returns (st': State)
    requires Calm(st, listeners, d) && i < |st.procs| && st.procs[i].pc == Ready && st.procs[i].left > 0
    ensures Reaches(st, st') && Calm(st', listeners, d) && OnlyAt(st, st', i, Ready, st.procs[i].left - 1)
  {
    hide Reaches, Mid, Wrap64;
    var t := st.procs[i];
    var st1 := Reads(st, i, listeners);
    st' := Writes(st1, i, listeners);
    ReachesOn(st, st1, st');
    var t' := st'.procs[i];
    assert st'.procs == st.procs[i := t'];
    TurnAdds(t, t');
    SumUpdate(st.procs, i, t');
    WrapAdd(Sum(st.procs) - d, t.value);
    hide Sum, Added;
  }

  lemma TurnAdds(t: Thread, t': Thread)
    requires t.pc == Ready && t.left > 0 && t' == t.(left := t.left - 1, aux := t'.aux)
    ensures Added(t') == Added(t) + t.value
  {
    assert t.value * (t.n - (t.left - 1)) == t.value * (t.n - t.left) + t.value;
  }

  /** All turns of the loop. */
  lemma {:induction false} TurnsAll(st: State, i: nat, listeners: nat, d: int) returns (st': State)
    requires Calm(st, listeners, d) && i < |st.procs| && st.procs[i].pc == Ready
    ensures Reaches(st, st') && Calm(st', listeners, d) && OnlyAt(st, st', i, Ready, 0)
    decreases st.procs[i].left
  {
    if st.procs[i].left == 0 {
      st' := st;
      ReachesSelf(st);
    } else {
      hide Reaches, Calm, Mid;
      var mid := TurnsOnce(st, i, listeners, d);
      st' := TurnsAll(mid, i, listeners, d);
      ReachesOn(st, mid, st');
    }
  }

  /** The process finishes: it does what it has to, and closes. */
  lemma Leaves(st: State, i: nat, listeners: nat, d: int) returns (st': State)
    requires Calm(st, listeners, d) && i < |st.procs| && st.procs[i].pc == Ready
    ensures Reaches(st, st') && Calm(st', if listeners > 0 then listeners - 1 else 0, d) && OnlyAt(st, st', i, Done, 0)
  {
    hide Reaches, Mid, Wrap64;
    var mid := TurnsAll(st, i, listeners, d);
    st' := Walk(mid, i, listeners, 1);
    ReachesOn(st, mid, st');
    AddedStays(mid.procs[i], Done);
    SumUpdate(mid.procs, i, st'.procs[i]);
    hide Sum, Added;
  }

  // ----- all but two leave -----

  /** How many of the first k are neither a nor b. */
  function Others(k: nat, a: nat, b: nat): int {
    k - (if a < k then 1 else 0) - if b < k then 1 else 0
  }

  function Places(k: nat, a: nat, b: nat): nat {
    if Others(k, a, b) < MAX_BLOCKED_PIDS then
      if Others(k, a, b) < 0 then MAX_BLOCKED_PIDS else MAX_BLOCKED_PIDS - Others(k, a, b)
    else 0
  }

  /** Of the first k, all but a and b have finished; the others are as they were. */
  predicate Gone(st0: State, st: State, k: nat, a: nat, b: nat) {
    && k <= |st.procs| == |st0.procs|
    && forall j: nat | j < |st.procs| ::
         if j < k && j != a && j != b then st.procs[j].pc == Done && st.procs[j].left == 0
         else st.procs[j] == st0.procs[j]
  }

  lemma {:induction false} OthersLeave(st0: State, k: nat, a: nat, b: nat) returns (st: State)
    requires Calm(st0, MAX_BLOCKED_PIDS, 0) && forall j: nat | j < |st0.procs| :: st0.procs[j].pc == Ready
    requires k <= |st0.procs| && a < |st0.procs| && b < |st0.procs| && a != b
    ensures Reaches(st0, st) && Calm(st, Places(k, a, b), 0) && Gone(st0, st, k, a, b)
  {
    hide Reaches, Calm, Places, Gone, OnlyAt;
    if k == 0 {
      st := st0;
      ReachesSelf(st0);
      GoneNone(st0, a, b);
    } else {
      var mid := OthersLeave(st0, k - 1, a, b);
      assert |mid.procs| == |st0.procs| && (k - 1 != a && k - 1 != b ==> mid.procs[k - 1].pc == Ready) by {
        StillReady(st0, mid, k - 1, a, b);
      }
      if k - 1 == a || k - 1 == b {
        st := mid;
      } else {
        st := Leaves(mid, k - 1, Places(k - 1, a, b), 0);
        ReachesOn(st0, mid, st);
      }
      GoneMore(st0, mid, st, k - 1, a, b);
    }
  }

  lemma GoneNone(st: State, a: nat, b: nat)
    ensures Gone(st, st, 0, a, b) && Places(0, a, b) == MAX_BLOCKED_PIDS
  {}

  lemma StillReady(st0: State, st: State, k: nat, a: nat, b: nat)
    requires Gone(st0, st, k, a, b) && k < |st0.procs| && st0.procs[k].pc == Ready
    ensures |st.procs| == |st0.procs| && st.procs[k].pc == Ready
  {}

  lemma GoneMore(st0: State, mid: State, st: State, k: nat, a: nat, b: nat)
    requires Gone(st0, mid, k, a, b) && k < |st0.procs| && a != b
    requires if k == a || k == b then st == mid else OnlyAt(mid, st, k, Done, 0)
    ensures Gone(st0, st, k + 1, a, b)
    ensures Places(k + 1, a, b) ==
            if k == a || k == b then Places(k, a, b) else if Places(k, a, b) > 0 then Places(k, a, b) - 1 else 0
  {}

  /** All have come in, and all but two have finished: the semaphore is gone. */
  lemma TwoStay(st0: State, a: nat, b: nat) returns (st: State)
    requires AtStart(st0) && Lively(st0) && |st0.procs| >= MAX_BLOCKED_PIDS + 2
    requires a < |st0.procs| && b < |st0.procs| && a != b
    ensures Reaches(st0, st) && Calm(st, 0, 0) && |st.procs| == |st0.procs|
    ensures st.procs[a] == st0.procs[a].(pc := Ready) && st.procs[b] == st0.procs[b].(pc := Ready)
    ensures forall j: nat | j < |st.procs| && j != a && j != b :: st.procs[j].pc == Done && st.procs[j].left == 0
  {
    var m := |st0.procs|;
    hide Reaches, Calm, Lively, AtStart, SyncInv, Entered, Gone;
    var mid := Enter(st0, m);
    EnteredCalm(st0, mid);
    st := OthersLeave(mid, m, a, b);
    ReachesOn(st0, mid, st);
    TwoLeft(st0, mid, st, a, b);
  }

  lemma TwoLeft(st0: State, mid: State, st: State, a: nat, b: nat)
    requires Entered(st0, mid, |st0.procs|) && Gone(mid, st, |st0.procs|, a, b)
    requires a < |st0.procs| && b < |st0.procs| && a != b && |st0.procs| >= MAX_BLOCKED_PIDS + 2
    ensures Places(|st0.procs|, a, b) == 0 && |st.procs| == |st0.procs|
    ensures st.procs[a] == st0.procs[a].(pc := Ready) && st.procs[b] == st0.procs[b].(pc := Ready)
    ensures forall j: nat | j < |st.procs| && j != a && j != b :: st.procs[j].pc == Done && st.procs[j].left == 0
  {
    hide Exists, At;
  }

  lemma EnteredCalm(st0: State, st: State)
    requires AtStart(st0) && Lively(st) && Entered(st0, st, |st0.procs|) && |st0.procs| >= MAX_BLOCKED_PIDS
    ensures Calm(st, MAX_BLOCKED_PIDS, 0) && |st.procs| == |st0.procs|
    ensures forall j: nat | j < |st.procs| :: st.procs[j].pc == Ready
  {
    hide Lively, JointInv;
    NothingAddedYet(st.procs);
  }

  lemma {:induction false} NothingAddedYet(procs: seq<Thread>)
    requires forall i: nat | i < |procs| :: procs[i].pc == Ready && procs[i].left == procs[i].n
    ensures Sum(procs) == 0
  {
    if procs != [] {
      NothingAddedYet(procs[1..]);
    }
  }

  // ----- who may be in slowInc -----

  /** Two that add something come to be in slowInc together. */
  lemma BothInside(st0: State, a: nat, b: nat) returns (st: State)
    requires AtStart(st0) && Lively(st0) && |st0.procs| >= MAX_BLOCKED_PIDS + 2
    requires a < b < |st0.procs| && st0.procs[a].n > 0 && st0.procs[b].n > 0
    ensures Reaches(st0, st) && !OneInside(st)
  {
    hide AtStart, Lively, Reaches, Sum, Wrap64;
    AllToDo(st0);
    var st1 := TwoStay(st0, a, b);
    var st2 := Walk(st1, a, 0, 1);
    AnyValue(st2, 1);
    st := Walk(st2, b, 0, 1);
    ReachesOn(st0, st1, st2);
    ReachesOn(st0, st2, st);
    assert InSlowInc(st.procs[a]) && InSlowInc(st.procs[b]);
  }

  /** With all processes READY at the start: in every run at most one is in slowInc at a time, if and only
      if there are seventeen at most, or one at most adds anything. */
  lemma OneInsideIff(st: State)
    requires AtStart(st) && Lively(st)
    ensures (forall events | LegalRun(st, events) :: OneInside(After(st, events))) <==>
            |st.procs| <= MAX_BLOCKED_PIDS + 1 || OneWorker(st.procs)
  {
    hide OneInside, After, LegalRun, AtStart, Lively, AllPlaced;
    if |st.procs| <= MAX_BLOCKED_PIDS + 1 || OneWorker(st.procs) {
      forall events | LegalRun(st, events) ensures OneInside(After(st, events)) {
        CounterIsExact(st, events);
      }
    } else {
      var a: nat, b: nat :| a < b < |st.procs| && st.procs[a].n > 0 && st.procs[b].n > 0;
      var st' := BothInside(st, a, b);
      var events :| LegalRun(st, events) && After(st, events) == st';
      assert !OneInside(After(st, events));
    }
  }

  // ----- what the counter holds -----

  /** Both have read the counter before either writes it back: what a adds is lost. */
  lemma BothRead(st: State, a: nat, b: nat) returns (st': State)
    requires Calm(st, 0, 0) && a < |st.procs| && b < |st.procs| && a != b
    requires st.procs[a].pc == Ready && st.procs[a].left > 0 && st.procs[b].pc == Ready && st.procs[b].left > 0
    ensures Reaches(st, st') && Calm(st', 0, st.procs[a].value)
    ensures |st'.procs| == |st.procs|
    ensures st'.procs[a] == st.procs[a].(left := st.procs[a].left - 1, aux := st'.procs[a].aux)
    ensures st'.procs[b] == st.procs[b].(left := st.procs[b].left - 1, aux := st'.procs[b].aux)
    ensures forall j: nat | j < |st.procs| && j != a && j != b :: st'.procs[j] == st.procs[j]
  {
    hide Reaches, Lively, Wrap64, Sum;
    var st1 := Reads(st, a, 0);
    AnyValue(st1, 1);
    var st2 := Reads(st1, b, 0);
    var st3 := Writes(st2, a, 0);
    AnyValue(st3, 0);
    st' := Writes(st3, b, 0);
    ReachesOn(st, st1, st2);
    ReachesOn(st, st2, st3);
    ReachesOn(st, st3, st');
    LostSum(st.procs, a, b, st.procs[a].(left := st.procs[a].left - 1, aux := st'.procs[a].aux),
            st.procs[b].(left := st.procs[b].left - 1, aux := st'.procs[b].aux));
    assert st'.procs == st.procs[a := st'.procs[a]][b := st'.procs[b]];
    WrapAdd(Sum(st.procs), st.procs[b].value);
  }

  /** Without a semaphore there is no saying how many tokens it has. */
  lemma AnyValue(st: State, value: nat)
    requires Mid(st, 0, 0) || Mid(st, 0, 1)
    ensures Mid(st, 0, value)
  {
    hide Lively;
  }

  lemma LostSum(procs: seq<Thread>, a: nat, b: nat, t: Thread, u: Thread)
    requires a < |procs| && b < |procs| && a != b
    requires procs[a].pc == Ready && procs[a].left > 0 && t == procs[a].(left := procs[a].left - 1, aux := t.aux)
    requires procs[b].pc == Ready && procs[b].left > 0 && u == procs[b].(left := procs[b].left - 1, aux := u.aux)
    ensures Sum(procs[a := t][b := u]) == Sum(procs) + procs[a].value + procs[b].value
  {
    SumUpdate(procs, a, t);
    SumUpdate(procs[a := t], b, u);
    TurnAdds(procs[a], t);
    TurnAdds(procs[b], u);
    hide Sum, Added;
  }

  /** All finish, and the counter lacks what a was to add once. */
  lemma LosesOne(st0: State, a: nat, b: nat) returns (st: State)
    requires AtStart(st0) && Lively(st0) && |st0.procs| >= MAX_BLOCKED_PIDS + 2
    requires a < |st0.procs| && b < |st0.procs| && a != b && st0.procs[a].n > 0 && st0.procs[b].n > 0
    ensures Reaches(st0, st) && Finished(st) && st.global == Wrap64(Total(st0.procs) - st0.procs[a].value)
  {
    hide AtStart, Lively, Reaches, Calm, Wrap64, Total, Sum, Finished;
    AllToDo(st0);
    var st1 := TwoStay(st0, a, b);
    st := TwoFinish(st1, a, b);
    ReachesOn(st0, st1, st);
    ReachesTotal(st0, st);
    AllDone(st.procs);
    CalmCounter(st, 0, st0.procs[a].value);
  }

  lemma AllToDo(st: State)
    requires AtStart(st)
    ensures forall i: nat | i < |st.procs| :: st.procs[i].left == st.procs[i].n
  {
    hide JointInv, Exists;
  }

  lemma TwoFinish(st: State, a: nat, b: nat) returns (st': State)
    requires Calm(st, 0, 0) && a < |st.procs| && b < |st.procs| && a != b
    requires st.procs[a].pc == Ready && st.procs[a].left > 0 && st.procs[b].pc == Ready && st.procs[b].left > 0
    requires forall j: nat | j < |st.procs| && j != a && j != b :: st.procs[j].pc == Done && st.procs[j].left == 0
    ensures Reaches(st, st') && Calm(st', 0, st.procs[a].value)
    ensures Finished(st') && forall j: nat | j < |st'.procs| :: st'.procs[j].pc == Done && st'.procs[j].left == 0
  {
    hide Reaches, Calm;
    var d := st.procs[a].value;
    var st1 := BothRead(st, a, b);
    var st2 := Leaves(st1, a, 0, d);
    st' := Leaves(st2, b, 0, d);
    ReachesOn(st, st1, st2);
    ReachesOn(st, st2, st');
  }

  lemma CalmCounter(st: State, listeners: nat, d: int)
    requires Calm(st, listeners, d)
    ensures st.global == Wrap64(Sum(st.procs) - d)
  {}

  lemma ReachesTotal(st: State, st': State)
    requires Reaches(st, st')
    ensures Total(st'.procs) == Total(st.procs)
  {
    var events :| LegalRun(st, events) && After(st, events) == st';
    RunKeepsTotal(st, events);
  }

  /** Whatever is added is a multiple of the word. */
  predicate AddsNothing(procs: seq<Thread>) {
    forall i: nat | i < |procs| && procs[i].n > 0 :: Wrap64(procs[i].value) == 0
  }

  /** Then the counter stays at zero. */
  ghost predicate StaysZero(st: State) {
    && st.global == 0 && AddsNothing(st.procs)
    && forall i: nat | i < |st.procs| ::
         && ThreadOk(st.procs[i])
         && (st.procs[i].pc == Loaded || st.procs[i].pc == Yielded ==> st.procs[i].aux == 0)
  }

  lemma StepStaysZero(st: State, e: Event)
    requires StaysZero(st) && Enabled(st, e)
    ensures StaysZero(Next(st, e))
  {
    hide Do;
    if e.Go? {
      var t := st.procs[e.i];
      if t.pc == Inside {
        assert Wrap64(st.global + t.value) == 0;
      }
    }
    hide Wrap64, Exists, At;
  }

  lemma {:induction false} RunStaysZero(st: State, events: seq<Event>)
    requires StaysZero(st) && LegalRun(st, events)
    ensures StaysZero(After(st, events))
    decreases |events|
  {
    if events != [] {
      StepStaysZero(st, events[0]);
      RunStaysZero(Next(st, events[0]), events[1..]);
    }
  }

  const WORD64: int := 0x1_0000_0000_0000_0000

  lemma WrapZero(x: int)
    ensures Wrap64(x) == 0 <==> x % WORD64 == 0
  {}

  lemma {:induction false} TimesZero(x: int, n: nat)
    requires x % WORD64 == 0
    ensures x * n % WORD64 == 0
  {
    if n > 0 {
      TimesZero(x, n - 1);
      assert x * n == x * (n - 1) + x;
    }
  }

  lemma {:induction false} TotalZero(procs: seq<Thread>)
    requires AddsNothing(procs)
    ensures Total(procs) % WORD64 == 0
  {
    if procs != [] {
      var t := procs[0];
      hide Wrap64;
      TotalZero(procs[1..]);
      if t.n > 0 {
        WrapZero(t.value);
        TimesZero(t.value, t.n);
      }
    }
  }

  lemma WrapDiffers(x: int, d: int)
    requires Wrap64(d) != 0
    ensures Wrap64(x - d) != Wrap64(x)
  {}

  /** In every run in which all processes finish, the counter then holds the sum of what they were to add,
      if and only if there are seventeen at most, or one at most adds anything, or what is added is
      nothing. */
  lemma CounterIff(st: State)
    requires AtStart(st) && Lively(st)
    ensures (forall events | LegalRun(st, events) && Finished(After(st, events)) ::
               After(st, events).global == Wrap64(Total(st.procs))) <==>
            |st.procs| <= MAX_BLOCKED_PIDS + 1 || OneWorker(st.procs) || AddsNothing(st.procs)
  {
    hide Finished, After, LegalRun, AtStart, Lively, AllPlaced, Total, Wrap64;
    if |st.procs| <= MAX_BLOCKED_PIDS + 1 || OneWorker(st.procs) {
      forall events | LegalRun(st, events) && Finished(After(st, events))
        ensures After(st, events).global == Wrap64(Total(st.procs))
      {
        CounterIsExact(st, events);
      }
    } else if AddsNothing(st.procs) {
      forall events | LegalRun(st, events) && Finished(After(st, events))
        ensures After(st, events).global == Wrap64(Total(st.procs))
      {
        ZeroCounter(st, events);
      }
    } else {
      var a, b := AnAdder(st.procs);
      var st' := LosesOne(st, a, b);
      var events :| LegalRun(st, events) && After(st, events) == st';
      WrapDiffers(Total(st.procs), st.procs[a].value);
      assert Finished(After(st, events)) && After(st, events).global != Wrap64(Total(st.procs));
    }
  }

  lemma ZeroCounter(st: State, events: seq<Event>)
    requires AtStart(st) && LegalRun(st, events) && AddsNothing(st.procs)
    ensures After(st, events).global == 0 == Wrap64(Total(st.procs))
  {
    assert StaysZero(st);
    RunStaysZero(st, events);
    TotalZero(st.procs);
    WrapZero(Total(st.procs));
  }

  /** One that adds something, and another one that writes the counter, too. */
  lemma AnAdder(procs: seq<Thread>) returns (a: nat, b: nat)
    requires !OneWorker(procs) && !AddsNothing(procs)
    ensures a < |procs| && b < |procs| && a != b && procs[a].n > 0 && procs[b].n > 0 && Wrap64(procs[a].value) != 0
  {
    hide Wrap64;
    a :| a < |procs| && procs[a].n > 0 && Wrap64(procs[a].value) != 0;
    var i: nat, j: nat :| i < j < |procs| && procs[i].n > 0 && procs[j].n > 0;
    b := if i == a then j else i;
  }

  // ----- an update is lost, from boot -----

  /** Sixteen processes that only open and close, and two that add one each, once. */
  function Eighteen(): seq<Thread> {
    seq(18, i requires 0 <= i => Thread(i + 1, 1, if i < 16 then 0 else 1, if i < 16 then 0 else 1, Start, 0))
  }

  function Procs(n: nat): seq<Proc> {
    seq(n, i requires 0 <= i => Proc(i + 1, 0, false, INIT_PRIO, READY))
  }

  /** The world when n processes have been made, and none has run. */
  function Made(n: nat): World {
    World(Initial().(queue := Procs(n), nextPid := n + 1, created := FirstPids(n)), [], {})
  }

  function FirstPids(n: nat): set<nat> {
    if n == 0 then {} else FirstPids(n - 1) + {n}
  }

  function Adds(n: nat): seq<Call> {
    if n == 0 then [] else [Scheduler(Add(0))] + Adds(n - 1)
  }

  lemma MakesOne(n: nat)
    ensures Do(Made(n), Scheduler(Add(0))) == Made(n + 1)
  {
    var p := NewProc(Made(n).sched, 0);
    assert p == Proc(n + 1, 0, false, INIT_PRIO, READY);
    assert Procs(n) + [p] == Procs(n + 1);
  }

  lemma {:induction false} Makes(m: nat, n: nat)
    ensures Legal(Made(m), Adds(n)) && DoAll(Made(m), Adds(n)) == Made(m + n)
    decreases n
  {
    if n > 0 {
      MakesOne(m);
      Makes(m + 1, n - 1);
      hide Made, Do;
      FirstCall(Made(m), Scheduler(Add(0)), Made(m + 1), Adds(n - 1));
    }
  }

  lemma MadeFromBoot(n: nat)
    ensures Legal(Boot(), Adds(n)) && DoAll(Boot(), Adds(n)) == Made(n) && JointInv(Made(n))
  {
    Makes(0, n);
    assert Made(0) == Boot();
    NoLostWakeup(Adds(n));
  }

  function AllIn(): State {
    TestSync.State(Made(18), Eighteen(), 0)
  }

  lemma AllInReady()
    ensures AtStart(AllIn()) && Lively(AllIn())
  {
    MadeFromBoot(18);
    hide JointInv;
    AllInStart();
    AllInAlive();
    hide AtStart, Alive, Made, Eighteen;
  }

  lemma AllInStart()
    requires JointInv(Made(18))
    ensures AtStart(AllIn())
  {
    var st := AllIn();
    hide JointInv;
    assert !Exists(st.w, SEM_ID) && st.w.asleep == {} && st.w == Made(18) && st.procs == Eighteen();
    EighteenAt();
    hide Exists, Made, Eighteen, AllIn;
  }

  lemma EighteenAt()
    ensures |Eighteen()| == 18
    ensures forall i: nat | i < 18 :: var t := Eighteen()[i]; t.pid == i + 1 && t.pc == Start && t.left == t.n
  {}

  lemma AllInAlive()
    ensures forall i: nat | i < 18 :: Alive(AllIn().w.sched, AllIn().procs[i].pid)
  {
    var s := Made(18).sched;
    forall i: nat | i < 18 ensures Alive(AllIn().w.sched, AllIn().procs[i].pid) {
      assert Queued(s, i + 1, i);
      assert AllIn().procs[i].pid == i + 1;
    }
  }

  lemma TotalIsTwo()
    ensures Total(Eighteen()) == 2
  {
    TotalIdle(Eighteen(), 16);
    var rest := Eighteen()[16..];
    assert rest == [Thread(17, 1, 1, 1, Start, 0), Thread(18, 1, 1, 1, Start, 0)];
    assert rest[1..] == [Thread(18, 1, 1, 1, Start, 0)];
    assert rest[1..][1..] == [];
  }

  lemma {:induction false} TotalIdle(procs: seq<Thread>, k: nat)
    requires k <= |procs| && forall i: nat | i < k :: procs[i].n == 0
    ensures Total(procs) == Total(procs[k..])
  {
    if k > 0 {
      TotalIdle(procs[1..], k - 1);
      assert procs[1..][k - 1..] == procs[k..];
    }
  }

  /** Eighteen processes, made from boot. Two of them add one each, and all finish, but the counter holds
      one: sixteen closed the semaphore while the other two, which it had refused, relied on it. */
  lemma LosesUpdate()
    ensures AtStart(AllIn()) && Legal(Boot(), Adds(18)) && DoAll(Boot(), Adds(18)) == AllIn().w
    ensures Total(AllIn().procs) == 2
    ensures exists events :: LegalRun(AllIn(), events) &&
              var st := After(AllIn(), events); Finished(st) && st.global == 1
  {
    hide Made, Eighteen, AtStart, JointInv, Lively, AllIn, LegalRun, After, Total, Adds, Finished, Wrap64;
    AllInReady();
    MadeFromBoot(18);
    TotalIsTwo();
    LastAdds();
    var st := LosesOne(AllIn(), 16, 17);
    var events :| LegalRun(AllIn(), events) && After(AllIn(), events) == st;
    assert Finished(After(AllIn(), events));
  }

  lemma LastAdds()
    ensures AllIn().w == Made(18) && AllIn().procs == Eighteen() && |AllIn().procs| == 18
    ensures AllIn().procs[16].n == AllIn().procs[17].n == AllIn().procs[16].value == 1
    ensures Wrap64(1) == 1
  {
    hide Made;
  }
}
