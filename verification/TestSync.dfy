/** testSync.c: any number of `inc` processes add to a shared counter, each holding a semaphore across
    the read, the yield and the write. The first to come makes the semaphore, and whoever closes it
    last frees it, so it may be made again while the others have not started yet. */
module TestSync {
  import opened Scheduling
  import opened Signalling

  const SEM_ID: nat := 101

  /** Where a process is in `inc`: before sOpen, before sWait or sClose, blocked in sWait, then inside
      slowInc before the read, after it, after the yield, after the write, and at the end. */
  datatype Pc = Start | Ready | Waiting | Inside | Loaded | Yielded | Stored | Done

  /** An `inc` process with its flag set: what it adds, how many times, how many are left. */
  datatype Thread = Thread(pid: nat, value: int, n: nat, left: nat, pc: Pc, aux: int)

  datatype State = State(w: World, procs: seq<Thread>, global: int)

  datatype Event = Other(call: Call) | Go(i: nat)

  /** Two's complement arithmetic on 64 bits. */
  function Wrap64(x: int): int {
    (x + 0x8000_0000_0000_0000) % 0x1_0000_0000_0000_0000 - 0x8000_0000_0000_0000
  }

  lemma WrapAdd(a: int, b: int)
    ensures Wrap64(Wrap64(a) + b) == Wrap64(a + b)
  {}

  /** It is the number that is the same modulo 2^64 and fits in the signed word. */
  lemma WrapIs(x: int)
    ensures -0x8000_0000_0000_0000 <= Wrap64(x) < 0x8000_0000_0000_0000
    ensures (Wrap64(x) - x) % 0x1_0000_0000_0000_0000 == 0
  {}

  // ----- one step -----

  predicate Mine(st: State, pid: nat) {
    exists i | 0 <= i < |st.procs| :: st.procs[i].pid == pid
  }

  /** What the others do: they leave the semaphore alone, and make no process of ours wait elsewhere. */
  predicate Elsewhere(st: State, call: Call) {
    match call
    case OpenSem(id, _) => id != SEM_ID
    case WaitSem(id) => id != SEM_ID && st.w.sched.current.Running? && !Mine(st, st.w.sched.current.proc.pid)
    case PostSem(id) => id != SEM_ID
    case CloseSem(id) => id != SEM_ID
    case _ => true
  }

  /** The next action of a process: a system call, or a step of its own. */
  datatype Action = Asks(call: Call) | Local

  function ActionOf(t: Thread): Action {
    match t.pc
    case Start => Asks(OpenSem(SEM_ID, 1))
    case Ready => if t.left > 0 then Asks(WaitSem(SEM_ID)) else Asks(CloseSem(SEM_ID))
    case Loaded => Asks(Scheduler(Yield))
    case Stored => Asks(PostSem(SEM_ID))
    case _ => Local
  }

  /** The semaphore takes one more listener. Otherwise sOpen refuses, which `inc` does not recognise: it
      goes on as if it were one. */
  predicate HasPlace(w: World) {
    Exists(w, SEM_ID) ==> At(w, SEM_ID).listeners < MAX_BLOCKED_PIDS
  }

  predicate Runs(w: World, pid: nat) {
    w.sched.current.Running? && w.sched.current.proc.pid == pid
  }

  predicate Enabled(st: State, e: Event) {
    match e
    case Other(call) => Callable(st.w, call) && Allowed(st.w, call) && Elsewhere(st, call)
    case Go(i) =>
      && i < |st.procs| && st.procs[i].pc != Done && Runs(st.w, st.procs[i].pid)
      && match ActionOf(st.procs[i])
         case Asks(call) => Callable(st.w, call)
         case Local => true
  }

  /** Whoever opens the semaphore becomes one of its listeners. */
  predicate Placed(st: State, e: Event) {
    e.Go? && e.i < |st.procs| && st.procs[e.i].pc == Start ==> HasPlace(st.w)
  }

  /** The process after its next action, when that is not held up. */
  function Moved(st: State, t: Thread): Thread {
    match t.pc
    case Start => t.(pc := Ready)
    case Ready =>
      if t.left == 0 then t.(pc := Done)
      else if Exists(st.w, SEM_ID) && At(st.w, SEM_ID).value == 0 then t.(pc := Waiting)
      else t.(pc := Inside)
    case Waiting => t.(pc := Inside)
    case Inside => t.(pc := Loaded, aux := Wrap64(st.global + t.value))
    case Loaded => t.(pc := Yielded)
    case Yielded => t.(pc := Stored)
    case Stored => if t.left > 0 then t.(pc := Ready, left := t.left - 1) else t
    case Done => t
  }

  function Next(st: State, e: Event): State
    requires Enabled(st, e)
  {
    match e
    case Other(call) => st.(w := Do(st.w, call))
    case Go(i) =>
      var t := st.procs[i];
      var w := match ActionOf(t) case Asks(call) => Do(st.w, call) case Local => st.w;
      State(w, st.procs[i := Moved(st, t)], if t.pc == Yielded then t.aux else st.global)
  }

  // ----- the invariant -----

  predicate InSlowInc(t: Thread) {
    t.pc == Inside || t.pc == Loaded || t.pc == Yielded || t.pc == Stored
  }

  /** The process has the token: it is in slowInc, or was woken and is about to be. */
  predicate HasToken(t: Thread, waiters: seq<nat>) {
    InSlowInc(t) || (t.pc == Waiting && t.pid !in waiters)
  }

  predicate Active(t: Thread) {
    t.pc != Start && t.pc != Done
  }

  function Weight(t: Thread): nat {
    if Active(t) then 1 else 0
  }

  function ActiveCount(procs: seq<Thread>): nat {
    if procs == [] then 0 else Weight(procs[0]) + ActiveCount(procs[1..])
  }

  /** What a process has added so far. */
  function Added(t: Thread): int {
    t.value * (t.n - t.left) + if t.pc == Stored then t.value else 0
  }

  function Sum(procs: seq<Thread>): int {
    if procs == [] then 0 else Added(procs[0]) + Sum(procs[1..])
  }

  predicate ThreadOk(t: Thread) {
    && t.left <= t.n
    && (InSlowInc(t) || t.pc == Waiting ==> t.left > 0)
    && (t.pc == Start ==> t.left == t.n) && (t.pc == Done ==> t.left == 0)
  }

  ghost predicate Threads(procs: seq<Thread>) {
    && (forall i: nat | i < |procs| :: ThreadOk(procs[i]))
    && (forall i: nat, j: nat | i < j < |procs| :: procs[i].pid != procs[j].pid)
  }

  /** One process at most has the token, and nobody has it when it is in the semaphore. */
  ghost predicate Exclusive(procs: seq<Thread>, waiters: seq<nat>, banked: bool) {
    && (forall i: nat, j: nat | i < |procs| && j < |procs| && i != j && HasToken(procs[i], waiters) ::
          !HasToken(procs[j], waiters))
    && (banked <==> forall i: nat | i < |procs| :: !HasToken(procs[i], waiters))
  }

  /** Who sleeps is blocked in the sWait of the semaphore, and only our processes are. */
  ghost predicate InLine(procs: seq<Thread>, asleep: set<nat>, waiters: seq<nat>) {
    && (forall i: nat | i < |procs| && procs[i].pid in asleep :: procs[i].pc == Waiting && procs[i].pid in waiters)
    && (forall pid | pid in waiters :: exists i: nat :: i < |procs| && procs[i].pid == pid)
  }

  /** A value that was read is still what the counter holds. */
  ghost predicate Current(procs: seq<Thread>, global: int) {
    forall i: nat | i < |procs| && (procs[i].pc == Loaded || procs[i].pc == Yielded) ::
      procs[i].aux == Wrap64(global + procs[i].value)
  }

  /** The semaphore is there while more processes have it open than were refused, and counts them, but
      for those. */
  ghost predicate Counted(w: World, procs: seq<Thread>, refused: nat) {
    && (Exists(w, SEM_ID) <==> ActiveCount(procs) > refused)
    && (Exists(w, SEM_ID) ==>
          At(w, SEM_ID).listeners + refused == ActiveCount(procs) && At(w, SEM_ID).value <= 1)
  }

  /** Where one was refused, all have started, and the semaphore is still there. */
  ghost predicate Late(procs: seq<Thread>, refused: nat) {
    && refused <= 1
    && (refused > 0 ==> ActiveCount(procs) > refused && forall i: nat | i < |procs| :: procs[i].pc != Start)
  }

  /** The token is in the semaphore, or will be when it is made. */
  predicate Banked(w: World) {
    Exists(w, SEM_ID) ==> At(w, SEM_ID).value == 1
  }

  /** What holds of the processes and the counter, given who waits and whether the token is banked. */
  ghost predicate ProcInv(procs: seq<Thread>, global: int, asleep: set<nat>, waiters: seq<nat>, banked: bool) {
    && Threads(procs) && Exclusive(procs, waiters, banked) && InLine(procs, asleep, waiters)
    && Current(procs, global) && global == Wrap64(Sum(procs))
  }

  /** One process at most was refused, and the semaphore serves all the same. */
  ghost predicate Held(st: State, refused: nat) {
    && JointInv(st.w) && Counted(st.w, st.procs, refused) && Late(st.procs, refused)
    && ProcInv(st.procs, st.global, st.w.asleep, WaitersOf(st.w, SEM_ID), Banked(st.w))
  }

  /** Nobody was refused. */
  ghost predicate SyncInv(st: State) {
    Held(st, 0)
  }

  // ----- one process moves -----

  lemma {:induction false} SumUpdate(procs: seq<Thread>, i: nat, t: Thread)
    requires i < |procs|
    ensures Sum(procs[i := t]) == Sum(procs) - Added(procs[i]) + Added(t)
    ensures ActiveCount(procs[i := t]) == ActiveCount(procs) - Weight(procs[i]) + Weight(t)
  {
    if i == 0 {
      assert procs[i := t][1..] == procs[1..];
    } else {
      assert procs[i := t][1..] == procs[1..][i - 1 := t];
      SumUpdate(procs[1..], i - 1, t);
    }
  }

  lemma {:induction false} CountPositive(procs: seq<Thread>, i: nat)
    requires i < |procs| && Active(procs[i])
    ensures ActiveCount(procs) >= 1
  {
    if i > 0 {
      CountPositive(procs[1..], i - 1);
    }
  }

  lemma {:induction false} CountTwo(procs: seq<Thread>, i: nat, j: nat)
    requires i < j < |procs| && Active(procs[i]) && Active(procs[j])
    ensures ActiveCount(procs) >= 2
  {
    if i == 0 {
      CountPositive(procs[1..], j - 1);
    } else {
      CountTwo(procs[1..], i - 1, j - 1);
    }
  }

  lemma {:induction false} CountThree(procs: seq<Thread>, i: nat, j: nat, k: nat)
    requires i < |procs| && j < |procs| && k < |procs| && i != j && i != k && j != k
    requires Active(procs[i]) && Active(procs[j]) && Active(procs[k])
    ensures ActiveCount(procs) >= 3
  {
    var rest := procs[i := procs[i].(pc := Done)];
    SumUpdate(procs, i, procs[i].(pc := Done));
    CountTwo(rest, if j < k then j else k, if j < k then k else j);
  }

  lemma MoveThreads(procs: seq<Thread>, i: nat, t: Thread)
    requires Threads(procs) && i < |procs| && t.pid == procs[i].pid && ThreadOk(t)
    ensures Threads(procs[i := t])
  {}

  /** The process keeps its token, or stays without. */
  lemma MoveToken(procs: seq<Thread>, i: nat, t: Thread, waiters: seq<nat>, banked: bool)
    requires Exclusive(procs, waiters, banked) && i < |procs| && HasToken(t, waiters) == HasToken(procs[i], waiters)
    ensures Exclusive(procs[i := t], waiters, banked)
  {
    var r := procs[i := t];
    assert forall j: nat | j < |r| :: HasToken(r[j], waiters) == HasToken(procs[j], waiters);
  }

  /** The process takes the token out of the semaphore. */
  lemma TakeToken(procs: seq<Thread>, i: nat, t: Thread, waiters: seq<nat>)
    requires Exclusive(procs, waiters, true) && i < |procs| && HasToken(t, waiters)
    ensures Exclusive(procs[i := t], waiters, false)
  {
    assert HasToken(procs[i := t][i], waiters);
  }

  /** The process leaves the token in the semaphore. */
  lemma BankToken(procs: seq<Thread>, i: nat, t: Thread, waiters: seq<nat>)
    requires Exclusive(procs, waiters, false) && i < |procs|
    requires HasToken(procs[i], waiters) && !HasToken(t, waiters)
    ensures Exclusive(procs[i := t], waiters, true)
  {
    assert forall j: nat | j < |procs| && j != i :: !HasToken(procs[j], waiters);
  }

  /** The process hands the token to the first waiter. */
  lemma HandToken(procs: seq<Thread>, asleep: set<nat>, i: nat, t: Thread, waiters: seq<nat>)
    requires Threads(procs) && Exclusive(procs, waiters, false) && InLine(procs, asleep, waiters)
    requires i < |procs| && t.pid == procs[i].pid && waiters != [] && waiters[0] in asleep && NoRepeats(waiters)
    requires HasToken(procs[i], waiters) && t.pc == Ready
    ensures Exclusive(procs[i := t], waiters[1..], false)
  {
    BankToken(procs, i, t, waiters);
    var r := procs[i := t];
    assert waiters[0] in waiters;
    var h: nat :| h < |procs| && procs[h].pid == waiters[0];
    FirstLeaves(waiters);
    assert procs[h].pc == Waiting;
    assert r[h].pc == Waiting && HasToken(r[h], waiters[1..]);
    assert forall j: nat | j < |r| && j != h :: r[j].pid != waiters[0];
    assert forall j: nat | j < |r| && j != h :: HasToken(r[j], waiters[1..]) == HasToken(r[j], waiters);
  }

  /** A step that changes neither the counter nor who has the token. */
  lemma OwnMove(procs: seq<Thread>, global: int, asleep: set<nat>, waiters: seq<nat>, banked: bool, i: nat, t: Thread)
    requires ProcInv(procs, global, asleep, waiters, banked) && i < |procs| && procs[i].pid !in asleep
    requires t.pid == procs[i].pid && ThreadOk(t) && HasToken(t, waiters) == HasToken(procs[i], waiters)
    requires Added(t) == Added(procs[i])
    requires t.pc == Loaded || t.pc == Yielded ==> t.aux == Wrap64(global + t.value)
    ensures ProcInv(procs[i := t], global, asleep, waiters, banked)
  {
    hide Threads, Exclusive, InLine, Sum, Wrap64, HasToken, Added, ActiveCount;
    SumUpdate(procs, i, t);
    MoveThreads(procs, i, t);
    MoveToken(procs, i, t, waiters, banked);
    MoveLine(procs, i, t, asleep, waiters);
  }

  lemma MoveLine(procs: seq<Thread>, i: nat, t: Thread, asleep: set<nat>, waiters: seq<nat>)
    requires InLine(procs, asleep, waiters) && i < |procs| && t.pid == procs[i].pid && t.pid !in asleep
    ensures InLine(procs[i := t], asleep, waiters)
  {
    var r := procs[i := t];
    forall pid | pid in waiters ensures exists j: nat :: j < |r| && r[j].pid == pid {
      var j: nat :| j < |procs| && procs[j].pid == pid;
      assert r[j].pid == pid;
    }
  }

  /** Writing the counter back. */
  lemma StoreMove(procs: seq<Thread>, global: int, asleep: set<nat>, waiters: seq<nat>, banked: bool, i: nat)
    requires ProcInv(procs, global, asleep, waiters, banked) && i < |procs| && procs[i].pid !in asleep
    requires procs[i].pc == Yielded
    ensures ProcInv(procs[i := procs[i].(pc := Stored)], procs[i].aux, asleep, waiters, banked)
  {
    var t := procs[i].(pc := Stored);
    hide Threads, Exclusive, InLine, Sum, Wrap64, ActiveCount, Added, HasToken;
    assert ThreadOk(procs[i]) by { ThreadAt(procs, i); }
    StoreAdds(procs[i]);
    SumUpdate(procs, i, t);
    MoveThreads(procs, i, t);
    MoveToken(procs, i, t, waiters, banked);
    MoveLine(procs, i, t, asleep, waiters);
    OnlyReader(procs, waiters, banked, i);
    WrapAdd(Sum(procs), procs[i].value);
  }

  lemma ThreadAt(procs: seq<Thread>, i: nat)
    requires Threads(procs) && i < |procs|
    ensures ThreadOk(procs[i])
  {}

  lemma StoreAdds(t: Thread)
    requires t.pc == Yielded
    ensures Added(t.(pc := Stored)) == Added(t) + t.value
    ensures forall waiters: seq<nat> :: HasToken(t, waiters) && HasToken(t.(pc := Stored), waiters)
  {}

  /** A process in slowInc is the only one that may have read the counter. */
  lemma OnlyReader(procs: seq<Thread>, waiters: seq<nat>, banked: bool, i: nat)
    requires Exclusive(procs, waiters, banked) && i < |procs| && InSlowInc(procs[i])
    ensures forall j: nat | j < |procs| && j != i :: procs[j].pc != Loaded && procs[j].pc != Yielded
  {
    assert HasToken(procs[i], waiters);
    assert forall j: nat | j < |procs| && j != i :: !HasToken(procs[j], waiters);
  }

  /** sWait takes the token. */
  lemma TakeMove(procs: seq<Thread>, global: int, asleep: set<nat>, waiters: seq<nat>, i: nat)
    requires ProcInv(procs, global, asleep, waiters, true) && i < |procs| && procs[i].pid !in asleep
    requires procs[i].pc == Ready && procs[i].left > 0
    ensures ProcInv(procs[i := procs[i].(pc := Inside)], global, asleep, waiters, false)
  {
    var t := procs[i].(pc := Inside);
    hide Threads, Exclusive, InLine, Sum, Wrap64, Added, ActiveCount;
    AddedStays(procs[i], Inside);
    SumUpdate(procs, i, t);
    MoveThreads(procs, i, t) by { ThreadAt(procs, i); }
    TakeToken(procs, i, t, waiters);
    MoveLine(procs, i, t, asleep, waiters);
  }

  /** sWait blocks. */
  lemma BlockMove(procs: seq<Thread>, global: int, asleep: set<nat>, waiters: seq<nat>, i: nat)
    requires ProcInv(procs, global, asleep, waiters, false) && i < |procs| && procs[i].pc == Ready && procs[i].left > 0
    ensures var t := procs[i].(pc := Waiting);
            ProcInv(procs[i := t], global, asleep + {t.pid}, waiters + [t.pid], false)
  {
    var t := procs[i].(pc := Waiting);
    hide Threads, Exclusive, InLine, Sum, Wrap64, Added, ActiveCount;
    AddedStays(procs[i], Waiting);
    SumUpdate(procs, i, t);
    MoveThreads(procs, i, t) by { ThreadAt(procs, i); }
    JoinLine(procs, i, t, asleep, waiters);
  }

  lemma JoinLine(procs: seq<Thread>, i: nat, t: Thread, asleep: set<nat>, waiters: seq<nat>)
    requires Threads(procs) && Exclusive(procs, waiters, false) && InLine(procs, asleep, waiters)
    requires i < |procs| && procs[i].pc == Ready && t.pid == procs[i].pid && t.pc == Waiting
    ensures Exclusive(procs[i := t], waiters + [t.pid], false)
    ensures InLine(procs[i := t], asleep + {t.pid}, waiters + [t.pid])
  {
    var r, waiters' := procs[i := t], waiters + [t.pid];
    assert forall j: nat | j < |r| :: HasToken(r[j], waiters') == HasToken(procs[j], waiters);
    forall pid | pid in waiters' ensures exists j: nat :: j < |r| && r[j].pid == pid {
      if pid == t.pid {
        assert r[i].pid == pid;
      } else {
        var j: nat :| j < |procs| && procs[j].pid == pid;
        assert r[j].pid == pid;
      }
    }
  }

  /** sPost, with or without somebody to hand the token to. */
  lemma PostMove(procs: seq<Thread>, global: int, asleep: set<nat>, waiters: seq<nat>, i: nat)
    requires ProcInv(procs, global, asleep, waiters, false) && i < |procs| && procs[i].pc == Stored
    requires procs[i].pid !in asleep && NoRepeats(waiters) && forall pid | pid in waiters :: pid in asleep
    ensures var t := procs[i].(pc := Ready, left := procs[i].left - 1);
            if waiters == [] then ProcInv(procs[i := t], global, asleep, waiters, true)
            else ProcInv(procs[i := t], global, asleep - {waiters[0]}, waiters[1..], false)
  {
    var t := procs[i].(pc := Ready, left := procs[i].left - 1);
    hide Threads, Exclusive, InLine, Sum, Wrap64, Added, ActiveCount;
    assert ThreadOk(procs[i]) by { ThreadAt(procs, i); }
    SumUpdate(procs, i, t);
    OneLess(procs[i]);
    MoveThreads(procs, i, t);
    if waiters == [] {
      BankToken(procs, i, t, waiters);
      MoveLine(procs, i, t, asleep, waiters);
    } else {
      HandToken(procs, asleep, i, t, waiters);
      LeaveLine(procs, i, t, asleep, waiters);
    }
  }

  lemma OneLess(t: Thread)
    requires t.pc == Stored && t.left > 0
    ensures Added(t.(pc := Ready, left := t.left - 1)) == Added(t)
  {
    assert t.value * (t.n - (t.left - 1)) == t.value * (t.n - t.left) + t.value;
  }

  lemma LeaveLine(procs: seq<Thread>, i: nat, t: Thread, asleep: set<nat>, waiters: seq<nat>)
    requires InLine(procs, asleep, waiters) && waiters != [] && NoRepeats(waiters)
    requires i < |procs| && t.pid == procs[i].pid && procs[i].pid !in asleep
    ensures InLine(procs[i := t], asleep - {waiters[0]}, waiters[1..])
  {
    var r := procs[i := t];
    FirstLeaves(waiters);
    forall pid | pid in waiters[1..] ensures exists j: nat :: j < |r| && r[j].pid == pid {
      var j: nat :| j < |procs| && procs[j].pid == pid;
      assert r[j].pid == pid;
    }
  }

  // ----- what the calls do to the semaphore -----

  lemma OpenFacts(w: World)
    requires JointInv(w) && HasPlace(w)
    ensures var w' := Do(w, OpenSem(SEM_ID, 1));
            && JointInv(w') && Exists(w', SEM_ID) && w'.asleep == w.asleep &&
              WaitersOf(w', SEM_ID) == WaitersOf(w, SEM_ID)
            && At(w', SEM_ID).listeners == 1 + (if Exists(w, SEM_ID) then At(w, SEM_ID).listeners else 0)
            && At(w', SEM_ID).value == if Exists(w, SEM_ID) then At(w, SEM_ID).value else 1
  {
    OpenKeepsJoint(w, SEM_ID, 1);
    var i := Find(w.sems, SEM_ID);
    var w' := Do(w, OpenSem(SEM_ID, 1));
    if i == |w.sems| {
      OpenMakes(w.sems, SEM_ID, 1);
      FirstAt(w'.sems, SEM_ID, i);
    } else {
      AtUpdate(w, w', i, w.sems[i].(listeners := w.sems[i].listeners + 1), SEM_ID);
    }
  }

  lemma WaitFacts(w: World)
    requires JointInv(w) && Exists(w, SEM_ID) && MayWait(w, SEM_ID)
    ensures var w', s, pid := Do(w, WaitSem(SEM_ID)), At(w, SEM_ID), w.sched.current.proc.pid;
            && JointInv(w') && Exists(w', SEM_ID) && At(w', SEM_ID) == Acquire(s, pid)
            && WaitersOf(w', SEM_ID) == (if s.value > 0 then WaitersOf(w, SEM_ID) else WaitersOf(w, SEM_ID) + [pid])
            && w'.asleep == if s.value > 0 then w.asleep else w.asleep + {pid}
  {
    TakeKeepsJoint(w, SEM_ID);
    var i := Find(w.sems, SEM_ID);
    AtUpdate(w, Do(w, WaitSem(SEM_ID)), i, Acquire(w.sems[i], w.sched.current.proc.pid), SEM_ID);
  }

  lemma PostFacts(w: World)
    requires JointInv(w) && Exists(w, SEM_ID)
    ensures var w', s := Do(w, PostSem(SEM_ID)), At(w, SEM_ID);
            && JointInv(w') && Exists(w', SEM_ID) && At(w', SEM_ID) == Release(s)
            && w'.asleep == if s.waiters == [] then w.asleep else w.asleep - {s.waiters[0]}
    ensures var s := At(w, SEM_ID);
            SemInv(s) && WaitersOf(w, SEM_ID) == s.waiters && forall pid | pid in s.waiters :: pid in w.asleep
  {
    PostKeepsJoint(w, SEM_ID);
    var i := Find(w.sems, SEM_ID);
    AtUpdate(w, Do(w, PostSem(SEM_ID)), i, Release(w.sems[i]), SEM_ID);
    AsleepListed(w, i);
  }

  lemma CloseFacts(w: World)
    requires JointInv(w) && Exists(w, SEM_ID) && Allowed(w, CloseSem(SEM_ID))
    ensures var w', s := Do(w, CloseSem(SEM_ID)), At(w, SEM_ID);
            && JointInv(w') && w'.asleep == w.asleep && (Exists(w', SEM_ID) <==> s.listeners > 1)
            && (Exists(w', SEM_ID) ==> At(w', SEM_ID) == s.(listeners := s.listeners - 1))
  {
    CloseJoint(w, SEM_ID);
    var i := Find(w.sems, SEM_ID);
    var w' := Do(w, CloseSem(SEM_ID));
    if w.sems[i].listeners > 1 {
      AtUpdate(w, w', i, w.sems[i].(listeners := w.sems[i].listeners - 1), SEM_ID);
    } else {
      AtRemove(w, w', i, SEM_ID);
    }
  }

  // ----- every step keeps the invariant -----

  lemma OtherKeepsSync(st: State, r: nat, call: Call)
    requires Held(st, r) && Enabled(st, Other(call))
    ensures Held(Next(st, Other(call)), r)
  {
    hide JointInv, Do, Callable, Allowed, Exists, At, ProcInv, Elsewhere, WaitersOf;
    ElsewhereIs(st, call);
    OtherSame(st.w, call);
    OtherLine(st, r, call, Do(st.w, call).asleep);
  }

  lemma ElsewhereIs(st: State, call: Call)
    requires Elsewhere(st, call)
    ensures call.Scheduler? || call.id != SEM_ID
  {}

  /** What the others do leaves the semaphore as it is. */
  lemma OtherSame(w: World, call: Call)
    requires JointInv(w) && Callable(w, call) && Allowed(w, call) && (call.Scheduler? || call.id != SEM_ID)
    ensures var w' := Do(w, call);
            && JointInv(w') && (Exists(w', SEM_ID) <==> Exists(w, SEM_ID))
            && (Exists(w, SEM_ID) ==> At(w', SEM_ID) == At(w, SEM_ID))
            && WaitersOf(w', SEM_ID) == WaitersOf(w, SEM_ID)
            && forall pid | pid in w'.asleep :: pid in w.asleep || (call.WaitSem? && pid == w.sched.current.proc.pid)
  {
    hide JointInv, Do, Callable, Allowed;
    KeepsJointIffAllowed(w, call);
    AtOther(w, call, SEM_ID);
    AsleepStep(w, call);
  }

  lemma OtherLine(st: State, r: nat, call: Call, asleep: set<nat>)
    requires Held(st, r) && Elsewhere(st, call)
    requires forall pid | pid in asleep :: pid in st.w.asleep || (call.WaitSem? && pid == st.w.sched.current.proc.pid)
    ensures ProcInv(st.procs, st.global, asleep, WaitersOf(st.w, SEM_ID), Banked(st.w))
  {
    hide JointInv, Threads, Exclusive, Current, Sum, Wrap64;
    forall i: nat | i < |st.procs| && st.procs[i].pid in asleep ensures st.procs[i].pid in st.w.asleep {
      assert Mine(st, st.procs[i].pid);
    }
  }

  lemma Awake(st: State, i: nat, r: nat)
    requires Held(st, r) && i < |st.procs| && Runs(st.w, st.procs[i].pid)
    ensures st.procs[i].pid !in st.w.asleep && st.procs[i].pid !in WaitersOf(st.w, SEM_ID)
    ensures Active(st.procs[i]) ==> Exists(st.w, SEM_ID)
  {
    RunningAwake(st.w);
    if Exists(st.w, SEM_ID) {
      AsleepListed(st.w, Find(st.w.sems, SEM_ID));
    }
    if Active(st.procs[i]) {
      CountPositive(st.procs, i);
    }
  }

  /** What holds of the process that makes a step. */
  lemma Mover(st: State, i: nat, r: nat)
    requires Held(st, r) && Enabled(st, Go(i))
    ensures i < |st.procs| && Runs(st.w, st.procs[i].pid) && ThreadOk(st.procs[i])
    ensures st.procs[i].pid !in st.w.asleep && st.procs[i].pid !in WaitersOf(st.w, SEM_ID)
    ensures Active(st.procs[i]) ==> Exists(st.w, SEM_ID)
  {
    Awake(st, i, r);
    hide JointInv, Exists, WaitersOf;
  }

  lemma AsksNext(st: State, i: nat, call: Call)
    requires Enabled(st, Go(i)) && ActionOf(st.procs[i]) == Asks(call)
    ensures Callable(st.w, call)
    ensures Next(st, Go(i)) == State(Do(st.w, call), st.procs[i := Moved(st, st.procs[i])], st.global)
  {
    hide Do;
  }

  lemma Parts(st: State, r: nat)
    requires Held(st, r)
    ensures JointInv(st.w) && Counted(st.w, st.procs, r)
    ensures ProcInv(st.procs, st.global, st.w.asleep, WaitersOf(st.w, SEM_ID), Banked(st.w)) && Late(st.procs, r)
  {}

  lemma Whole(st: State, r: nat)
    requires JointInv(st.w) && Counted(st.w, st.procs, r)
    requires ProcInv(st.procs, st.global, st.w.asleep, WaitersOf(st.w, SEM_ID), Banked(st.w))
    requires Late(st.procs, r)
    ensures Held(st, r)
  {}

  /** The count of a process that stays active does not change. */
  lemma StillCounted(w: World, procs: seq<Thread>, i: nat, t: Thread, r: nat)
    requires Counted(w, procs, r) && i < |procs| && Active(procs[i]) == Active(t)
    ensures Counted(w, procs[i := t], r)
  {
    SumUpdate(procs, i, t);
    hide Exists, At, ActiveCount, Active;
  }

  /** A process that stays active, or stays out, does not come back to the start. */
  lemma StillLate(procs: seq<Thread>, i: nat, t: Thread, r: nat)
    requires Late(procs, r) && i < |procs| && Active(procs[i]) == Active(t) && t.pc != Start
    ensures Late(procs[i := t], r)
  {
    SumUpdate(procs, i, t);
    hide ActiveCount, Active;
  }

  lemma AddedStays(t: Thread, pc: Pc)
    requires t.pc != Stored && pc != Stored
    ensures Added(t.(pc := pc)) == Added(t)
  {}

  lemma StartKeepsSync(st: State, i: nat)
    requires SyncInv(st) && Enabled(st, Go(i)) && st.procs[i].pc == Start
    requires HasPlace(st.w)
    ensures SyncInv(Next(st, Go(i)))
  {
    var t' := st.procs[i].(pc := Ready);
    hide SyncInv, JointInv, Do, Next, Enabled, Exists, At, WaitersOf, HasPlace, ProcInv, ActiveCount, Added, Wrap64;
    AddedStays(st.procs[i], Ready);
    Parts(st, 0);
    Mover(st, i, 0);
    OwnMove(st.procs, st.global, st.w.asleep, WaitersOf(st.w, SEM_ID), Banked(st.w), i, t');
    OpenFacts(st.w);
    SumUpdate(st.procs, i, t');
    AsksNext(st, i, OpenSem(SEM_ID, 1));
    Whole(Next(st, Go(i)), 0);
  }

  /** A process that is refused counts itself in all the same: the listeners are one fewer than the
      processes that rely on the semaphore. */
  lemma RefusedBreaksSync(st: State, i: nat)
    requires SyncInv(st) && Enabled(st, Go(i)) && st.procs[i].pc == Start && !HasPlace(st.w)
    ensures !SyncInv(Next(st, Go(i)))
  {
    SumUpdate(st.procs, i, st.procs[i].(pc := Ready));
    assert Do(st.w, OpenSem(SEM_ID, 1)) == st.w;
    hide JointInv, ProcInv, ActiveCount;
  }

  /** The process asks for a token that is there. */
  lemma PassKeepsSync(st: State, i: nat, r: nat)
    requires Held(st, r) && Enabled(st, Go(i)) && st.procs[i].pc == Ready && st.procs[i].left > 0
    requires Exists(st.w, SEM_ID) && At(st.w, SEM_ID).value > 0
    ensures Held(Next(st, Go(i)), r)
  {
    var t' := st.procs[i].(pc := Inside);
    hide Held, JointInv, Do, Next, Enabled, Exists, At, WaitersOf, MayWait, ProcInv, ActiveCount, Wrap64;
    Parts(st, r);
    Mover(st, i, r);
    WaitCallable(st, i, r);
    TakeMove(st.procs, st.global, st.w.asleep, WaitersOf(st.w, SEM_ID), i);
    WaitFacts(st.w);
    SumUpdate(st.procs, i, t');
    StillLate(st.procs, i, t', r);
    AsksNext(st, i, WaitSem(SEM_ID));
    Whole(Next(st, Go(i)), r);
  }

  /** The process asks for a token that another one has. */
  lemma BlockKeepsSync(st: State, i: nat, r: nat)
    requires Held(st, r) && Enabled(st, Go(i)) && st.procs[i].pc == Ready && st.procs[i].left > 0
    requires Exists(st.w, SEM_ID) && At(st.w, SEM_ID).value == 0
    ensures Held(Next(st, Go(i)), r)
  {
    var t' := st.procs[i].(pc := Waiting);
    hide Held, JointInv, Do, Next, Enabled, Exists, At, WaitersOf, MayWait, ProcInv, ActiveCount, Wrap64;
    Parts(st, r);
    Mover(st, i, r);
    WaitCallable(st, i, r);
    BlockMove(st.procs, st.global, st.w.asleep, WaitersOf(st.w, SEM_ID), i);
    BlockWorld(st.w, st.procs, r);
    SumUpdate(st.procs, i, t');
    StillLate(st.procs, i, t', r);
    AsksNext(st, i, WaitSem(SEM_ID));
    hide Banked;
    Whole(Next(st, Go(i)), r);
  }

  lemma BlockWorld(w: World, procs: seq<Thread>, r: nat)
    requires JointInv(w) && Exists(w, SEM_ID) && At(w, SEM_ID).value == 0 && MayWait(w, SEM_ID) && Counted(w, procs, r)
    ensures var w', pid := Do(w, WaitSem(SEM_ID)), w.sched.current.proc.pid;
            && JointInv(w') && Counted(w', procs, r) && !Banked(w')
            && WaitersOf(w', SEM_ID) == WaitersOf(w, SEM_ID) + [pid] && w'.asleep == w.asleep + {pid}
  {
    WaitFacts(w);
    hide JointInv, Do;
  }

  /** A step of its own: the process keeps its token. */
  lemma LocalKeepsSync(st: State, i: nat, r: nat)
    requires Held(st, r) && Enabled(st, Go(i)) && ActionOf(st.procs[i]) == Local
    ensures Held(Next(st, Go(i)), r)
  {
    hide Held, JointInv, Exists, At, WaitersOf, ProcInv, ActiveCount, Wrap64, Counted, Banked, Late, Added;
    Parts(st, r);
    Mover(st, i, r);
    LocalMove(st, i, WaitersOf(st.w, SEM_ID), Banked(st.w));
    StillCounted(st.w, st.procs, i, Moved(st, st.procs[i]), r);
    StillLate(st.procs, i, Moved(st, st.procs[i]), r);
    hide HasToken, ThreadOk, Moved;
    Whole(Next(st, Go(i)), r);
  }

  lemma LocalMove(st: State, i: nat, waiters: seq<nat>, banked: bool)
    requires ProcInv(st.procs, st.global, st.w.asleep, waiters, banked) && i < |st.procs|
    requires st.procs[i].pid !in st.w.asleep && st.procs[i].pid !in waiters && ThreadOk(st.procs[i])
    requires ActionOf(st.procs[i]) == Local
    ensures var t := st.procs[i]; var global := if t.pc == Yielded then t.aux else st.global;
            ProcInv(st.procs[i := Moved(st, t)], global, st.w.asleep, waiters, banked)
  {
    var t, t' := st.procs[i], Moved(st, st.procs[i]);
    hide ProcInv, Exists, At, Wrap64;
    if t.pc == Yielded {
      StoreMove(st.procs, st.global, st.w.asleep, waiters, banked, i);
    } else {
      OwnMove(st.procs, st.global, st.w.asleep, waiters, banked, i, t');
    }
  }

  /** What the process read is still what the counter holds. */
  lemma LoadedValue(st: State, i: nat, r: nat)
    requires Held(st, r) && i < |st.procs| && st.procs[i].pc == Loaded
    ensures st.procs[i].aux == Wrap64(st.global + st.procs[i].value)
  {
    hide JointInv, Wrap64;
  }

  lemma YieldKeepsSync(st: State, i: nat, r: nat)
    requires Held(st, r) && Enabled(st, Go(i)) && st.procs[i].pc == Loaded
    ensures Held(Next(st, Go(i)), r)
  {
    var t' := st.procs[i].(pc := Yielded);
    var call := Scheduler(Yield);
    hide Held, JointInv, Next, Enabled, Exists, At, WaitersOf, ProcInv, Counted, Banked, Step, Added, Wrap64;
    AddedStays(st.procs[i], Yielded);
    Parts(st, r);
    Mover(st, i, r);
    LoadedValue(st, i, r);
    OwnMove(st.procs, st.global, st.w.asleep, WaitersOf(st.w, SEM_ID), Banked(st.w), i, t');
    YieldWorld(st.w, st.procs, r);
    StillCounted(Do(st.w, call), st.procs, i, t', r);
    StillLate(st.procs, i, t', r);
    AsksNext(st, i, call);
    hide Do;
    Whole(Next(st, Go(i)), r);
  }

  lemma YieldWorld(w: World, procs: seq<Thread>, r: nat)
    requires JointInv(w) && Counted(w, procs, r)
    ensures var w' := Do(w, Scheduler(Yield));
            && JointInv(w') && Counted(w', procs, r) && w'.asleep == w.asleep
            && WaitersOf(w', SEM_ID) == WaitersOf(w, SEM_ID) && Banked(w') == Banked(w)
  {
    KeepsJointIffAllowed(w, Scheduler(Yield));
    AtOther(w, Scheduler(Yield), SEM_ID);
    hide JointInv, Step;
  }

  /** The semaphore after sPost by the process that has the token. */
  lemma PostWorld(w: World, procs: seq<Thread>, r: nat)
    requires JointInv(w) && Exists(w, SEM_ID) && At(w, SEM_ID).value == 0 && Counted(w, procs, r)
    ensures var w', q := Do(w, PostSem(SEM_ID)), WaitersOf(w, SEM_ID);
            && JointInv(w') && Counted(w', procs, r)
            && WaitersOf(w', SEM_ID) == (if q == [] then [] else q[1..]) && (Banked(w') <==> q == [])
            && w'.asleep == (if q == [] then w.asleep else w.asleep - {q[0]})
            && NoRepeats(q) && forall pid | pid in q :: pid in w.asleep
  {
    PostFacts(w);
    hide JointInv, Do;
  }

  /** While a process is in slowInc, the token is not in the semaphore. */
  lemma TokenOut(st: State, i: nat, r: nat)
    requires Held(st, r) && i < |st.procs| && InSlowInc(st.procs[i]) && Exists(st.w, SEM_ID)
    ensures !Banked(st.w) && At(st.w, SEM_ID).value == 0
  {
    assert HasToken(st.procs[i], WaitersOf(st.w, SEM_ID));
    hide JointInv, WaitersOf, Exists, At;
  }

  lemma PostKeepsSync(st: State, i: nat, r: nat)
    requires Held(st, r) && Enabled(st, Go(i)) && st.procs[i].pc == Stored
    ensures Held(Next(st, Go(i)), r)
  {
    var t' := st.procs[i].(pc := Ready, left := st.procs[i].left - 1);
    hide Held, Do, Next, Enabled, Counted, JointInv, Exists, At, WaitersOf, ProcInv, Banked, Late, Wrap64;
    Parts(st, r);
    Mover(st, i, r);
    TokenOut(st, i, r);
    PostParts(st, i, t', r);
    StillCounted(Do(st.w, PostSem(SEM_ID)), st.procs, i, t', r);
    StillLate(st.procs, i, t', r);
    AsksNext(st, i, PostSem(SEM_ID));
    Whole(Next(st, Go(i)), r);
  }

  lemma PostParts(st: State, i: nat, t: Thread, r: nat)
    requires JointInv(st.w) && Exists(st.w, SEM_ID) && At(st.w, SEM_ID).value == 0 && Counted(st.w, st.procs, r)
    requires ProcInv(st.procs, st.global, st.w.asleep, WaitersOf(st.w, SEM_ID), false)
    requires i < |st.procs| && st.procs[i].pc == Stored && st.procs[i].pid !in st.w.asleep && st.procs[i].left > 0
    requires t == st.procs[i].(pc := Ready, left := st.procs[i].left - 1)
    ensures var w' := Do(st.w, PostSem(SEM_ID));
            && JointInv(w') && Counted(w', st.procs, r)
            && ProcInv(st.procs[i := t], st.global, w'.asleep, WaitersOf(w', SEM_ID), Banked(w'))
  {
    hide JointInv, Do, Exists, At, WaitersOf, ProcInv, Banked, Counted;
    PostWorld(st.w, st.procs, r);
    PostMove(st.procs, st.global, st.w.asleep, WaitersOf(st.w, SEM_ID), i);
  }

  /** Somebody else has the token while there are waiters, and while the semaphore has none. */
  lemma Holder(st: State, r: nat) returns (h: nat)
    requires Held(st, r) && Exists(st.w, SEM_ID) && At(st.w, SEM_ID).value == 0
    ensures h < |st.procs| && HasToken(st.procs[h], WaitersOf(st.w, SEM_ID)) && Active(st.procs[h])
  {
    assert !Banked(st.w);
    h :| h < |st.procs| && HasToken(st.procs[h], WaitersOf(st.w, SEM_ID));
  }

  /** sClose: by the last process that has it open, the semaphore is freed, and nobody is waiting. */
  lemma CloseAllowed(st: State, i: nat, r: nat)
    requires Held(st, r) && Exists(st.w, SEM_ID) && i < |st.procs| && st.procs[i].pc == Ready
    ensures Allowed(st.w, CloseSem(SEM_ID))
    ensures WaitersOf(st.w, SEM_ID) != [] ==> ActiveCount(st.procs) >= 3
  {
    hide Held, ActiveCount;
    var waiters := WaitersOf(st.w, SEM_ID);
    if waiters != [] {
      WaitersWait(st, r);
      var j: nat :| j < |st.procs| && st.procs[j].pid == waiters[0] && st.procs[j].pc == Waiting;
      var h := Holder(st, r);
      CountThree(st.procs, i, j, h);
      ListenersLeft(st, r);
    }
  }

  lemma ListenersLeft(st: State, r: nat)
    requires Held(st, r) && Exists(st.w, SEM_ID) && ActiveCount(st.procs) >= 3
    ensures At(st.w, SEM_ID).listeners > 1
  {
    hide JointInv, ProcInv, ActiveCount;
  }

  /** The first waiter waits, and there is no token for it. */
  lemma WaitersWait(st: State, r: nat)
    requires Held(st, r) && Exists(st.w, SEM_ID) && WaitersOf(st.w, SEM_ID) != []
    ensures At(st.w, SEM_ID).value == 0
    ensures var waiters := WaitersOf(st.w, SEM_ID);
            exists j: nat :: j < |st.procs| && st.procs[j].pid == waiters[0] && st.procs[j].pc == Waiting
  {
    var waiters := WaitersOf(st.w, SEM_ID);
    AsleepListed(st.w, Find(st.w.sems, SEM_ID));
    assert waiters[0] in waiters && SemInv(At(st.w, SEM_ID));
    var j: nat :| j < |st.procs| && st.procs[j].pid == waiters[0];
    assert st.procs[j].pc == Waiting;
  }

  lemma CloseKeepsSync(st: State, i: nat, r: nat)
    requires Held(st, r) && Enabled(st, Go(i)) && st.procs[i].pc == Ready && st.procs[i].left == 0
    requires r == 0 || ActiveCount(st.procs) > r + 1
    ensures Held(Next(st, Go(i)), r)
  {
    var t' := st.procs[i].(pc := Done);
    hide Held, Do, Next, Enabled;
    Parts(st, r);
    Mover(st, i, r);
    CloseAllowed(st, i, r);
    CloseParts(st, i, t', r);
    CloseCount(st, i, t', r);
    CloseLate(st.procs, i, t', r);
    AsksNext(st, i, CloseSem(SEM_ID));
    hide JointInv, Exists, At, WaitersOf, ProcInv, Banked, Allowed, Counted, Late;
    Whole(Next(st, Go(i)), r);
  }

  lemma CloseLate(procs: seq<Thread>, i: nat, t: Thread, r: nat)
    requires Late(procs, r) && i < |procs| && procs[i].pc == Ready && t == procs[i].(pc := Done)
    requires r == 0 || ActiveCount(procs) > r + 1
    ensures Late(procs[i := t], r)
  {
    SumUpdate(procs, i, t);
    hide ActiveCount;
  }

  lemma CloseCount(st: State, i: nat, t: Thread, r: nat)
    requires JointInv(st.w) && Exists(st.w, SEM_ID) && Allowed(st.w, CloseSem(SEM_ID)) && Counted(st.w, st.procs, r)
    requires i < |st.procs| && st.procs[i].pc == Ready && t == st.procs[i].(pc := Done)
    ensures Counted(Do(st.w, CloseSem(SEM_ID)), st.procs[i := t], r)
  {
    hide JointInv, Do, Exists, At, Allowed, ActiveCount;
    CloseFacts(st.w);
    SumUpdate(st.procs, i, t);
    CountPositive(st.procs, i);
  }

  lemma CloseParts(st: State, i: nat, t: Thread, r: nat)
    requires JointInv(st.w) && Exists(st.w, SEM_ID) && Allowed(st.w, CloseSem(SEM_ID)) && Counted(st.w, st.procs, r)
    requires ProcInv(st.procs, st.global, st.w.asleep, WaitersOf(st.w, SEM_ID), Banked(st.w))
    requires i < |st.procs| && st.procs[i].pc == Ready && t == st.procs[i].(pc := Done) && t.left == 0
    requires ThreadOk(st.procs[i]) && t.pid !in st.w.asleep && (r == 0 || ActiveCount(st.procs) > r + 1)
    ensures var w' := Do(st.w, CloseSem(SEM_ID));
            JointInv(w') && ProcInv(st.procs[i := t], st.global, w'.asleep, WaitersOf(w', SEM_ID), Banked(w'))
  {
    hide JointInv, Do, Exists, At, WaitersOf, Allowed, ProcInv, ActiveCount, Added, Wrap64;
    AddedStays(st.procs[i], Done);
    CloseFacts(st.w);
    CloseWaiters(st.w);
    OwnMove(st.procs, st.global, st.w.asleep, WaitersOf(st.w, SEM_ID), Banked(st.w), i, t);
    LastOut(st, i, t);
  }

  /** The last one to close leaves the token in the semaphore. */
  lemma LastOut(st: State, i: nat, t: Thread)
    requires i < |st.procs| && st.procs[i].pc == Ready && t == st.procs[i].(pc := Done)
    requires ProcInv(st.procs[i := t], st.global, st.w.asleep, WaitersOf(st.w, SEM_ID), Banked(st.w))
    ensures ActiveCount(st.procs) == 1 ==> Banked(st.w)
  {
    SumUpdate(st.procs, i, t);
    if ActiveCount(st.procs) == 1 {
      AllBanked(st.procs[i := t], WaitersOf(st.w, SEM_ID), Banked(st.w));
    }
    hide ActiveCount, Banked, WaitersOf;
  }

  lemma CloseWaiters(w: World)
    requires JointInv(w) && Exists(w, SEM_ID) && Allowed(w, CloseSem(SEM_ID))
    ensures WaitersOf(Do(w, CloseSem(SEM_ID)), SEM_ID) == WaitersOf(w, SEM_ID)
  {
    CloseFacts(w);
    AsleepListed(w, Find(w.sems, SEM_ID));
    hide Do, JointInv;
  }

  /** Where no process is active, nobody has the token. */
  lemma AllBanked(procs: seq<Thread>, waiters: seq<nat>, banked: bool)
    requires ActiveCount(procs) == 0 && Exclusive(procs, waiters, banked)
    ensures banked
  {
    forall i: nat | i < |procs| ensures !HasToken(procs[i], waiters) {
      if Active(procs[i]) {
        CountPositive(procs, i);
      }
    }
  }

  /** The wait of a process of ours never overruns the places of the semaphore: while the token is out, one
      of those that have the semaphore open has it, and the caller is another. */
  lemma WaitCallable(st: State, i: nat, r: nat)
    requires Held(st, r) && i < |st.procs| && st.procs[i].pc == Ready && Runs(st.w, st.procs[i].pid)
    ensures MayWait(st.w, SEM_ID)
  {
    Awake(st, i, r);
    if At(st.w, SEM_ID).value == 0 {
      var h := Holder(st, r);
      WaitersFit(st, i, h, r);
    }
  }

  lemma WaitersFit(st: State, i: nat, h: nat, r: nat)
    requires Held(st, r) && Exists(st.w, SEM_ID) && i < |st.procs| && h < |st.procs| && i != h
    requires Active(st.procs[i]) && st.procs[i].pid !in WaitersOf(st.w, SEM_ID)
    requires Active(st.procs[h]) && st.procs[h].pid !in WaitersOf(st.w, SEM_ID)
    ensures |WaitersOf(st.w, SEM_ID)| < MAX_BLOCKED_PIDS
  {
    var s := At(st.w, SEM_ID);
    var openers := ActivePids(st.procs);
    AsleepListed(st.w, Find(st.w.sems, SEM_ID));
    ActivePidsCount(st.procs);
    forall pid | pid in s.waiters ensures pid in openers {
      var j: nat :| j < |st.procs| && st.procs[j].pid == pid;
      ActivePidsHas(st.procs, j);
    }
    ActivePidsHas(st.procs, i);
    ActivePidsHas(st.procs, h);
    assert SemInv(s);
    CountDistinct(s.waiters);
    CountSubset(Elements(s.waiters), openers - {st.procs[i].pid} - {st.procs[h].pid});
  }

  ghost function ActivePids(procs: seq<Thread>): set<nat> {
    if procs == [] then {} else (if Active(procs[0]) then {procs[0].pid} else {}) + ActivePids(procs[1..])
  }

  lemma {:induction false} ActivePidsHas(procs: seq<Thread>, i: nat)
    requires i < |procs| && Active(procs[i])
    ensures procs[i].pid in ActivePids(procs)
  {
    if i > 0 {
      ActivePidsHas(procs[1..], i - 1);
    }
  }

  lemma {:induction false} ActivePidsFresh(procs: seq<Thread>, pid: nat)
    requires forall i: nat | i < |procs| :: procs[i].pid != pid
    ensures pid !in ActivePids(procs)
  {
    if procs != [] {
      ActivePidsFresh(procs[1..], pid);
    }
  }

  lemma {:induction false} ActivePidsCount(procs: seq<Thread>)
    requires Threads(procs)
    ensures |ActivePids(procs)| == ActiveCount(procs)
  {
    if procs != [] {
      ActivePidsCount(procs[1..]);
      ActivePidsFresh(procs[1..], procs[0].pid);
    }
  }

  /** A step keeps the invariant exactly when it opens the semaphore for one of sixteen at most, or does
      not open it. */
  lemma StepKeepsSync(st: State, e: Event)
    requires SyncInv(st) && Enabled(st, e)
    ensures SyncInv(Next(st, e)) <==> Placed(st, e)
  {
    match e
    case Other(call) => OtherKeepsSync(st, 0, call);
    case Go(i) =>
      if st.procs[i].pc != Start {
        ActiveKeepsHeld(st, i, 0);
      } else if HasPlace(st.w) {
        StartKeepsSync(st, i);
      } else {
        RefusedBreaksSync(st, i);
      }
  }

  /** A process past its sOpen leaves the semaphore in order, unless one was refused and it closes it for all
      but that one. */
  lemma ActiveKeepsHeld(st: State, i: nat, r: nat)
    requires Held(st, r) && Enabled(st, Go(i)) && st.procs[i].pc != Start
    requires r > 0 && st.procs[i].pc == Ready && st.procs[i].left == 0 ==> ActiveCount(st.procs) > r + 1
    ensures Held(Next(st, Go(i)), r)
  {
    Mover(st, i, r);
    hide Held, Next;
    match st.procs[i].pc
    case Ready =>
      if st.procs[i].left == 0 {
        CloseKeepsSync(st, i, r);
      } else if At(st.w, SEM_ID).value > 0 {
        PassKeepsSync(st, i, r);
      } else {
        BlockKeepsSync(st, i, r);
      }
    case Loaded => YieldKeepsSync(st, i, r);
    case Stored => PostKeepsSync(st, i, r);
    case _ => LocalKeepsSync(st, i, r);
  }

  // ----- whole runs -----

  predicate LegalRun(st: State, events: seq<Event>)
    decreases |events|
  {
    events == [] || (Enabled(st, events[0]) && LegalRun(Next(st, events[0]), events[1..]))
  }

  function After(st: State, events: seq<Event>): State
    requires LegalRun(st, events)
    decreases |events|
  {
    if events == [] then st else After(Next(st, events[0]), events[1..])
  }

  /** Nobody is refused during the run. */
  predicate AllPlaced(st: State, events: seq<Event>)
    requires LegalRun(st, events)
    decreases |events|
  {
    events == [] || (Placed(st, events[0]) && AllPlaced(Next(st, events[0]), events[1..]))
  }

  lemma {:induction false} RunKeepsSync(st: State, events: seq<Event>)
    requires SyncInv(st) && LegalRun(st, events) && AllPlaced(st, events)
    ensures SyncInv(After(st, events))
    decreases |events|
  {
    if events != [] {
      StepKeepsSync(st, events[0]);
      RunKeepsSync(Next(st, events[0]), events[1..]);
    }
  }

  /** Before anything happens: the counter is zero, no process has started, and nobody has made the
      semaphore. */
  ghost predicate AtStart(st: State) {
    && JointInv(st.w) && !Exists(st.w, SEM_ID) && st.global == 0
    && (forall i: nat | i < |st.procs| :: st.procs[i].pc == Start && st.procs[i].left == st.procs[i].n
                                          && st.procs[i].pid !in st.w.asleep)
    && (forall i: nat, j: nat | i < j < |st.procs| :: st.procs[i].pid != st.procs[j].pid)
  }

  lemma {:induction false} NothingYet(procs: seq<Thread>)
    requires forall i: nat | i < |procs| :: procs[i].pc == Start && procs[i].left == procs[i].n
    ensures Sum(procs) == 0 && ActiveCount(procs) == 0
  {
    if procs != [] {
      NothingYet(procs[1..]);
    }
  }

  lemma StartIsSync(st: State)
    requires AtStart(st)
    ensures SyncInv(st)
  {
    NothingYet(st.procs);
  }

  /** What the processes are to add in all. */
  function Total(procs: seq<Thread>): int {
    if procs == [] then 0 else procs[0].value * procs[0].n + Total(procs[1..])
  }

  lemma {:induction false} AllDone(procs: seq<Thread>)
    requires forall i: nat | i < |procs| :: procs[i].pc == Done && procs[i].left == 0
    ensures Sum(procs) == Total(procs)
  {
    if procs != [] {
      AllDone(procs[1..]);
    }
  }

  lemma TotalKept(st: State, e: Event)
    requires Enabled(st, e)
    ensures Total(Next(st, e).procs) == Total(st.procs)
  {
    if e.Go? {
      hide Do;
      TotalUpdate(st.procs, e.i, Moved(st, st.procs[e.i]));
    }
  }

  lemma {:induction false} TotalUpdate(procs: seq<Thread>, i: nat, t: Thread)
    requires i < |procs| && t.value == procs[i].value && t.n == procs[i].n
    ensures Total(procs[i := t]) == Total(procs)
  {
    if i == 0 {
      assert procs[i := t][1..] == procs[1..];
    } else {
      assert procs[i := t][1..] == procs[1..][i - 1 := t];
      TotalUpdate(procs[1..], i - 1, t);
    }
  }

  lemma {:induction false} RunKeepsTotal(st: State, events: seq<Event>)
    requires LegalRun(st, events)
    ensures Total(After(st, events).procs) == Total(st.procs)
    decreases |events|
  {
    if events != [] {
      TotalKept(st, events[0]);
      RunKeepsTotal(Next(st, events[0]), events[1..]);
    }
  }

  lemma {:induction false} CountBelow(procs: seq<Thread>, i: nat)
    requires i < |procs| && !Active(procs[i])
    ensures ActiveCount(procs) < |procs|
  {
    if i > 0 {
      CountBelow(procs[1..], i - 1);
    } else {
      CountAtMost(procs[1..]);
    }
  }

  lemma {:induction false} CountAtMost(procs: seq<Thread>)
    ensures ActiveCount(procs) <= |procs|
  {
    if procs != [] {
      CountAtMost(procs[1..]);
    }
  }

  /** Up to sixteen processes all find a place, in every run. */
  lemma {:induction false} FewArePlaced(st: State, events: seq<Event>)
    requires SyncInv(st) && LegalRun(st, events) && |st.procs| <= MAX_BLOCKED_PIDS
    ensures AllPlaced(st, events)
    decreases |events|
  {
    if events != [] {
      var e := events[0];
      hide JointInv, ProcInv, Do;
      if e.Go? && st.procs[e.i].pc == Start {
        CountBelow(st.procs, e.i);
      }
      StepKeepsSync(st, e);
      FewArePlaced(Next(st, e), events[1..]);
    }
  }

  // ----- a seventeenth process, and processes that add nothing -----

  /** A process that has nothing to add. */
  predicate Idle(t: Thread) {
    t.left == 0 && (t.pc == Start || t.pc == Ready || t.pc == Done)
  }

  /** Only process x has anything to add: what it does not share needs no semaphore. */
  ghost predicate Solo(procs: seq<Thread>, global: int, x: nat) {
    && x < |procs| && ThreadOk(procs[x])
    && (forall j: nat | j < |procs| && j != x :: ThreadOk(procs[j]) && Idle(procs[j]))
    && (procs[x].pc == Loaded || procs[x].pc == Yielded ==> procs[x].aux == Wrap64(global + procs[x].value))
    && global == Wrap64(Sum(procs))
  }

  /** One more process than the semaphore has places for does no harm, and neither do any number that add
      nothing. */
  ghost predicate Tame(st: State) {
    || (|st.procs| <= MAX_BLOCKED_PIDS + 1 && (SyncInv(st) || Held(st, 1)))
    || exists x: nat :: Solo(st.procs, st.global, x)
  }

  lemma SoloMove(st: State, i: nat, x: nat)
    requires Solo(st.procs, st.global, x) && i < |st.procs| && (st.procs[i].pc == Stored ==> st.procs[i].left > 0)
    ensures var t := st.procs[i];
            Solo(st.procs[i := Moved(st, t)], if t.pc == Yielded then t.aux else st.global, x)
  {
    var t, t' := st.procs[i], Moved(st, st.procs[i]);
    hide Wrap64, Sum, Added, Exists, At, ActiveCount, ThreadOk;
    SumUpdate(st.procs, i, t');
    WrapAdd(Sum(st.procs), t.value);
    MovedAdds(st, t);
    MovedOk(st, t);
    if i != x {
      IdleMoves(st, t);
    }
    hide Moved;
  }

  /** What a step does to the process that makes it. */
  lemma MovedOk(st: State, t: Thread)
    requires ThreadOk(t) && (t.pc == Stored ==> t.left > 0)
    ensures ThreadOk(Moved(st, t))
    ensures var t' := Moved(st, t);
            && (t'.pc == Loaded ==> t.pc == Inside && t'.aux == Wrap64(st.global + t.value) && t'.value == t.value)
            && (t'.pc == Yielded ==> t.pc == Loaded && t'.aux == t.aux && t'.value == t.value)
            && (t.pc == Yielded ==> t'.pc == Stored)
  {
    hide Wrap64, Exists, At;
  }

  lemma IdleMoves(st: State, t: Thread)
    requires Idle(t)
    ensures Idle(Moved(st, t))
  {
    hide Wrap64, Exists, At;
  }

  /** Only writing the counter back adds anything. */
  lemma MovedAdds(st: State, t: Thread)
    requires t.pc == Stored ==> t.left > 0
    ensures Added(Moved(st, t)) == Added(t) + if t.pc == Yielded then t.value else 0
  {
    if t.pc == Stored {
      OneLess(t);
    }
    hide Wrap64, Exists, At;
  }

  lemma SoloStep(st: State, e: Event, x: nat)
    requires Solo(st.procs, st.global, x) && Enabled(st, e)
    ensures Solo(Next(st, e).procs, Next(st, e).global, x)
  {
    hide Do, Moved;
    if e.Go? {
      SoloMove(st, e.i, x);
    }
    hide Solo;
  }

  lemma {:induction false} AllButOne(procs: seq<Thread>, i: nat, j: nat)
    requires i < |procs| && j < |procs| && i != j && !Active(procs[i]) && !Active(procs[j])
    ensures ActiveCount(procs) + 2 <= |procs|
  {
    var rest := procs[i := procs[i].(pc := Ready)];
    SumUpdate(procs, i, procs[i].(pc := Ready));
    CountBelow(rest, j);
  }

  /** The seventeenth of seventeen is refused: all have started by then. */
  lemma RefusedIsHeld(st: State, i: nat)
    requires SyncInv(st) && Enabled(st, Go(i)) && st.procs[i].pc == Start && !HasPlace(st.w)
    requires |st.procs| <= MAX_BLOCKED_PIDS + 1
    ensures Held(Next(st, Go(i)), 1)
  {
    var t' := st.procs[i].(pc := Ready);
    assert Do(st.w, OpenSem(SEM_ID, 1)) == st.w && ActiveCount(st.procs) == MAX_BLOCKED_PIDS by { FullCount(st); }
    hide JointInv, Do, Next, Enabled, Exists, At, WaitersOf, HasPlace, ProcInv, Added, Wrap64;
    AddedStays(st.procs[i], Ready);
    Mover(st, i, 0);
    OwnMove(st.procs, st.global, st.w.asleep, WaitersOf(st.w, SEM_ID), Banked(st.w), i, t');
    SumUpdate(st.procs, i, t');
    AsksNext(st, i, OpenSem(SEM_ID, 1));
    forall j: nat | j < |st.procs| && j != i ensures st.procs[j].pc != Start {
      if st.procs[j].pc == Start {
        AllButOne(st.procs, i, j);
      }
    }
    hide ActiveCount;
    Whole(Next(st, Go(i)), 1);
  }

  lemma FullCount(st: State)
    requires SyncInv(st) && !HasPlace(st.w)
    ensures Do(st.w, OpenSem(SEM_ID, 1)) == st.w && Exists(st.w, SEM_ID) && ActiveCount(st.procs) == MAX_BLOCKED_PIDS
  {
    assert SemInv(At(st.w, SEM_ID));
    hide ProcInv, ActiveCount;
  }

  lemma {:induction false} AnotherActive(procs: seq<Thread>, i: nat) returns (x: nat)
    requires i < |procs| && ActiveCount(procs) >= 2
    ensures x < |procs| && x != i && Active(procs[x])
  {
    if forall x: nat | x < |procs| && x != i :: !Active(procs[x]) {
      var rest := procs[i := procs[i].(pc := Done)];
      SumUpdate(procs, i, procs[i].(pc := Done));
      NoneActive(rest);
    }
    x :| x < |procs| && x != i && Active(procs[x]);
  }

  lemma {:induction false} NoneActive(procs: seq<Thread>)
    requires forall j: nat | j < |procs| :: !Active(procs[j])
    ensures ActiveCount(procs) == 0
  {
    if procs != [] {
      NoneActive(procs[1..]);
    }
  }

  /** The sixteenth to close frees the semaphore. Only one process is left. */
  lemma LastButOne(st: State, i: nat) returns (x: nat)
    requires Held(st, 1) && Enabled(st, Go(i)) && st.procs[i].pc == Ready && st.procs[i].left == 0
    requires ActiveCount(st.procs) <= 2
    ensures Solo(Next(st, Go(i)).procs, Next(st, Go(i)).global, x)
  {
    hide JointInv, Do, Next, Wrap64, Counted, ActiveCount, Exclusive, InLine, Added;
    x := AnotherActive(st.procs, i);
    AsksNext(st, i, CloseSem(SEM_ID));
    AllOut(st.procs, st.global, i, x);
  }

  lemma AllOut(procs: seq<Thread>, global: int, i: nat, x: nat)
    requires Threads(procs) && Current(procs, global) && global == Wrap64(Sum(procs)) && ActiveCount(procs) <= 2
    requires forall j: nat | j < |procs| :: procs[j].pc != Start
    requires i < |procs| && procs[i].pc == Ready && procs[i].left == 0 && x < |procs| && x != i && Active(procs[x])
    ensures Solo(procs[i := procs[i].(pc := Done)], global, x)
  {
    hide ActiveCount, Wrap64, Sum, Added;
    forall j: nat | j < |procs| && j != i && j != x ensures procs[j].pc == Done {
      if Active(procs[j]) {
        CountThree(procs, i, x, j);
      }
    }
    SumUpdate(procs, i, procs[i].(pc := Done));
    AddedStays(procs[i], Done);
  }

  lemma StepStaysTame(st: State, e: Event)
    requires Tame(st) && Enabled(st, e)
    ensures Tame(Next(st, e))
  {
    hide SyncInv, Held, Solo, Next, Enabled;
    if x: nat :| Solo(st.procs, st.global, x) {
      SoloStep(st, e, x);
    } else {
      SameMany(st, e);
      TwoPhases(st, e);
    }
  }

  lemma SameMany(st: State, e: Event)
    requires Enabled(st, e)
    ensures |Next(st, e).procs| == |st.procs|
  {
    hide Do;
  }

  lemma TwoPhases(st: State, e: Event)
    requires |st.procs| <= MAX_BLOCKED_PIDS + 1 && (SyncInv(st) || Held(st, 1)) && Enabled(st, e)
    ensures SyncInv(Next(st, e)) || Held(Next(st, e), 1) ||
            exists x: nat :: Solo(Next(st, e).procs, Next(st, e).global, x)
  {
    hide Solo, Next;
    if SyncInv(st) {
      if Placed(st, e) {
        StepKeepsSync(st, e);
      } else {
        RefusedIsHeld(st, e.i);
      }
    } else if e.Other? {
      OtherKeepsSync(st, 1, e.call);
    } else if st.procs[e.i].pc == Ready && st.procs[e.i].left == 0 && ActiveCount(st.procs) <= 2 {
      var _ := LastButOne(st, e.i);
    } else {
      ActiveKeepsHeld(st, e.i, 1);
    }
  }

  lemma {:induction false} RunStaysTame(st: State, events: seq<Event>)
    requires Tame(st) && LegalRun(st, events)
    ensures Tame(After(st, events))
    decreases |events|
  {
    if events != [] {
      StepStaysTame(st, events[0]);
      RunStaysTame(Next(st, events[0]), events[1..]);
    }
  }

  // ----- what the semaphore is for -----

  predicate OneInside(st: State) {
    forall i: nat, j: nat | i < j < |st.procs| :: !(InSlowInc(st.procs[i]) && InSlowInc(st.procs[j]))
  }

  predicate Finished(st: State) {
    forall i: nat | i < |st.procs| :: st.procs[i].pc == Done
  }

  /** At most one process adds anything. */
  predicate OneWorker(procs: seq<Thread>) {
    forall i: nat, j: nat | i < j < |procs| :: procs[i].n == 0 || procs[j].n == 0
  }

  lemma HeldMeans(st: State, r: nat)
    requires Held(st, r)
    ensures OneInside(st) && (Finished(st) ==> st.global == Wrap64(Total(st.procs)))
  {
    var waiters := WaitersOf(st.w, SEM_ID);
    assert forall i: nat | i < |st.procs| && InSlowInc(st.procs[i]) :: HasToken(st.procs[i], waiters);
    hide JointInv, WaitersOf, Counted;
    if Finished(st) {
      assert forall i: nat | i < |st.procs| :: ThreadOk(st.procs[i]);
      AllDone(st.procs);
    }
  }

  lemma SoloMeans(st: State, x: nat)
    requires Solo(st.procs, st.global, x)
    ensures OneInside(st) && (Finished(st) ==> st.global == Wrap64(Total(st.procs)))
  {
    if Finished(st) {
      AllDone(st.procs);
    }
    hide Wrap64, Sum, Total;
  }

  lemma OneWorkerIsSolo(st: State)
    requires AtStart(st) && OneWorker(st.procs) && st.procs != []
    ensures exists x: nat :: Solo(st.procs, st.global, x)
  {
    NothingYet(st.procs);
    var x: nat := if i: nat :| i < |st.procs| && st.procs[i].n > 0 then i else 0;
    assert Solo(st.procs, st.global, x);
  }

  /** In any run in which nobody is refused, or with up to seventeen processes, or with one that adds
      something: at most one process is in slowInc at a time, and when all have finished the counter holds
      the sum of what they were to add. */
  lemma CounterIsExact(st: State, events: seq<Event>)
    requires AtStart(st) && LegalRun(st, events)
    requires AllPlaced(st, events) || |st.procs| <= MAX_BLOCKED_PIDS + 1 || OneWorker(st.procs)
    ensures OneInside(After(st, events))
    ensures Finished(After(st, events)) ==> After(st, events).global == Wrap64(Total(st.procs))
  {
    hide SyncInv, Held, Solo, OneInside, Finished, Total, AtStart, OneWorker, After, LegalRun, AllPlaced;
    var st' := After(st, events);
    StartIsSync(st);
    RunKeepsTotal(st, events);
    if AllPlaced(st, events) {
      RunKeepsSync(st, events);
    } else {
      if |st.procs| > MAX_BLOCKED_PIDS + 1 {
        OneWorkerIsSolo(st);
      }
      RunStaysTame(st, events);
    }
    if x: nat :| Solo(st'.procs, st'.global, x) {
      SoloMeans(st', x);
    } else {
      SyncIsHeld(st');
      HeldMeans(st', if Held(st', 1) then 1 else 0);
    }
  }

  lemma SyncIsHeld(st: State)
    ensures SyncInv(st) <==> Held(st, 0)
  {}
}
