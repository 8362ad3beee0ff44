/** pipes.c as transitions between values: readers and writers of one open pipe, among everything else
    that the scheduler and the semaphores are asked to do. A process that blocks in the middle of a
    read or of a write goes on from there when it runs again. */
module Piping {
  import opened Scheduling
  import opened Signalling

  const BUFF_SIZE: nat := 1024

  /** struct Pipe; lockR and lockW are semaphore ids. */
  datatype Pipe = Pipe(lockR: nat, lockW: nat, buffer: string, readIndex: nat, writeIndex: nat)

  /** The world around an open pipe; who was handed a token of lockR or of lockW and did not run since;
      what each process has still to write of the strings given to pWrite, and all it was given; what
      was written, by whom, and what was read, from the beginning. */
  datatype State = State(w: World, pipe: Pipe, readers: set<nat>, writers: set<nat>,
                         todo: map<nat, string>, given: map<nat, string>,
                         written: seq<(nat, char)>, got: string)

  datatype Event =
    | Other(call: Call)
    | Read
    | ReadOn
    | BeginWrite(str: string)
    | Write
    | WriteOn

  function Of(m: map<nat, string>, pid: nat): string {
    if pid in m then m[pid] else ""
  }

  function Caller(st: State): nat
    requires st.w.sched.current.Running?
  {
    st.w.sched.current.proc.pid
  }

  /** The first waiter, to whom the next post goes. */
  function FirstWaiter(w: World, id: nat): set<nat> {
    if WaitersOf(w, id) != [] then {WaitersOf(w, id)[0]} else {}
  }

  predicate InBounds(st: State) {
    && |st.pipe.buffer| == BUFF_SIZE && st.pipe.readIndex < BUFF_SIZE && st.pipe.writeIndex < BUFF_SIZE
  }

  /** The running process is not in the middle of a read or of a write. */
  predicate Free(st: State) {
    st.w.sched.current.Running? && Caller(st) !in st.readers && Caller(st) !in st.writers
  }

  /** The locks of the pipe are left to the pipe, and whoever was handed one of their tokens goes on
      with its read or its write. */
  predicate Elsewhere(st: State, call: Call) {
    match call
    case WaitSem(id) => id != st.pipe.lockR && id != st.pipe.lockW && Free(st)
    case PostSem(id) => id != st.pipe.lockR && id != st.pipe.lockW
    case CloseSem(id) => id != st.pipe.lockR && id != st.pipe.lockW
    case _ => true
  }

  predicate Enabled(st: State, e: Event) {
    && InBounds(st)
    && match e
       case Other(call) => Callable(st.w, call) && Allowed(st.w, call) && Elsewhere(st, call)
       case Read => Free(st) && Of(st.todo, Caller(st)) == ""
       case ReadOn => st.w.sched.current.Running? && Caller(st) in st.readers
       case BeginWrite(_) => Free(st) && Of(st.todo, Caller(st)) == ""
       case Write => Free(st) && Of(st.todo, Caller(st)) != ""
       case WriteOn => st.w.sched.current.Running? && Caller(st) in st.writers && Of(st.todo, Caller(st)) != ""
  }

  /** The lock has a place for the caller, if it blocks. */
  predicate Roomy(st: State, e: Event) {
    match e
    case Read => HasRoom(st.w, st.pipe.lockR)
    case Write => HasRoom(st.w, st.pipe.lockW)
    case _ => true
  }

  /** sWait does not block. */
  predicate Passes(w: World, id: nat) {
    !Exists(w, id) || At(w, id).value > 0
  }

  /** sPost on lockR, and on lockW. */
  function PostR(st: State): State {
    st.(w := Post(st.w, st.pipe.lockR), readers := st.readers + FirstWaiter(st.w, st.pipe.lockR))
  }

  function PostW(st: State): State {
    st.(w := Post(st.w, st.pipe.lockW), writers := st.writers + FirstWaiter(st.w, st.pipe.lockW))
  }

  /** A byte comes out of the buffer. */
  function TakeByte(st: State): State
    requires InBounds(st)
  {
    var p := st.pipe;
    st.(pipe := p.(readIndex := (p.readIndex + 1) % BUFF_SIZE), got := st.got + [p.buffer[p.readIndex]])
  }

  /** The next byte of a process goes into the buffer. */
  function GiveByte(st: State, pid: nat): State
    requires InBounds(st) && Of(st.todo, pid) != ""
  {
    var p, c := st.pipe, Of(st.todo, pid)[0];
    st.(pipe := p.(buffer := p.buffer[p.writeIndex := c], writeIndex := (p.writeIndex + 1) % BUFF_SIZE),
        todo := st.todo[pid := Of(st.todo, pid)[1..]], written := st.written + [(pid, c)])
  }

  /** pRead after its sWait. */
  function Get(st: State): State
    requires InBounds(st)
  {
    PostW(TakeByte(st))
  }

  /** putCharPipeByIdx after its sWait. */
  function Put(st: State, pid: nat): State
    requires InBounds(st) && Of(st.todo, pid) != ""
  {
    PostR(GiveByte(st, pid))
  }

  /** pRead, up to where it ends or blocks. */
  function ReadStep(st: State): State
    requires InBounds(st) && st.w.sched.current.Running?
  {
    var st' := st.(w := Take(st.w, st.pipe.lockR));
    if Passes(st.w, st.pipe.lockR) then Get(st') else st'
  }

  /** putCharPipeByIdx, up to where it ends or blocks. */
  function WriteStep(st: State, pid: nat): State
    requires InBounds(st) && st.w.sched.current.Running? && Of(st.todo, pid) != ""
  {
    var st' := st.(w := Take(st.w, st.pipe.lockW));
    if Passes(st.w, st.pipe.lockW) then Put(st', pid) else st'
  }

  /** A process is about to go through the loop of pWrite. */
  function BeginStep(st: State, pid: nat, str: string): State {
    st.(todo := st.todo[pid := str], given := st.given[pid := Of(st.given, pid) + str])
  }

  function Next(st: State, e: Event): State
    requires Enabled(st, e)
  {
    match e
    case Other(call) => st.(w := Do(st.w, call))
    case Read => ReadStep(st)
    case ReadOn => Get(st.(readers := st.readers - {Caller(st)}))
    case BeginWrite(str) => BeginStep(st, Caller(st), str)
    case Write => WriteStep(st, Caller(st))
    case WriteOn => Put(st.(writers := st.writers - {Caller(st)}), Caller(st))
  }

  /** What a process has written, in order. */
  function Sent(written: seq<(nat, char)>, pid: nat): string {
    if written == [] then ""
    else
      var last := written[|written| - 1];
      Sent(written[..|written| - 1], pid) + if last.0 == pid then [last.1] else ""
  }

  function Unread(st: State): int {
    |st.written| - |st.got|
  }

  /** The bytes read are the first ones written, and those in between are in the buffer. */
  ghost predicate Ordered(p: Pipe, written: seq<(nat, char)>, got: string) {
    && |got| <= |written| <= |got| + BUFF_SIZE && |p.buffer| == BUFF_SIZE
    && p.readIndex == |got| % BUFF_SIZE && p.writeIndex == |written| % BUFF_SIZE
    && (forall k: nat | k < |got| :: got[k] == written[k].1)
    && (forall k: nat | |got| <= k < |written| :: p.buffer[k % BUFF_SIZE] == written[k].1)
  }

  /** Nobody sleeps with a token in hand, and who waits to write has something to write. */
  ghost predicate Placed(asleep: set<nat>, readers: set<nat>, writers: set<nat>, waiting: seq<nat>,
                         todo: map<nat, string>)
  {
    && (forall pid | pid in readers :: pid !in asleep)
    && (forall pid | pid in writers :: pid !in asleep && Of(todo, pid) != "")
    && (forall pid | pid in waiting :: Of(todo, pid) != "")
  }

  /** What each process was given to write is what it has written, in order, and what it has still to
      write. */
  ghost predicate Sender(given: map<nat, string>, todo: map<nat, string>, written: seq<(nat, char)>) {
    forall pid :: Of(given, pid) == Sent(written, pid) + Of(todo, pid)
  }

  /** The locks of the pipe are there. */
  ghost predicate LocksOpen(w: World, p: Pipe) {
    Exists(w, p.lockR) && Exists(w, p.lockW) && p.lockR != p.lockW
  }

  /** Tokens stand for bytes: one of lockR, in the semaphore or in the hands of a reader, for each byte
      in the buffer, and one of lockW for each free place. `reading` and `writing` are 1 for a token
      that is being used. */
  ghost predicate Counted(w: World, p: Pipe, unread: int, readers: set<nat>, writers: set<nat>, reading: nat,
                          writing: nat)
    requires LocksOpen(w, p)
  {
    && unread == At(w, p.lockR).value + |readers| + reading
    && BUFF_SIZE - unread == At(w, p.lockW).value + |writers| + writing
  }

  ghost predicate Armed(st: State, reading: nat, writing: nat) {
    && JointInv(st.w) && LocksOpen(st.w, st.pipe)
    && Counted(st.w, st.pipe, Unread(st), st.readers, st.writers, reading, writing)
    && Ordered(st.pipe, st.written, st.got)
    && Placed(st.w.asleep, st.readers, st.writers, WaitersOf(st.w, st.pipe.lockW), st.todo)
    && Sender(st.given, st.todo, st.written)
  }

  ghost predicate PipeInv(st: State) {
    Armed(st, 0, 0)
  }

  // ----- bytes -----

  lemma GetOrdered(p: Pipe, written: seq<(nat, char)>, got: string)
    requires Ordered(p, written, got) && |got| < |written|
    ensures p.buffer[p.readIndex] == written[|got|].1
    ensures Ordered(p.(readIndex := (p.readIndex + 1) % BUFF_SIZE), written, got + [p.buffer[p.readIndex]])
  {
    NextPlace(|got|);
  }

  lemma NextPlace(a: nat)
    ensures (a % BUFF_SIZE + 1) % BUFF_SIZE == (a + 1) % BUFF_SIZE
  {}

  /** Places of the buffer less than a turn apart are different. */
  lemma PlacesDiffer(a: nat, b: nat)
    requires a < b < a + BUFF_SIZE
    ensures a % BUFF_SIZE != b % BUFF_SIZE
  {}

  lemma PutOrdered(p: Pipe, written: seq<(nat, char)>, got: string, pid: nat, c: char)
    requires Ordered(p, written, got) && |written| < |got| + BUFF_SIZE
    ensures Ordered(p.(buffer := p.buffer[p.writeIndex := c], writeIndex := (p.writeIndex + 1) % BUFF_SIZE),
                    written + [(pid, c)], got)
  {
    NextPlace(|written|);
    var buffer, all := p.buffer[p.writeIndex := c], written + [(pid, c)];
    forall k: nat | |got| <= k < |all| ensures buffer[k % BUFF_SIZE] == all[k].1 {
      if k < |written| {
        PlacesDiffer(k, |written|);
      }
    }
  }

  lemma PutSender(given: map<nat, string>, todo: map<nat, string>, written: seq<(nat, char)>, pid: nat)
    requires Sender(given, todo, written) && Of(todo, pid) != ""
    ensures var str := Of(todo, pid);
            Sender(given, todo[pid := str[1..]], written + [(pid, str[0])])
  {
    var str := Of(todo, pid);
    var all, todo' := written + [(pid, str[0])], todo[pid := str[1..]];
    assert all[..|written|] == written;
    forall x ensures Of(given, x) == Sent(all, x) + Of(todo', x) {
      assert Of(given, x) == Sent(written, x) + Of(todo, x);
      if x == pid {
        assert Sent(written, x) + str == (Sent(written, x) + [str[0]]) + str[1..];
      } else {
        assert Sent(written, x) + [] == Sent(written, x);
      }
    }
  }

  lemma BeginSender(given: map<nat, string>, todo: map<nat, string>, written: seq<(nat, char)>, pid: nat, str: string)
    requires Sender(given, todo, written) && Of(todo, pid) == ""
    ensures Sender(given[pid := Of(given, pid) + str], todo[pid := str], written)
  {
    assert Of(given, pid) == Sent(written, pid) + Of(todo, pid);
    forall x ensures Of(given[pid := Of(given, pid) + str], x) == Sent(written, x) + Of(todo[pid := str], x) {
      assert Of(given, x) == Sent(written, x) + Of(todo, x);
    }
  }

  // ----- tokens -----

  lemma SemAt(w: World, id: nat)
    requires JointInv(w) && Exists(w, id)
    ensures SemInv(At(w, id)) && WaitersOf(w, id) == At(w, id).waiters
    ensures forall pid | pid in WaitersOf(w, id) :: pid in w.asleep
  {
    AsleepListed(w, Find(w.sems, id));
  }

  /** A post on one lock: a token more in the semaphore or in the hands of its first waiter, who was
      asleep; the other lock stays as it was. */
  lemma PostOnLock(w: World, id: nat, other: nat)
    requires JointInv(w) && Exists(w, id) && Exists(w, other) && id != other && At(w, id).value < BUFF_SIZE
    ensures var w', q := Post(w, id), FirstWaiter(w, id);
            && JointInv(w') && Exists(w', id) && Exists(w', other)
            && At(w', id).value + |q| == At(w, id).value + 1 && At(w', other).value == At(w, other).value
            && w'.asleep == w.asleep - q && (forall pid | pid in q :: pid in w.asleep && pid in WaitersOf(w, id))
            && WaitersOf(w', id) == (if WaitersOf(w, id) == [] then [] else WaitersOf(w, id)[1..])
            && WaitersOf(w', other) == WaitersOf(w, other)
  {
    hide JointInv;
    PostKeepsJoint(w, id);
    SemAt(w, id);
    AtStep(w, PostSem(id), id);
    AtStep(w, PostSem(id), other);
    hide At, Exists;
    PostSleepers(w, id);
  }

  lemma PostSleepers(w: World, id: nat)
    ensures Post(w, id).asleep == w.asleep - FirstWaiter(w, id)
  {}

  /** A wait on one lock: a token less, or the caller asleep. */
  lemma TakeOnLock(w: World, id: nat, other: nat)
    requires JointInv(w) && Exists(w, id) && Exists(w, other) && id != other && MayWait(w, id)
    ensures var w', pid := Take(w, id), w.sched.current.proc.pid;
            && JointInv(w') && Exists(w', id) && Exists(w', other) && At(w', other).value == At(w, other).value
            && WaitersOf(w', other) == WaitersOf(w, other)
            && if At(w, id).value > 0
               then
                 && At(w', id).value == At(w, id).value - 1
                 && w'.asleep == w.asleep && WaitersOf(w', id) == WaitersOf(w, id)
               else
                 && At(w', id).value == 0
                 && w'.asleep == w.asleep + {pid} && WaitersOf(w', id) == WaitersOf(w, id) + [pid]
  {
    TakeKeepsJoint(w, id);
    AtStep(w, WaitSem(id), id);
    AtStep(w, WaitSem(id), other);
    hide JointInv;
  }

  lemma Union(a: set<nat>, b: set<nat>)
    requires a !! b
    ensures |a + b| == |a| + |b|
  {}

  // ----- events -----

  lemma GetKeepsInv(st: State)
    requires Armed(st, 1, 0)
    ensures PipeInv(Get(st))
  {
    var p, q := st.pipe, FirstWaiter(st.w, st.pipe.lockW);
    hide JointInv, Post, Exists, At, FirstWaiter, WaitersOf, Of, Sender;
    PostOnLock(st.w, p.lockW, p.lockR);
    GetOrdered(p, st.written, st.got);
    hide Ordered;
    Union(st.writers, q);
  }

  lemma PutTokens(st: State, pid: nat)
    requires Armed(st, 0, 1) && Of(st.todo, pid) != "" && pid !in st.writers && pid !in st.w.asleep
    ensures var st' := Put(st, pid);
            && JointInv(st'.w) && LocksOpen(st'.w, st'.pipe)
            && Counted(st'.w, st'.pipe, Unread(st) + 1, st'.readers, st'.writers, 0, 0)
            && Placed(st'.w.asleep, st'.readers, st'.writers, WaitersOf(st'.w, st'.pipe.lockW), st'.todo)
  {
    var p, q := st.pipe, FirstWaiter(st.w, st.pipe.lockR);
    SemAt(st.w, p.lockW);
    hide JointInv, SemInv, Post, Exists, At, FirstWaiter, WaitersOf, Ordered, Sender;
    PostOnLock(st.w, p.lockR, p.lockW);
    KeepPlaces(st.w.asleep, st.readers, st.writers, WaitersOf(st.w, p.lockW), st.todo, pid, q);
    hide Placed, Of;
    Union(st.readers, q);
  }

  lemma PutBytes(st: State, pid: nat)
    requires Ordered(st.pipe, st.written, st.got) && Sender(st.given, st.todo, st.written)
    requires |st.written| < |st.got| + BUFF_SIZE && Of(st.todo, pid) != "" && InBounds(st)
    ensures var st' := Put(st, pid);
            && Ordered(st'.pipe, st'.written, st'.got) && Sender(st'.given, st'.todo, st'.written)
            && Unread(st') == Unread(st) + 1
  {
    hide Ordered, Sender, Of, Post, FirstWaiter;
    PutOrdered(st.pipe, st.written, st.got, pid, Of(st.todo, pid)[0]);
    PutSender(st.given, st.todo, st.written, pid);
  }

  lemma PutKeepsInv(st: State, pid: nat)
    requires Armed(st, 0, 1) && Of(st.todo, pid) != "" && pid !in st.writers && pid !in st.w.asleep
    ensures PipeInv(Put(st, pid))
  {
    assert InBounds(st) && |st.written| < |st.got| + BUFF_SIZE;
    hide Put, JointInv, Exists, At, WaitersOf, Placed, Of, Ordered, Sender, Counted, InBounds;
    PutTokens(st, pid);
    PutBytes(st, pid);
  }

  lemma KeepPlaces(asleep: set<nat>, readers: set<nat>, writers: set<nat>, waiting: seq<nat>, todo: map<nat, string>,
                   pid: nat, q: set<nat>)
    requires Placed(asleep, readers, writers, waiting, todo) && Of(todo, pid) != ""
    requires pid !in writers && pid !in waiting
    ensures Placed(asleep - q, readers + q, writers, waiting, todo[pid := Of(todo, pid)[1..]])
  {}

  /** A wait on lockR, or one on lockW, that does not block leaves its token with the caller. */
  lemma TokenTaken(st: State, id: nat, reading: nat, writing: nat)
    requires PipeInv(st) && st.w.sched.current.Running? && MayWait(st.w, id) && Exists(st.w, id) &&
             At(st.w, id).value > 0
    requires (id == st.pipe.lockR && reading == 1 && writing == 0) ||
             (id == st.pipe.lockW && reading == 0 && writing == 1)
    ensures Armed(st.(w := Take(st.w, id)), reading, writing)
  {
    TakeOnLock(st.w, id, if id == st.pipe.lockR then st.pipe.lockW else st.pipe.lockR);
    hide JointInv, Take, Exists, At, WaitersOf, Of, Sender, Ordered, Placed, MayWait;
  }

  /** One that blocks puts the caller to sleep. */
  lemma ReaderBlocks(st: State)
    requires PipeInv(st) && Free(st) && MayWait(st.w, st.pipe.lockR) && At(st.w, st.pipe.lockR).value == 0
    ensures PipeInv(st.(w := Take(st.w, st.pipe.lockR)))
  {
    hide JointInv, Take, Exists, At, WaitersOf, Of, Sender, Ordered, MayWait, Placed;
    TakeOnLock(st.w, st.pipe.lockR, st.pipe.lockW);
    SleepPlaces(st.w.asleep, st.readers, st.writers, WaitersOf(st.w, st.pipe.lockW), st.todo, Caller(st));
  }

  lemma WriterBlocks(st: State)
    requires PipeInv(st) && Free(st) && MayWait(st.w, st.pipe.lockW) && At(st.w, st.pipe.lockW).value == 0
    requires Of(st.todo, Caller(st)) != ""
    ensures PipeInv(st.(w := Take(st.w, st.pipe.lockW)))
  {
    hide JointInv, Take, Exists, At, WaitersOf, Of, Sender, Ordered, MayWait, Placed;
    TakeOnLock(st.w, st.pipe.lockW, st.pipe.lockR);
    SleepPlaces(st.w.asleep, st.readers, st.writers, WaitersOf(st.w, st.pipe.lockW), st.todo, Caller(st));
  }

  lemma SleepPlaces(asleep: set<nat>, readers: set<nat>, writers: set<nat>, waiting: seq<nat>, todo: map<nat, string>,
                    pid: nat)
    requires Placed(asleep, readers, writers, waiting, todo) && pid !in readers && pid !in writers
    ensures Placed(asleep + {pid}, readers, writers, waiting, todo)
    ensures Of(todo, pid) != "" ==> Placed(asleep + {pid}, readers, writers, waiting + [pid], todo)
  {}

  lemma ReadKeepsInv(st: State)
    requires PipeInv(st) && Enabled(st, Read) && HasRoom(st.w, st.pipe.lockR)
    ensures PipeInv(Next(st, Read))
  {
    var id := st.pipe.lockR;
    if Passes(st.w, id) {
      TokenTaken(st, id, 1, 0);
      GetKeepsInv(st.(w := Take(st.w, id)));
    } else {
      ReaderBlocks(st);
    }
    hide Take, Armed, At, MayWait, Exists;
  }

  lemma WriteKeepsInv(st: State)
    requires PipeInv(st) && Enabled(st, Write) && HasRoom(st.w, st.pipe.lockW)
    ensures PipeInv(Next(st, Write))
  {
    var id := st.pipe.lockW;
    RunningAwake(st.w);
    if Passes(st.w, id) {
      TokenTaken(st, id, 0, 1);
      TakeAwake(st.w, id);
      PutKeepsInv(st.(w := Take(st.w, id)), Caller(st));
    } else {
      WriterBlocks(st);
    }
    hide Take, Armed, At, MayWait, Exists;
  }

  lemma TakeAwake(w: World, id: nat)
    requires w.sched.current.Running? && Exists(w, id) && At(w, id).value > 0
    ensures Take(w, id).asleep == w.asleep
  {}

  lemma Remove(a: set<nat>, x: nat)
    requires x in a
    ensures |a - {x}| == |a| - 1
  {}

  lemma ReadOnKeepsInv(st: State)
    requires PipeInv(st) && Enabled(st, ReadOn)
    ensures PipeInv(Next(st, ReadOn))
  {
    var pid := Caller(st);
    hide JointInv, Exists, At, WaitersOf, Sender, Ordered, Of;
    Remove(st.readers, pid);
    GetKeepsInv(st.(readers := st.readers - {pid}));
  }

  lemma WriteOnKeepsInv(st: State)
    requires PipeInv(st) && Enabled(st, WriteOn)
    ensures PipeInv(Next(st, WriteOn))
  {
    var pid := Caller(st);
    RunningAwake(st.w);
    hide JointInv, Exists, At, WaitersOf, Sender, Ordered, Of;
    Remove(st.writers, pid);
    PutKeepsInv(st.(writers := st.writers - {pid}), pid);
  }

  lemma ReadOnIs(st: State)
    requires Enabled(st, ReadOn)
    ensures InBounds(st) && st.w.sched.current.Running?
    ensures Next(st, ReadOn) == Get(st.(readers := st.readers - {Caller(st)}))
  {}

  lemma WriteOnIs(st: State)
    requires Enabled(st, WriteOn)
    ensures InBounds(st) && Next(st, WriteOn) == Put(st.(writers := st.writers - {Caller(st)}), Caller(st))
  {}

  lemma BeginKeepsInv(st: State, str: string)
    requires PipeInv(st) && Enabled(st, BeginWrite(str))
    ensures PipeInv(Next(st, BeginWrite(str)))
  {
    hide JointInv, SemInv, Exists, At, WaitersOf, Sender, Ordered, Placed, Of;
    BeginSender(st.given, st.todo, st.written, Caller(st), str);
    RunningAwake(st.w);
    SemAt(st.w, st.pipe.lockW);
    BeginPlaces(st.w.asleep, st.readers, st.writers, WaitersOf(st.w, st.pipe.lockW), st.todo, Caller(st), str);
  }

  lemma BeginPlaces(asleep: set<nat>, readers: set<nat>, writers: set<nat>, waiting: seq<nat>, todo: map<nat, string>,
                    pid: nat, str: string)
    requires Placed(asleep, readers, writers, waiting, todo) && pid !in writers && pid !in waiting
    ensures Placed(asleep, readers, writers, waiting, todo[pid := str])
  {}

  lemma OtherKeepsLock(w: World, call: Call, id: nat)
    requires JointInv(w) && Callable(w, call) && Exists(w, id)
    requires call != WaitSem(id) && call != PostSem(id) && call != CloseSem(id)
    ensures var w' := Do(w, call);
            Exists(w', id) && At(w', id).value == At(w, id).value && WaitersOf(w', id) == WaitersOf(w, id)
  {
    hide JointInv, Do;
    AtStep(w, call, id);
  }

  lemma OtherKeepsInv(st: State, call: Call)
    requires PipeInv(st) && Enabled(st, Other(call))
    ensures PipeInv(Next(st, Other(call)))
  {
    hide JointInv, Do, Allowed, Callable, MayWait, Exists, At, WaitersOf, Of, Sender, Ordered, Placed;
    KeepsJointIffAllowed(st.w, call);
    OtherKeepsLock(st.w, call, st.pipe.lockR);
    OtherKeepsLock(st.w, call, st.pipe.lockW);
    AsleepStep(st.w, call);
    OtherPlaces(st, Do(st.w, call).asleep);
  }

  lemma OtherPlaces(st: State, asleep: set<nat>)
    requires Placed(st.w.asleep, st.readers, st.writers, WaitersOf(st.w, st.pipe.lockW), st.todo)
    requires forall pid | pid in asleep :: pid in st.w.asleep || (Free(st) && pid == Caller(st))
    ensures Placed(asleep, st.readers, st.writers, WaitersOf(st.w, st.pipe.lockW), st.todo)
  {}

  /** A seventeenth process waits: the array of the lock is overrun. */
  lemma NoRoomBreaks(st: State, e: Event)
    requires PipeInv(st) && Enabled(st, e) && !Roomy(st, e)
    ensures !PipeInv(Next(st, e))
  {
    TakeJoint(st.w, if e.Read? then st.pipe.lockR else st.pipe.lockW);
    hide JointInv, Take;
  }

  /** A step keeps the invariant exactly when it makes nobody wait for whom there is no place. */
  lemma EventKeepsInv(st: State, e: Event)
    requires PipeInv(st) && Enabled(st, e)
    ensures PipeInv(Next(st, e)) <==> Roomy(st, e)
  {
    if !Roomy(st, e) {
      NoRoomBreaks(st, e);
    } else {
      RoomyKeepsInv(st, e);
    }
    hide PipeInv, Roomy, Next, Enabled;
  }

  lemma RoomyKeepsInv(st: State, e: Event)
    requires PipeInv(st) && Enabled(st, e) && Roomy(st, e)
    ensures PipeInv(Next(st, e))
  {
    hide PipeInv, Next, Enabled;
    match e
    case Other(call) => OtherKeepsInv(st, call);
    case Read => ReadKeepsInv(st);
    case ReadOn => ReadOnKeepsInv(st);
    case BeginWrite(str) => BeginKeepsInv(st, str);
    case Write => WriteKeepsInv(st);
    case WriteOn => WriteOnKeepsInv(st);
  }

  // ----- whole runs -----

  /** newPipe: both locks are new semaphores, lockW with a token for each place of the buffer. */
  function Opened(w: World, lockR: nat, lockW: nat, buffer: string): State {
    var sems := Signalling.Open(Signalling.Open(w.sems, lockR, 0), lockW, BUFF_SIZE);
    State(w.(sems := sems), Pipe(lockR, lockW, buffer, 0, 0), {}, {}, map[], map[], [], "")
  }

  lemma OpenedIs(w: World, lockR: nat, lockW: nat, buffer: string)
    ensures var st := Opened(w, lockR, lockW, buffer);
            st.w == Opened(w, lockR, lockW, "").w && st.pipe == Pipe(lockR, lockW, buffer, 0, 0)
  {}

  lemma OpenedKeepsInv(w: World, lockR: nat, lockW: nat, buffer: string)
    requires JointInv(w) && !Exists(w, lockR) && !Exists(w, lockW) && lockR != lockW && |buffer| == BUFF_SIZE
    ensures PipeInv(Opened(w, lockR, lockW, buffer))
  {
    var w1 := w.(sems := Signalling.Open(w.sems, lockR, 0));
    OpenKeepsJoint(w, lockR, 0);
    OpenNew(w, lockR, 0);
    OpenOther(w, lockR, 0, lockW);
    OpenKeepsJoint(w1, lockW, BUFF_SIZE);
    OpenNew(w1, lockW, BUFF_SIZE);
    AtOpen(w1, lockR, lockW, BUFF_SIZE);
    hide JointInv, Signalling.Open, Exists, At;
    assert WaitersOf(Opened(w, lockR, lockW, buffer).w, lockW) == [];
    hide Opened, WaitersOf;
    EmptyBytes(Pipe(lockR, lockW, buffer, 0, 0));
  }

  lemma EmptyBytes(p: Pipe)
    requires |p.buffer| == BUFF_SIZE && p.readIndex == p.writeIndex == 0
    ensures Ordered(p, [], "") && Sender(map[], map[], [])
  {}

  lemma OpenNew(w: World, id: nat, initial: nat)
    requires !Exists(w, id)
    ensures var w' := w.(sems := Signalling.Open(w.sems, id, initial));
            Exists(w', id) && At(w', id).value == initial && At(w', id).waiters == []
  {
    FirstAt(Signalling.Open(w.sems, id, initial), id, |w.sems|);
  }

  predicate LegalRun(st: State, events: seq<Event>)
    decreases |events|
  {
    events == [] || (Enabled(st, events[0]) && Roomy(st, events[0]) && LegalRun(Next(st, events[0]), events[1..]))
  }

  function After(st: State, events: seq<Event>): State
    requires LegalRun(st, events)
    decreases |events|
  {
    if events == [] then st else After(Next(st, events[0]), events[1..])
  }

  lemma {:induction false} RunKeepsPipe(st: State, events: seq<Event>)
    requires PipeInv(st) && LegalRun(st, events)
    ensures PipeInv(After(st, events))
    decreases |events|
  {
    if events != [] {
      EventKeepsInv(st, events[0]);
      RunKeepsPipe(Next(st, events[0]), events[1..]);
    }
  }

  function Bytes(written: seq<(nat, char)>): (r: string)
    ensures |r| == |written|
    ensures forall k: nat | k < |written| :: r[k] == written[k].1
  {
    if written == [] then "" else [written[0].1] + Bytes(written[1..])
  }

  /** In any run of a new pipe, with any readers and writers, the bytes read are the first ones written;
      at most a bufferful is unread, and it lies in the buffer in order; and what each process has
      written, with what it has still to write, is what it gave to pWrite. */
  lemma PipeIsFifo(w: World, lockR: nat, lockW: nat, buffer: string, events: seq<Event>)
    requires JointInv(w) && !Exists(w, lockR) && !Exists(w, lockW) && lockR != lockW && |buffer| == BUFF_SIZE
    requires LegalRun(Opened(w, lockR, lockW, buffer), events)
    ensures var st := After(Opened(w, lockR, lockW, buffer), events);
            && st.got <= Bytes(st.written) && |st.written| - |st.got| <= BUFF_SIZE
            && |st.pipe.buffer| == BUFF_SIZE
            && (forall k: nat | |st.got| <= k < |st.written| :: st.pipe.buffer[k % BUFF_SIZE] == Bytes(st.written)[k])
            && forall pid :: Of(st.given, pid) == Sent(st.written, pid) + Of(st.todo, pid)
  {
    OpenedKeepsInv(w, lockR, lockW, buffer);
    RunKeepsPipe(Opened(w, lockR, lockW, buffer), events);
  }

  /** A byte that is not read yet stays in its place, whatever happens. */
  lemma UnreadKept(st: State, e: Event, k: nat)
    requires PipeInv(st) && Enabled(st, e) && Roomy(st, e) && |Next(st, e).got| <= k < |st.written|
    ensures |Next(st, e).pipe.buffer| == BUFF_SIZE
    ensures Next(st, e).pipe.buffer[k % BUFF_SIZE] == st.pipe.buffer[k % BUFF_SIZE]
  {
    EventKeepsInv(st, e);
    Grows(st, e);
    hide Next, JointInv, Enabled, Placed, Counted, Sender, LocksOpen;
  }

  lemma Grows(st: State, e: Event)
    requires Enabled(st, e)
    ensures st.got <= Next(st, e).got && st.written <= Next(st, e).written
  {
    hide Do, Post, Take, Callable, MayWait, Allowed;
  }

  /** While readers wait, every unread byte is promised to a reader that was woken; while writers wait,
      every free place is promised to a writer; so somebody can always go on. */
  lemma NeverStuck(st: State)
    requires PipeInv(st)
    ensures WaitersOf(st.w, st.pipe.lockR) != [] ==> Unread(st) == |st.readers|
    ensures WaitersOf(st.w, st.pipe.lockW) != [] ==> BUFF_SIZE - Unread(st) == |st.writers|
    ensures WaitersOf(st.w, st.pipe.lockR) != [] && WaitersOf(st.w, st.pipe.lockW) != [] ==>
              st.readers != {} || st.writers != {}
  {
    SemAt(st.w, st.pipe.lockR);
    SemAt(st.w, st.pipe.lockW);
  }

  // ----- several writes in one go -----

  function Writes(n: nat): seq<Event> {
    seq(n, _ => Write)
  }

  lemma WritesNone(st: State)
    ensures LegalRun(st, Writes(0)) && After(st, Writes(0)) == st
  {}

  lemma OneMoreWrite(st: State, n: nat)
    requires LegalRun(st, Writes(n)) && Enabled(After(st, Writes(n)), Write)
    requires Roomy(After(st, Writes(n)), Write)
    ensures LegalRun(st, Writes(n + 1)) && After(st, Writes(n + 1)) == Next(After(st, Writes(n)), Write)
  {
    AfterOneMore(st, Writes(n), Write);
    assert Writes(n) + [Write] == Writes(n + 1);
  }

  lemma {:induction false} AfterOneMore(st: State, events: seq<Event>, e: Event)
    requires LegalRun(st, events) && Enabled(After(st, events), e) && Roomy(After(st, events), e)
    ensures LegalRun(st, events + [e]) && After(st, events + [e]) == Next(After(st, events), e)
    decreases |events|
  {
    var all := events + [e];
    if events != [] {
      assert all[0] == events[0] && all[1..] == events[1..] + [e];
      AfterOneMore(Next(st, events[0]), events[1..], e);
    } else {
      assert all[0] == e && all[1..] == [];
    }
  }

  lemma WriteTodo(st: State)
    requires Enabled(st, Write) && Passes(st.w, st.pipe.lockW)
    ensures Of(Next(st, Write).todo, Caller(st)) == Of(st.todo, Caller(st))[1..]
  {
    hide Take, Post, MayWait, Passes;
  }

  /** After a write that did not block, its process is still running and can write on. */
  lemma WriteStays(st: State)
    requires PipeInv(st) && Enabled(st, Write) && Passes(st.w, st.pipe.lockW)
    ensures var st' := Next(st, Write);
            && st'.w.sched.current == st.w.sched.current && Free(st')
            && MayWait(st'.w, st.pipe.lockW) && InBounds(st')
  {
    var p := st.pipe;
    TakeThenPost(st.w, p.lockW, p.lockR);
    hide JointInv, SemInv, Take, Post, Ordered, Placed, Sender, Counted, Of, At, FirstWaiter, WaitersOf;
  }

  /** A process in the middle of a string that it can go on writing. */
  ghost predicate Going(st: State, pid: nat, rest: string) {
    && PipeInv(st) && InBounds(st) && Free(st) && Caller(st) == pid && Of(st.todo, pid) == rest
    && MayWait(st.w, st.pipe.lockW)
  }

  lemma BeginGoing(st: State, str: string)
    requires PipeInv(st) && Enabled(st, BeginWrite(str)) && MayWait(st.w, st.pipe.lockW)
    ensures Going(Next(st, BeginWrite(str)), Caller(st), str)
  {
    BeginKeepsInv(st, str);
    BeginOf(st, Caller(st), str);
    hide PipeInv, MayWait, Of, InBounds;
    BeginFrame(st, str);
    hide Next, Enabled, BeginStep;
  }

  lemma BeginFrame(st: State, str: string)
    requires Enabled(st, BeginWrite(str))
    ensures var st' := Next(st, BeginWrite(str));
            && st' == BeginStep(st, Caller(st), str)
            && st'.w == st.w && st'.pipe == st.pipe && InBounds(st') && Free(st') && Caller(st') == Caller(st)
  {
    hide Of, Callable, MayWait, Allowed;
  }

  lemma BeginOf(st: State, pid: nat, str: string)
    ensures Of(BeginStep(st, pid, str).todo, pid) == str
  {}

  /** Each write of a process that is going on with a string leaves it going on with the rest, or asleep. */
  lemma GoingOn(st: State, pid: nat, rest: string)
    requires Going(st, pid, rest) && rest != ""
    ensures Enabled(st, Write) && Roomy(st, Write)
    ensures Passes(st.w, st.pipe.lockW) ==> Going(Next(st, Write), pid, rest[1..])
    ensures !Passes(st.w, st.pipe.lockW) ==> pid in Next(st, Write).w.asleep
  {
    EventKeepsInv(st, Write);
    if Passes(st.w, st.pipe.lockW) {
      WriteStays(st);
      WriteTodo(st);
    }
    hide PipeInv, MayWait, Put, Of;
  }

  lemma TakeThenPost(w: World, id: nat, other: nat)
    requires JointInv(w) && w.sched.current.Running? && id != other
    requires Exists(w, id) && Exists(w, other) && At(w, id).value > 0 && At(w, other).value < BUFF_SIZE
    ensures var w1, w2 := Take(w, id), Post(Take(w, id), other);
            && w2.sched.current == w.sched.current && w.sched.current.proc.pid !in FirstWaiter(w1, other)
            && MayWait(w2, id)
  {
    var w1 := Take(w, id);
    RunningAwake(w);
    SemAt(w, id);
    TakeOnLock(w, id, other);
    PostOnLock(w1, other, id);
    RunningKept(w, id);
    PostRunning(w1, other);
    hide JointInv, SemInv, Take, Post;
  }

  lemma RunningKept(w: World, id: nat)
    requires w.sched.current.Running? && Passes(w, id)
    ensures Take(w, id).sched == w.sched
  {}

  lemma PostRunning(w: World, id: nat)
    requires JointInv(w) && w.sched.current.Running?
    ensures Post(w, id).sched.current == w.sched.current
  {
    RunningAwake(w);
    if Exists(w, id) {
      AsleepListed(w, Find(w.sems, id));
    }
  }
}
