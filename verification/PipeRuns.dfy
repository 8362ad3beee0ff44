/** What readers and writers of a pipe see of it: what a read or a write does to the bytes and to those who
    wait, and that in every run those who wait are served in the order in which they came. */
module PipeRuns {
  import opened Signalling
  import opened Piping
  import Scheduling

  // ----- one step -----

  /** The caller goes to sleep, last in the list of a lock; bytes, places and tokens stay as they were. */
  ghost predicate Sleeps(st: State, st': State, id: nat)
    requires st.w.sched.current.Running?
  {
    && Caller(st) in st'.w.asleep && IsBlocked(st'.w.sched, Caller(st))
    && WaitersOf(st'.w, id) == WaitersOf(st.w, id) + [Caller(st)]
    && WaitersOf(st'.w, OtherLock(st, id)) == WaitersOf(st.w, OtherLock(st, id))
    && st'.pipe == st.pipe && st'.readers == st.readers && st'.writers == st.writers
    && st'.todo == st.todo && st'.given == st.given && st'.written == st.written && st'.got == st.got
  }

  function OtherLock(st: State, id: nat): nat {
    if id == st.pipe.lockR then st.pipe.lockW else st.pipe.lockR
  }

  /** The first in the list of a lock leaves it with a token in hand, READY to go on. */
  ghost predicate Hands(w: World, w': World, id: nat, hands: set<nat>, hands': set<nat>) {
    if WaitersOf(w, id) == [] then WaitersOf(w', id) == [] && hands' == hands
    else
      var pid := WaitersOf(w, id)[0];
      WaitersOf(w', id) == WaitersOf(w, id)[1..] && hands' == hands + {pid} && Granted(w', pid)
  }

  /** The oldest byte that is not read yet is read, and its place handed on. */
  ghost predicate ByteRead(st: State, st': State) {
    && |st.got| < |st.written| && st'.got == st.got + [st.written[|st.got|].1]
    && st'.written == st.written && st'.todo == st.todo && st'.given == st.given
    && WaitersOf(st'.w, st.pipe.lockR) == WaitersOf(st.w, st.pipe.lockR)
    && Hands(st.w, st'.w, st.pipe.lockW, st.writers, st'.writers)
  }

  /** The next byte of the process is written, and handed on. */
  ghost predicate ByteWritten(st: State, st': State, pid: nat) {
    && Of(st.todo, pid) != "" && st'.written == st.written + [(pid, Of(st.todo, pid)[0])]
    && st'.todo == st.todo[pid := Of(st.todo, pid)[1..]] && st'.given == st.given && st'.got == st.got
    && WaitersOf(st'.w, st.pipe.lockW) == WaitersOf(st.w, st.pipe.lockW)
    && Hands(st.w, st'.w, st.pipe.lockR, st.readers, st'.readers)
  }

  lemma PostHands(w: World, id: nat, other: nat, hands: set<nat>)
    requires JointInv(w) && Exists(w, id) && Exists(w, other) && id != other && At(w, id).value < BUFF_SIZE
    ensures Hands(w, Post(w, id), id, hands, hands + FirstWaiter(w, id))
    ensures WaitersOf(Post(w, id), other) == WaitersOf(w, other)
  {
    PostOnLock(w, id, other);
    if WaitersOf(w, id) != [] {
      PostGrants(w, id);
    }
    hide JointInv, Post, At, Exists, WaitersOf, Granted;
  }

  lemma GetReads(st: State)
    requires Armed(st, 1, 0)
    ensures ByteRead(st, Get(st)) && Get(st).readers == st.readers
  {
    hide JointInv, Post, Exists, At, FirstWaiter, WaitersOf, Of, Sender, Placed, Hands;
    GetOrdered(st.pipe, st.written, st.got);
    PostHands(st.w, st.pipe.lockW, st.pipe.lockR, st.writers);
  }

  lemma PutWrites(st: State, pid: nat)
    requires Armed(st, 0, 1) && Of(st.todo, pid) != ""
    ensures ByteWritten(st, Put(st, pid), pid) && Put(st, pid).writers == st.writers
  {
    hide JointInv, Post, Exists, At, FirstWaiter, WaitersOf, Of, Sender, Placed, Hands;
    PostHands(st.w, st.pipe.lockR, st.pipe.lockW, st.readers);
  }

  lemma TakeSleeps(w: World, id: nat, other: nat)
    requires JointInv(w) && Exists(w, id) && Exists(w, other) && id != other && MayWait(w, id)
    requires At(w, id).value == 0
    ensures var w', pid := Take(w, id), w.sched.current.proc.pid;
            pid in w'.asleep && IsBlocked(w'.sched, pid) && WaitersOf(w', id) == WaitersOf(w, id) + [pid] &&
            WaitersOf(w', other) == WaitersOf(w, other)
  {
    TakeOnLock(w, id, other);
    CallerSleeps(w.sched);
    hide JointInv, SemInv, WaitersOf, Scheduling.BlockProcess;
  }

  /** pRead where every byte in the buffer is promised to a reader, and only there, puts its caller to
      sleep; else it reads. */
  lemma ReadDoes(st: State)
    requires PipeInv(st) && Enabled(st, Read) && Roomy(st, Read)
    ensures Passes(st.w, st.pipe.lockR) <==> Unread(st) > |st.readers|
    ensures var st' := Next(st, Read);
            if Unread(st) > |st.readers| then ByteRead(st, st') && st'.readers == st.readers
            else Sleeps(st, st', st.pipe.lockR)
  {
    var r, w := st.pipe.lockR, st.pipe.lockW;
    if Passes(st.w, r) {
      TokenTaken(st, r, 1, 0);
      TakeOnLock(st.w, r, w);
      GetReads(st.(w := Take(st.w, r)));
    } else {
      TakeSleeps(st.w, r, w);
    }
    hide JointInv, Take, Get, WaitersOf, Granted, IsBlocked, Ordered, Sender, Placed;
  }

  /** putCharPipeByIdx where every free place is promised to a writer puts its caller to sleep; else it
      writes. */
  lemma WriteDoes(st: State)
    requires PipeInv(st) && Enabled(st, Write) && Roomy(st, Write)
    ensures Passes(st.w, st.pipe.lockW) <==> BUFF_SIZE - Unread(st) > |st.writers|
    ensures var st' := Next(st, Write);
            if BUFF_SIZE - Unread(st) > |st.writers| then ByteWritten(st, st', Caller(st)) && st'.writers == st.writers
            else Sleeps(st, st', st.pipe.lockW)
  {
    var r, w := st.pipe.lockR, st.pipe.lockW;
    if Passes(st.w, w) {
      TokenTaken(st, w, 0, 1);
      TakeOnLock(st.w, w, r);
      PutWrites(st.(w := Take(st.w, w)), Caller(st));
    } else {
      TakeSleeps(st.w, w, r);
    }
    hide JointInv, Take, Put, WaitersOf, Granted, IsBlocked, Ordered, Sender, Placed;
  }

  /** A reader that was handed a token reads when it runs. */
  lemma ReadOnDoes(st: State)
    requires PipeInv(st) && Enabled(st, ReadOn)
    ensures var st' := Next(st, ReadOn);
            ByteRead(st, st') && st'.readers == st.readers - {Caller(st)}
  {
    hide JointInv, Exists, At, WaitersOf, Sender, Ordered, Of;
    Remove(st.readers, Caller(st));
    GetReads(st.(readers := st.readers - {Caller(st)}));
  }

  lemma WriteOnDoes(st: State)
    requires PipeInv(st) && Enabled(st, WriteOn)
    ensures var st' := Next(st, WriteOn);
            ByteWritten(st, st', Caller(st)) && st'.writers == st.writers - {Caller(st)}
  {
    var st1 := st.(writers := st.writers - {Caller(st)});
    WriteOnIs(st);
    hide JointInv, Exists, At, WaitersOf, Sender, Ordered, Of, Put, Next, Granted;
    Remove(st.writers, Caller(st));
    PutWrites(st1, Caller(st));
  }

  /** What is not a read or a write leaves the bytes, the tokens in hand and those who wait alone. */
  predicate Aside(st: State, st': State) {
    && st'.pipe == st.pipe && st'.readers == st.readers && st'.writers == st.writers
    && st'.written == st.written && st'.got == st.got
    && WaitersOf(st'.w, st.pipe.lockR) == WaitersOf(st.w, st.pipe.lockR)
    && WaitersOf(st'.w, st.pipe.lockW) == WaitersOf(st.w, st.pipe.lockW)
  }

  lemma OtherDoes(st: State, call: Call)
    requires PipeInv(st) && Enabled(st, Other(call))
    ensures Aside(st, Next(st, Other(call)))
  {
    hide JointInv, Do, Allowed, Callable, MayWait, Exists, At, WaitersOf, Of, Sender, Ordered, Placed;
    OtherKeepsLock(st.w, call, st.pipe.lockR);
    OtherKeepsLock(st.w, call, st.pipe.lockW);
  }

  lemma BeginDoes(st: State, str: string)
    requires Enabled(st, BeginWrite(str))
    ensures Aside(st, Next(st, BeginWrite(str))) && Next(st, BeginWrite(str)).w == st.w
  {
    hide WaitersOf, Of;
  }

  // ----- the two sides -----

  /** What a step is to those who wait to read: each byte written hands a token to the first of them, and
      otherwise the list only grows at its end; a token in hand stays there till its holder goes on. */
  ghost predicate ReaderSide(st: State, e: Event, st': State) {
    var q, q' := WaitersOf(st.w, st.pipe.lockR), WaitersOf(st'.w, st.pipe.lockR);
    && st'.pipe.lockR == st.pipe.lockR
    && if |st'.written| == |st.written| then
         && q <= q'
         && (st'.readers == st.readers ||
             (e == ReadOn && st.w.sched.current.Running? && st'.readers == st.readers - {Caller(st)}))
       else
         && |st'.written| == |st.written| + 1
         && if q == [] then q' == [] && st'.readers == st.readers
            else q' == q[1..] && st'.readers == st.readers + {q[0]}
  }

  /** The same of those who wait to write: each byte read hands on a free place. */
  ghost predicate WriterSide(st: State, e: Event, st': State) {
    var q, q' := WaitersOf(st.w, st.pipe.lockW), WaitersOf(st'.w, st.pipe.lockW);
    && st'.pipe.lockW == st.pipe.lockW
    && if |st'.got| == |st.got| then
         && q <= q'
         && (st'.writers == st.writers ||
             (e == WriteOn && st.w.sched.current.Running? && st'.writers == st.writers - {Caller(st)}))
       else
         && |st'.got| == |st.got| + 1
         && if q == [] then q' == [] && st'.writers == st.writers
            else q' == q[1..] && st'.writers == st.writers + {q[0]}
  }

  lemma LocksStay(st: State, e: Event)
    requires Enabled(st, e)
    ensures Next(st, e).pipe.lockR == st.pipe.lockR && Next(st, e).pipe.lockW == st.pipe.lockW
  {
    hide Do, Post, Take, Callable, MayWait, Allowed;
  }

  lemma SleepsSides(st: State, e: Event, st': State, id: nat)
    requires LocksOpen(st.w, st.pipe) && st.w.sched.current.Running? && Sleeps(st, st', id)
    requires id == st.pipe.lockR || id == st.pipe.lockW
    ensures ReaderSide(st, e, st') && WriterSide(st, e, st')
  {
    hide WaitersOf, IsBlocked, Exists;
  }

  lemma ReadsSides(st: State, e: Event, st': State)
    requires ByteRead(st, st') && st'.pipe.lockR == st.pipe.lockR && st'.pipe.lockW == st.pipe.lockW
    requires st'.readers == st.readers ||
             (e == ReadOn && st.w.sched.current.Running? && st'.readers == st.readers - {Caller(st)})
    ensures ReaderSide(st, e, st') && WriterSide(st, e, st')
  {
    hide WaitersOf, Granted;
  }

  lemma WritesSides(st: State, e: Event, st': State, pid: nat)
    requires ByteWritten(st, st', pid) && st'.pipe.lockR == st.pipe.lockR && st'.pipe.lockW == st.pipe.lockW
    requires st'.writers == st.writers ||
             (e == WriteOn && st.w.sched.current.Running? && st'.writers == st.writers - {Caller(st)})
    ensures ReaderSide(st, e, st') && WriterSide(st, e, st')
  {
    hide WaitersOf, Granted, Of;
  }

  lemma Sides(st: State, e: Event)
    requires PipeInv(st) && Enabled(st, e) && Roomy(st, e)
    ensures ReaderSide(st, e, Next(st, e)) && WriterSide(st, e, Next(st, e))
  {
    var st' := Next(st, e);
    LocksStay(st, e);
    match e
    case Other(call) =>
      OtherDoes(st, call);
      hide PipeInv, Enabled, Next, WaitersOf;
    case BeginWrite(str) =>
      BeginDoes(st, str);
      hide PipeInv, Enabled, Next, WaitersOf;
    case Read =>
      ReadDoes(st);
      hide PipeInv, Next, WaitersOf, ByteRead, Sleeps, ReaderSide, WriterSide;
      if Unread(st) > |st.readers| {
        ReadsSides(st, e, st');
      } else {
        SleepsSides(st, e, st', st.pipe.lockR);
      }
    case ReadOn =>
      ReadOnDoes(st);
      hide PipeInv, Next, WaitersOf, ByteRead, ReaderSide, WriterSide;
      ReadsSides(st, e, st');
    case Write =>
      WriteDoes(st);
      hide PipeInv, Next, WaitersOf, ByteWritten, Sleeps, ReaderSide, WriterSide;
      if BUFF_SIZE - Unread(st) > |st.writers| {
        WritesSides(st, e, st', Caller(st));
      } else {
        SleepsSides(st, e, st', st.pipe.lockW);
      }
    case WriteOn =>
      WriteOnDoes(st);
      hide PipeInv, Next, WaitersOf, ByteWritten, ReaderSide, WriterSide;
      WritesSides(st, e, st', Caller(st));
  }

  // ----- whole runs -----

  /** The state a run has come to after n of its events. */
  function StateAt(st: State, events: seq<Event>, n: nat): State
    requires LegalRun(st, events) && n <= |events|
    decreases n
  {
    if n == 0 then st else StateAt(Next(st, events[0]), events[1..], n - 1)
  }

  /** The process goes on with its read, and is given the oldest byte that is not read yet. */
  ghost predicate CanRead(st: State, pid: nat) {
    && st.w.sched.current.Running? && Caller(st) == pid
    && Enabled(st, ReadOn) && ByteRead(st, Next(st, ReadOn))
  }

  /** The process goes on with its write, and its next byte goes into the buffer. */
  ghost predicate CanWrite(st: State, pid: nat) {
    && st.w.sched.current.Running? && Caller(st) == pid
    && Enabled(st, WriteOn) && ByteWritten(st, Next(st, WriteOn), pid)
  }

  /** At some point of the run, before its end or there, the process goes on. */
  ghost predicate ReadsAt(st: State, events: seq<Event>, pid: nat, n: nat)
    requires LegalRun(st, events)
  {
    n <= |events| && CanRead(StateAt(st, events, n), pid) && (n < |events| ==> events[n] == ReadOn)
  }

  ghost predicate WritesAt(st: State, events: seq<Event>, pid: nat, n: nat)
    requires LegalRun(st, events)
  {
    n <= |events| && CanWrite(StateAt(st, events, n), pid) && (n < |events| ==> events[n] == WriteOn)
  }

  lemma ReaderCan(st: State)
    requires PipeInv(st) && st.w.sched.current.Running? && Caller(st) in st.readers
    ensures CanRead(st, Caller(st))
  {
    assert Enabled(st, ReadOn) by { hide JointInv; }
    ReadOnDoes(st);
    hide PipeInv, Enabled, Next, ByteRead;
  }

  lemma WriterCan(st: State)
    requires PipeInv(st) && st.w.sched.current.Running? && Caller(st) in st.writers
    ensures CanWrite(st, Caller(st))
  {
    assert Enabled(st, WriteOn) by { hide JointInv, Sender; }
    WriteOnDoes(st);
    hide PipeInv, Enabled, Next, ByteWritten;
  }

  ghost predicate RunsNow(st: State, pid: nat) {
    st.w.sched.current.Running? && Caller(st) == pid
  }

  lemma ReaderHolds(st: State, e: Event, pid: nat)
    requires PipeInv(st) && Enabled(st, e) && Roomy(st, e) && pid in st.readers && !(e == ReadOn && RunsNow(st, pid))
    ensures pid in Next(st, e).readers
  {
    Sides(st, e);
    hide PipeInv, Enabled, Next, WriterSide, WaitersOf, Roomy;
  }

  lemma WriterHolds(st: State, e: Event, pid: nat)
    requires PipeInv(st) && Enabled(st, e) && Roomy(st, e) && pid in st.writers && !(e == WriteOn && RunsNow(st, pid))
    ensures pid in Next(st, e).writers
  {
    Sides(st, e);
    hide PipeInv, Enabled, Next, ReaderSide, WaitersOf, Roomy;
  }

  /** A reader with a token in hand reads before a run is over at whose end it runs, or there. */
  lemma {:induction false} HeldTokenReads(st: State, events: seq<Event>, pid: nat)
    requires PipeInv(st) && LegalRun(st, events) && pid in st.readers && RunsNow(After(st, events), pid)
    ensures exists n: nat :: ReadsAt(st, events, pid, n)
    decreases |events|
  {
    hide PipeInv, Enabled, Next, ReaderSide, WriterSide, CanRead, Roomy;
    if events == [] {
      ReaderCan(st);
      assert ReadsAt(st, events, pid, 0);
    } else {
      var e, rest, st' := events[0], events[1..], Next(st, events[0]);
      if e == ReadOn && RunsNow(st, pid) {
        ReaderCan(st);
        assert ReadsAt(st, events, pid, 0);
      } else {
        ReaderHolds(st, e, pid);
        EventKeepsInv(st, e);
        HeldTokenReads(st', rest, pid);
        var n: nat :| ReadsAt(st', rest, pid, n);
        assert ReadsAt(st, events, pid, n + 1);
      }
    }
  }

  lemma {:induction false} HeldTokenWrites(st: State, events: seq<Event>, pid: nat)
    requires PipeInv(st) && LegalRun(st, events) && pid in st.writers && RunsNow(After(st, events), pid)
    ensures exists n: nat :: WritesAt(st, events, pid, n)
    decreases |events|
  {
    hide PipeInv, Enabled, Next, ReaderSide, WriterSide, CanWrite, Roomy;
    if events == [] {
      WriterCan(st);
      assert WritesAt(st, events, pid, 0);
    } else {
      var e, rest, st' := events[0], events[1..], Next(st, events[0]);
      if e == WriteOn && RunsNow(st, pid) {
        WriterCan(st);
        assert WritesAt(st, events, pid, 0);
      } else {
        WriterHolds(st, e, pid);
        EventKeepsInv(st, e);
        HeldTokenWrites(st', rest, pid);
        var n: nat :| WritesAt(st', rest, pid, n);
        assert WritesAt(st, events, pid, n + 1);
      }
    }
  }

  /** The step of a run in which the bytes put bring the reader at place k of the list nearer. */
  lemma ReaderNearer(st: State, e: Event, k: nat)
    requires PipeInv(st) && Enabled(st, e) && Roomy(st, e) && k < |WaitersOf(st.w, st.pipe.lockR)|
    ensures var st' := Next(st, e);
            var pid, q', n := WaitersOf(st.w, st.pipe.lockR)[k], WaitersOf(st'.w, st'.pipe.lockR),
                              |st'.written| - |st.written|;
            0 <= n <= 1 && if k < n then pid in st'.readers else k - n < |q'| && q'[k - n] == pid
  {
    hide PipeInv, Enabled, Next, ReaderSide, WriterSide, WaitersOf, Roomy;
    Sides(st, e);
    ReaderMoves(st, e, Next(st, e), k);
  }

  lemma ReaderMoves(st: State, e: Event, st': State, k: nat)
    requires ReaderSide(st, e, st') && k < |WaitersOf(st.w, st.pipe.lockR)|
    ensures var pid, q', n := WaitersOf(st.w, st.pipe.lockR)[k], WaitersOf(st'.w, st'.pipe.lockR),
                              |st'.written| - |st.written|;
            0 <= n <= 1 && if k < n then pid in st'.readers else k - n < |q'| && q'[k - n] == pid
  {
    hide WaitersOf;
  }

  lemma WriterMoves(st: State, e: Event, st': State, k: nat)
    requires WriterSide(st, e, st') && k < |WaitersOf(st.w, st.pipe.lockW)|
    ensures var pid, q', n := WaitersOf(st.w, st.pipe.lockW)[k], WaitersOf(st'.w, st'.pipe.lockW),
                              |st'.got| - |st.got|;
            0 <= n <= 1 && if k < n then pid in st'.writers else k - n < |q'| && q'[k - n] == pid
  {
    hide WaitersOf;
  }

  lemma WriterNearer(st: State, e: Event, k: nat)
    requires PipeInv(st) && Enabled(st, e) && Roomy(st, e) && k < |WaitersOf(st.w, st.pipe.lockW)|
    ensures var st' := Next(st, e);
            var pid, q', n := WaitersOf(st.w, st.pipe.lockW)[k], WaitersOf(st'.w, st'.pipe.lockW),
                              |st'.got| - |st.got|;
            0 <= n <= 1 && if k < n then pid in st'.writers else k - n < |q'| && q'[k - n] == pid
  {
    hide PipeInv, Enabled, Next, ReaderSide, WriterSide, WaitersOf, Roomy;
    Sides(st, e);
    WriterMoves(st, e, Next(st, e), k);
  }

  /** Readers are served in the order in which they went to sleep: one with k others before it, in a run
      in which more than k bytes are put and at whose end it runs, has gone on with its read by then, or
      can there; and the read gives it the oldest byte that is not read yet. */
  lemma {:induction false} ReaderServed(st: State, events: seq<Event>, k: nat)
    requires PipeInv(st) && LegalRun(st, events) && k < |WaitersOf(st.w, st.pipe.lockR)|
    requires |After(st, events).written| - |st.written| > k
    requires RunsNow(After(st, events), WaitersOf(st.w, st.pipe.lockR)[k])
    ensures exists n: nat :: ReadsAt(st, events, WaitersOf(st.w, st.pipe.lockR)[k], n)
    decreases |events|
  {
    hide PipeInv, Enabled, Next, WaitersOf, Roomy, RunsNow, CanRead;
    var e, rest, st' := events[0], events[1..], Next(st, events[0]);
    var pid := WaitersOf(st.w, st.pipe.lockR)[k];
    ReaderNearer(st, e, k);
    EventKeepsInv(st, e);
    var put := |st'.written| - |st.written|;
    if k < put {
      HeldTokenReads(st', rest, pid);
    } else {
      ReaderServed(st', rest, k - put);
    }
    var n: nat :| ReadsAt(st', rest, pid, n);
    assert ReadsAt(st, events, pid, n + 1);
  }

  /** So are writers: one with k others before it, in a run in which more than k bytes are read and at
      whose end it runs, has written its byte by then, or can there. */
  lemma {:induction false} WriterServed(st: State, events: seq<Event>, k: nat)
    requires PipeInv(st) && LegalRun(st, events) && k < |WaitersOf(st.w, st.pipe.lockW)|
    requires |After(st, events).got| - |st.got| > k
    requires RunsNow(After(st, events), WaitersOf(st.w, st.pipe.lockW)[k])
    ensures exists n: nat :: WritesAt(st, events, WaitersOf(st.w, st.pipe.lockW)[k], n)
    decreases |events|
  {
    hide PipeInv, Enabled, Next, WaitersOf, Roomy, RunsNow, CanWrite;
    var e, rest, st' := events[0], events[1..], Next(st, events[0]);
    var pid := WaitersOf(st.w, st.pipe.lockW)[k];
    WriterNearer(st, e, k);
    EventKeepsInv(st, e);
    var taken := |st'.got| - |st.got|;
    if k < taken {
      HeldTokenWrites(st', rest, pid);
    } else {
      WriterServed(st', rest, k - taken);
    }
    var n: nat :| WritesAt(st', rest, pid, n);
    assert WritesAt(st, events, pid, n + 1);
  }
}
