/** pipes.c as it is written, for a pipe that is open: the code between two waits runs in one go. Each
    piece is proved to do what Piping says. */
module Pipes {
  import opened Piping
  import opened PipeRuns
  import Signalling
  import Semaphores
  import Scheduler

  class Buffer {
    const bytes: array<char>
    var readIndex: nat
    var writeIndex: nat

    constructor ()
      ensures fresh(bytes) && bytes.Length == BUFF_SIZE && readIndex == writeIndex == 0
    {
      bytes := new char[BUFF_SIZE];
      readIndex, writeIndex := 0, 0;
    }

    /** The fields hold those of the pipe p. */
    ghost predicate Holds(p: Pipe)
      reads this, bytes
    {
      && bytes.Length == BUFF_SIZE && bytes[..] == p.buffer
      && readIndex == p.readIndex < BUFF_SIZE && writeIndex == p.writeIndex < BUFF_SIZE
    }

    method Get(ghost p: Pipe) returns (c: char)
      requires Holds(p)
      modifies this`readIndex
      ensures Holds(p.(readIndex := (p.readIndex + 1) % BUFF_SIZE)) && c == p.buffer[p.readIndex]
    {
      c := bytes[readIndex];
      readIndex := (readIndex + 1) % BUFF_SIZE;
    }

    method Put(ghost p: Pipe, c: char)
      requires Holds(p)
      modifies this`writeIndex, bytes
      ensures Holds(p.(buffer := p.buffer[p.writeIndex := c], writeIndex := (p.writeIndex + 1) % BUFF_SIZE))
    {
      bytes[writeIndex] := c;
      writeIndex := (writeIndex + 1) % BUFF_SIZE;
    }
  }

  /** An open pipe, with the kernel around it. The ghost field holds the state as Piping sees it. */
  class OpenPipe {
    const lockR: nat
    const lockW: nat
    const buffer: Buffer
    const table: Semaphores.Table
    ghost var st: State

    ghost predicate Base()
      reads this, buffer, buffer.bytes
      reads table, table.Nodes(), table.Arrays(), table.kernel, table.kernel.Nodes(), table.kernel.Held()
    {
      && table.Valid() && table.W() == st.w
      && buffer.Holds(st.pipe) && st.pipe.lockR == lockR && st.pipe.lockW == lockW
    }

    ghost predicate Valid()
      reads this, buffer, buffer.bytes
      reads table, table.Nodes(), table.Arrays(), table.kernel, table.kernel.Nodes(), table.kernel.Held()
    {
      Base() && PipeInv(st)
    }

    /** A pipe on two new semaphores. */
    constructor (table: Semaphores.Table, lockR: nat, lockW: nat, buffer: Buffer, ghost w: Signalling.World)
      requires table.Valid() && table.W() == Opened(w, lockR, lockW, "").w
      requires Signalling.JointInv(w) && !Signalling.Exists(w, lockR) && !Signalling.Exists(w, lockW) && lockR != lockW
      requires buffer.bytes.Length == BUFF_SIZE && buffer.readIndex == buffer.writeIndex == 0
      ensures Valid() && this.table == table && this.buffer == buffer
      ensures st == Opened(w, lockR, lockW, buffer.bytes[..])
    {
      hide PipeInv, Signalling.JointInv, Signalling.Exists, Opened, LocksOpen, Semaphores.Table.Valid;
      OpenedKeepsInv(w, lockR, lockW, buffer.bytes[..]);
      OpenedIs(w, lockR, lockW, buffer.bytes[..]);
      this.table, this.lockR, this.lockW, this.buffer := table, lockR, lockW, buffer;
      st := Opened(w, lockR, lockW, buffer.bytes[..]);
      new;
      Apart();
    }

    /** The kernel around the pipe does not use the object. */
    ghost predicate Ours(o: object)
      reads table, table.kernel
    {
      o != table && o !in table.Nodes() && o !in table.Arrays() &&
      o != table.kernel && o !in table.kernel.Nodes() && o !in table.kernel.Held()
    }

    /** The objects the kernel around the pipe uses. */
    ghost function Footprint():
        (set<Semaphores.Semaphore>, set<array<nat>>, set<Scheduler.ProcessNode>, set<Scheduler.ProcessNode>)
      reads table, table.kernel
    {
      (table.Nodes(), table.Arrays(), table.kernel.Nodes(), table.kernel.Held())
    }

    lemma Locks()
      requires Base()
      ensures lockR == st.pipe.lockR && lockW == st.pipe.lockW
    {}

    lemma Apart()
      ensures Ours(this) && Ours(buffer) && Ours(buffer.bytes)
    {}

    /** sWait on a lock, next to which the pipe stands still. */
    method Wait(id: nat) returns (blocked: bool)
      requires Base() && Signalling.MayWait(st.w, id)
      modifies this`st, table`sems, table`asleep, table.Nodes(), table.Arrays()
      modifies table.kernel, table.kernel.Nodes(), table.kernel.Held()
      ensures Base() && st == old(st).(w := Signalling.Take(old(st).w, id)) && blocked == !Passes(old(st).w, id)
      ensures !blocked ==> Footprint() == old(Footprint())
    {
      Apart();
      hide Semaphores.Table.Valid, Buffer.Holds;
      st := st.(w := Signalling.Take(st.w, id));
      var _, b := table.Wait(id);
      blocked := b;
    }

    /** sPost on lockR, next to which the pipe stands still. */
    method PostLockR()
      requires Base()
      modifies this`st, table`sems, table`asleep, table.Nodes(), table.Arrays()
      modifies table.kernel, table.kernel.Nodes(), table.kernel.Held()
      ensures Base() && st == PostR(old(st)) && Footprint() == old(Footprint())
    {
      Apart();
      hide Semaphores.Table.Valid, Buffer.Holds, Signalling.Post, FirstWaiter;
      st := PostR(st);
      var _ := table.Post(lockR);
    }

    /** sPost on lockW. */
    method PostLockW()
      requires Base()
      modifies this`st, table`sems, table`asleep, table.Nodes(), table.Arrays()
      modifies table.kernel, table.kernel.Nodes(), table.kernel.Held()
      ensures Base() && st == PostW(old(st)) && Footprint() == old(Footprint())
    {
      Apart();
      hide Semaphores.Table.Valid, Buffer.Holds, Signalling.Post, FirstWaiter;
      st := PostW(st);
      var _ := table.Post(lockW);
    }

    method TakeByte() returns (c: char)
      requires Base()
      modifies this`st, buffer`readIndex
      ensures Base() && st == Piping.TakeByte(old(st)) && st.got == old(st).got + [c]
    {
      Apart();
      hide Semaphores.Table.Valid;
      c := buffer.Get(st.pipe);
      st := Piping.TakeByte(st);
    }

    method GiveByte(c: char, ghost pid: nat)
      requires Of(st.todo, pid) != "" && c == Of(st.todo, pid)[0] && Base()
      modifies this`st, buffer`writeIndex, buffer.bytes
      ensures Base() && st == Piping.GiveByte(old(st), pid)
    {
      Apart();
      hide Semaphores.Table.Valid;
      buffer.Put(st.pipe, c);
      st := Piping.GiveByte(st, pid);
    }

    /** pRead after its sWait. */
    method Get() returns (c: char)
      requires Base()
      modifies this`st, table`sems, table`asleep, table.Nodes(), table.Arrays()
      modifies table.kernel, table.kernel.Nodes(), table.kernel.Held()
      modifies buffer`readIndex
      ensures Base() && st == Piping.Get(old(st)) && st.got == old(st).got + [c]
    {
      c := TakeByte();
      hide Base, Piping.TakeByte;
      PostLockW();
    }

    /** putCharPipeByIdx after its sWait. */
    method Put(c: char, ghost pid: nat)
      requires Of(st.todo, pid) != "" && c == Of(st.todo, pid)[0] && Base()
      modifies this`st, table`sems, table`asleep, table.Nodes(), table.Arrays()
      modifies table.kernel, table.kernel.Nodes(), table.kernel.Held()
      modifies buffer`writeIndex, buffer.bytes
      ensures Base() && st == Piping.Put(old(st), pid) && Footprint() == old(Footprint())
    {
      GiveByte(c, pid);
      hide Base, Piping.GiveByte, PostR;
      PostLockR();
    }

    /** pRead, up to where it ends or blocks. */
    method Read() returns (blocked: bool, c: char)
      requires Valid() && Enabled(st, Event.Read) && Roomy(st, Event.Read)
      modifies this`st, table`sems, table`asleep, table.Nodes(), table.Arrays()
      modifies table.kernel, table.kernel.Nodes(), table.kernel.Held()
      modifies buffer`readIndex
      ensures Valid() && st == Next(old(st), Event.Read) && blocked == !Passes(old(st).w, lockR)
      ensures blocked <==> Unread(old(st)) <= |old(st).readers|
      ensures if blocked then Sleeps(old(st), st, lockR)
              else ByteRead(old(st), st) && st.got == old(st).got + [c] && st.readers == old(st).readers
    {
      hide Base, PipeInv, Sleeps, ByteRead;
      Locks();
      ReadKeepsInv(st);
      ReadDoes(st);
      c := ' ';
      blocked := Wait(lockR);
      if !blocked {
        c := Get();
      }
    }

    /** pRead, from where it blocked. */
    method ReadOn() returns (c: char)
      requires st.w.sched.current.Running? && Enabled(st, Event.ReadOn) && Valid()
      modifies this`st, table`sems, table`asleep, table.Nodes(), table.Arrays()
      modifies table.kernel, table.kernel.Nodes(), table.kernel.Held()
      modifies buffer`readIndex
      ensures Valid() && st == Next(old(st), Event.ReadOn) && st.got == old(st).got + [c]
      ensures ByteRead(old(st), st) && st.readers == old(st).readers - {Caller(old(st))}
    {
      hide Base, PipeInv, Enabled, Next, Piping.Get, ByteRead;
      ReadOnKeepsInv(st);
      ReadOnDoes(st);
      ReadOnIs(st);
      Note(st.(readers := st.readers - {Caller(st)}));
      c := Get();
    }

    ghost method Note(st': State)
      requires Base() && st'.w == st.w && st'.pipe == st.pipe
      modifies this`st
      ensures Base() && st == st'
    {
      Apart();
      hide Semaphores.Table.Valid, Buffer.Holds;
      st := st';
    }

    /** putCharPipeByIdx, up to where it ends or blocks. */
    method PutChar(c: char, ghost pid: nat) returns (blocked: bool)
      requires st.w.sched.current.Running? && pid == Caller(st) && Of(st.todo, pid) != "" && c == Of(st.todo, pid)[0]
      requires Valid() && Enabled(st, Event.Write) && Roomy(st, Event.Write)
      modifies this`st, table`sems, table`asleep, table.Nodes(), table.Arrays()
      modifies table.kernel, table.kernel.Nodes(), table.kernel.Held()
      modifies buffer`writeIndex, buffer.bytes
      ensures Valid() && st == Next(old(st), Event.Write) && blocked == !Passes(old(st).w, lockW)
      ensures blocked <==> BUFF_SIZE - Unread(old(st)) <= |old(st).writers|
      ensures if blocked then Sleeps(old(st), st, lockW)
              else ByteWritten(old(st), st, pid) && st.writers == old(st).writers
      ensures !blocked ==> Footprint() == old(Footprint())
    {
      hide Base, PipeInv, Of, WriteStep, Sleeps, ByteWritten;
      Locks();
      WriteKeepsInv(st);
      WriteDoes(st);
      blocked := WaitAndPut(c, pid);
    }

    method WaitAndPut(c: char, ghost pid: nat) returns (blocked: bool)
      requires st.w.sched.current.Running? && Of(st.todo, pid) != "" && c == Of(st.todo, pid)[0]
      requires InBounds(st) && Signalling.MayWait(st.w, st.pipe.lockW) && Base()
      modifies this`st, table`sems, table`asleep, table.Nodes(), table.Arrays()
      modifies table.kernel, table.kernel.Nodes(), table.kernel.Held()
      modifies buffer`writeIndex, buffer.bytes
      ensures st == WriteStep(old(st), pid) && blocked == !Passes(old(st).w, lockW) && Base()
      ensures !blocked ==> Footprint() == old(Footprint())
    {
      hide Base, Piping.Put, Of, Signalling.Take, Passes, Signalling.MayWait;
      Locks();
      blocked := Wait(lockW);
      if !blocked {
        Put(c, pid);
      }
    }

    /** putCharPipeByIdx, from where it blocked. */
    method PutCharOn(c: char, ghost pid: nat)
      requires st.w.sched.current.Running? && pid == Caller(st) && Of(st.todo, pid) != "" && c == Of(st.todo, pid)[0]
      requires Valid() && Enabled(st, Event.WriteOn)
      modifies this`st, table`sems, table`asleep, table.Nodes(), table.Arrays()
      modifies table.kernel, table.kernel.Nodes(), table.kernel.Held()
      modifies buffer`writeIndex, buffer.bytes
      ensures Valid() && st == Next(old(st), Event.WriteOn)
      ensures ByteWritten(old(st), st, pid) && st.writers == old(st).writers - {pid}
    {
      hide Base, PipeInv, Enabled, Next, Piping.Put, Of, ByteWritten;
      WriteOnKeepsInv(st);
      WriteOnDoes(st);
      WriteOnIs(st);
      Note(st.(writers := st.writers - {pid}));
      Put(c, pid);
    }

    /** One turn of the loop of pWrite. */
    method PutNext(c: char, ghost pid: nat, ghost rest: string) returns (blocked: bool)
      requires Valid() && Going(st, pid, rest) && rest != "" && c == rest[0]
      modifies this`st, table`sems, table`asleep, table.Nodes(), table.Arrays()
      modifies table.kernel, table.kernel.Nodes(), table.kernel.Held()
      modifies buffer`writeIndex, buffer.bytes
      ensures Valid() && Enabled(old(st), Event.Write) && Roomy(old(st), Event.Write) &&
              st == Next(old(st), Event.Write)
      ensures if blocked then pid in st.w.asleep else Going(st, pid, rest[1..]) && Footprint() == old(Footprint())
    {
      hide PipeInv, Enabled, Next, Base, Of;
      Locks();
      GoingOn(st, pid, rest);
      blocked := PutChar(c, pid);
    }

    ghost method Begin(str: string, pid: nat)
      requires Enabled(st, BeginWrite(str)) && pid == Caller(st) && Signalling.MayWait(st.w, lockW) && Valid()
      modifies this`st
      ensures st == Next(old(st), BeginWrite(str)) && Going(st, pid, str) && Valid()
    {
      hide PipeInv, Enabled, Next, Base;
      Locks();
      BeginGoing(st, str);
      BeginFrame(st, str);
      Note(Next(st, BeginWrite(str)));
    }

    /** pWrite, up to where it ends or blocks: a run of putCharPipeByIdx that nobody comes between. What
        is left of the string when it blocks is written by putCharPipeByIdx calls later. */
    method PWrite(str: string) returns (blocked: bool, ghost n: nat)
      requires Enabled(st, BeginWrite(str)) && Signalling.MayWait(st.w, lockW) && Valid()
      modifies this`st, table`sems, table`asleep, table.Nodes(), table.Arrays()
      modifies table.kernel, table.kernel.Nodes(), table.kernel.Held()
      modifies buffer`writeIndex, buffer.bytes
      ensures LegalRun(Next(old(st), BeginWrite(str)), Writes(n))
      ensures st == After(Next(old(st), BeginWrite(str)), Writes(n))
      ensures if blocked then 0 < n <= |str| && Caller(old(st)) in st.w.asleep
              else n == |str| && Of(st.todo, Caller(old(st))) == ""
      ensures Valid()
    {
      ghost var pid := Caller(st);
      Begin(str, pid);
      hide Valid, Enabled, Next;
      blocked, n := WriteAll(str, pid);
    }

    /** The loop of pWrite. */
    method WriteAll(str: string, ghost pid: nat) returns (blocked: bool, ghost n: nat)
      requires Valid() && Going(st, pid, str)
      modifies this`st, table`sems, table`asleep, table.Nodes(), table.Arrays()
      modifies table.kernel, table.kernel.Nodes(), table.kernel.Held()
      modifies buffer`writeIndex, buffer.bytes
      ensures Valid() && LegalRun(old(st), Writes(n)) && st == After(old(st), Writes(n))
      ensures if blocked then 0 < n <= |str| && pid in st.w.asleep else n == |str| && Of(st.todo, pid) == ""
    {
      hide Valid, Enabled, Roomy, PipeInv, Of, Next, Signalling.MayWait, LegalRun, After;
      ghost var st0 := st;
      WritesNone(st0);
      var i: nat := 0;
      n, blocked := 0, false;
      while i < |str| && !blocked
        invariant i <= |str| && n == i && Valid()
        invariant LegalRun(st0, Writes(n)) && st == After(st0, Writes(n))
        invariant !blocked ==> Going(st, pid, str[i..]) && Footprint() == old(Footprint())
        invariant blocked ==> n > 0 && pid in st.w.asleep
        decreases |str| - i, !blocked
      {
        blocked := PutNext(str[i], pid, str[i..]);
        OneMoreWrite(st0, n);
        i, n := i + 1, n + 1;
      }
    }
  }

  /** newPipe as far as the locks go: the next two semaphore ids, which nobody uses. */
  method OpenLocks(table: Semaphores.Table, semId: nat)
    requires table.Valid() && semId + 1 < Signalling.WORD
    modifies table`semaphores, table`nodes, table`sems, table.Nodes()
    ensures table.Valid() && table.W() == Opened(old(table.W()), semId, semId + 1, "").w
  {
    hide Signalling.JointInv, Signalling.Open, Semaphores.Table.Base;
    var lockR := table.Open(semId, 0);
    var lockW := table.Open(semId + 1, BUFF_SIZE);
  }
}
