/** phylo.c: philosophers on a ring that grows, in steps between which the processor may go to anyone.
    A process that is blocked on a semaphore is one that stands in its list, as Signalling proves, so
    the scheduler is left out here: whoever is not blocked may make the next step. */
module Philosophers {
  import opened Signalling

  const MAX_PHILOS: nat := 8

  datatype Mood = THINKING | EATING | HUNGRY

  /** struct Philosopher. */
  datatype Seat = Seat(mood: Mood, sem: Sem)

  /** What is done under the table mutex: a mood is set, a philosopher is tested, and, when the test
      succeeds, starts eating and is posted; or a philosopher is added. */
  datatype Micro =
    | SetMood(k: nat, mood: Mood)
    | Test(k: nat)
    | TestLeft(k: nat)
    | TestRight(k: nat)
    | Eat(k: nat)
    | Give(k: nat)
    | Grow

  /** takeForks, placeForks, addPhilosopher, and the display, which only looks. */
  datatype Job = Take | Place | Add | Look

  /** Where a process is: before sWait(tableMutex), blocked there, at work under the mutex with what is
      left to do, before sWait on its own semaphore, or blocked there. */
  datatype Phase = Outside(job: Job) | Lining(job: Job) | Working(job: Job, script: seq<Micro>) | AtSem | InSem

  /** The table. Process 0 adds philosophers, process 1 displays them, process 2 + k is philosopher k.
      `initial` is what the semaphore of a new philosopher starts at, which is 1. */
  datatype State = State(table: Sem, seats: seq<Seat>, actors: seq<Phase>, initial: nat)

  // ----- the ring -----

  function Right(k: nat, n: nat): (r: nat)
    requires n > 0
    ensures r < n
  {
    (k + 1) % n
  }

  function Left(k: nat, n: nat): (r: nat)
    requires n > 0
    ensures r < n
  {
    (k + n - 1) % n
  }

  /** Where the wrap-around is written out. */
  lemma RingStep(k: nat, n: nat)
    requires k < n
    ensures Right(k, n) == if k + 1 == n then 0 else k + 1
    ensures Left(k, n) == if k == 0 then n - 1 else k - 1
  {}

  predicate Eats(seats: seq<Seat>, k: nat) {
    k < |seats| && seats[k].mood == EATING
  }

  /** The condition of test. */
  predicate CanEat(seats: seq<Seat>, k: nat)
    requires k < |seats|
  {
    && seats[k].mood == HUNGRY
    && !Eats(seats, Left(k, |seats|)) && !Eats(seats, Right(k, |seats|))
  }

  // ----- one step -----

  function Script(a: nat, job: Job): seq<Micro> {
    match job
    case Take => if a >= 2 then [SetMood(a - 2, HUNGRY), Test(a - 2)] else []
    case Place => if a >= 2 then [SetMood(a - 2, THINKING), TestLeft(a - 2), TestRight(a - 2)] else []
    case Add => [Grow]
    case Look => []
  }

  /** Where a process goes on after sPost(tableMutex). */
  function Then(job: Job): Phase {
    match job
    case Take => AtSem
    case Place => Outside(Take)
    case Add => Outside(Add)
    case Look => Outside(Look)
  }

  /** The philosopher a test is about. */
  function Tested(m: Micro, n: nat): nat
    requires n > 0 && (m.Test? || m.TestLeft? || m.TestRight?)
  {
    match m
    case Test(k) => k
    case TestLeft(k) => Left(k, n)
    case TestRight(k) => Right(k, n)
  }

  predicate IsTest(m: Micro) {
    m.Test? || m.TestLeft? || m.TestRight?
  }

  datatype Event =
    | Lock(a: nat)
    | Wake(a: nat)
    | Work(a: nat)
    | Unlock(a: nat)
    | WaitOwn(a: nat)
    | WakeOwn(a: nat)

  predicate Enabled(st: State, e: Event) {
    && e.a < |st.actors|
    && var p := st.actors[e.a];
       match e
       case Lock(a) => p.Outside? && (p.job == Add ==> |st.seats| < MAX_PHILOS)
       case Wake(a) => p.Lining? && a !in st.table.waiters
       case Work(a) => p.Working? && p.script != [] && InRange(p.script[0], |st.seats|)
       case Unlock(a) => p.Working? && p.script == []
       case WaitOwn(a) => p.AtSem? && 2 <= a < 2 + |st.seats|
       case WakeOwn(a) => p.InSem? && 2 <= a < 2 + |st.seats| && a !in st.seats[a - 2].sem.waiters
  }

  predicate InRange(m: Micro, n: nat) {
    m.Grow? || m.k < n
  }

  /** The new seat: its semaphore is new. */
  function NewSeat(n: nat, initial: nat): Seat {
    Seat(THINKING, NewSem(1000 + n, initial))
  }

  function DoMicro(st: State, a: nat): State
    requires Enabled(st, Work(a))
  {
    var Working(job, script) := st.actors[a];
    var seats, n, rest := st.seats, |st.seats|, script[1..];
    match script[0]
    case SetMood(k, mood) =>
      st.(seats := seats[k := seats[k].(mood := mood)], actors := st.actors[a := Working(job, rest)])
    case Eat(k) =>
      st.(seats := seats[k := seats[k].(mood := EATING)], actors := st.actors[a := Working(job, rest)])
    case Give(k) =>
      st.(seats := seats[k := seats[k].(sem := Release(seats[k].sem))], actors := st.actors[a := Working(job, rest)])
    case Grow =>
      st.(seats := seats + [NewSeat(n, st.initial)], actors := st.actors[a := Working(job, rest)] + [Outside(Take)])
    case _ =>
      var k := Tested(script[0], n);
      st.(actors := st.actors[a := Working(job, if k < n && CanEat(seats, k) then [Eat(k), Give(k)] + rest else rest)])
  }

  function Next(st: State, e: Event): State
    requires Enabled(st, e)
  {
    match e
    case Lock(a) =>
      var job := st.actors[a].job;
      st.(table := Acquire(st.table, a),
          actors := st.actors[a := if st.table.value > 0 then Working(job, Script(a, job)) else Lining(job)])
    case Wake(a) =>
      var job := st.actors[a].job;
      st.(actors := st.actors[a := Working(job, Script(a, job))])
    case Work(a) => DoMicro(st, a)
    case Unlock(a) => st.(table := Release(st.table), actors := st.actors[a := Then(st.actors[a].job)])
    case WaitOwn(a) =>
      var s := st.seats[a - 2].sem;
      st.(seats := st.seats[a - 2 := st.seats[a - 2].(sem := Acquire(s, a))],
          actors := st.actors[a := if s.value > 0 then Outside(Place) else InSem])
    case WakeOwn(a) => st.(actors := st.actors[a := Outside(Place)])
  }

  // ----- the invariant -----

  /** The process has the table mutex, or was handed it and does not know yet. */
  predicate HasMutex(p: Phase, a: nat, waiters: seq<nat>) {
    p.Working? || (p.Lining? && a !in waiters)
  }

  ghost predicate Mutex(table: Sem, actors: seq<Phase>) {
    && table.value <= 1 && (table.value > 0 ==> table.waiters == []) && NoRepeats(table.waiters)
    && (forall a | a in table.waiters :: a < |actors| && actors[a].Lining?)
    && (forall a: nat, b: nat | a < |actors| && b < |actors| && a != b && HasMutex(actors[a], a, table.waiters) ::
          !HasMutex(actors[b], b, table.waiters))
    && (table.value == 1 <==> forall a: nat | a < |actors| :: !HasMutex(actors[a], a, table.waiters))
  }

  /** What a process may have left to do under the mutex. */
  predicate ScriptOk(a: nat, job: Job, script: seq<Micro>, n: nat) {
    match job
    case Add => script == [Grow] || script == []
    case Look => script == []
    case Take =>
      && 2 <= a < 2 + n
      && var k := a - 2;
         script in [[SetMood(k, HUNGRY), Test(k)], [Test(k)], [Eat(k), Give(k)], [Give(k)], []]
    case Place =>
      && 2 <= a < 2 + n
      && var k, l, r := a - 2, Left(a - 2, n), Right(a - 2, n);
         script in [[SetMood(k, THINKING), TestLeft(k), TestRight(k)], [TestLeft(k), TestRight(k)],
                    [Eat(l), Give(l), TestRight(k)], [Give(l), TestRight(k)], [TestRight(k)],
                    [Eat(r), Give(r)], [Give(r)], []]
  }

  predicate PhaseOk(a: nat, p: Phase, n: nat) {
    match p
    case Outside(job) => JobOk(a, job)
    case Lining(job) => JobOk(a, job)
    case Working(job, script) => JobOk(a, job) && ScriptOk(a, job, script, n)
    case _ => a >= 2
  }

  predicate JobOk(a: nat, job: Job) {
    match job
    case Add => a == 0
    case Look => a == 1
    case _ => a >= 2
  }

  ghost predicate Shape(st: State) {
    && |st.actors| == 2 + |st.seats|
    && forall a: nat | a < |st.actors| :: PhaseOk(a, st.actors[a], |st.seats|)
  }

  /** The next thing the process with the mutex does is m. */
  ghost predicate Pending(actors: seq<Phase>, m: Micro) {
    exists a: nat :: a < |actors| && actors[a].Working? && actors[a].script != [] && actors[a].script[0] == m
  }

  /** No two different neighbours eat. */
  ghost predicate NeighboursApart(seats: seq<Seat>) {
    forall k: nat, r: nat | k < |seats| && r == Right(k, |seats|) && r != k :: !(Eats(seats, k) && Eats(seats, r))
  }

  ghost predicate Peace(seats: seq<Seat>, actors: seq<Phase>) {
    && NeighboursApart(seats)
    && (forall k: nat | Pending(actors, Eat(k)) :: k < |seats| && CanEat(seats, k))
    && (forall k: nat | Pending(actors, Give(k)) :: Eats(seats, k))
  }

  /** The philosopher has not passed its own semaphore since it last set out to eat. */
  predicate BeforeWait(p: Phase, s: Sem) {
    match p
    case Outside(job) => job == Take
    case Lining(job) => job == Take
    case Working(job, _) => job == Take
    case AtSem => true
    case InSem => s.waiters != []
  }

  /** It has put its forks down, or not said yet that it is hungry. */
  predicate IsThinking(p: Phase) {
    match p
    case Outside(job) => job == Take
    case Lining(job) => job == Take
    case Working(job, script) =>
      if job == Take then script != [] && script[0].SetMood? else job == Place && (script == [] || !script[0].SetMood?)
    case _ => false
  }

  /** A philosopher that eats was posted once, but for the post that is still to come. */
  function Credit(seat: Seat, pending: bool): nat {
    if seat.mood == EATING && !pending then 1 else 0
  }

  /** A philosopher that has passed its semaphore has taken a token from it, and has not put the forks
      down yet. */
  function Charge(seat: Seat, p: Phase): nat {
    if BeforeWait(p, seat.sem) || seat.mood == THINKING then 0 else 1
  }

  /** It eats, was posted, and has yet to take the token. */
  predicate Fed(seat: Seat, p: Phase, pending: bool) {
    seat.mood == EATING && !pending && BeforeWait(p, seat.sem)
  }

  predicate SemOk(seat: Seat, p: Phase, a: nat, pending: bool) {
    var s := seat.sem;
    && (s.waiters == [] || (s.waiters == [a] && p.InSem? && s.value == 0))
    && (IsThinking(p) ==> seat.mood == THINKING)
    && s.value + Charge(seat, p) <= s.history.initial + Credit(seat, pending)
    && (Fed(seat, p, pending) && s.history.initial + 1 < WORD ==> s.value > 0)
  }

  ghost predicate Bounds(seats: seq<Seat>, actors: seq<Phase>) {
    forall k: nat, a: nat | k < |seats| && a == k + 2 && a < |actors| ::
      SemOk(seats[k], actors[a], a, Pending(actors, Give(k)))
  }

  ghost predicate TableInv(st: State) {
    Shape(st) && Mutex(st.table, st.actors) && Peace(st.seats, st.actors) && Bounds(st.seats, st.actors)
  }

  // ----- the mutex -----

  /** A process changes its phase, keeping the mutex or staying without it. */
  lemma MutexKept(table: Sem, actors: seq<Phase>, a: nat, p: Phase)
    requires Mutex(table, actors) && a < |actors| && a !in table.waiters
    requires (p.Working? || p.Lining?) == HasMutex(actors[a], a, table.waiters)
    ensures Mutex(table, actors[a := p])
  {
    var r := actors[a := p];
    assert forall b: nat | b < |r| :: HasMutex(r[b], b, table.waiters) == HasMutex(actors[b], b, table.waiters);
  }

  lemma MutexTaken(table: Sem, actors: seq<Phase>, a: nat, p: Phase)
    requires Mutex(table, actors) && a < |actors| && table.value == 1 && p.Working?
    ensures Mutex(Acquire(table, a), actors[a := p])
  {
    assert HasMutex(actors[a := p][a], a, table.waiters);
  }

  lemma MutexBlocked(table: Sem, actors: seq<Phase>, a: nat, p: Phase)
    requires Mutex(table, actors) && a < |actors| && table.value == 0 && actors[a].Outside? && p.Lining?
    ensures Mutex(Acquire(table, a), actors[a := p])
  {
    var r, t := actors[a := p], Acquire(table, a);
    assert a !in table.waiters;
    assert forall b: nat | b < |r| :: HasMutex(r[b], b, t.waiters) == HasMutex(actors[b], b, table.waiters);
    assert forall b | b in t.waiters :: b in table.waiters || b == a;
  }

  lemma MutexReleased(table: Sem, actors: seq<Phase>, a: nat, p: Phase)
    requires Mutex(table, actors) && a < |actors| && actors[a].Working? && (p.Outside? || p.AtSem?)
    ensures Mutex(Release(table), actors[a := p])
  {
    var r, t := actors[a := p], Release(table);
    assert HasMutex(actors[a], a, table.waiters);
    assert table.value == 0;
    assert forall b: nat | b < |r| && b != a :: !HasMutex(actors[b], b, table.waiters);
    if table.waiters != [] {
      FirstLeaves(table.waiters);
      var h := table.waiters[0];
      assert h in table.waiters;
      assert HasMutex(r[h], h, t.waiters);
    }
  }

  lemma MutexGrown(table: Sem, actors: seq<Phase>, p: Phase)
    requires Mutex(table, actors) && p.Outside?
    ensures Mutex(table, actors + [p])
  {
    var r := actors + [p];
    assert forall b: nat | b < |actors| :: HasMutex(r[b], b, table.waiters) == HasMutex(actors[b], b, table.waiters);
  }

  /** While a process works under the mutex, no other does. */
  lemma OnlyWorker(st: State, a: nat)
    requires Mutex(st.table, st.actors) && a < |st.actors| && st.actors[a].Working?
    ensures forall b: nat | b < |st.actors| && b != a :: !st.actors[b].Working?
    ensures a !in st.table.waiters
  {
    assert HasMutex(st.actors[a], a, st.table.waiters);
    assert forall b: nat | b < |st.actors| && b != a :: !HasMutex(st.actors[b], b, st.table.waiters);
  }

  // ----- phases -----

  /** What the process does next, if it is at work. */
  predicate Heads(p: Phase, m: Micro) {
    p.Working? && p.script != [] && p.script[0] == m
  }

  /** What is pending is what the only worker does next. */
  lemma PendingIs(actors: seq<Phase>, a: nat, m: Micro)
    requires a < |actors| && forall b: nat | b < |actors| && b != a :: !actors[b].Working?
    ensures Pending(actors, m) <==> actors[a].Working? && actors[a].script != [] && actors[a].script[0] == m
  {}

  /** A process changes its phase, with nothing pending before or after. */
  lemma PhaseMove(st: State, a: nat, p: Phase)
    requires Shape(st) && Peace(st.seats, st.actors) && Bounds(st.seats, st.actors) && a < |st.actors|
    requires PhaseOk(a, p, |st.seats|)
    requires forall k: nat :: Pending(st.actors[a := p], Eat(k)) ==> Pending(st.actors, Eat(k))
    requires forall k: nat :: Pending(st.actors[a := p], Give(k)) <==> Pending(st.actors, Give(k))
    requires 2 <= a ==> SemOk(st.seats[a - 2], p, a, Pending(st.actors, Give(a - 2)))
    ensures var st' := st.(actors := st.actors[a := p]);
            Shape(st') && Peace(st'.seats, st'.actors) && Bounds(st'.seats, st'.actors)
  {
    hide Pending, CanEat, SemOk, Eats;
  }

  /** The same, where the process is not at work and does not start with a test. */
  lemma QuietMove(st: State, a: nat, p: Phase)
    requires Shape(st) && Peace(st.seats, st.actors) && Bounds(st.seats, st.actors) && a < |st.actors|
    requires PhaseOk(a, p, |st.seats|)
    requires st.actors[a].Working? ==> st.actors[a].script == []
    requires p.Working? ==> p.script == [] || p.script[0].SetMood? || p.script[0].Grow?
    requires 2 <= a ==> SemOk(st.seats[a - 2], p, a, Pending(st.actors, Give(a - 2)))
    ensures var st' := st.(actors := st.actors[a := p]);
            Shape(st') && Peace(st'.seats, st'.actors) && Bounds(st'.seats, st'.actors)
  {
    forall m: Micro | m.Eat? || m.Give? ensures Pending(st.actors[a := p], m) <==> Pending(st.actors, m) {
      QuietPending(st.actors, a, p, m);
    }
    hide Pending, CanEat, SemOk, Eats, Shape, Peace, Bounds;
    PhaseMove(st, a, p);
  }

  lemma QuietPending(actors: seq<Phase>, a: nat, p: Phase, m: Micro)
    requires a < |actors| && (m.Eat? || m.Give?)
    requires actors[a].Working? ==> actors[a].script == []
    requires p.Working? ==> p.script == [] || p.script[0].SetMood? || p.script[0].Grow?
    ensures Pending(actors[a := p], m) <==> Pending(actors, m)
  {
    var r := actors[a := p];
    if Pending(actors, m) {
      var b: nat :| b < |actors| && actors[b].Working? && actors[b].script != [] && actors[b].script[0] == m;
      assert r[b] == actors[b];
    }
    if Pending(r, m) {
      var b: nat :| b < |r| && r[b].Working? && r[b].script != [] && r[b].script[0] == m;
      assert r[b] == actors[b];
    }
  }

  /** The philosopher's semaphore at the phases of its process. */
  lemma SemAtPhase(st: State, a: nat)
    requires Shape(st) && Bounds(st.seats, st.actors) && 2 <= a < |st.actors|
    ensures SemOk(st.seats[a - 2], st.actors[a], a, Pending(st.actors, Give(a - 2)))
  {}

  lemma LockKeepsInv(st: State, a: nat)
    requires TableInv(st) && Enabled(st, Lock(a))
    ensures TableInv(Next(st, Lock(a)))
  {
    var job := st.actors[a].job;
    assert PhaseOk(a, st.actors[a], |st.seats|);
    var p := if st.table.value > 0 then Working(job, Script(a, job)) else Lining(job);
    if a >= 2 {
      SemAtPhase(st, a);
    }
    QuietMove(st, a, p);
    if st.table.value > 0 {
      MutexTaken(st.table, st.actors, a, p);
    } else {
      MutexBlocked(st.table, st.actors, a, p);
    }
    hide Mutex, Peace, Bounds, Shape;
    SameTable(Next(st, Lock(a)), st.(actors := st.actors[a := p]));
  }

  /** Shape does not look at the mutex. */
  lemma SameTable(st: State, st': State)
    requires st.actors == st'.actors && st.seats == st'.seats
    ensures Shape(st) == Shape(st')
  {}

  lemma WakeKeepsInv(st: State, a: nat)
    requires TableInv(st) && Enabled(st, Wake(a))
    ensures TableInv(Next(st, Wake(a)))
  {
    var job := st.actors[a].job;
    assert PhaseOk(a, st.actors[a], |st.seats|);
    var p := Working(job, Script(a, job));
    if a >= 2 {
      SemAtPhase(st, a);
    }
    QuietMove(st, a, p);
    MutexKept(st.table, st.actors, a, p);
    hide Mutex, Peace, Bounds, Shape;
  }

  lemma UnlockKeepsInv(st: State, a: nat)
    requires TableInv(st) && Enabled(st, Unlock(a))
    ensures TableInv(Next(st, Unlock(a)))
  {
    assert PhaseOk(a, st.actors[a], |st.seats|);
    var p := Then(st.actors[a].job);
    if a >= 2 {
      SemAtPhase(st, a);
    }
    QuietMove(st, a, p);
    MutexReleased(st.table, st.actors, a, p);
    hide Mutex, Peace, Bounds, Shape;
    SameTable(Next(st, Unlock(a)), st.(actors := st.actors[a := p]));
  }

  // ----- semaphores of the philosophers -----

  /** A change of one semaphore is no matter for who eats. */
  lemma SemsAside(seats: seq<Seat>, seats': seq<Seat>, actors: seq<Phase>)
    requires Peace(seats, actors) && |seats'| == |seats|
    requires forall k: nat | k < |seats| :: seats'[k].mood == seats[k].mood
    ensures Peace(seats', actors)
  {
    assert forall k: nat :: Eats(seats', k) == Eats(seats, k);
    assert forall k: nat | k < |seats| :: CanEat(seats', k) == CanEat(seats, k);
    hide Eats, CanEat, Pending;
  }

  lemma OwnKeepsInv(st: State, e: Event)
    requires TableInv(st) && Enabled(st, e) && (e.WaitOwn? || e.WakeOwn?)
    ensures TableInv(Next(st, e))
  {
    var st', a, k := Next(st, e), e.a, e.a - 2;
    var seat, p := st'.seats[k], st'.actors[a];
    SemAtPhase(st, a);
    OwnQuiet(st, a, p);
    OwnBounds(st, a, p, seat);
    SemsAside(st.seats, st.seats[k := seat], st.actors[a := p]);
    assert st.seats[k := seat] == st'.seats && st.actors[a := p] == st'.actors;
    assert a !in st.table.waiters;
    MutexKept(st.table, st.actors, a, p);
    hide Mutex, Peace, Bounds;
  }

  lemma OwnQuiet(st: State, a: nat, p: Phase)
    requires Shape(st) && Peace(st.seats, st.actors) && 2 <= a < |st.actors| && PhaseOk(a, p, |st.seats|)
    requires !st.actors[a].Working? && !p.Working?
    ensures Shape(st.(actors := st.actors[a := p])) && Peace(st.seats, st.actors[a := p])
    ensures forall m: Micro | m.Eat? || m.Give? :: Pending(st.actors[a := p], m) <==> Pending(st.actors, m)
  {
    forall m: Micro | m.Eat? || m.Give? ensures Pending(st.actors[a := p], m) <==> Pending(st.actors, m) {
      QuietPending(st.actors, a, p, m);
    }
    hide Pending, CanEat, Eats;
  }

  lemma OwnBounds(st: State, a: nat, p: Phase, seat: Seat)
    requires Shape(st) && Bounds(st.seats, st.actors) && 2 <= a < |st.actors|
    requires forall m: Micro | m.Give? :: Pending(st.actors[a := p], m) <==> Pending(st.actors, m)
    requires SemOk(seat, p, a, Pending(st.actors, Give(a - 2)))
    ensures Bounds(st.seats[a - 2 := seat], st.actors[a := p])
  {
    var seats', actors' := st.seats[a - 2 := seat], st.actors[a := p];
    hide SemOk, Pending, Shape, Bounds;
    ShapeSize(st);
    forall j: nat, b: nat | j < |seats'| && b == j + 2 && b < |actors'|
      ensures SemOk(seats'[j], actors'[b], b, Pending(actors', Give(j)))
    {
      SemAtPhase(st, b);
    }
    BoundsIf(seats', actors');
  }

  // ----- work under the mutex -----

  /** A step of the worker: what is pending before and after is at the head of its script. */
  lemma WorkPending(st: State, a: nat, p: Phase)
    requires TableInv(st) && Enabled(st, Work(a)) && p.Working?
    ensures forall m: Micro :: Pending(st.actors, m) <==> Heads(st.actors[a], m)
    ensures forall m: Micro :: Pending(st.actors[a := p], m) <==> Heads(p, m)
    ensures Mutex(st.table, st.actors[a := p]) && a !in st.table.waiters
  {
    OnlyWorker(st, a);
    MutexKept(st.table, st.actors, a, p);
    forall m: Micro
      ensures Pending(st.actors, m) <==> Heads(st.actors[a], m)
      ensures Pending(st.actors[a := p], m) <==> Heads(p, m)
    {
      PendingIs(st.actors, a, m);
      PendingIs(st.actors[a := p], a, m);
    }
  }

  lemma MoodShape(st: State, a: nat)
    requires Shape(st) && Enabled(st, Work(a)) && st.actors[a].script[0].SetMood?
    ensures var Working(job, script) := st.actors[a]; var k := script[0].k;
            && 2 <= a < |st.actors| && k == a - 2 && PhaseOk(a, Working(job, script[1..]), |st.seats|)
            && ((job == Take && script[0].mood == HUNGRY) || (job == Place && script[0].mood == THINKING))
            && |script| > 1 && IsTest(script[1])
  {
    assert PhaseOk(a, st.actors[a], |st.seats|);
  }

  /** Where nobody starts eating, no two neighbours come to eat. */
  lemma FewerEat(seats: seq<Seat>, seats': seq<Seat>)
    requires NeighboursApart(seats) && |seats'| == |seats| && forall k: nat | Eats(seats', k) :: Eats(seats, k)
    ensures NeighboursApart(seats')
  {
    hide Eats;
  }

  lemma MoodKeepsInv(st: State, a: nat)
    requires TableInv(st) && Enabled(st, Work(a)) && st.actors[a].script[0].SetMood?
    ensures TableInv(Next(st, Work(a)))
  {
    var Working(job, script) := st.actors[a];
    var k, p := a - 2, Working(job, script[1..]);
    MoodShape(st, a);
    var seat := st.seats[k].(mood := script[0].mood);
    WorkPending(st, a, p);
    SemAtPhase(st, a);
    FewerEat(st.seats, st.seats[k := seat]);
    MoodBounds(st, a, p, seat);
    assert Next(st, Work(a)) == st.(seats := st.seats[k := seat], actors := st.actors[a := p]);
    hide Mutex, Bounds, NeighboursApart, SemOk, Pending, CanEat;
  }

  lemma MoodBounds(st: State, a: nat, p: Phase, seat: Seat)
    requires Shape(st) && Bounds(st.seats, st.actors) && 2 <= a < |st.actors|
    requires SemOk(seat, p, a, false)
    requires forall m: Micro | m.Give? :: !Pending(st.actors, m) && !Pending(st.actors[a := p], m)
    ensures Bounds(st.seats[a - 2 := seat], st.actors[a := p])
  {
    var seats', actors' := st.seats[a - 2 := seat], st.actors[a := p];
    hide SemOk, Pending, Shape, Bounds;
    ShapeSize(st);
    forall j: nat, b: nat | j < |seats'| && b == j + 2 && b < |actors'|
      ensures SemOk(seats'[j], actors'[b], b, Pending(actors', Give(j)))
    {
      SemAtPhase(st, b);
    }
    BoundsIf(seats', actors');
  }

  /** What may be left to do after a test, whether it succeeds or not. */
  lemma TestTail(a: nat, job: Job, script: seq<Micro>, n: nat)
    requires ScriptOk(a, job, script, n) && script != [] && IsTest(script[0])
    ensures 2 <= a < 2 + n && (script[1..] == [] || IsTest(script[1..][0]))
    ensures Tested(script[0], n) < n && ScriptOk(a, job, script[1..], n)
    ensures ScriptOk(a, job, [Eat(Tested(script[0], n)), Give(Tested(script[0], n))] + script[1..], n)
  {
    var k := a - 2;
    if job == Take {
      assert script == [Test(k)];
      assert script[1..] == [] && [Eat(k), Give(k)] + script[1..] == [Eat(k), Give(k)];
    } else if script[0].TestLeft? {
      var l := Left(k, n);
      assert script == [TestLeft(k), TestRight(k)];
      assert script[1..] == [TestRight(k)] && [Eat(l), Give(l)] + script[1..] == [Eat(l), Give(l), TestRight(k)];
    } else {
      var r := Right(k, n);
      assert script == [TestRight(k)];
      assert script[1..] == [] && [Eat(r), Give(r)] + script[1..] == [Eat(r), Give(r)];
    }
  }

  /** A test: when it succeeds, the philosopher that can eat is about to. */
  lemma TestShape(st: State, a: nat)
    requires Shape(st) && Enabled(st, Work(a)) && IsTest(st.actors[a].script[0])
    ensures |st.seats| > 0 && 2 <= a < |st.actors|
    ensures var Working(job, script) := st.actors[a]; var n := |st.seats|; var k := Tested(script[0], n);
            k < n && PhaseOk(a, Working(job, script[1..]), n) &&
            PhaseOk(a, Working(job, [Eat(k), Give(k)] + script[1..]), n) &&
              (script[1..] == [] || IsTest(script[1..][0]))
  {
    assert PhaseOk(a, st.actors[a], |st.seats|);
    hide ScriptOk;
    TestTail(a, st.actors[a].job, st.actors[a].script, |st.seats|);
  }

  lemma TestKeepsInv(st: State, a: nat)
    requires TableInv(st) && Enabled(st, Work(a)) && IsTest(st.actors[a].script[0])
    ensures TableInv(Next(st, Work(a)))
  {
    var Working(job, script) := st.actors[a];
    hide Mutex, Pending, SemOk, PhaseOk, CanEat, Next, Peace, Bounds, Shape;
    TestShape(st, a);
    var k := Tested(script[0], |st.seats|);
    var p := Working(job, if CanEat(st.seats, k) then [Eat(k), Give(k)] + script[1..] else script[1..]);
    WorkPending(st, a, p);
    SemAtPhase(st, a);
    TestScript(st.seats[a - 2], st.actors[a], p, a);
    TestMove(st, a, p);
    TestNext(st, a);
    hide Enabled;
  }

  lemma TestNext(st: State, a: nat)
    requires Enabled(st, Work(a)) && IsTest(st.actors[a].script[0]) && |st.seats| > 0
    ensures var Working(job, script) := st.actors[a]; var k := Tested(script[0], |st.seats|);
            k < |st.seats| ==>
              Next(st, Work(a)) ==
              st.(actors := st.actors[a := Working(job, if CanEat(st.seats, k) then [Eat(k), Give(k)] + script[1..]
                                                        else script[1..])])
  {
    hide CanEat;
  }

  lemma TestScript(seat: Seat, p: Phase, p': Phase, a: nat)
    requires SemOk(seat, p, a, false) && p.Working? && p.script != [] && IsTest(p.script[0])
    requires p'.Working? && p'.job == p.job && (p'.script == [] || !p'.script[0].SetMood?)
    ensures SemOk(seat, p', a, false)
  {}

  lemma TestMove(st: State, a: nat, p: Phase)
    requires Shape(st) && Peace(st.seats, st.actors) && Bounds(st.seats, st.actors) && 2 <= a < |st.actors|
    requires PhaseOk(a, p, |st.seats|) && p.Working? && SemOk(st.seats[a - 2], p, a, false)
    requires forall m: Micro | m.Give? :: !Pending(st.actors, m) && !Pending(st.actors[a := p], m)
    requires forall k: nat | Pending(st.actors[a := p], Eat(k)) :: k < |st.seats| && CanEat(st.seats, k)
    ensures var st' := st.(actors := st.actors[a := p]);
            Shape(st') && Peace(st'.seats, st'.actors) && Bounds(st'.seats, st'.actors)
  {
    hide Pending, CanEat, SemOk, Eats, PhaseOk;
  }

  /** The one neighbour on each side: k is to the right of its left neighbour only. */
  lemma RightOfLeft(k: nat, j: nat, n: nat)
    requires k < n && j < n && Right(j, n) == k
    ensures j == Left(k, n)
  {
    RingStep(k, n);
    RingStep(j, n);
  }

  /** A philosopher whose neighbours do not eat may start. */
  lemma EatApart(seats: seq<Seat>, k: nat)
    requires NeighboursApart(seats) && k < |seats| && CanEat(seats, k)
    ensures NeighboursApart(seats[k := seats[k].(mood := EATING)])
  {
    var n, r := |seats|, seats[k := seats[k].(mood := EATING)];
    assert forall j: nat | j != k :: Eats(r, j) == Eats(seats, j);
    forall j: nat, i: nat | j < n && i == Right(j, n) && i != j ensures !(Eats(r, j) && Eats(r, i)) {
      if i == k {
        RightOfLeft(k, j, n);
      }
    }
  }

  lemma EatShape(st: State, a: nat)
    requires Shape(st) && Enabled(st, Work(a)) && st.actors[a].script[0].Eat?
    ensures var Working(job, script) := st.actors[a];
            && 2 <= a < |st.actors| && |script| > 1 && script[1] == Give(script[0].k)
            && PhaseOk(a, Working(job, script[1..]), |st.seats|)
  {
    assert PhaseOk(a, st.actors[a], |st.seats|);
    var script, n := st.actors[a].script, |st.seats|;
    if st.actors[a].job == Place && |script| == 3 {
      assert script[1..] == [Give(Left(a - 2, n)), TestRight(a - 2)];
    }
  }

  lemma EatKeepsInv(st: State, a: nat)
    requires TableInv(st) && Enabled(st, Work(a)) && st.actors[a].script[0].Eat?
    ensures TableInv(Next(st, Work(a)))
  {
    var Working(job, script) := st.actors[a];
    var k, p := script[0].k, Working(job, script[1..]);
    hide Next, Mutex, Bounds, SemOk, Pending, Eats, PhaseOk;
    EatShape(st, a);
    WorkPending(st, a, p);
    var seat := st.seats[k].(mood := EATING);
    assert Pending(st.actors, Eat(k));
    EatPeace(st.seats, st.actors[a := p], k);
    EatSem(st, a, p, k, seat);
    EatBounds(st, a, p, k, seat);
    EatNext(st, a);
    hide Enabled, Peace;
  }

  lemma EatPeace(seats: seq<Seat>, actors: seq<Phase>, k: nat)
    requires NeighboursApart(seats) && k < |seats| && CanEat(seats, k)
    requires forall m: Micro | Pending(actors, m) :: m == Give(k)
    ensures Peace(seats[k := seats[k].(mood := EATING)], actors)
  {
    EatApart(seats, k);
    hide NeighboursApart, CanEat, Pending;
  }

  lemma EatNext(st: State, a: nat)
    requires Enabled(st, Work(a)) && st.actors[a].script[0].Eat?
    ensures var Working(job, script) := st.actors[a]; var k := script[0].k;
            Next(st, Work(a)) == st.(seats := st.seats[k := st.seats[k].(mood := EATING)],
                                     actors := st.actors[a := Working(job, script[1..])])
  {}

  lemma EatSem(st: State, a: nat, p: Phase, k: nat, seat: Seat)
    requires Shape(st) && Bounds(st.seats, st.actors) && 2 <= a < |st.actors| && k < |st.seats|
    requires CanEat(st.seats, k) && seat == st.seats[k].(mood := EATING)
    requires st.actors[a].Working? && |st.actors[a].script| > 0
    requires p.Working? && p.job == st.actors[a].job && p.script == st.actors[a].script[1..]
    requires st.actors[a].script[0] == Eat(k) && p.script != [] && p.script[0] == Give(k)
    requires forall m: Micro | m.Give? :: !Pending(st.actors, m)
    ensures var q := if a == k + 2 then p else st.actors[k + 2]; SemOk(seat, q, k + 2, true)
    ensures a != k + 2 ==> SemOk(st.seats[a - 2], p, a, false)
  {
    SemAtPhase(st, a);
    SemAtPhase(st, k + 2);
    hide Bounds, Shape, Pending;
  }

  lemma ShapeSize(st: State)
    requires Shape(st)
    ensures |st.actors| == 2 + |st.seats|
  {}

  lemma BoundsIf(seats: seq<Seat>, actors: seq<Phase>)
    requires forall k: nat, a: nat | k < |seats| && a == k + 2 && a < |actors| ::
               SemOk(seats[k], actors[a], a, Pending(actors, Give(k)))
    ensures Bounds(seats, actors)
  {}

  lemma EatBounds(st: State, a: nat, p: Phase, k: nat, seat: Seat)
    requires Shape(st) && Bounds(st.seats, st.actors) && 2 <= a < |st.actors| && k < |st.seats|
    requires var q := if a == k + 2 then p else st.actors[k + 2]; SemOk(seat, q, k + 2, true)
    requires a != k + 2 ==> SemOk(st.seats[a - 2], p, a, false)
    requires forall m: Micro | m.Give? :: !Pending(st.actors, m) && (Pending(st.actors[a := p], m) <==> m == Give(k))
    ensures Bounds(st.seats[k := seat], st.actors[a := p])
  {
    var seats', actors' := st.seats[k := seat], st.actors[a := p];
    hide SemOk, Pending, Shape, Bounds;
    ShapeSize(st);
    forall j: nat, b: nat | j < |seats'| && b == j + 2 && b < |actors'|
      ensures SemOk(seats'[j], actors'[b], b, Pending(actors', Give(j)))
    {
      SemAtPhase(st, b);
    }
    BoundsIf(seats', actors');
  }

  lemma GiveShape(st: State, a: nat)
    requires Shape(st) && Enabled(st, Work(a)) && st.actors[a].script[0].Give?
    ensures var Working(job, script) := st.actors[a];
            && 2 <= a < |st.actors| && (script[1..] == [] || IsTest(script[1..][0]))
            && PhaseOk(a, Working(job, script[1..]), |st.seats|)
  {
    assert PhaseOk(a, st.actors[a], |st.seats|);
  }

  lemma GiveKeepsInv(st: State, a: nat)
    requires TableInv(st) && Enabled(st, Work(a)) && st.actors[a].script[0].Give?
    ensures TableInv(Next(st, Work(a)))
  {
    var Working(job, script) := st.actors[a];
    var k, p := script[0].k, Working(job, script[1..]);
    hide Next, Mutex, Bounds, SemOk, Pending, Eats, CanEat, PhaseOk, Release;
    GiveShape(st, a);
    WorkPending(st, a, p);
    var seat := st.seats[k].(sem := Release(st.seats[k].sem));
    assert Pending(st.actors, Give(k));
    GivePeace(st.seats, st.actors[a := p], k, seat);
    GiveSem(st, a, p, k, seat);
    GiveBounds(st, a, p, k, seat);
    GiveNext(st, a);
    hide Enabled, Peace;
  }

  lemma GivePeace(seats: seq<Seat>, actors: seq<Phase>, k: nat, seat: Seat)
    requires NeighboursApart(seats) && k < |seats| && seat.mood == seats[k].mood
    requires forall m: Micro | Pending(actors, m) :: IsTest(m)
    ensures Peace(seats[k := seat], actors)
  {
    FewerEat(seats, seats[k := seat]);
    hide NeighboursApart, Pending;
  }

  lemma GiveNext(st: State, a: nat)
    requires Enabled(st, Work(a)) && st.actors[a].script[0].Give?
    ensures var Working(job, script) := st.actors[a]; var k := script[0].k;
            Next(st, Work(a)) == st.(seats := st.seats[k := st.seats[k].(sem := Release(st.seats[k].sem))],
                                     actors := st.actors[a := Working(job, script[1..])])
  {}

  /** The post raises the value, or wakes the philosopher. */
  lemma GiveSem(st: State, a: nat, p: Phase, k: nat, seat: Seat)
    requires Shape(st) && Bounds(st.seats, st.actors) && 2 <= a < |st.actors| && k < |st.seats| && Eats(st.seats, k)
    requires Pending(st.actors, Give(k)) && seat == st.seats[k].(sem := Release(st.seats[k].sem))
    requires st.actors[a].Working? && |st.actors[a].script| > 0
    requires p.Working? && p.job == st.actors[a].job
    requires st.actors[a].script[0] == Give(k) && (p.script == [] || IsTest(p.script[0]))
    requires a != k + 2 ==> !Pending(st.actors, Give(a - 2))
    ensures var q := if a == k + 2 then p else st.actors[k + 2]; SemOk(seat, q, k + 2, false)
    ensures a != k + 2 ==> SemOk(st.seats[a - 2], p, a, false)
  {
    hide Bounds, Shape, Pending, SemOk, Release, IsTest;
    ShapeSize(st);
    SemAtPhase(st, a);
    SemAtPhase(st, k + 2);
    NextScript(st.seats[a - 2], st.actors[a], p, a, a == k + 2);
    var q := if a == k + 2 then p else st.actors[k + 2];
    GivenOk(st.seats[k], q, k + 2);
  }

  lemma GivenOk(seat: Seat, p: Phase, a: nat)
    requires SemOk(seat, p, a, true) && seat.mood == EATING
    ensures SemOk(seat.(sem := Release(seat.sem)), p, a, false)
  {}

  lemma NextScript(seat: Seat, p: Phase, p': Phase, a: nat, pending: bool)
    requires SemOk(seat, p, a, pending) && p.Working? && p.script != [] && p.script[0].Give?
    requires p'.Working? && p'.job == p.job && (p'.script == [] || IsTest(p'.script[0]))
    ensures SemOk(seat, p', a, pending)
  {}

  lemma GiveBounds(st: State, a: nat, p: Phase, k: nat, seat: Seat)
    requires Shape(st) && Bounds(st.seats, st.actors) && 2 <= a < |st.actors| && k < |st.seats|
    requires var q := if a == k + 2 then p else st.actors[k + 2]; SemOk(seat, q, k + 2, false)
    requires a != k + 2 ==> SemOk(st.seats[a - 2], p, a, false)
    requires forall m: Micro | m.Give? :: !Pending(st.actors[a := p], m) && (Pending(st.actors, m) <==> m == Give(k))
    ensures Bounds(st.seats[k := seat], st.actors[a := p])
  {
    var seats', actors' := st.seats[k := seat], st.actors[a := p];
    hide SemOk, Pending, Shape, Bounds;
    ShapeSize(st);
    forall j: nat, b: nat | j < |seats'| && b == j + 2 && b < |actors'|
      ensures SemOk(seats'[j], actors'[b], b, Pending(actors', Give(j)))
    {
      SemAtPhase(st, b);
    }
    BoundsIf(seats', actors');
  }

  lemma GrowKeepsInv(st: State, a: nat)
    requires TableInv(st) && Enabled(st, Work(a)) && st.actors[a].script[0] == Grow
    ensures TableInv(Next(st, Work(a)))
  {
    assert PhaseOk(a, st.actors[a], |st.seats|);
    var p := Working(Add, []);
    hide Mutex, Bounds, NeighboursApart, Pending, CanEat, SemOk, Eats;
    WorkPending(st, a, p);
    OnlyWorker(st, a);
    MutexGrown(st.table, st.actors[a := p], Outside(Take));
    var st' := st.(seats := st.seats + [NewSeat(|st.seats|, st.initial)],
                   actors := st.actors[a := p] + [Outside(Take)]);
    assert st.actors[a].script[1..] == [];
    assert Next(st, Work(a)) == st';
    GrowShape(st, st', a, p);
    GrowApart(st.seats, NewSeat(|st.seats|, st.initial));
    GrowBounds(st, st', a, p);
    GrowPending(st.actors[a := p]);
    hide Shape, PhaseOk;
  }

  lemma GrowPending(actors: seq<Phase>)
    requires forall k: nat :: !Pending(actors, Eat(k)) && !Pending(actors, Give(k))
    ensures forall k: nat :: !Pending(actors + [Outside(Take)], Eat(k)) && !Pending(actors + [Outside(Take)], Give(k))
  {
    forall m: Micro | Pending(actors + [Outside(Take)], m) ensures Pending(actors, m) {
      var r := actors + [Outside(Take)];
      var b: nat :| b < |r| && r[b].Working? && r[b].script != [] && r[b].script[0] == m;
      assert actors[b] == r[b];
    }
  }

  lemma GrowShape(st: State, st': State, a: nat, p: Phase)
    requires Shape(st) && a == 0 && a < |st.actors| && p == Working(Add, [])
    requires forall b: nat | b < |st.actors| && b != a :: !st.actors[b].Working?
    requires |st'.seats| == |st.seats| + 1 && st'.actors == st.actors[a := p] + [Outside(Take)]
    ensures Shape(st')
  {
    hide ScriptOk;
    assert ScriptOk(a, Add, [], |st'.seats|) by { GrowScript(|st'.seats|); }
  }

  lemma GrowScript(n: nat)
    ensures ScriptOk(0, Add, [], n)
  {}

  /** The newcomer, who thinks, comes between the last and the first. */
  lemma GrowApart(seats: seq<Seat>, seat: Seat)
    requires NeighboursApart(seats) && seat.mood == THINKING
    ensures NeighboursApart(seats + [seat])
  {
    var n, r := |seats|, seats + [seat];
    forall k: nat, i: nat | k < |r| && i == Right(k, |r|) && i != k ensures !(Eats(r, k) && Eats(r, i)) {
      RingStep(k, n + 1);
      if k + 1 < n {
        RingStep(k, n);
        assert Eats(r, k) == Eats(seats, k) && Eats(r, i) == Eats(seats, i);
      }
    }
  }

  lemma GrowBounds(st: State, st': State, a: nat, p: Phase)
    requires Shape(st) && Bounds(st.seats, st.actors) && a == 0 && a < |st.actors|
    requires forall k: nat :: !Pending(st.actors, Give(k)) && !Pending(st.actors[a := p], Give(k))
    requires st'.seats == st.seats + [NewSeat(|st.seats|, st.initial)]
    requires st'.actors == st.actors[a := p] + [Outside(Take)]
    requires forall k: nat :: !Pending(st.actors[a := p], Eat(k))
    ensures Bounds(st'.seats, st'.actors)
  {
    GrowPending(st.actors[a := p]);
    assert SemOk(NewSeat(|st.seats|, st.initial), Outside(Take), |st.seats| + 2, false);
    hide SemOk, Pending, PhaseOk;
  }

  lemma WorkKeepsInv(st: State, a: nat)
    requires TableInv(st) && Enabled(st, Work(a))
    ensures TableInv(Next(st, Work(a)))
  {
    match st.actors[a].script[0]
    case SetMood(_, _) => MoodKeepsInv(st, a);
    case Eat(_) => EatKeepsInv(st, a);
    case Give(_) => GiveKeepsInv(st, a);
    case Grow => GrowKeepsInv(st, a);
    case _ => TestKeepsInv(st, a);
  }

  lemma EventKeepsInv(st: State, e: Event)
    requires TableInv(st) && Enabled(st, e)
    ensures TableInv(Next(st, e))
  {
    match e
    case Lock(a) => LockKeepsInv(st, a);
    case Wake(a) => WakeKeepsInv(st, a);
    case Work(a) => WorkKeepsInv(st, a);
    case Unlock(a) => UnlockKeepsInv(st, a);
    case WaitOwn(a) => OwnKeepsInv(st, e);
    case WakeOwn(a) => OwnKeepsInv(st, e);
  }

  // ----- whole runs -----

  predicate LegalRun(st: State, events: seq<Event>)
    decreases |events|
  {
    events == [] || (Enabled(st, events[0]) && LegalRun(Next(st, events[0]), events[1..]))
  }

  function After(st: State, events: seq<Event>): State
    requires LegalRun(st, events)
    decreases |events|
  {
    if events == [] then st else After(Next(st, events[0]), events[1..])
  }

  lemma {:induction false} RunKeepsInv(st: State, events: seq<Event>)
    requires TableInv(st) && LegalRun(st, events)
    ensures TableInv(After(st, events))
    decreases |events|
  {
    if events != [] {
      EventKeepsInv(st, events[0]);
      RunKeepsInv(Next(st, events[0]), events[1..]);
    }
  }

  /** philosopherProblem before the first philosopher: the table mutex is made with value 1. */
  function Start(initial: nat): State {
    State(NewSem(999, 1), [], [Outside(Add), Outside(Look)], initial)
  }

  function Empty(): State {
    Start(1)
  }

  /** The semaphores all started at the same value, and have the ids from 1000 up. */
  ghost predicate Alike(st: State) {
    forall k: nat | k < |st.seats| :: st.seats[k].sem.history.initial == st.initial && st.seats[k].sem.id == 1000 + k
  }

  lemma StaysAlike(st: State, e: Event)
    requires TableInv(st) && Alike(st) && Enabled(st, e)
    ensures Alike(Next(st, e)) && Next(st, e).initial == st.initial
  {
    hide TableInv, CanEat;
  }

  lemma {:induction false} RunStaysAlike(st: State, events: seq<Event>)
    requires TableInv(st) && Alike(st) && LegalRun(st, events)
    ensures Alike(After(st, events)) && After(st, events).initial == st.initial
    decreases |events|
  {
    if events != [] {
      StaysAlike(st, events[0]);
      EventKeepsInv(st, events[0]);
      RunStaysAlike(Next(st, events[0]), events[1..]);
    }
  }

  /** In any run, with philosophers joining at any time, no two different neighbours eat, and the
      semaphore of each philosopher stays at most one above the value it started at. */
  lemma DinnerIsSafe(initial: nat, events: seq<Event>)
    requires LegalRun(Start(initial), events)
    ensures var st := After(Start(initial), events);
            && NeighboursApart(st.seats)
            && forall k: nat | k < |st.seats| :: st.seats[k].sem.value <= initial + 1 && st.seats[k].sem.id == 1000 + k
  {
    StartIsSafe(initial);
    RunKeepsInv(Start(initial), events);
    RunStaysAlike(Start(initial), events);
    var st := After(Start(initial), events);
    hide After, LegalRun;
    forall k: nat | k < |st.seats| ensures st.seats[k].sem.value <= initial + 1 {
      SemAtPhase(st, k + 2);
    }
  }

  /** A philosopher that was told to eat is not left asleep: when nobody is at work under the mutex, one
      that eats and has still to wait on its own semaphore gets through without blocking. */
  lemma FedGoesOn(initial: nat, events: seq<Event>, a: nat)
    requires initial + 1 < WORD && LegalRun(Start(initial), events)
    requires var st := After(Start(initial), events);
             && 2 <= a < 2 + |st.seats| && st.seats[a - 2].mood == EATING
             && forall b: nat | b < |st.actors| :: !st.actors[b].Working?
    ensures var st := After(Start(initial), events);
            && a < |st.actors| && a !in st.seats[a - 2].sem.waiters
            && (st.actors[a].InSem? ==> Enabled(st, WakeOwn(a)))
            && (st.actors[a].AtSem? ==> Enabled(st, WaitOwn(a)) && Next(st, WaitOwn(a)).actors[a] == Outside(Place))
  {
    StartIsSafe(initial);
    RunKeepsInv(Start(initial), events);
    RunStaysAlike(Start(initial), events);
    var st := After(Start(initial), events);
    hide After, LegalRun;
    SemAtPhase(st, a);
  }

  /** The number of philosophers, with the one that is about to be added. */
  function Seats(st: State): nat
    requires |st.actors| > 0
  {
    |st.seats| + if st.actors[0].Lining? || (st.actors[0].Working? && st.actors[0].script != []) then 1 else 0
  }

  lemma SeatsStep(st: State, e: Event)
    requires Shape(st) && Seats(st) <= MAX_PHILOS && Enabled(st, e)
    ensures |Next(st, e).actors| > 0 && Seats(Next(st, e)) <= MAX_PHILOS
  {
    assert PhaseOk(0, st.actors[0], |st.seats|);
    assert e.a < |st.actors| && PhaseOk(e.a, st.actors[e.a], |st.seats|);
    hide CanEat;
  }

  lemma {:induction false} RunSeats(st: State, events: seq<Event>)
    requires TableInv(st) && Seats(st) <= MAX_PHILOS && LegalRun(st, events)
    ensures |After(st, events).seats| <= MAX_PHILOS
    decreases |events|
  {
    if events != [] {
      SeatsStep(st, events[0]);
      EventKeepsInv(st, events[0]);
      hide TableInv, Enabled, Next;
      RunSeats(Next(st, events[0]), events[1..]);
    }
  }

  /** There are never more philosophers than places, although the count is looked at before the mutex is
      taken. */
  lemma TableHolds(initial: nat, events: seq<Event>)
    requires LegalRun(Start(initial), events)
    ensures |After(Start(initial), events).seats| <= MAX_PHILOS
  {
    StartIsSafe(initial);
    RunSeats(Start(initial), events);
  }

  lemma StartIsSafe(initial: nat)
    ensures TableInv(Start(initial)) && Alike(Start(initial))
  {
    assert forall m: Micro :: !Pending(Start(initial).actors, m);
  }

  // ----- who is hungry, and why -----

  /** The worker still has to test philosopher k, or to let it eat. */
  predicate Owes(m: Micro, k: nat, n: nat) {
    m == Eat(k) || (n > 0 && IsTest(m) && Tested(m, n) == k)
  }

  ghost predicate ScriptOwes(script: seq<Micro>, k: nat, n: nat) {
    exists j: nat :: j < |script| && Owes(script[j], k, n)
  }

  ghost predicate Owed(actors: seq<Phase>, k: nat, n: nat) {
    exists a: nat :: a < |actors| && actors[a].Working? && ScriptOwes(actors[a].script, k, n)
  }

  /** A philosopher is hungry only beside one that eats, or until the worker gets to it. */
  ghost predicate Served(st: State) {
    forall k: nat | k < |st.seats| && st.seats[k].mood == HUNGRY ::
      Eats(st.seats, Left(k, |st.seats|)) || Eats(st.seats, Right(k, |st.seats|)) || Owed(st.actors, k, |st.seats|)
  }

  /** Nobody eats or stops, nobody gets hungry, and nothing owed is forgotten. */
  lemma ServedKept(st: State, st': State)
    requires Served(st) && |st'.seats| == |st.seats|
    requires forall k: nat | k < |st.seats| :: st'.seats[k].mood == st.seats[k].mood
    requires forall k: nat | Owed(st.actors, k, |st.seats|) :: Owed(st'.actors, k, |st.seats|)
    ensures Served(st')
  {
    assert forall k: nat :: Eats(st'.seats, k) == Eats(st.seats, k);
    hide Owed, Eats, Left, Right;
  }

  /** A process that is not at work, or has nothing left to do, owes nothing. */
  lemma OwedElsewhere(actors: seq<Phase>, a: nat, p: Phase, n: nat)
    requires a < |actors| && (actors[a].Working? ==> actors[a].script == [])
    ensures forall k: nat | Owed(actors, k, n) :: Owed(actors[a := p], k, n)
  {
    var r := actors[a := p];
    forall k: nat | Owed(actors, k, n) ensures Owed(r, k, n) {
      var b: nat :| b < |actors| && actors[b].Working? && ScriptOwes(actors[b].script, k, n);
      assert b != a;
      assert r[b] == actors[b];
    }
  }

  lemma IdleServes(st: State, e: Event)
    requires TableInv(st) && Served(st) && Enabled(st, e) && !e.Work?
    ensures Served(Next(st, e))
  {
    var st' := Next(st, e);
    OwedElsewhere(st.actors, e.a, st'.actors[e.a], |st.seats|);
    assert st'.actors == st.actors[e.a := st'.actors[e.a]];
    hide TableInv, Owed;
    ServedKept(st, st');
  }

  /** What the only worker owes. */
  lemma OwedIs(actors: seq<Phase>, a: nat, k: nat, n: nat)
    requires a < |actors| && actors[a].Working? && forall b: nat | b < |actors| && b != a :: !actors[b].Working?
    ensures Owed(actors, k, n) <==> ScriptOwes(actors[a].script, k, n)
  {}

  lemma OwesTail(script: seq<Micro>, k: nat, n: nat)
    requires script != []
    ensures ScriptOwes(script, k, n) <==> Owes(script[0], k, n) || ScriptOwes(script[1..], k, n)
  {
    if Owes(script[0], k, n) {
      assert ScriptOwes(script, k, n);
    }
    if ScriptOwes(script[1..], k, n) {
      var j: nat :| j < |script[1..]| && Owes(script[1..][j], k, n);
      assert Owes(script[j + 1], k, n);
    }
    if ScriptOwes(script, k, n) && !Owes(script[0], k, n) {
      var j: nat :| j < |script| && Owes(script[j], k, n);
      assert Owes(script[1..][j - 1], k, n);
    }
  }

  /** After a step of the worker other than adding a philosopher, it still owes what it owed, but for
      what the step was about, and what a successful test adds. */
  lemma WorkOwes(st: State, a: nat, k: nat)
    requires TableInv(st) && Enabled(st, Work(a)) && st.actors[a].script[0] != Grow && k < |st.seats|
    ensures var m, n := st.actors[a].script[0], |st.seats|;
            && (Owed(st.actors, k, n) ==> Owes(m, k, n) || Owed(Next(st, Work(a)).actors, k, n))
            && (IsTest(m) && Tested(m, n) == k && CanEat(st.seats, k) ==> Owed(Next(st, Work(a)).actors, k, n))
  {
    var n, script, r := |st.seats|, st.actors[a].script, Next(st, Work(a)).actors;
    OnlyWorker(st, a);
    OwedIs(st.actors, a, k, n);
    OwedIs(r, a, k, n);
    OwesTail(script, k, n);
    var script' := r[a].script;
    if |script'| > |script| {
      OwesTail(script', k, n);
      assert script'[1..][1..] == script[1..];
      OwesTail(script'[1..], k, n);
    }
  }

  /** Putting the forks down: both neighbours are still to be tested. */
  lemma MoodOwes(st: State, a: nat)
    requires TableInv(st) && Enabled(st, Work(a)) && st.actors[a].script[0].SetMood?
    ensures var n, k, r := |st.seats|, a - 2, Next(st, Work(a)).actors;
            && 2 <= a < 2 + n && st.actors[a].script[0].k == k
            && if st.actors[a].script[0].mood == HUNGRY then Owed(r, k, n) && st.seats[k].mood == THINKING
               else Owed(r, Left(k, n), n) && Owed(r, Right(k, n), n)
  {
    hide Bounds, Peace, Mutex, SemOk, Owes, Left, Right;
    MoodShape(st, a);
    MoodThinking(st, a);
    MoodScript(st, a);
    var n, k, r := |st.seats|, a - 2, Next(st, Work(a)).actors;
    hide ScriptOwes, Shape, PhaseOk;
  }

  lemma MoodThinking(st: State, a: nat)
    requires Shape(st) && Bounds(st.seats, st.actors) && Enabled(st, Work(a)) && st.actors[a].script[0].SetMood?
    ensures 2 <= a < |st.actors| == 2 + |st.seats|
    ensures st.actors[a].job == Take ==> st.seats[a - 2].mood == THINKING
  {
    MoodShape(st, a);
    SemAtPhase(st, a);
    hide Bounds, PhaseOk;
  }

  /** What is left of the script. */
  lemma MoodScript(st: State, a: nat)
    requires Shape(st) && Enabled(st, Work(a)) && st.actors[a].script[0].SetMood? && a >= 2
    ensures var p, n := Next(st, Work(a)).actors[a], |st.seats|;
            && p.Working? && n > 0
            && if st.actors[a].job == Take then ScriptOwes(p.script, a - 2, n)
               else ScriptOwes(p.script, Left(a - 2, n), n) && ScriptOwes(p.script, Right(a - 2, n), n)
  {
    assert PhaseOk(a, st.actors[a], |st.seats|);
    var n, k, script := |st.seats|, a - 2, Next(st, Work(a)).actors[a].script;
    assert script == st.actors[a].script[1..];
    if st.actors[a].job == Take {
      assert Owes(script[0], k, n);
    } else {
      assert Owes(script[0], Left(k, n), n) && Owes(script[1], Right(k, n), n);
    }
  }

  lemma WorkServes(st: State, a: nat)
    requires TableInv(st) && Served(st) && Enabled(st, Work(a)) && st.actors[a].script[0] != Grow
    ensures Served(Next(st, Work(a)))
  {
    var st', n, m := Next(st, Work(a)), |st.seats|, st.actors[a].script[0];
    hide TableInv, Served, Enabled, Owed, Left, Right;
    forall k: nat | k < n && st'.seats[k].mood == HUNGRY
      ensures Eats(st'.seats, Left(k, n)) || Eats(st'.seats, Right(k, n)) || Owed(st'.actors, k, n)
    {
      if m.SetMood? {
        SetMoodServes(st, a, k);
      } else {
        OtherServes(st, a, k);
      }
    }
    hide Next;
    ServedIf(st');
  }

  lemma ServedIf(st: State)
    requires forall k: nat | k < |st.seats| && st.seats[k].mood == HUNGRY ::
               || Eats(st.seats, Left(k, |st.seats|)) || Eats(st.seats, Right(k, |st.seats|))
               || Owed(st.actors, k, |st.seats|)
    ensures Served(st)
  {}

  lemma SetMoodNext(st: State, a: nat)
    requires Enabled(st, Work(a)) && st.actors[a].script[0].SetMood?
    ensures var m := st.actors[a].script[0];
            Next(st, Work(a)).seats == st.seats[m.k := st.seats[m.k].(mood := m.mood)]
  {}

  lemma SetMoodServes(st: State, a: nat, k: nat)
    requires TableInv(st) && Served(st) && Enabled(st, Work(a)) && k < |st.seats| && st.actors[a].script[0].SetMood?
    requires Next(st, Work(a)).seats[k].mood == HUNGRY
    ensures var st', n := Next(st, Work(a)), |st.seats|;
            Eats(st'.seats, Left(k, n)) || Eats(st'.seats, Right(k, n)) || Owed(st'.actors, k, n)
  {
    var st', m := Next(st, Work(a)), st.actors[a].script[0];
    hide TableInv, Owed, Left, Right, Next, PhaseOk, Served, Eats;
    WorkOwes(st, a, k);
    MoodOwes(st, a);
    MoodShape(st, a);
    SetMoodNext(st, a);
    hide Enabled;
    if st.seats[k].mood == HUNGRY {
      ServedAt(st, k);
    }
    MoodServes(st.seats, st'.seats, m.k, m.mood, k);
  }

  lemma ServedAt(st: State, k: nat)
    requires Served(st) && k < |st.seats| && st.seats[k].mood == HUNGRY
    ensures var n := |st.seats|; Eats(st.seats, Left(k, n)) || Eats(st.seats, Right(k, n)) || Owed(st.actors, k, n)
  {
    hide Eats, Left, Right, Owed;
  }

  /** A neighbour that eats goes on eating, unless it is the one whose mood changes. */
  lemma MoodServes(seats: seq<Seat>, seats': seq<Seat>, c: nat, mood: Mood, k: nat)
    requires c < |seats| && k < |seats| && seats' == seats[c := seats[c].(mood := mood)] && mood != EATING
    ensures seats[c].mood == THINKING || (k != Left(c, |seats|) && k != Right(c, |seats|)) ==>
              && (Eats(seats, Left(k, |seats|)) ==> Eats(seats', Left(k, |seats|)))
              && (Eats(seats, Right(k, |seats|)) ==> Eats(seats', Right(k, |seats|)))
  {
    var n := |seats|;
    RingStep(k, n);
    RingStep(c, n);
    hide Left, Right;
  }

  lemma OtherServes(st: State, a: nat, k: nat)
    requires TableInv(st) && Served(st) && Enabled(st, Work(a)) && k < |st.seats|
    requires var m := st.actors[a].script[0]; m != Grow && !m.SetMood?
    requires Next(st, Work(a)).seats[k].mood == HUNGRY
    ensures var st', n := Next(st, Work(a)), |st.seats|;
            Eats(st'.seats, Left(k, n)) || Eats(st'.seats, Right(k, n)) || Owed(st'.actors, k, n)
  {
    WorkOwes(st, a, k);
    var st', n, m := Next(st, Work(a)), |st.seats|, st.actors[a].script[0];
    assert st.seats[k].mood == HUNGRY;
    assert forall j: nat :: Eats(st.seats, j) ==> Eats(st'.seats, j);
    hide TableInv, Owed, Left, Right;
  }

  /** The one on either side of the new seat is hungry, and its only neighbour that eats is cut off. */
  predicate Cuts(seats: seq<Seat>) {
    var n := |seats|;
    n >= 2 && ((seats[0].mood == HUNGRY && !Eats(seats, 1)) || (seats[n - 1].mood == HUNGRY && !Eats(seats, n - 2)))
  }

  /** Adding a philosopher leaves somebody hungry between two that do not eat exactly when the new seat
      cuts it off. */
  lemma GrowServes(st: State, a: nat)
    requires TableInv(st) && Served(st) && Enabled(st, Work(a)) && st.actors[a].script[0] == Grow
    ensures Served(Next(st, Work(a))) <==> !Cuts(st.seats)
  {
    var st', n := Next(st, Work(a)), |st.seats|;
    GrowOwesNothing(st, a);
    assert st'.seats == st.seats + [NewSeat(n, st.initial)];
    hide TableInv, Owed, Enabled, Next;
    ServedSeats(st);
    GrowSeats(st.seats, NewSeat(n, st.initial));
    ServedSeats(st');
  }

  /** Served, where nothing is owed. */
  ghost predicate SeatsServed(seats: seq<Seat>) {
    forall k: nat | k < |seats| && seats[k].mood == HUNGRY ::
      Eats(seats, Left(k, |seats|)) || Eats(seats, Right(k, |seats|))
  }

  lemma ServedSeats(st: State)
    requires forall k: nat, n: nat :: !Owed(st.actors, k, n)
    ensures Served(st) <==> SeatsServed(st.seats)
  {
    hide Owed, Eats, Left, Right;
  }

  lemma GrowSeats(seats: seq<Seat>, seat: Seat)
    requires seat.mood == THINKING && SeatsServed(seats)
    ensures SeatsServed(seats + [seat]) <==> !Cuts(seats)
  {
    hide Left, Right, SeatsServed, RingServed;
    ServedOnRing(seats);
    GrowRing(seats, seat);
    ServedOnRing(seats + [seat]);
  }

  lemma GrowRing(seats: seq<Seat>, seat: Seat)
    requires seat.mood == THINKING && RingServed(seats)
    ensures RingServed(seats + [seat]) <==> !Cuts(seats)
  {
    var n, r := |seats|, seats + [seat];
    SameEats(seats, seat);
    assert !Eats(seats, n);
    hide Eats;
    assert forall k: nat | k < n :: r[k] == seats[k];
    if Cuts(seats) {
      var k := if seats[0].mood == HUNGRY && !Eats(seats, 1) then 0 else n - 1;
      assert r[k].mood == HUNGRY;
    }
  }

  lemma SameEats(seats: seq<Seat>, seat: Seat)
    requires seat.mood == THINKING
    ensures forall k: nat :: Eats(seats + [seat], k) == Eats(seats, k)
  {}

  /** Who is before and who is behind, with the wrap-around written out. */
  ghost predicate RingServed(seats: seq<Seat>) {
    forall k: nat | k < |seats| && seats[k].mood == HUNGRY ::
      Eats(seats, if k == 0 then |seats| - 1 else k - 1) || Eats(seats, if k + 1 == |seats| then 0 else k + 1)
  }

  lemma ServedOnRing(seats: seq<Seat>)
    ensures SeatsServed(seats) <==> RingServed(seats)
  {
    hide Left, Right, Eats;
    WholeRing(|seats|);
  }

  lemma WholeRing(n: nat)
    ensures forall k: nat | k < n ::
              Left(k, n) == (if k == 0 then n - 1 else k - 1) && Right(k, n) == (if k + 1 == n then 0 else k + 1)
  {
    forall k: nat | k < n
      ensures Left(k, n) == (if k == 0 then n - 1 else k - 1) && Right(k, n) == (if k + 1 == n then 0 else k + 1)
    {
      RingStep(k, n);
    }
  }

  lemma GrowOwesNothing(st: State, a: nat)
    requires TableInv(st) && Enabled(st, Work(a)) && st.actors[a].script[0] == Grow
    ensures forall k: nat, n: nat :: !Owed(st.actors, k, n) && !Owed(Next(st, Work(a)).actors, k, n)
  {
    OnlyWorker(st, a);
    assert PhaseOk(a, st.actors[a], |st.seats|);
    var r := Next(st, Work(a)).actors;
    assert r[a].script == [];
    assert forall b: nat | b < |r| && b != a :: !r[b].Working?;
    forall k: nat, n: nat ensures !Owed(st.actors, k, n) && !Owed(r, k, n) {
      OwedIs(st.actors, a, k, n);
      OwedIs(r, a, k, n);
    }
  }

  /** No growth of the run cuts a hungry philosopher off. */
  predicate NeverCuts(st: State, events: seq<Event>)
    requires LegalRun(st, events)
    decreases |events|
  {
    events == [] ||
    ((events[0].Work? && st.actors[events[0].a].script[0] == Grow ==> !Cuts(st.seats)) &&
     NeverCuts(Next(st, events[0]), events[1..]))
  }

  lemma {:induction false} RunServes(st: State, events: seq<Event>)
    requires TableInv(st) && Served(st) && LegalRun(st, events) && NeverCuts(st, events)
    ensures Served(After(st, events))
    decreases |events|
  {
    if events != [] {
      var e := events[0];
      if !e.Work? {
        IdleServes(st, e);
      } else if st.actors[e.a].script[0] == Grow {
        GrowServes(st, e.a);
      } else {
        WorkServes(st, e.a);
      }
      EventKeepsInv(st, e);
      RunServes(Next(st, e), events[1..]);
    }
  }

  /** In the state and in all that follow during the run, everybody hungry is served. */
  ghost predicate AlwaysServed(st: State, events: seq<Event>)
    requires LegalRun(st, events)
    decreases |events|
  {
    Served(st) && (events == [] || AlwaysServed(Next(st, events[0]), events[1..]))
  }

  /** That is so throughout exactly when no new seat cuts anyone off. */
  lemma {:induction false} ServedIffNeverCuts(st: State, events: seq<Event>)
    requires TableInv(st) && Served(st) && LegalRun(st, events)
    ensures AlwaysServed(st, events) <==> NeverCuts(st, events)
    decreases |events|
  {
    if events != [] {
      var e := events[0];
      hide TableInv, Served, Cuts, Enabled, Next;
      if !e.Work? {
        IdleServes(st, e);
      } else if st.actors[e.a].script[0] == Grow {
        GrowServes(st, e.a);
      } else {
        WorkServes(st, e.a);
      }
      EventKeepsInv(st, e);
      if Served(Next(st, e)) {
        ServedIffNeverCuts(Next(st, e), events[1..]);
      }
    }
  }

  /** Whenever nobody is at work under the mutex, a philosopher is hungry only beside one that eats, as
      long as no new seat has cut one off. */
  lemma HungryBesideEating(events: seq<Event>, k: nat)
    requires LegalRun(Empty(), events) && NeverCuts(Empty(), events)
    requires var st := After(Empty(), events);
             k < |st.seats| && st.seats[k].mood == HUNGRY && forall a: nat | a < |st.actors| :: !st.actors[a].Working?
    ensures var st := After(Empty(), events);
            Eats(st.seats, Left(k, |st.seats|)) || Eats(st.seats, Right(k, |st.seats|))
  {
    StartIsSafe(1);
    RunServes(Empty(), events);
  }
}
