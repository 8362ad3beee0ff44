/** Who of the philosophers of phylo.c holds forks: has come back from takeForks and not put them down yet.
    Only the moods are kept apart under the table mutex; whether the forks are, too, depends on what the
    semaphores of the philosophers start at. */
module Forks {
  import Signalling
  import opened Philosophers

  // ----- what forks have to do with moods -----

  /** Past takeForks, and not in placeForks under the mutex yet. */
  predicate HasForks(p: Phase) {
    match p
    case Outside(job) => job == Place
    case Lining(job) => job == Place
    case Working(job, script) => job == Place && script != [] && script[0].SetMood?
    case _ => false
  }

  /** The process has said that it is hungry, and is on its way to its semaphore. */
  predicate Asks(p: Phase) {
    p.AtSem? || (p.Working? && p.job == Take && (p.script == [] || !p.script[0].SetMood?))
  }

  predicate SeatPrepared(seat: Seat, p: Phase) {
    && (Asks(p) ==> seat.mood != THINKING)
    && (p.InSem? && seat.sem.waiters == [] ==> seat.mood == EATING)
  }

  predicate SeatHonest(seat: Seat, p: Phase) {
    HasForks(p) ==> seat.mood == EATING
  }

  /** Who asks is not THINKING, and who was handed a token is EATING. */
  ghost predicate Prepared(st: State) {
    forall k: nat, a: nat | k < |st.seats| && a == k + 2 && a < |st.actors| :: SeatPrepared(st.seats[k], st.actors[a])
  }

  /** Who has forks is EATING. */
  ghost predicate Honest(st: State) {
    forall k: nat, a: nat | k < |st.seats| && a == k + 2 && a < |st.actors| :: SeatHonest(st.seats[k], st.actors[a])
  }

  /** A philosopher gets through its sWait though it is still HUNGRY. */
  predicate Steals(st: State, e: Event)
    requires Enabled(st, e)
  {
    e.WaitOwn? && st.seats[e.a - 2].mood == HUNGRY && st.seats[e.a - 2].sem.value > 0
  }

  // ----- one step -----

  /** What a step does to the philosophers that do not make it. */
  lemma OthersStay(st: State, e: Event, k: nat)
    requires TableInv(st) && Enabled(st, e) && k < |st.seats| && k + 2 != e.a
    ensures |st.actors| == 2 + |st.seats| && |Next(st, e).actors| == 2 + |Next(st, e).seats|
    ensures k < |Next(st, e).seats| && Next(st, e).actors[k + 2] == st.actors[k + 2]
    ensures var s, s' := st.seats[k], Next(st, e).seats[k];
            && (s'.mood == s.mood || s'.mood == EATING)
            && (s'.sem.waiters == s.sem.waiters || s'.mood == EATING)
  {
    ShapeSize(st);
    if e.Work? {
      var m := st.actors[e.a].script[0];
      if m.SetMood? {
        MoodShape(st, e.a);
      } else if m.Give? {
        assert Pending(st.actors, m) && Eats(st.seats, m.k);
      }
    }
    hide TableInv, CanEat, Tested;
  }

  /** What it does to the one that makes it. */
  lemma MoverStep(st: State, e: Event)
    requires TableInv(st) && Enabled(st, e) && 2 <= e.a < |st.actors|
    requires SeatPrepared(st.seats[e.a - 2], st.actors[e.a])
    ensures e.a - 2 < |Next(st, e).seats| && e.a < |Next(st, e).actors|
    ensures var s', p' := Next(st, e).seats[e.a - 2], Next(st, e).actors[e.a];
            SeatPrepared(s', p') &&
            (SeatHonest(st.seats[e.a - 2], st.actors[e.a]) ==> (SeatHonest(s', p') <==> !Steals(st, e)))
  {
    hide TableInv, Next, SeatHonest, SeatPrepared, Enabled;
    if e.Work? {
      MoverWorks(st, e.a);
    } else {
      MoverWaits(st, e);
    }
  }

  lemma MoverWaits(st: State, e: Event)
    requires TableInv(st) && Enabled(st, e) && 2 <= e.a < |st.actors| && !e.Work?
    requires SeatPrepared(st.seats[e.a - 2], st.actors[e.a])
    ensures e.a - 2 < |Next(st, e).seats| && e.a < |Next(st, e).actors|
    ensures var s', p' := Next(st, e).seats[e.a - 2], Next(st, e).actors[e.a];
            SeatPrepared(s', p') &&
            (SeatHonest(st.seats[e.a - 2], st.actors[e.a]) ==> (SeatHonest(s', p') <==> !Steals(st, e)))
  {
    PhaseJob(st, e);
    hide TableInv;
  }

  /** What a philosopher may be at, and who may be in its semaphore's list. */
  lemma PhaseJob(st: State, e: Event)
    requires TableInv(st) && Enabled(st, e) && 2 <= e.a < |st.actors| && !e.Work?
    ensures |st.actors| == 2 + |st.seats|
    ensures var p := st.actors[e.a]; p.Outside? || p.Lining? || p.Working? ==> p.job == Take || p.job == Place
    ensures var q := st.seats[e.a - 2].sem.waiters; q == [] || e.a in q
  {
    SemAtPhase(st, e.a);
    assert PhaseOk(e.a, st.actors[e.a], |st.seats|);
    hide Mutex, Peace, Bounds, Pending;
  }

  lemma MoverWorks(st: State, a: nat)
    requires TableInv(st) && Enabled(st, Work(a)) && 2 <= a < |st.actors|
    requires SeatPrepared(st.seats[a - 2], st.actors[a])
    ensures a - 2 < |Next(st, Work(a)).seats| && a < |Next(st, Work(a)).actors|
    ensures var s', p' := Next(st, Work(a)).seats[a - 2], Next(st, Work(a)).actors[a];
            SeatPrepared(s', p') && SeatHonest(s', p')
  {
    WorkedOn(st, a);
    hide TableInv, Next, Enabled;
  }

  /** The script goes on without setting a mood, and the philosopher's own mood is what was set, or what
      it was, or EATING. */
  lemma WorkedOn(st: State, a: nat)
    requires TableInv(st) && Enabled(st, Work(a)) && 2 <= a < |st.actors|
    ensures a - 2 < |Next(st, Work(a)).seats| && a < |Next(st, Work(a)).actors|
    ensures var p, p' := st.actors[a], Next(st, Work(a)).actors[a];
            && p.Working? && p'.Working? && p'.job == p.job && p.script != []
            && (p'.script == [] || !p'.script[0].SetMood?)
    ensures var p, s, s' := st.actors[a], st.seats[a - 2], Next(st, Work(a)).seats[a - 2];
            if p.script[0].SetMood? then s'.mood == if p.job == Take then HUNGRY else THINKING
            else s'.mood == s.mood || s'.mood == EATING
  {
    hide CanEat, Left, Right, Mutex, Peace, Bounds, PhaseOk;
    ShapeSize(st);
    MoodsFirst(st, a);
    if st.actors[a].script[0].SetMood? {
      MoodShape(st, a);
    }
    hide TableInv, Shape;
  }

  /** A mood is set first, and by philosophers. */
  lemma MoodsFirst(st: State, a: nat)
    requires Shape(st) && Enabled(st, Work(a)) && 2 <= a
    ensures var script := st.actors[a].script;
            (script[1..] == [] || !script[1..][0].SetMood?) && script[0] != Grow
  {
    assert PhaseOk(a, st.actors[a], |st.seats|);
    hide Left, Right;
  }

  /** One who comes to the table has no forks. */
  lemma NewcomerStays(st: State, e: Event, k: nat)
    requires TableInv(st) && Enabled(st, e) && |st.seats| <= k < |Next(st, e).seats|
    ensures |Next(st, e).actors| == 2 + |Next(st, e).seats| && Next(st, e).actors[k + 2] == Outside(Take)
    ensures SeatPrepared(Next(st, e).seats[k], Outside(Take)) && SeatHonest(Next(st, e).seats[k], Outside(Take))
    ensures e.a != k + 2
  {
    assert |st.actors| == 2 + |st.seats|;
    hide TableInv, CanEat;
  }

  lemma SeatAfter(st: State, e: Event, k: nat)
    requires TableInv(st) && Prepared(st) && Honest(st) && Enabled(st, e) && k < |Next(st, e).seats|
    ensures |Next(st, e).actors| == 2 + |Next(st, e).seats|
    ensures var s', p' := Next(st, e).seats[k], Next(st, e).actors[k + 2];
            SeatPrepared(s', p') && (SeatHonest(s', p') <==> !(Steals(st, e) && e.a == k + 2))
  {
    hide TableInv, Enabled, Next, Steals, SeatPrepared, SeatHonest, Prepared, Honest;
    if k < |st.seats| {
      SeatNow(st, k);
      NextSize(st, e);
      if k + 2 == e.a {
        MoverStep(st, e);
      } else {
        StaysStraight(st, e, k);
      }
    } else {
      NewcomerStays(st, e, k);
    }
  }

  lemma SeatNow(st: State, k: nat)
    requires TableInv(st) && Prepared(st) && Honest(st) && k < |st.seats|
    ensures |st.actors| == 2 + |st.seats|
    ensures SeatPrepared(st.seats[k], st.actors[k + 2]) && SeatHonest(st.seats[k], st.actors[k + 2])
  {
    SizeAt(st);
    hide TableInv, SeatPrepared, SeatHonest;
  }

  lemma StaysStraight(st: State, e: Event, k: nat)
    requires TableInv(st) && Enabled(st, e) && k < |st.seats| && k + 2 != e.a && k + 2 < |st.actors|
    requires SeatPrepared(st.seats[k], st.actors[k + 2]) && SeatHonest(st.seats[k], st.actors[k + 2])
    ensures k < |Next(st, e).seats| && k + 2 < |Next(st, e).actors|
    ensures var s', p' := Next(st, e).seats[k], Next(st, e).actors[k + 2]; SeatPrepared(s', p') && SeatHonest(s', p')
  {
    hide TableInv, Enabled, Next, HasForks, Asks;
    OthersStay(st, e, k);
  }

  lemma SizeAt(st: State)
    requires TableInv(st)
    ensures |st.actors| == 2 + |st.seats|
  {}

  lemma NextSize(st: State, e: Event)
    requires TableInv(st) && Enabled(st, e)
    ensures |Next(st, e).actors| == 2 + |Next(st, e).seats|
  {
    EventKeepsInv(st, e);
    hide Mutex, Peace, Bounds, Next, Enabled;
  }

  /** A step brings somebody forks that is not EATING exactly when it takes one that is HUNGRY through its
      sWait. */
  lemma StepHonest(st: State, e: Event)
    requires TableInv(st) && Prepared(st) && Honest(st) && Enabled(st, e)
    ensures Prepared(Next(st, e)) && (Honest(Next(st, e)) <==> !Steals(st, e))
  {
    var st' := Next(st, e);
    assert Steals(st, e) ==> 2 <= e.a < 2 + |st'.seats|;
    hide TableInv, Prepared, Honest, Enabled, Next, SeatHonest, SeatPrepared, Steals;
    NextSize(st, e);
    forall k: nat | k < |st'.seats|
      ensures SeatPrepared(st'.seats[k], st'.actors[k + 2])
      ensures SeatHonest(st'.seats[k], st'.actors[k + 2]) <==> !(Steals(st, e) && e.a == k + 2)
    {
      SeatAfter(st, e, k);
    }
    SeatBySeat(st');
    if Steals(st, e) {
      var k: nat := e.a - 2;
      assert !SeatHonest(st'.seats[k], st'.actors[k + 2]);
    }
  }

  lemma SeatBySeat(st: State)
    requires |st.actors| == 2 + |st.seats|
    ensures Prepared(st) <==> forall k: nat | k < |st.seats| :: SeatPrepared(st.seats[k], st.actors[k + 2])
    ensures Honest(st) <==> forall k: nat | k < |st.seats| :: SeatHonest(st.seats[k], st.actors[k + 2])
  {
    hide SeatPrepared, SeatHonest;
  }

  // ----- whole runs -----

  /** In the state and in all that follow during the run, who has forks is EATING. */
  ghost predicate AlwaysHonest(st: State, events: seq<Event>)
    requires LegalRun(st, events)
    decreases |events|
  {
    Honest(st) && (events == [] || AlwaysHonest(Next(st, events[0]), events[1..]))
  }

  predicate NeverSteals(st: State, events: seq<Event>)
    requires LegalRun(st, events)
    decreases |events|
  {
    events == [] || (!Steals(st, events[0]) && NeverSteals(Next(st, events[0]), events[1..]))
  }

  /** That is so throughout exactly when nobody HUNGRY ever gets through its sWait. */
  lemma {:induction false} RunHonest(st: State, events: seq<Event>)
    requires TableInv(st) && Prepared(st) && Honest(st) && LegalRun(st, events)
    ensures AlwaysHonest(st, events) <==> NeverSteals(st, events)
    ensures NeverSteals(st, events) ==> Honest(After(st, events))
    decreases |events|
  {
    if events != [] {
      hide TableInv, Prepared, Honest, Steals;
      EventKeepsInv(st, events[0]);
      StepHonest(st, events[0]);
      if !Steals(st, events[0]) {
        RunHonest(Next(st, events[0]), events[1..]);
      }
    }
  }

  predicate Holds(st: State, k: nat) {
    k < |st.seats| && k + 2 < |st.actors| && HasForks(st.actors[k + 2])
  }

  /** No two different neighbours have forks. */
  ghost predicate ForksApart(st: State) {
    forall k: nat, r: nat | k < |st.seats| && r == Right(k, |st.seats|) && r != k :: !(Holds(st, k) && Holds(st, r))
  }

  lemma HonestApart(st: State)
    requires NeighboursApart(st.seats) && Honest(st)
    ensures ForksApart(st)
  {
    hide HasForks, Right;
    assert forall k: nat | Holds(st, k) :: SeatHonest(st.seats[k], st.actors[k + 2]) && Eats(st.seats, k);
  }

  /** Where the semaphores start without a token, there is none for one that is HUNGRY. */
  lemma NothingToSteal(st: State, e: Event)
    requires TableInv(st) && Alike(st) && st.initial == 0 && Enabled(st, e)
    ensures !Steals(st, e)
  {
    if e.WaitOwn? {
      SemAtPhase(st, e.a);
    }
    hide Peace, Mutex, Pending;
  }

  lemma {:induction false} NobodySteals(st: State, events: seq<Event>)
    requires TableInv(st) && Alike(st) && st.initial == 0 && LegalRun(st, events)
    ensures NeverSteals(st, events)
    decreases |events|
  {
    if events != [] {
      hide TableInv, Alike, Steals;
      NothingToSteal(st, events[0]);
      EventKeepsInv(st, events[0]);
      StaysAlike(st, events[0]);
      NobodySteals(Next(st, events[0]), events[1..]);
    }
  }

  // ----- building runs -----

  /** The run of events leads from one state to another, and no growth in it cuts anyone off. */
  ghost predicate Leads(st: State, events: seq<Event>, st': State) {
    LegalRun(st, events) && NeverCuts(st, events) && After(st, events) == st'
  }

  lemma LeadsNowhere(st: State)
    ensures Leads(st, [], st)
  {}

  lemma LeadsFirst(st: State, e: Event, mid: State, rest: seq<Event>, st': State)
    requires Enabled(st, e) && Next(st, e) == mid && Leads(mid, rest, st')
    requires e.Work? && st.actors[e.a].script[0] == Grow ==> !Cuts(st.seats)
    ensures Leads(st, [e] + rest, st')
  {
    var events := [e] + rest;
    assert events[0] == e && events[1..] == rest;
  }

  lemma {:induction false} LeadsOn(st: State, a: seq<Event>, mid: State, b: seq<Event>, st': State)
    requires Leads(st, a, mid) && Leads(mid, b, st')
    ensures Leads(st, a + b, st')
    decreases |a|
  {
    if a == [] {
      assert a + b == b;
    } else {
      LeadsOn(Next(st, a[0]), a[1..], mid, b, st');
      LeadsFirst(st, a[0], Next(st, a[0]), a[1..] + b, st');
      assert [a[0]] + (a[1..] + b) == a + b;
    }
  }

  lemma LeadsOne(st: State, a: seq<Event>, mid: State, e: Event)
    requires Leads(st, a, mid) && Enabled(mid, e) && !e.Work?
    ensures Leads(st, a + [e], Next(mid, e))
  {
    LeadsNowhere(Next(mid, e));
    LeadsFirst(mid, e, Next(mid, e), [], Next(mid, e));
    assert [e] + [] == [e];
    LeadsOn(st, a, mid, [e], Next(mid, e));
  }

  /** Nobody is at the table mutex, and process a is about to start on a job. */
  predicate AtRest(st: State, a: nat, job: Job) {
    && |st.actors| == 2 + |st.seats| && a < |st.actors| && st.actors[a] == Outside(job)
    && st.table.value == 1 && st.table.waiters == []
  }

  /** The table mutex after one turn, free again. */
  function Turned(table: Signalling.Sem, a: nat): (t: Signalling.Sem)
    requires table.value == 1 && table.waiters == []
    ensures t.value == 1 && t.waiters == []
  {
    Signalling.Release(Signalling.Acquire(table, a))
  }

  /** The process has the mutex, with a script left to do. */
  function AtWork(st: State, a: nat, mood: Mood, job: Job, script: seq<Micro>): State
    requires AtRest(st, a, Take) && a >= 2
  {
    st.(table := Signalling.Acquire(st.table, a), seats := st.seats[a - 2 := st.seats[a - 2].(mood := mood)],
        actors := st.actors[a := Working(job, script)])
  }

  function TakeRun(a: nat, work: nat): seq<Event> {
    [Lock(a)] + Works(a, work)
  }

  function Works(a: nat, work: nat): seq<Event> {
    if work == 0 then [Unlock(a)] else [Work(a)] + Works(a, work - 1)
  }

  function Hungry(st: State, a: nat): State
    requires AtRest(st, a, Take) && a >= 2
  {
    st.(table := Turned(st.table, a), seats := st.seats[a - 2 := st.seats[a - 2].(mood := HUNGRY)],
        actors := st.actors[a := AtSem])
  }

  function Fed(st: State, a: nat): State
    requires AtRest(st, a, Take) && a >= 2
  {
    st.(table := Turned(st.table, a),
        seats := st.seats[a - 2 := Seat(EATING, Signalling.Release(st.seats[a - 2].sem))],
        actors := st.actors[a := AtSem])
  }

  /** The first two steps of takeForks: the process has the mutex, and is HUNGRY. */
  lemma Begins(st: State, a: nat)
    requires AtRest(st, a, Take) && a >= 2
    ensures var k := a - 2; var st1 := AtWork(st, a, st.seats[k].mood, Take, [SetMood(k, HUNGRY), Test(k)]);
            && Enabled(st, Lock(a)) && Next(st, Lock(a)) == st1
            && Enabled(st1, Work(a)) && Next(st1, Work(a)) == AtWork(st, a, HUNGRY, Take, [Test(k)])
  {
    var k := a - 2;
    assert [SetMood(k, HUNGRY), Test(k)][1..] == [Test(k)];
    assert st.seats[k := st.seats[k].(mood := st.seats[k].mood)] == st.seats;
  }

  /** takeForks beside one that eats. */
  lemma Hungers(st: State, a: nat)
    requires AtRest(st, a, Take) && a >= 2
    requires var k, n := a - 2, |st.seats|; var seats := st.seats[k := st.seats[k].(mood := HUNGRY)];
             Eats(seats, Left(k, n)) || Eats(seats, Right(k, n))
    ensures Leads(st, TakeRun(a, 2), Hungry(st, a))
  {
    var k := a - 2;
    var st1 := AtWork(st, a, st.seats[k].mood, Take, [SetMood(k, HUNGRY), Test(k)]);
    var st2, st3 := AtWork(st, a, HUNGRY, Take, [Test(k)]), AtWork(st, a, HUNGRY, Take, []);
    Begins(st, a);
    GoesHungry(st, a);
    LeadsNowhere(Hungry(st, a));
    hide Enabled, Next, AtWork, Hungry, Eats, Left, Right, Leads;
    assert Works(a, 0) == [Unlock(a)] + [];
    LeadsFirst(st3, Unlock(a), Hungry(st, a), [], Hungry(st, a));
    LeadsFirst(st2, Work(a), st3, Works(a, 0), Hungry(st, a));
    LeadsFirst(st1, Work(a), st2, Works(a, 1), Hungry(st, a));
    LeadsFirst(st, Lock(a), st1, Works(a, 2), Hungry(st, a));
  }

  lemma GoesHungry(st: State, a: nat)
    requires AtRest(st, a, Take) && a >= 2
    requires var k, n := a - 2, |st.seats|; var seats := st.seats[k := st.seats[k].(mood := HUNGRY)];
             Eats(seats, Left(k, n)) || Eats(seats, Right(k, n))
    ensures var k := a - 2;
            var st2, st3 := AtWork(st, a, HUNGRY, Take, [Test(k)]), AtWork(st, a, HUNGRY, Take, []);
            && Enabled(st2, Work(a)) && Next(st2, Work(a)) == st3
            && Enabled(st3, Unlock(a)) && Next(st3, Unlock(a)) == Hungry(st, a)
  {
    assert [Test(a - 2)][1..] == [];
    hide Left, Right;
  }

  /** takeForks beside two that do not eat. */
  lemma Feeds(st: State, a: nat)
    requires AtRest(st, a, Take) && a >= 2
    requires var k, n := a - 2, |st.seats|; CanEat(st.seats[k := st.seats[k].(mood := HUNGRY)], k)
    ensures Leads(st, TakeRun(a, 4), Fed(st, a))
  {
    var k := a - 2;
    var st1 := AtWork(st, a, st.seats[k].mood, Take, [SetMood(k, HUNGRY), Test(k)]);
    var st2, st3 := AtWork(st, a, HUNGRY, Take, [Test(k)]), AtWork(st, a, HUNGRY, Take, [Eat(k), Give(k)]);
    var st4, st5 := AtWork(st, a, EATING, Take, [Give(k)]), Given(st, a);
    Begins(st, a);
    StartsEating(st, a);
    EndsEating(st, a);
    LeadsNowhere(Fed(st, a));
    hide Enabled, Next, AtWork, Fed, Given, CanEat, Leads;
    assert Works(a, 0) == [Unlock(a)] + [];
    LeadsFirst(st5, Unlock(a), Fed(st, a), [], Fed(st, a));
    LeadsFirst(st4, Work(a), st5, Works(a, 0), Fed(st, a));
    LeadsFirst(st3, Work(a), st4, Works(a, 1), Fed(st, a));
    LeadsFirst(st2, Work(a), st3, Works(a, 2), Fed(st, a));
    LeadsFirst(st1, Work(a), st2, Works(a, 3), Fed(st, a));
    LeadsFirst(st, Lock(a), st1, Works(a, 4), Fed(st, a));
  }

  /** The process has let its philosopher eat, and posted it. */
  function Given(st: State, a: nat): State
    requires AtRest(st, a, Take) && a >= 2
  {
    st.(table := Signalling.Acquire(st.table, a),
        seats := st.seats[a - 2 := Seat(EATING, Signalling.Release(st.seats[a - 2].sem))],
        actors := st.actors[a := Working(Take, [])])
  }

  lemma StartsEating(st: State, a: nat)
    requires AtRest(st, a, Take) && a >= 2
    requires var k, n := a - 2, |st.seats|; CanEat(st.seats[k := st.seats[k].(mood := HUNGRY)], k)
    ensures var k := a - 2;
            var st2, st3 := AtWork(st, a, HUNGRY, Take, [Test(k)]), AtWork(st, a, HUNGRY, Take, [Eat(k), Give(k)]);
            Enabled(st2, Work(a)) && Next(st2, Work(a)) == st3
  {
    assert [Eat(a - 2), Give(a - 2)] + [Test(a - 2)][1..] == [Eat(a - 2), Give(a - 2)];
    hide CanEat;
  }

  lemma EndsEating(st: State, a: nat)
    requires AtRest(st, a, Take) && a >= 2
    ensures var k := a - 2;
            var st3, st4 := AtWork(st, a, HUNGRY, Take, [Eat(k), Give(k)]), AtWork(st, a, EATING, Take, [Give(k)]);
            && Enabled(st3, Work(a)) && Next(st3, Work(a)) == st4
            && Enabled(st4, Work(a)) && Next(st4, Work(a)) == Given(st, a)
            && Enabled(Given(st, a), Unlock(a)) && Next(Given(st, a), Unlock(a)) == Fed(st, a)
  {
    assert [Eat(a - 2), Give(a - 2)][1..] == [Give(a - 2)] && [Give(a - 2)][1..] == [];
  }

  function SitDown(): seq<Event> {
    [Lock(0), Work(0), Unlock(0)]
  }

  function Joined(st: State): State
    requires AtRest(st, 0, Add)
  {
    st.(table := Turned(st.table, 0), seats := st.seats + [NewSeat(|st.seats|, st.initial)],
        actors := st.actors + [Outside(Take)])
  }

  /** addPhilosopher, cutting nobody off. */
  lemma SitsDown(st: State)
    requires AtRest(st, 0, Add) && |st.seats| < MAX_PHILOS && !Cuts(st.seats)
    ensures Leads(st, SitDown(), Joined(st))
  {
    var st1 := st.(table := Signalling.Acquire(st.table, 0), actors := st.actors[0 := Working(Add, [Grow])]);
    var st2 := st1.(seats := st.seats + [NewSeat(|st.seats|, st.initial)],
                    actors := st.actors[0 := Working(Add, [])] + [Outside(Take)]);
    assert [Grow][1..] == [] && st1.actors[0 := Working(Add, [])] == st.actors[0 := Working(Add, [])];
    assert Next(st, Lock(0)) == st1 && Next(st1, Work(0)) == st2;
    assert st2.actors[0 := Outside(Add)] == st.actors + [Outside(Take)];
    assert Next(st2, Unlock(0)) == Joined(st);
    LeadsNowhere(Joined(st));
    hide Next, Joined, Cuts, Leads;
    LeadsFirst(st2, Unlock(0), Joined(st), [], Joined(st));
    LeadsFirst(st1, Work(0), st2, [Unlock(0)] + [], Joined(st));
    LeadsFirst(st, Lock(0), st1, [Work(0)] + ([Unlock(0)] + []), Joined(st));
    assert [Lock(0)] + ([Work(0)] + ([Unlock(0)] + [])) == SitDown();
  }

  /** Three philosophers have sat down, and none has done anything. */
  lemma ThreeSit(initial: nat) returns (events: seq<Event>, st: State)
    ensures Leads(Start(initial), events, st)
    ensures |st.seats| == 3 && |st.actors| == 5 && st.initial == initial
    ensures st.table.value == 1 && st.table.waiters == []
    ensures st.actors[0] == Outside(Add)
    ensures forall k: nat | k < 3 :: st.seats[k] == NewSeat(k, initial) && st.actors[k + 2] == Outside(Take)
  {
    var st0 := Start(initial);
    SitsDown(st0);
    var st1 := Joined(st0);
    SitsDown(st1);
    var st2 := Joined(st1);
    SitsDown(st2);
    st := Joined(st2);
    hide Leads;
    LeadsOn(st0, SitDown(), st1, SitDown(), st2);
    LeadsOn(st0, SitDown() + SitDown(), st2, SitDown(), st);
    events := SitDown() + SitDown() + SitDown();
  }

  lemma NobodyEats(seats: seq<Seat>, k: nat)
    requires k < |seats| && |seats| >= 2 && forall j: nat | j < |seats| :: seats[j].mood == THINKING
    ensures CanEat(seats[k := seats[k].(mood := HUNGRY)], k)
  {
    RingStep(k, |seats|);
  }

  // ----- a run in which a new seat cuts one off -----

  /** A run from the empty table in which nobody is cut off till then, and everybody hungry sits beside
      one that eats; the next step seats a philosopher between the hungry one and the eating one. */
  lemma CutExample() returns (events: seq<Event>)
    ensures LegalRun(Empty(), events) && NeverCuts(Empty(), events)
    ensures var st := After(Empty(), events);
            Served(st) && Enabled(st, Work(0)) && Cuts(st.seats) && !Served(Next(st, Work(0)))
  {
    var st;
    events, st := CutRun();
    hide LegalRun, NeverCuts, After, Leads, Next, Served, TableInv, Cuts, Empty, Enabled;
    LeadsIs(Empty(), events, st);
    EmptyIsSafe();
    RunKeepsInv(Empty(), events);
    RunServes(Empty(), events);
    GrowServes(st, 0);
  }

  lemma EmptyIsSafe()
    ensures TableInv(Empty()) && Served(Empty())
  {
    StartIsSafe(1);
  }

  lemma CutRun() returns (events: seq<Event>, st: State)
    ensures Leads(Empty(), events, st)
    ensures Enabled(st, Work(0)) && st.actors[0].script[0] == Grow && Cuts(st.seats)
  {
    var sits, st1 := ThreeSit(1);
    NobodyEats(st1.seats, 2);
    Feeds(st1, 4);
    var st2 := Fed(st1, 4);
    Hungers(st2, 2);
    var st3 := Hungry(st2, 2);
    st := Next(st3, Lock(0));
    assert Enabled(st, Work(0)) && st.actors[0].script[0] == Grow && Cuts(st.seats);
    hide Leads, Next, Fed, Hungry, Cuts;
    LeadsOn(Empty(), sits, st1, TakeRun(4, 4), st2);
    LeadsOn(Empty(), sits + TakeRun(4, 4), st2, TakeRun(2, 2), st3);
    LeadsOne(Empty(), sits + TakeRun(4, 4) + TakeRun(2, 2), st3, Lock(0));
    events := sits + TakeRun(4, 4) + TakeRun(2, 2) + [Lock(0)];
  }

  lemma LeadsIs(st: State, events: seq<Event>, st': State)
    requires Leads(st, events, st')
    ensures LegalRun(st, events) && NeverCuts(st, events) && After(st, events) == st'
  {}

  // ----- who has forks, over all runs -----

  /** Where the semaphores start with a token, two that are HUNGRY beside one that eats both get through. */
  lemma TwoSteal(initial: nat) returns (events: seq<Event>)
    requires initial > 0
    ensures LegalRun(Start(initial), events)
    ensures var st := After(Start(initial), events);
            |st.seats| == 3 && Right(2, 3) == 0 && Holds(st, 2) && Holds(st, 0)
            && st.seats[0].mood == HUNGRY && st.seats[2].mood == HUNGRY
  {
    var sits, st1 := ThreeSit(initial);
    NobodyEats(st1.seats, 1);
    Feeds(st1, 3);
    var st2 := Fed(st1, 3);
    Hungers(st2, 2);
    var st3 := Hungry(st2, 2);
    Hungers(st3, 4);
    var st4 := Hungry(st3, 4);
    var st5 := Next(st4, WaitOwn(2));
    var st6 := Next(st5, WaitOwn(4));
    assert |st6.seats| == 3 && st6.seats[0].mood == st6.seats[2].mood == HUNGRY && Holds(st6, 2) && Holds(st6, 0);
    assert Enabled(st4, WaitOwn(2)) && Enabled(st5, WaitOwn(4));
    hide Leads, Next, Fed, Hungry, Holds, Enabled;
    LeadsOn(Start(initial), sits, st1, TakeRun(3, 4), st2);
    LeadsOn(Start(initial), sits + TakeRun(3, 4), st2, TakeRun(2, 2), st3);
    LeadsOn(Start(initial), sits + TakeRun(3, 4) + TakeRun(2, 2), st3, TakeRun(4, 2), st4);
    LeadsOne(Start(initial), sits + TakeRun(3, 4) + TakeRun(2, 2) + TakeRun(4, 2), st4, WaitOwn(2));
    LeadsOne(Start(initial), sits + TakeRun(3, 4) + TakeRun(2, 2) + TakeRun(4, 2) + [WaitOwn(2)], st5, WaitOwn(4));
    events := sits + TakeRun(3, 4) + TakeRun(2, 2) + TakeRun(4, 2) + [WaitOwn(2)] + [WaitOwn(4)];
    LeadsIs(Start(initial), events, st6);
  }

  lemma StartIsHonest(initial: nat)
    ensures Prepared(Start(initial)) && Honest(Start(initial))
  {}

  lemma WithoutTokens(events: seq<Event>)
    requires LegalRun(Start(0), events)
    ensures Honest(After(Start(0), events)) && ForksApart(After(Start(0), events))
  {
    hide Prepared, Honest, ForksApart, After, LegalRun, Start, NeverSteals;
    StartIsSafe(0);
    StartIsHonest(0);
    assert Start(0).initial == 0 by { StartsAt(0); }
    NobodySteals(Start(0), events);
    RunHonest(Start(0), events);
    DinnerIsSafe(0, events);
    HonestApart(After(Start(0), events));
  }

  lemma StartsAt(initial: nat)
    ensures Start(initial).initial == initial
  {}

  /** In every run, who has forks is EATING, if and only if the semaphores start without a token; and it
      is then, and only then, that no two neighbours ever have forks. */
  lemma ForksApartIff(initial: nat)
    ensures (forall events | LegalRun(Start(initial), events) :: Honest(After(Start(initial), events))) <==>
            initial == 0
    ensures (forall events | LegalRun(Start(initial), events) :: ForksApart(After(Start(initial), events))) <==>
            initial == 0
  {
    hide Honest, ForksApart, After, LegalRun, Start;
    if initial == 0 {
      forall events | LegalRun(Start(initial), events)
        ensures Honest(After(Start(initial), events)) && ForksApart(After(Start(initial), events))
      {
        WithoutTokens(events);
      }
    } else {
      var events := TwoSteal(initial);
      TwoWithForks(After(Start(initial), events));
    }
  }

  lemma TwoWithForks(st: State)
    requires |st.seats| == 3 && Right(2, 3) == 0 && Holds(st, 2) && Holds(st, 0) && st.seats[2].mood == HUNGRY
    ensures !Honest(st) && !ForksApart(st)
  {
    assert !SeatHonest(st.seats[2], st.actors[4]);
  }
}
