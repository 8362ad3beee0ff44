/** What each entry point of semaphores.c does, told by what can be seen from outside: the tokens, those who
    wait, those who listen, and the processes. */
module Waiting {
  import opened Scheduling
  import opened Signalling
  import opened Dispatching

  /** Every other semaphore is as it was. */
  ghost predicate OthersSame(w: World, w': World, id: nat) {
    forall x | x != id :: (Exists(w', x) <==> Exists(w, x)) && (Exists(w, x) ==> At(w', x) == At(w, x))
  }

  lemma OneTouched(w: World, call: Call, id: nat)
    requires JointInv(w) && Callable(w, call) && !call.Scheduler? && call.id == id
    ensures OthersSame(w, Do(w, call), id)
  {
    forall x | x != id
      ensures (Exists(Do(w, call), x) <==> Exists(w, x)) && (Exists(w, x) ==> At(Do(w, call), x) == At(w, x))
    {
      AtOther(w, call, x);
    }
  }

  /** sWait takes a token, or puts its caller to sleep, last in the list; nothing else is changed, and nothing
      at all where there is no such semaphore. */
  lemma WaitDoes(w: World, id: nat)
    requires JointInv(w) && MayWait(w, id)
    ensures var c, w' := w.sched.current.proc, Do(w, WaitSem(id));
            && OthersSame(w, w', id)
            && if !Exists(w, id) then w' == w
               else
                 && Exists(w', id) && At(w', id).listeners == At(w, id).listeners
                 && if At(w, id).value > 0
                    then At(w', id).value == At(w, id).value - 1 && WaitersOf(w', id) == WaitersOf(w, id) &&
                         w'.sched == w.sched && w'.asleep == w.asleep
                    else At(w', id).value == 0 && WaitersOf(w', id) == WaitersOf(w, id) + [c.pid] &&
                         w'.asleep == w.asleep + {c.pid} && IsBlocked(w'.sched, c.pid) &&
                         c.(state := BLOCKED) in w'.sched.queue &&
                         Served(w.sched.queue + [c.(state := BLOCKED)], w'.sched)
  {
    hide OthersSame, Served, IsBlocked, SemInv, Separate, Listed;
    OneTouched(w, WaitSem(id), id);
    if Exists(w, id) {
      AtStep(w, WaitSem(id), id);
      AtUpdate(w, Do(w, WaitSem(id)), Find(w.sems, id), Acquire(At(w, id), w.sched.current.proc.pid), id);
      BlockBlocks(w.sched, w.sched.current.proc);
      SelfBlocked(w.sched);
      hide JointInv, BlockProcess;
    }
  }

  /** sPost adds a token, in a word that wraps, or hands it to the first of those who wait, who is READY
      where it stands; nothing else is changed, and nothing at all where there is no such semaphore. */
  lemma PostDoes(w: World, id: nat)
    requires JointInv(w)
    ensures var w' := Do(w, PostSem(id));
            && OthersSame(w, w', id)
            && if !Exists(w, id) then w' == w
               else
                 && Exists(w', id) && At(w', id).listeners == At(w, id).listeners
                 && if WaitersOf(w, id) == []
                    then At(w', id).value == (At(w, id).value + 1) % WORD && WaitersOf(w', id) == [] &&
                         w'.sched == w.sched && w'.asleep == w.asleep
                    else At(w', id).value == At(w, id).value && WaitersOf(w', id) == WaitersOf(w, id)[1..] &&
                         w'.asleep == w.asleep - {WaitersOf(w, id)[0]} && Granted(w', WaitersOf(w, id)[0]) &&
                         w'.sched.current == w.sched.current && w'.sched.cyclesLeft == w.sched.cyclesLeft
  {
    OneTouched(w, PostSem(id), id);
    hide OthersSame;
    if Exists(w, id) {
      AtUpdate(w, Do(w, PostSem(id)), Find(w.sems, id), Release(At(w, id)), id);
      if WaitersOf(w, id) != [] {
        PostGrants(w, id);
        AsleepListed(w, Find(w.sems, id));
        QueuedElsewhere(w.sched, WaitersOf(w, id)[0]);
      }
      hide JointInv;
    }
  }

  /** sOpen makes a semaphore with the tokens asked for, or counts one more listener of the one there is,
      up to sixteen. */
  lemma OpenDoes(w: World, id: nat, initial: nat)
    requires JointInv(w) && initial < WORD
    ensures var w' := Do(w, OpenSem(id, initial));
            && OthersSame(w, w', id) && w'.sched == w.sched && w'.asleep == w.asleep && Exists(w', id)
            && if !Exists(w, id)
               then At(w', id).value == initial && WaitersOf(w', id) == [] && At(w', id).listeners == 1
               else At(w', id).value == At(w, id).value && WaitersOf(w', id) == WaitersOf(w, id) &&
                    At(w', id).listeners == if At(w, id).listeners < 16 then At(w, id).listeners + 1 else 16
  {
    OneTouched(w, OpenSem(id, initial), id);
    var i, w' := Find(w.sems, id), Do(w, OpenSem(id, initial));
    hide OthersSame;
    if Exists(w, id) {
      if w.sems[i].listeners < MAX_BLOCKED_PIDS {
        AtUpdate(w, w', i, w.sems[i].(listeners := w.sems[i].listeners + 1), id);
      }
    } else {
      OpenMakes(w.sems, id, initial);
      FirstAt(w'.sems, id, |w.sems|);
    }
    hide JointInv;
  }

  /** sClose counts one listener less, and frees the semaphore with the last one. */
  lemma CloseDoes(w: World, id: nat)
    requires JointInv(w)
    ensures var w' := Do(w, CloseSem(id));
            && OthersSame(w, w', id) && w'.sched == w.sched && w'.asleep == w.asleep
            && (Exists(w', id) <==> Exists(w, id) && At(w, id).listeners > 1)
            && (Exists(w', id) ==> At(w', id) == At(w, id).(listeners := At(w, id).listeners - 1))
  {
    OneTouched(w, CloseSem(id), id);
    var i, w' := Find(w.sems, id), Do(w, CloseSem(id));
    hide OthersSame;
    if Exists(w, id) {
      if w.sems[i].listeners > 1 {
        AtUpdate(w, w', i, w.sems[i].(listeners := w.sems[i].listeners - 1), id);
      } else {
        AtRemove(w, w', i, id);
      }
    }
    hide JointInv;
  }
}
