/** What creating and deleting files makes of a directory, one call and whole runs, and where it goes
    wrong. */
module BmfsRuns {
  import opened Bmfs

  /** A file and its extent. */
  datatype File = File(name: string, start: nat, reserved: nat)

  function FileOf(e: Entry): File
    requires e.mark.Live?
  {
    File(e.mark.name, e.start, e.reserved)
  }

  function Files(dir: seq<Entry>): set<File> {
    set i: nat | i < Used(dir) && dir[i].mark.Live? :: FileOf(dir[i])
  }

  function InUse(dir: seq<Entry>): seq<Entry> {
    dir[..Used(dir)]
  }

  /** No two files have the same name. */
  ghost predicate Distinct(es: seq<Entry>) {
    forall i: nat, j: nat | i < j < |es| && es[i].mark.Live? :: es[i].mark != es[j].mark
  }

  /** The files of the directory are in range, apart and of different names. */
  ghost predicate Ordered(dir: seq<Entry>, blocks: nat) {
    |dir| == RECORDS && ExtentsOk(InUse(dir), blocks) && Distinct(InUse(dir))
  }

  // ----- create -----

  /** A directory without an end whose first record is free: create ends it right there. */
  predicate CutsOff(dir: seq<Entry>) {
    Used(dir) == |dir| && FreeSlot(dir) == 0
  }

  /** The records in use after create. */
  lemma CreateRecords(dir: seq<Entry>, name: string, start: nat, n: nat)
    requires |dir| == RECORDS && FreeSlot(dir) < RECORDS
    ensures var slot, used, dir' := FreeSlot(dir), Used(dir), WithFile(dir, name, start, n);
            && |dir'| == |dir| && Used(dir') == (if CutsOff(dir) then 1 else if slot == used then used + 1 else used)
            && dir'[slot] == Entry(Live(name), start, n, 0)
            && forall i: nat | i < Used(dir') && i != slot :: i < used && dir'[i] == dir[i]
    ensures FreeSlot(dir) < Used(dir) ==> dir[FreeSlot(dir)].mark == Deleted
  {
    UsedAt(WithFile(dir, name, start, n),
           if CutsOff(dir) then 1 else if FreeSlot(dir) == Used(dir) then Used(dir) + 1 else Used(dir));
  }

  /** create adds one file, and drops none unless it cuts the directory off. */
  lemma CreateFiles(dir: seq<Entry>, name: string, start: nat, n: nat)
    requires |dir| == RECORDS && FreeSlot(dir) < RECORDS
    ensures Files(WithFile(dir, name, start, n)) ==
            (if CutsOff(dir) then {} else Files(dir)) + {File(name, start, n)}
  {
    var slot, dir' := FreeSlot(dir), WithFile(dir, name, start, n);
    CreateRecords(dir, name, start, n);
    hide Used, FreeSlot, WithFile, CutsOff, Files;
    FilesFrom(dir, dir', slot);
    if !CutsOff(dir) {
      FilesKept(dir, dir', slot);
    }
  }

  /** The files are still there, if none was in the slot. */
  lemma FilesKept(dir: seq<Entry>, dir': seq<Entry>, slot: nat)
    requires Used(dir) <= Used(dir') && (slot < Used(dir) ==> !dir[slot].mark.Live?)
    requires forall i: nat | i < Used(dir) && i != slot :: dir'[i] == dir[i]
    ensures Files(dir) <= Files(dir')
  {
    hide Used;
  }

  /** Every file but the one in the slot was there before. */
  lemma FilesFrom(dir: seq<Entry>, dir': seq<Entry>, slot: nat)
    requires slot < Used(dir') && dir'[slot].mark.Live?
    requires forall i: nat | i < Used(dir') && i != slot :: i < Used(dir) && dir'[i] == dir[i]
    ensures FileOf(dir'[slot]) in Files(dir') && Files(dir') <= Files(dir) + {FileOf(dir'[slot])}
    ensures Used(dir') == 1 ==> Files(dir') == {FileOf(dir'[slot])}
  {
    hide Used;
  }

  lemma AbsentEverywhere(dir: seq<Entry>, name: string)
    requires !Present(dir, name)
    ensures forall i: nat | i < Used(dir) :: dir[i].mark != Live(name)
  {}

  lemma CreateExtents(dir: seq<Entry>, name: string, start: nat, n: nat, blocks: nat)
    requires Ordered(dir, blocks) && FreeSlot(dir) < RECORDS && !Present(dir, name)
    requires CutsOff(dir) || Fits(InUse(dir), blocks, start, n)
    requires InBounds(start, n, blocks)
    ensures Ordered(WithFile(dir, name, start, n), blocks)
  {
    var slot, dir', es := FreeSlot(dir), WithFile(dir, name, start, n), InUse(dir);
    CreateRecords(dir, name, start, n);
    AbsentEverywhere(dir, name);
    var es' := InUse(dir');
    hide Used, FreeSlot, WithFile, Find, ExtentsOk, Fits, Distinct;
    if CutsOff(dir) {
      AloneOk(es', blocks);
    } else {
      JoinOk(es, es', slot, blocks);
    }
  }

  lemma AloneOk(es: seq<Entry>, blocks: nat)
    requires |es| == 1 && InRange(es[0], blocks)
    ensures ExtentsOk(es, blocks) && Distinct(es)
  {}

  /** A record more, or one in the place of a deleted one. */
  lemma JoinOk(es: seq<Entry>, es': seq<Entry>, slot: nat, blocks: nat)
    requires ExtentsOk(es, blocks) && Distinct(es) && slot < |es'|
    requires forall i: nat | i < |es'| && i != slot :: i < |es| && es'[i] == es[i]
    requires es'[slot].mark.Live? && Fits(es, blocks, es'[slot].start, es'[slot].reserved)
    requires forall i: nat | i < |es| :: es[i].mark != es'[slot].mark
    ensures ExtentsOk(es', blocks) && Distinct(es')
  {
    assert forall i: nat | i < |es'| && i != slot :: es'[i] in es;
  }

  /** Where the file does not fit, it overlaps another one. */
  lemma CreateOverlaps(dir: seq<Entry>, name: string, start: nat, n: nat, blocks: nat)
    requires Ordered(dir, blocks) && FreeSlot(dir) < RECORDS && !CutsOff(dir)
    requires Ordered(WithFile(dir, name, start, n), blocks)
    ensures Fits(InUse(dir), blocks, start, n)
  {
    var slot, dir', es := FreeSlot(dir), WithFile(dir, name, start, n), InUse(dir);
    CreateRecords(dir, name, start, n);
    var es' := InUse(dir');
    hide Used, FreeSlot, WithFile, Find, Distinct, ExtentsOk;
    JoinFits(es, es', slot, blocks);
  }

  /** The converse of JoinOk. */
  lemma JoinFits(es: seq<Entry>, es': seq<Entry>, slot: nat, blocks: nat)
    requires ExtentsOk(es', blocks) && slot < |es'| && es'[slot].mark.Live?
    requires forall i: nat | i < |es| && es[i].mark.Live? :: i < |es'| && i != slot && es'[i] == es[i]
    ensures Fits(es, blocks, es'[slot].start, es'[slot].reserved)
  {
    var p := es'[slot];
    assert InRange(p, blocks);
    forall e | e in es && e.mark.Live? ensures p.start + p.reserved <= e.start || e.start + e.reserved <= p.start {
      var i: nat :| i < |es| && es[i] == e;
      assert if i < slot then Apart(es'[i], es'[slot]) else Apart(es'[slot], es'[i]);
    }
  }

  /** A new file on the disk keeps the directory in order exactly when it fits, or all others are cut
      off. */
  lemma CreateKeepsOrder(dir: seq<Entry>, name: string, start: nat, n: nat, blocks: nat)
    requires Ordered(dir, blocks) && FreeSlot(dir) < RECORDS && !Present(dir, name) && InBounds(start, n, blocks)
    ensures Ordered(WithFile(dir, name, start, n), blocks) <==> CutsOff(dir) || Fits(InUse(dir), blocks, start, n)
  {
    if CutsOff(dir) || Fits(InUse(dir), blocks, start, n) {
      CreateExtents(dir, name, start, n, blocks);
    } else if Ordered(WithFile(dir, name, start, n), blocks) {
      CreateOverlaps(dir, name, start, n, blocks);
    }
  }

  /** What a caller of create can see beforehand. Where the directory ends, the file must fit somewhere or
      no deleted record mislead the search; where it does not end, block 1 is taken without looking, and
      must be free. */
  ghost predicate Safe(dir: seq<Entry>, n: nat, blocks: nat) {
    if Used(dir) < RECORDS
    then (exists p: nat :: Fits(InUse(dir), blocks, p, n)) || forall e | e in InUse(dir) :: !Misleads(e, n, blocks)
    else
      || FreeSlot(dir) == RECORDS || n + 2 > blocks || Files(dir) == {}
      || (FreeSlot(dir) != 0 && Fits(InUse(dir), blocks, 1, n))
  }

  /** create keeps the directory in order and every file in it exactly when it is safe, however the
      records are sorted. */
  lemma CreateIsSafe(dir: seq<Entry>, r: seq<Entry>, name: string, n: nat, blocks: nat)
    requires Ordered(dir, blocks) && Clear(InUse(dir)) && 3 <= blocks < MAX_BLOCKS && !Present(dir, name)
    requires Sorting(Counted(dir), r)
    ensures var dir' := Created(dir, r, name, n, blocks).1;
            (Ordered(dir', blocks) && Files(dir) <= Files(dir')) <==> Safe(dir, n, blocks)
  {
    if FreeSlot(dir) < RECORDS {
      if Used(dir) < RECORDS {
        EndedIsSafe(dir, r, name, n, blocks);
      } else {
        EndlessIsSafe(dir, r, name, n, blocks);
      }
    } else {
      FullIsSafe(dir, n, blocks);
    }
  }

  lemma FullIsSafe(dir: seq<Entry>, n: nat, blocks: nat)
    requires |dir| == RECORDS == FreeSlot(dir)
    ensures Safe(dir, n, blocks)
  {}

  lemma EndedIsSafe(dir: seq<Entry>, r: seq<Entry>, name: string, n: nat, blocks: nat)
    requires Ordered(dir, blocks) && Clear(InUse(dir)) && 3 <= blocks < MAX_BLOCKS && !Present(dir, name)
    requires Sorting(Counted(dir), r) && Used(dir) < RECORDS
    ensures var dir' := Created(dir, r, name, n, blocks).1;
            (Ordered(dir', blocks) && Files(dir) <= Files(dir')) <==> Safe(dir, n, blocks)
  {
    hide Ordered, Clear, Sorting, Scan, Used, FreeSlot, Files, WithFile, Fits, Finds, InUse, ExtentsOk, Safe, Present;
    hide Counted;
    var s := Scan(r, 0, 1, n, blocks);
    OrderedExtents(dir, blocks);
    EndedCounted(dir);
    SearchFindsLowest(InUse(dir), r, n, blocks);
    SafeIfFound(dir, s, n, blocks);
    if s.Some? {
      CreateKeepsOrder(dir, name, s.value, n, blocks);
      CreateFiles(dir, name, s.value, n);
    }
  }

  lemma EndedCounted(dir: seq<Entry>)
    requires Used(dir) < |dir|
    ensures Counted(dir) == InUse(dir) && !CutsOff(dir) && forall e | e in InUse(dir) :: e.mark != End
  {
    hide Used;
  }

  lemma SafeIfFound(dir: seq<Entry>, s: Option<nat>, n: nat, blocks: nat)
    requires Finds(InUse(dir), s, n, blocks) && Used(dir) < RECORDS
    ensures Safe(dir, n, blocks) <==> s == None || Fits(InUse(dir), blocks, s.value, n)
    ensures s.Some? ==> InBounds(s.value, n, blocks)
  {
    hide Misleads, Used, InUse, FreeSlot, Files;
  }

  lemma OrderedExtents(dir: seq<Entry>, blocks: nat)
    requires Ordered(dir, blocks)
    ensures |dir| == RECORDS && ExtentsOk(InUse(dir), blocks)
  {}

  /** No records are counted: the search sees an empty disk. */
  lemma EndlessIsSafe(dir: seq<Entry>, r: seq<Entry>, name: string, n: nat, blocks: nat)
    requires Ordered(dir, blocks) && 3 <= blocks < MAX_BLOCKS && !Present(dir, name)
    requires Sorting(Counted(dir), r) && FreeSlot(dir) < Used(dir) == RECORDS
    ensures var dir' := Created(dir, r, name, n, blocks).1;
            (Ordered(dir', blocks) && Files(dir) <= Files(dir')) <==> Safe(dir, n, blocks)
  {
    assert |multiset(r)| == |r| == 0;
    assert Scan([], 0, 1, n, blocks) == if n + 2 <= blocks then Some(1) else None;
    if n + 2 <= blocks {
      CreateKeepsOrder(dir, name, 1, n, blocks);
      CreateFiles(dir, name, 1, n);
      NewFile(dir, name, 1, n);
      if Files(dir) == {} {
        NoFilesFits(dir, blocks, n);
      }
    }
    hide Ordered, Scan, Misleads, Used, FreeSlot, Files, WithFile, InUse;
  }

  lemma NewFile(dir: seq<Entry>, name: string, start: nat, n: nat)
    requires !Present(dir, name)
    ensures File(name, start, n) !in Files(dir)
  {
    AbsentEverywhere(dir, name);
  }

  lemma NoFilesFits(dir: seq<Entry>, blocks: nat, n: nat)
    requires Files(dir) == {} && InBounds(1, n, blocks)
    ensures Fits(InUse(dir), blocks, 1, n)
  {
    AllListed(dir);
    hide Files;
  }

  lemma AllListed(dir: seq<Entry>)
    ensures forall e | e in InUse(dir) && e.mark.Live? :: FileOf(e) in Files(dir)
  {
    forall e | e in InUse(dir) && e.mark.Live? ensures FileOf(e) in Files(dir) {
      var i: nat :| i < Used(dir) && InUse(dir)[i] == e;
      assert FileOf(dir[i]) in Files(dir);
    }
  }

  // ----- delete -----

  /** delete takes exactly the file away, and the directory stays in order. */
  lemma DeleteKeepsOrder(dir: seq<Entry>, name: string, blocks: nat)
    requires Ordered(dir, blocks)
    ensures var dir' := Without(dir, name);
            && Ordered(dir', blocks)
            && Files(dir') == if Present(dir, name) then Files(dir) - {FileOf(dir[Find(dir, name)])} else Files(dir)
  {
    if Present(dir, name) {
      var k, dir' := Find(dir, name), Without(dir, name);
      UsedAt(dir', Used(dir));
      assert forall i: nat | i < Used(dir) && i != k :: dir'[i] == dir[i];
      DeleteExtents(InUse(dir), InUse(dir'), k, blocks);
      DeleteFiles(dir, dir', k, blocks);
      hide ExtentsOk, Used, Find, Files;
    }
  }

  lemma DeleteExtents(es: seq<Entry>, es': seq<Entry>, k: nat, blocks: nat)
    requires ExtentsOk(es, blocks) && Distinct(es) && k < |es| == |es'| && es[k].mark.Live?
    requires es' == es[k := es[k].(mark := Deleted)]
    ensures ExtentsOk(es', blocks) && Distinct(es')
  {}

  lemma DeleteFiles(dir: seq<Entry>, dir': seq<Entry>, k: nat, blocks: nat)
    requires Ordered(dir, blocks) && k < Used(dir) == Used(dir') && |dir'| == |dir| && dir[k].mark.Live?
    requires dir'[k].mark == Deleted && forall i: nat | i < Used(dir) && i != k :: dir'[i] == dir[i]
    ensures Files(dir') == Files(dir) - {FileOf(dir[k])}
  {
    hide Used, ExtentsOk;
    var es := InUse(dir);
    forall f: File ensures f in Files(dir') <==> f in Files(dir) && f != FileOf(dir[k]) {
      if f in Files(dir') {
        var i: nat :| i < Used(dir') && dir'[i].mark.Live? && f == FileOf(dir'[i]);
        assert i != k && dir'[i] == es[i] && es[i].mark != es[k].mark;
      }
      if f in Files(dir) && f != FileOf(dir[k]) {
        var i: nat :| i < Used(dir) && dir[i].mark.Live? && f == FileOf(dir[i]);
        assert dir'[i] == dir[i];
      }
    }
  }

  /** Deleting a file just created, where it was safe, restores the files there were. */
  lemma DeleteUndoesCreate(dir: seq<Entry>, name: string, start: nat, n: nat, blocks: nat)
    requires Ordered(dir, blocks) && FreeSlot(dir) < RECORDS && !CutsOff(dir) && !Present(dir, name)
    requires Fits(InUse(dir), blocks, start, n)
    ensures Files(Without(WithFile(dir, name, start, n), name)) == Files(dir)
  {
    var dir', slot := WithFile(dir, name, start, n), FreeSlot(dir);
    CreateExtents(dir, name, start, n, blocks);
    CreateFiles(dir, name, start, n);
    CreateRecords(dir, name, start, n);
    AbsentEverywhere(dir, name);
    FindAt(dir', name, slot);
    DeleteKeepsOrder(dir', name, blocks);
    NewFile(dir, name, start, n);
    hide Used, FreeSlot, WithFile, Find, Files, Ordered;
  }

  // ----- whole runs -----

  datatype Request = Make(name: string, n: nat) | Remove(name: string)

  /** A call of create or delete, qsort leaving ties as it will. */
  ghost predicate Serves(dir: seq<Entry>, q: Request, dir': seq<Entry>, blocks: nat)
    requires blocks >= 1
  {
    match q
    case Make(name, n) => exists r :: Sorting(Counted(dir), r) && dir' == Created(dir, r, name, n, blocks).1
    case Remove(name) => dir' == Without(dir, name)
  }

  /** All files have blocks, as the tool asks for a MiB at least. */
  ghost predicate Solid(dir: seq<Entry>) {
    forall f | f in Files(dir) :: f.reserved >= 1
  }

  /** A request for at least a MiB, safe where it is a new file. */
  ghost predicate Sound(dir: seq<Entry>, q: Request, blocks: nat) {
    q.Make? ==> q.n >= 1 && (Present(dir, q.name) || Safe(dir, q.n, blocks))
  }

  lemma SolidIsClear(dir: seq<Entry>)
    requires Solid(dir)
    ensures Clear(InUse(dir))
  {
    AllListed(dir);
  }

  /** The file of a name, where there is one. */
  ghost predicate Keeps(dir: seq<Entry>, dir': seq<Entry>, q: Request) {
    forall f | f in Files(dir) && !(q.Remove? && q.name == f.name) :: f in Files(dir')
  }

  lemma StepKeepsOrder(dir: seq<Entry>, q: Request, dir': seq<Entry>, blocks: nat)
    requires Ordered(dir, blocks) && Solid(dir) && 3 <= blocks < MAX_BLOCKS
    requires Serves(dir, q, dir', blocks) && Sound(dir, q, blocks)
    ensures Ordered(dir', blocks) && Solid(dir') && Keeps(dir, dir', q)
  {
    match q
    case Make(name, n) =>
      var r :| Sorting(Counted(dir), r) && dir' == Created(dir, r, name, n, blocks).1;
      if !Present(dir, name) {
        MakeKeepsOrder(dir, r, name, n, blocks);
      }
    case Remove(name) =>
      DeleteKeepsOrder(dir, name, blocks);
      hide Ordered, Files, Used;
  }

  lemma MakeKeepsOrder(dir: seq<Entry>, r: seq<Entry>, name: string, n: nat, blocks: nat)
    requires Ordered(dir, blocks) && Solid(dir) && 3 <= blocks < MAX_BLOCKS && !Present(dir, name) && n >= 1
    requires Sorting(Counted(dir), r) && Safe(dir, n, blocks)
    ensures var dir' := Created(dir, r, name, n, blocks).1;
            Ordered(dir', blocks) && Solid(dir') && Files(dir) <= Files(dir')
  {
    hide Ordered, Files, Scan, Sorting, Safe, WithFile, Used, FreeSlot, Present;
    SolidIsClear(dir);
    CreateIsSafe(dir, r, name, n, blocks);
    assert |dir| == RECORDS by { OrderedExtents(dir, blocks); }
    var s := Scan(r, 0, 1, n, blocks);
    if s.Some? && FreeSlot(dir) < RECORDS {
      CreateFiles(dir, name, s.value, n);
    }
  }

  /** A run: the directory before each request, and the one after the last. */
  ghost predicate Leads(dirs: seq<seq<Entry>>, qs: seq<Request>, blocks: nat)
    requires blocks >= 1
  {
    |dirs| == |qs| + 1 && forall i: nat | i < |qs| :: Serves(dirs[i], qs[i], dirs[i + 1], blocks)
  }

  /** Whatever is created and deleted in safe steps, the files stay in range and apart, and every file
      stays where it is until it is deleted. */
  lemma {:induction false} RunKeepsOrder(dirs: seq<seq<Entry>>, qs: seq<Request>, blocks: nat)
    requires 3 <= blocks < MAX_BLOCKS && Leads(dirs, qs, blocks) && Ordered(dirs[0], blocks) && Solid(dirs[0])
    requires forall i: nat | i < |qs| :: Sound(dirs[i], qs[i], blocks)
    ensures Ordered(dirs[|qs|], blocks) && Solid(dirs[|qs|])
    ensures forall f | f in Files(dirs[0]) && Remove(f.name) !in qs :: f in Files(dirs[|qs|])
  {
    if qs != [] {
      hide Ordered, Solid, Serves, Sound, Files;
      var n := |qs| - 1;
      assert dirs[..n + 1][n] == dirs[n];
      RunKeepsOrder(dirs[..n + 1], qs[..n], blocks);
      StepKeepsOrder(dirs[n], qs[n], dirs[n + 1], blocks);
      assert forall q | q in qs[..n] :: q in qs;
      assert qs[n] in qs;
    }
  }

  // ----- runs that go wrong -----

  /** format. */
  function Formatted(): seq<Entry> {
    seq(RECORDS, _ => Entry(End, 0, 0, 0))
  }

  /** The directory holds these records, and ends after them if there is a record left to end it. */
  predicate Holds(dir: seq<Entry>, es: seq<Entry>) {
    && |dir| == RECORDS && |es| <= RECORDS && dir[..|es|] == es
    && (|es| < RECORDS ==> dir[|es|].mark == End) && forall i: nat | i < |es| :: es[i].mark != End
  }

  lemma HoldsUsed(dir: seq<Entry>, es: seq<Entry>)
    requires Holds(dir, es)
    ensures Used(dir) == |es| && InUse(dir) == es
  {
    UsedAt(dir, |es|);
  }

  /** A run from a formatted disk to a directory with these records, asking only for files of at least
      `least` blocks. */
  ghost predicate Reached(dirs: seq<seq<Entry>>, qs: seq<Request>, es: seq<Entry>, least: nat, blocks: nat)
    requires blocks >= 1
  {
    && Leads(dirs, qs, blocks) && dirs[0] == Formatted() && Holds(dirs[|qs|], es)
    && forall q | q in qs && q.Make? :: q.n >= least
  }

  lemma Begins(blocks: nat, least: nat)
    requires blocks >= 1
    ensures Reached([Formatted()], [], [], least, blocks)
  {}

  lemma Continues(dirs: seq<seq<Entry>>, qs: seq<Request>, q: Request, dir: seq<Entry>, blocks: nat)
    requires blocks >= 1 && Leads(dirs, qs, blocks) && Serves(dirs[|qs|], q, dir, blocks)
    ensures Leads(dirs + [dir], qs + [q], blocks)
  {
    hide Serves;
  }

  /** The next file, where all records are live. */
  lemma MakesNext(dir: seq<Entry>, es: seq<Entry>, r: seq<Entry>, name: string, p: nat, n: nat, blocks: nat)
    requires Holds(dir, es) && |es| < RECORDS && forall i: nat | i < |es| :: es[i].mark.Live? && es[i].mark.name != name
    requires blocks >= 1 && p >= 1 && Sorting(es, r) && Scan(r, 0, 1, n, blocks) == Some(p)
    ensures FreeSlot(dir) == |es| && Serves(dir, Make(name, n), WithFile(dir, name, p, n), blocks)
    ensures Holds(WithFile(dir, name, p, n), es + [Entry(Live(name), p, n, 0)])
  {
    HoldsUsed(dir, es);
    FreeAt(dir, |es|);
    FindAt(dir, name, |es|);
    hide Used, FreeSlot, Find, Scan, Sorting;
    assert Created(dir, r, name, n, blocks).1 == WithFile(dir, name, p, n);
  }

  lemma Creates(dirs: seq<seq<Entry>>, qs: seq<Request>, es: seq<Entry>, r: seq<Entry>, name: string, p: nat, n: nat,
                least: nat, blocks: nat) returns (dirs': seq<seq<Entry>>)
    requires blocks >= 1 && Reached(dirs, qs, es, least, blocks) && p >= 1 && n >= least
    requires |es| < RECORDS && forall i: nat | i < |es| :: es[i].mark.Live? && es[i].mark.name != name
    requires Sorting(es, r) && Scan(r, 0, 1, n, blocks) == Some(p)
    ensures Reached(dirs', qs + [Make(name, n)], es + [Entry(Live(name), p, n, 0)], least, blocks)
    ensures dirs' == dirs + [dirs'[|qs| + 1]]
  {
    var dir := dirs[|qs|];
    MakesNext(dir, es, r, name, p, n, blocks);
    Continues(dirs, qs, Make(name, n), WithFile(dir, name, p, n), blocks);
    dirs' := dirs + [WithFile(dir, name, p, n)];
    hide Holds, Leads, WithFile, Serves, Scan, Sorting;
  }

  lemma Deletes(dirs: seq<seq<Entry>>, qs: seq<Request>, es: seq<Entry>, k: nat, least: nat, blocks: nat)
      returns (dirs': seq<seq<Entry>>)
    requires blocks >= 1 && Reached(dirs, qs, es, least, blocks) && k < |es| && es[k].mark.Live?
    requires forall i: nat | i < k :: es[i].mark != es[k].mark
    ensures Reached(dirs', qs + [Remove(es[k].mark.name)], es[k := es[k].(mark := Deleted)], least, blocks)
    ensures dirs' == dirs + [dirs'[|qs| + 1]]
  {
    var dir, name := dirs[|qs|], es[k].mark.name;
    HoldsUsed(dir, es);
    FindAt(dir, name, k);
    assert dir[..|es|][k] == dir[k];
    var dir' := Without(dir, name);
    assert dir'[..|es|] == es[k := es[k].(mark := Deleted)];
    Continues(dirs, qs, Remove(name), dir', blocks);
    dirs' := dirs + [dir'];
    hide Leads, Serves, Used, Find;
  }

  /** A file of no blocks, which the tool itself does not ask for, is hidden by one made after it. The
      search then finds room for one more where a third file is, though there is room elsewhere. */
  lemma HiddenExample()
    ensures var z, a, b := Entry(Live("z"), 1, 0, 0), Entry(Live("a"), 1, 3, 0), Entry(Live("b"), 4, 2, 0);
            && (exists dirs, qs :: Reached(dirs, qs, [z, a, b, Entry(Live("c"), 4, 1, 0)], 0, 10))
            && ExtentsOk([z, a, b], 10) && !Fits([z, a, b], 10, 4, 1) && Lowest([z, a, b], 10, 6, 1)
  {
    var z, a, b := Entry(Live("z"), 1, 0, 0), Entry(Live("a"), 1, 3, 0), Entry(Live("b"), 4, 2, 0);
    var c := Entry(Live("c"), 4, 1, 0);
    hide Scan, Reached, Sorting, ExtentsOk, Fits, Lowest;
    HiddenScans(z, a, b);
    HiddenSortings(z, a, b);
    HiddenPlaces(z, a, b);
    var dirs, qs := HiddenMade(z, a, b);
    dirs := Creates(dirs, qs, [z, a, b], [a, z, b], "c", 4, 1, 0, 10);
    assert [z, a, b] + [c] == [z, a, b, c];
  }

  lemma HiddenMade(z: Entry, a: Entry, b: Entry) returns (dirs: seq<seq<Entry>>, qs: seq<Request>)
    requires z == Entry(Live("z"), 1, 0, 0) && a == Entry(Live("a"), 1, 3, 0) && b == Entry(Live("b"), 4, 2, 0)
    ensures Reached(dirs, qs, [z, a, b], 0, 10)
  {
    hide Scan, Reached, Sorting;
    Begins(10, 0);
    HiddenScans(z, a, b);
    HiddenSortings(z, a, b);
    dirs := Creates([Formatted()], [], [], [], "z", 1, 0, 0, 10);
    qs := [] + [Make("z", 0)];
    dirs := Creates(dirs, qs, [] + [z], [] + [z], "a", 1, 3, 0, 10);
    qs := qs + [Make("a", 3)];
    dirs := Creates(dirs, qs, [] + [z] + [a], [] + [z] + [a], "b", 4, 2, 0, 10);
    qs := qs + [Make("b", 2)];
    assert [] + [z] + [a] + [b] == [z, a, b];
  }

  lemma HiddenSortings(z: Entry, a: Entry, b: Entry)
    requires z == Entry(Live("z"), 1, 0, 0) && a == Entry(Live("a"), 1, 3, 0) && b == Entry(Live("b"), 4, 2, 0)
    ensures Sorting([], []) && Sorting([] + [z], [] + [z]) && Sorting([] + [z] + [a], [] + [z] + [a])
    ensures Sorting([z, a, b], [a, z, b])
  {
    assert [z, a, b] == [z] + [a] + [b] && [a, z, b] == [a] + [z] + [b];
  }

  lemma HiddenPlaces(z: Entry, a: Entry, b: Entry)
    requires z == Entry(Live("z"), 1, 0, 0) && a == Entry(Live("a"), 1, 3, 0) && b == Entry(Live("b"), 4, 2, 0)
    ensures ExtentsOk([z, a, b], 10) && !Fits([z, a, b], 10, 4, 1) && Lowest([z, a, b], 10, 6, 1)
  {
    assert b in [z, a, b] && a in [z, a, b];
  }

  lemma HiddenScans(z: Entry, a: Entry, b: Entry)
    requires z == Entry(Live("z"), 1, 0, 0) && a == Entry(Live("a"), 1, 3, 0) && b == Entry(Live("b"), 4, 2, 0)
    ensures Scan([], 0, 1, 0, 10) == Some(1) && Scan([] + [z], 0, 1, 3, 10) == Some(1)
    ensures Scan([] + [z] + [a], 0, 1, 2, 10) == Some(4) && Scan([a, z, b], 0, 1, 1, 10) == Some(4)
  {
    hide Scan;
    ScanEnds([], 0, 1, 0, 10);
    assert [] + [z] == [z] && [] + [z] + [a] == [z, a];
    ScanGoes([z], 0, 1, 3, 10);
    ScanEnds([z], 1, 1, 3, 10);
    ScanGoes([z, a], 0, 1, 2, 10);
    ScanGoes([z, a], 1, 1, 2, 10);
    ScanEnds([z, a], 2, 4, 2, 10);
    ScanGoes([a, z, b], 0, 1, 1, 10);
    ScanEnds([a, z, b], 1, 4, 1, 10);
  }

  /** The search goes past a gap that is too narrow. */
  lemma ScanGoes(es: seq<Entry>, i: nat, prev: nat, n: nat, blocks: nat)
    requires i < |es| && blocks >= 1 && Sub64(GapEnd(es, i, blocks), prev) < n
    ensures Scan(es, i, prev, n, blocks) == Scan(es, i + 1, EndOf(es[i]), n, blocks)
  {}

  /** The search ends at one that is wide enough. */
  lemma ScanEnds(es: seq<Entry>, i: nat, prev: nat, n: nat, blocks: nat)
    requires i <= |es| && blocks >= 1 && Sub64(GapEnd(es, i, blocks), prev) >= n
    ensures Scan(es, i, prev, n, blocks) == Some(prev)
  {}

  /** Two blocks fit nowhere, but a deleted record sends the search back to where a live file is. */
  lemma DeletedExample()
    ensures var a, d, b := Entry(Live("a"), 1, 1, 0), Entry(Deleted, 2, 1, 0), Entry(Live("b"), 3, 6, 0);
            && (exists dirs, qs :: Reached(dirs, qs, [a, d, b], 1, 10))
            && (exists dirs, qs :: Reached(dirs, qs, [a, Entry(Live("c"), 3, 2, 0), b], 1, 10))
            && forall p: nat :: !Fits([a, d, b], 10, p, 2)
  {
    var a, d, b := Entry(Live("a"), 1, 1, 0), Entry(Live("d"), 2, 1, 0), Entry(Live("b"), 3, 6, 0);
    var d' := Entry(Deleted, 2, 1, 0);
    hide Scan, Reached;
    var dirs, qs := DeletedMade(a, d, b, d');
    DeletedScans(a, d, b, d');
    dirs := Deletes(dirs, qs, [a, d, b], 1, 1, 10);
    qs := qs + [Remove("d")];
    assert [a, d, b][1 := d'] == [a, d', b];
    assert a in [a, d', b] && b in [a, d', b];
    var _ := Reuses(dirs, qs, a, d', b);
  }

  lemma DeletedMade(a: Entry, d: Entry, b: Entry, d': Entry) returns (dirs: seq<seq<Entry>>, qs: seq<Request>)
    requires a == Entry(Live("a"), 1, 1, 0) && d == Entry(Live("d"), 2, 1, 0) && b == Entry(Live("b"), 3, 6, 0)
    requires d' == Entry(Deleted, 2, 1, 0)
    ensures Reached(dirs, qs, [a, d, b], 1, 10)
  {
    hide Scan;
    Begins(10, 1);
    DeletedScans(a, d, b, d');
    dirs := Creates([Formatted()], [], [], [], "a", 1, 1, 1, 10);
    qs := [] + [Make("a", 1)];
    dirs := Creates(dirs, qs, [] + [a], [a], "d", 2, 1, 1, 10);
    qs := qs + [Make("d", 1)];
    dirs := Creates(dirs, qs, [] + [a] + [d], [a, d], "b", 3, 6, 1, 10);
    qs := qs + [Make("b", 6)];
    assert [] + [a] + [d] + [b] == [a, d, b];
  }

  lemma Reuses(dirs: seq<seq<Entry>>, qs: seq<Request>, a: Entry, d: Entry, b: Entry) returns (dirs': seq<seq<Entry>>)
    requires a == Entry(Live("a"), 1, 1, 0) && b == Entry(Live("b"), 3, 6, 0) && d == Entry(Deleted, 2, 1, 0)
    requires Reached(dirs, qs, [a, d, b], 1, 10) && Scan([a, b, d], 0, 1, 2, 10) == Some(3)
    ensures Reached(dirs', qs + [Make("c", 2)], [a, Entry(Live("c"), 3, 2, 0), b], 1, 10)
  {
    var dir := dirs[|qs|];
    SlotReused(dir, a, d, b);
    var dir' := WithFile(dir, "c", 3, 2);
    hide Holds, FreeSlot, Counted, Present, Scan, WithFile, Leads;
    assert Sorting([a, d, b], [a, b, d]);
    assert Created(dir, [a, b, d], "c", 2, 10).1 == dir';
    hide Sorting, Created;
    Continues(dirs, qs, Make("c", 2), dir', 10);
    dirs' := dirs + [dir'];
  }

  lemma SlotReused(dir: seq<Entry>, a: Entry, d: Entry, b: Entry)
    requires Holds(dir, [a, d, b]) && a.mark == Live("a") && d.mark == Deleted && b.mark == Live("b")
    ensures FreeSlot(dir) == 1 && !Present(dir, "c") && Counted(dir) == [a, d, b]
    ensures Holds(WithFile(dir, "c", 3, 2), [a, Entry(Live("c"), 3, 2, 0), b])
  {
    HoldsUsed(dir, [a, d, b]);
    assert dir[..3][0] == a && dir[..3][1] == d && dir[..3][2] == b;
    FreeAt(dir, 1);
    FindAt(dir, "c", 3);
    hide Used, FreeSlot, Find;
    assert WithFile(dir, "c", 3, 2)[..3] == [a, Entry(Live("c"), 3, 2, 0), b];
  }

  lemma DeletedScans(a: Entry, d: Entry, b: Entry, d': Entry)
    requires a == Entry(Live("a"), 1, 1, 0) && d == Entry(Live("d"), 2, 1, 0) && b == Entry(Live("b"), 3, 6, 0)
    requires d' == Entry(Deleted, 2, 1, 0)
    ensures Scan([], 0, 1, 1, 10) == Some(1) && Scan([a], 0, 1, 1, 10) == Some(2)
    ensures Scan([a, d], 0, 1, 6, 10) == Some(3) && Scan([a, b, d'], 0, 1, 2, 10) == Some(3)
  {
    hide Scan;
    ScanEnds([], 0, 1, 1, 10);
    ScanGoes([a], 0, 1, 1, 10);
    ScanEnds([a], 1, 2, 1, 10);
    ScanGoes([a, d], 0, 1, 6, 10);
    ScanGoes([a, d], 1, 2, 6, 10);
    ScanEnds([a, d], 2, 3, 6, 10);
    ScanGoes([a, b, d'], 0, 1, 2, 10);
    ScanGoes([a, b, d'], 1, 2, 2, 10);
    ScanGoes([a, b, d'], 2, 9, 2, 10);
    ScanEnds([a, b, d'], 3, 3, 2, 10);
  }

  // ----- a directory without an end -----

  function Name(i: nat): string
    requires i < RECORDS
  {
    [('a' as int + i / 8) as char, ('a' as int + i % 8) as char]
  }

  /** k files of one block each, one after the other. */
  function Row(k: nat): (es: seq<Entry>)
    requires k <= RECORDS
  {
    seq(k, i requires 0 <= i < k => Entry(Live(Name(i)), i + 1, 1, 0))
  }

  lemma {:induction false} ScanRow(k: nat, i: nat)
    requires i <= k <= RECORDS
    ensures Scan(Row(k), i, i + 1, 1, 100) == Some(k + 1)
    decreases k - i
  {
    hide Scan, Name;
    if i < k {
      assert Row(k)[i] == Entry(Live(Name(i)), i + 1, 1, 0);
      ScanGoes(Row(k), i, i + 1, 1, 100);
      ScanRow(k, i + 1);
    } else {
      ScanEnds(Row(k), i, i + 1, 1, 100);
    }
  }

  lemma NamesDiffer(i: nat, j: nat)
    requires i < RECORDS && j < RECORDS && Name(i) == Name(j)
    ensures i == j
  {
    assert Name(i)[0] == Name(j)[0] && Name(i)[1] == Name(j)[1];
  }

  lemma {:induction false} Fills(k: nat) returns (dirs: seq<seq<Entry>>, qs: seq<Request>)
    requires k <= RECORDS
    ensures Reached(dirs, qs, Row(k), 1, 100) && |qs| == k
  {
    if k == 0 {
      Begins(100, 1);
      dirs, qs := [Formatted()], [];
    } else {
      dirs, qs := Fills(k - 1);
      var es := Row(k - 1);
      ScanRow(k - 1, 0);
      forall i: nat | i < |es| ensures es[i].mark.name != Name(k - 1) {
        if es[i].mark.name == Name(k - 1) {
          NamesDiffer(i, k - 1);
        }
      }
      assert es + [Entry(Live(Name(k - 1)), k, 1, 0)] == Row(k);
      hide Reached, Scan, Name;
      dirs := Creates(dirs, qs, es, es, Name(k - 1), k, 1, 1, 100);
      qs := qs + [Make(Name(k - 1), 1)];
    }
  }

  /** Sixty-four files fill the directory, which then has no end. Deleting the first and making another
      leaves that one alone: the other sixty-three are gone. */
  lemma LosesFiles()
    ensures exists dirs, qs: seq<Request> :: Leads(dirs, qs, 100) && |qs| == 66 && dirs[0] == Formatted() &&
              (forall q | q in qs && q.Make? :: q.n >= 1) && qs[64] == Remove(Name(0)) && qs[65] == Make("new", 1) &&
              (forall k: nat | 1 <= k < 64 :: File(Name(k), k + 1, 1) in Files(dirs[65])) &&
              Files(dirs[66]) == {File("new", 1, 1)}
  {
    var dirs, qs := Fills(64);
    var es := Row(64);
    hide Name;
    dirs := Deletes(dirs, qs, es, 0, 1, 100);
    qs := qs + [Remove(Name(0))];
    CutOff(dirs, qs, es[0 := es[0].(mark := Deleted)]);
  }

  lemma CutOff(dirs: seq<seq<Entry>>, qs: seq<Request>, es: seq<Entry>)
    requires Reached(dirs, qs, es, 1, 100) && |qs| == 65 && es == Row(64)[0 := Row(64)[0].(mark := Deleted)]
    ensures var dir' := WithFile(dirs[65], "new", 1, 1);
            && FreeSlot(dirs[65]) == 0 && Leads(dirs + [dir'], qs + [Make("new", 1)], 100)
            && (forall k: nat | 1 <= k < 64 :: File(Name(k), k + 1, 1) in Files(dirs[65]))
            && Files(dir') == {File("new", 1, 1)}
  {
    var dir := dirs[65];
    var dir' := WithFile(dir, "new", 1, 1);
    HoldsUsed(dir, es);
    assert dir[..64] == dir;
    FreeAt(dir, 0);
    RowFiles(dir, es);
    CreateFiles(dir, "new", 1, 1);
    CutServes(dir, es);
    Continues(dirs, qs, Make("new", 1), dir', 100);
    hide Leads, Files, Serves, Used, FreeSlot, Name, Row, WithFile;
  }

  lemma RowFiles(dir: seq<Entry>, es: seq<Entry>)
    requires dir == es == Row(64)[0 := Row(64)[0].(mark := Deleted)] && Used(dir) == 64
    ensures forall k: nat | 1 <= k < 64 :: File(Name(k), k + 1, 1) in Files(dir)
  {
    hide Name;
    forall k: nat | 1 <= k < 64 ensures File(Name(k), k + 1, 1) in Files(dir) {
      assert dir[k] == Row(64)[k];
      assert FileOf(dir[k]) == File(Name(k), k + 1, 1);
    }
  }

  lemma CutServes(dir: seq<Entry>, es: seq<Entry>)
    requires dir == es == Row(64)[0 := Row(64)[0].(mark := Deleted)] && Used(dir) == 64 && FreeSlot(dir) == 0
    ensures Serves(dir, Make("new", 1), WithFile(dir, "new", 1, 1), 100)
  {
    FindAt(dir, "new", 64);
    assert Sorting([], []) && Counted(dir) == [];
    assert Scan([], 0, 1, 1, 100) == Some(1);
    hide Used, FreeSlot, Find, Scan, Row, WithFile;
    assert Created(dir, [], "new", 1, 100).1 == WithFile(dir, "new", 1, 1);
  }
}
