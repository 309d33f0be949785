/** A run of the engine that ends in a compaction which tears a deletion marker from an
    older value: the case of CompactionView.Torn is reached by ordinary calls. */
module TornRun {
  import opened InternalKeys
  import opened Versions
  import opened Selection
  import opened Drop
  import opened DropView
  import opened Install
  import opened CompactionView
  import opened Merge
  import opened Engine
  import opened EngineRuns

  const PUT1 := Entry(IKey(1, 1), TypeValue, "a")
  const PUT7 := Entry(IKey(7, 2), TypeValue, "to be deleted")
  const DELETE7 := Entry(IKey(7, 3), TypeDeletion, "")
  const AGAIN1 := Entry(IKey(1, 4), TypeValue, "b")

  const ALL := [PUT1, DELETE7, PUT7]
  const FLUSHED := File(1, 1, IKey(1, 1), IKey(7, 2), ALL)
  const LEFT := File(2, 1, IKey(1, 1), IKey(7, 3), [PUT1, DELETE7])
  const RIGHT := File(3, 1, IKey(7, 2), IKey(7, 2), [PUT7])
  const UPPER := File(4, 1, IKey(1, 4), IKey(1, 4), [AGAIN1])
  const OUTPUT := File(5, 1, IKey(1, 4), IKey(1, 4), [AGAIN1])

  const NO_FILES := Version([[], [], [], [], [], [], []])
  const ONE_FILE := Version([[FLUSHED], [], [], [], [], [], []])
  const SPLIT := Version([[], [LEFT, RIGHT], [], [], [], [], []])
  const OVER := Version([[UPPER], [LEFT, RIGHT], [], [], [], [], []])

  ghost const WRITTEN: set<Entry> := {} + Elems(ALL)
  const MERGED := [AGAIN1, PUT1, DELETE7]

  // two puts, a snapshot, a delete, a flush
  ghost const D0 := Db([], NoImm, NO_FILES, 0, [], 1, Idle, {})
  ghost const D1 := D0.(mem := [PUT1, PUT7], lastSequence := 2)
  ghost const D2 := D1.(snapshots := [2])
  ghost const D3 := D2.(mem := ALL, lastSequence := 3)
  ghost const D4 := D3.(mem := [], imm := Imm(ALL))
  ghost const D5 := D4.(imm := NoImm, nextFile := 2, flushed := WRITTEN, version := ONE_FILE)
  // a compaction into two tables, which the snapshot makes keep all three entries
  ghost const D6 := D5.(job := Busy(Plan(0, [FLUSHED], 0, 0), ONE_FILE, ALL, 2, {}))
  ghost const D7 := D6.(nextFile := 3, job := Busy(Plan(0, [FLUSHED], 0, 0), ONE_FILE, ALL, 2, {2}))
  ghost const D8 := D7.(nextFile := 4, job := Busy(Plan(0, [FLUSHED], 0, 0), ONE_FILE, ALL, 2, {2, 3}))
  ghost const D9 := D8.(job := Idle, version := SPLIT)
  // the snapshot goes, key 1 is written again and flushed
  ghost const D10 := D9.(snapshots := [])
  ghost const D11 := D10.(mem := [AGAIN1], lastSequence := 4)
  ghost const D12 := D11.(mem := [], imm := Imm([AGAIN1]))
  ghost const D13 := D12.(imm := NoImm, nextFile := 5, flushed := WRITTEN + Elems([AGAIN1]), version := OVER)
  // and compacted with the first of the two tables
  ghost const D14 := D13.(job := Busy(Plan(0, [UPPER], 0, 1), OVER, MERGED, 4, {}))
  ghost const D15 := D14.(nextFile := 6, job := Busy(Plan(0, [UPPER], 0, 1), OVER, MERGED, 4, {5}))

  lemma Inserted()
    ensures InsertAll([], [PUT1, PUT7]) == [PUT1, PUT7]
    ensures InsertAll([PUT1, PUT7], [DELETE7]) == ALL
    ensures InsertAll([], [AGAIN1]) == [AGAIN1]
  {
    assert [PUT1, PUT7][1..] == [PUT7] && [PUT7][1..] == [] && [DELETE7][1..] == [] && [AGAIN1][1..] == [];
    assert InsertEntry([], PUT1) == [PUT1];
    assert [PUT1][1..] == [];
    assert InsertEntry([PUT1], PUT7) == [PUT1] + InsertEntry([], PUT7) == [PUT1, PUT7];
    assert InsertEntry([PUT7], DELETE7) == [DELETE7, PUT7];
    assert InsertEntry([PUT1, PUT7], DELETE7) == [PUT1] + InsertEntry([PUT7], DELETE7) == ALL;
    assert InsertAll([], [AGAIN1]) == InsertAll(InsertEntry([], AGAIN1), []);
    assert InsertAll([PUT1, PUT7], [DELETE7]) == InsertAll(InsertEntry([PUT1, PUT7], DELETE7), []);
    assert InsertAll([], [PUT1, PUT7]) == InsertAll([PUT1], [PUT7]) == InsertAll([PUT1, PUT7], []);
  }

  lemma Writes()
    ensures Taken(D0, Write([PUT1, PUT7]), D1) && Taken(D2, Write([DELETE7]), D3) && Taken(D10, Write([AGAIN1]), D11)
  {
    Inserted();
  }

  lemma Snapshots()
    ensures Taken(D1, TakeSnapshot, D2) && Taken(D9, ReleaseSnapshot(0), D10)
  {
    assert [2][..0] + [2][1..] == [];
    assert [] + [2] == [2];
  }

  lemma Switches()
    ensures Taken(D3, Switch, D4) && Taken(D11, Switch, D12)
  {
  }

  lemma Flushes()
    ensures Taken(D4, Flush(1, 0), D5) && Taken(D12, Flush(1, 0), D13)
  {
    assert ToFile(1, 1, ALL) == FLUSHED && ToFile(4, 1, [AGAIN1]) == UPPER;
    assert [][..0] + [FLUSHED] + [][0..] == [FLUSHED];
    assert [][..0] + [UPPER] + [][0..] == [UPPER];
    assert AddLevel0(NO_FILES, FLUSHED, 0) == ONE_FILE && AddLevel0(SPLIT, UPPER, 0) == OVER;
  }

  lemma Outputs()
    ensures Taken(D6, OpenOutput, D7) && Taken(D7, OpenOutput, D8) && Taken(D14, OpenOutput, D15)
  {
    var none: set<nat> := {};
    assert none + {2} == {2} && {2} + {3} == {2, 3} && none + {5} == {5};
  }

  // ----- the first compaction -----

  const PLAN1 := Plan(0, [FLUSHED], 0, 0)

  lemma Ready1()
    ensures GoodInputs(ONE_FILE, 0, [FLUSHED], []) && Meets(ONE_FILE.levels[1], [FLUSHED], [], 0, 0)
    ensures Ready(ONE_FILE, PLAN1) && In1(ONE_FILE, PLAN1) == []
  {
    var files0, files1 := ONE_FILE.levels[0], ONE_FILE.levels[1];
    assert files0 == [FLUSHED] && files1 == [] && files1[0..0] == [];
    assert Meets(files1, [FLUSHED], [], 0, 0);
  }

  lemma OneEntry(f: File, e: Entry)
    requires f.entries == [e]
    ensures FilesElems([f]) == {e}
  {
    assert f in [f] && e in f.entries;
  }

  lemma FileIsElems(f: File)
    ensures FilesElems([f]) == Elems(f.entries)
  {
    assert f in [f];
  }

  lemma Merged1()
    requires Ready(ONE_FILE, PLAN1) && In1(ONE_FILE, PLAN1) == []
    ensures Merged(ONE_FILE, PLAN1, ALL)
  {
    FileIsElems(FLUSHED);
    assert FilesElems([]) == {};
  }

  lemma Begin1()
    ensures Taken(D5, BeginCompaction(0, [FLUSHED], [], 0, 0, ALL), D6)
  {
    Ready1();
    Merged1();
  }

  lemma Kept1()
    ensures KeptElems(ONE_FILE, 0, 2, ALL) == Elems(ALL)
  {
    assert Kept(ONE_FILE, 0, 2, ALL, 0) == [];
    assert Kept(ONE_FILE, 0, 2, ALL, 1) == [PUT1];
    assert Kept(ONE_FILE, 0, 2, ALL, 2) == [PUT1, DELETE7];
    assert Kept(ONE_FILE, 0, 2, ALL, 3) == ALL;
  }

  lemma Outs1()
    ensures SortedLevel([LEFT, RIGHT]) && DistinctNumbers([LEFT, RIGHT]) && FilesElems([LEFT, RIGHT]) == Elems(ALL)
  {
    var fs := [LEFT, RIGHT];
    assert LEFT.Valid() && RIGHT.Valid();
    assert fs[0] in fs && fs[1] in fs;
    assert LEFT.entries[0] in LEFT.entries && LEFT.entries[1] in LEFT.entries && RIGHT.entries[0] in RIGHT.entries;
    assert ALL[0] in ALL && ALL[1] in ALL && ALL[2] in ALL;
  }

  lemma Install1()
    ensures Installed(ONE_FILE, PLAN1, [LEFT, RIGHT]) == SPLIT
  {
    assert [FLUSHED][..0] == [] && Remove([], [FLUSHED]) == [];
    assert Remove([FLUSHED], [FLUSHED]) == [];
    assert ONE_FILE.levels[1][..0] + [LEFT, RIGHT] + ONE_FILE.levels[1][0..] == [LEFT, RIGHT];
    assert Installed(ONE_FILE, PLAN1, [LEFT, RIGHT]).levels == SPLIT.levels;
  }

  lemma Finish1()
    ensures Taken(D8, FinishCompaction([LEFT, RIGHT]), D9)
  {
    Ready1();
    Kept1();
    Outs1();
    Install1();
  }

  // ----- the second one -----

  const PLAN2 := Plan(0, [UPPER], 0, 1)

  lemma Ready2()
    ensures GoodInputs(OVER, 0, [UPPER], [LEFT]) && Meets(OVER.levels[1], [UPPER], [LEFT], 0, 1)
    ensures Ready(OVER, PLAN2) && In1(OVER, PLAN2) == [LEFT]
  {
    var files0, files1 := OVER.levels[0], OVER.levels[1];
    assert files0 == [UPPER] && files1 == [LEFT, RIGHT] && files1[0..1] == [LEFT];
    assert Meets(files1, [UPPER], [LEFT], 0, 1);
  }

  lemma Merged2()
    requires Ready(OVER, PLAN2) && In1(OVER, PLAN2) == [LEFT]
    ensures Merged(OVER, PLAN2, MERGED)
  {
    FileIsElems(UPPER);
    FileIsElems(LEFT);
    assert MERGED == [AGAIN1] + [PUT1, DELETE7];
  }

  lemma Begin2()
    ensures Taken(D13, BeginCompaction(0, [UPPER], [LEFT], 0, 1, MERGED), D14)
  {
    Ready2();
    Merged2();
  }

  lemma Kept2()
    ensures KeptElems(OVER, 0, 4, MERGED) == {AGAIN1}
  {
    assert BaseLevel(OVER, 0, 7);
    assert Kept(OVER, 0, 4, MERGED, 0) == [];
    assert Kept(OVER, 0, 4, MERGED, 1) == [AGAIN1];
    assert Kept(OVER, 0, 4, MERGED, 2) == [AGAIN1];
    assert Kept(OVER, 0, 4, MERGED, 3) == [AGAIN1];
  }

  lemma Tears2()
    ensures Enabled(D15, FinishCompaction([OUTPUT])) && Tears(D15, FinishCompaction([OUTPUT]))
  {
    Ready2();
    Kept2();
    OneEntry(OUTPUT, AGAIN1);
    assert OUTPUT.Valid();
    Torn2();
  }

  lemma Torn2()
    requires Ready(OVER, PLAN2) && In1(OVER, PLAN2) == [LEFT]
    ensures Torn(OVER, PLAN2, 4, MERGED)
  {
    forall e | e in Rest(OVER, PLAN2) ensures e == PUT7 {
      var l, f :| 0 <= l < |OVER.levels| && f in OVER.levels[l] && !Selected(OVER, PLAN2, l, f) && e in f.entries;
      assert l == 0 ==> f == UPPER;
      assert l == 1 ==> f == LEFT || f == RIGHT;
    }
    assert BaseLevel(OVER, 0, 7);
    assert TornAt(OVER, PLAN2, 4, MERGED, 2);
  }

  // ----- the run -----

  lemma Path3(a: Db, b: Db, c: Db, d: Db, s: Step, t: Step, u: Step)
    requires Taken(a, s, b) && Taken(b, t, c) && Taken(c, u, d)
    ensures Path([a, b, c, d], [s, t, u])
  {
  }

  lemma PathConcat(ds: seq<Db>, ss: seq<Step>, es: seq<Db>, ts: seq<Step>)
    requires Path(ds, ss) && Path(es, ts) && ds[|ds| - 1] == es[0]
    ensures Path(ds + es[1..], ss + ts)
  {
    var fs := ds + es[1..];
    forall i | |ss| <= i < |ss + ts| ensures Taken(fs[i], (ss + ts)[i], fs[i + 1]) {
      assert fs[i] == es[i - |ss|] && fs[i + 1] == es[i - |ss| + 1];
    }
  }

  ghost const A := [D0, D1, D2, D3]
  ghost const B := [D3, D4, D5, D6]
  ghost const C := [D6, D7, D8, D9]
  ghost const D := [D9, D10, D11, D12]
  ghost const E := [D12, D13, D14, D15]

  ghost const WRITE: seq<Step> := [Write([PUT1, PUT7]), TakeSnapshot, Write([DELETE7])]
  ghost const FLUSH: seq<Step> := [Switch, Flush(1, 0), BeginCompaction(0, [FLUSHED], [], 0, 0, ALL)]
  ghost const COMPACT: seq<Step> := [OpenOutput, OpenOutput, FinishCompaction([LEFT, RIGHT])]
  ghost const REWRITE: seq<Step> := [ReleaseSnapshot(0), Write([AGAIN1]), Switch]
  ghost const SELECT: seq<Step> := [Flush(1, 0), BeginCompaction(0, [UPPER], [LEFT], 0, 1, MERGED), OpenOutput]

  lemma PathA()
    ensures Path(A, WRITE)
  {
    Writes();
    Snapshots();
    Path3(D0, D1, D2, D3, WRITE[0], WRITE[1], WRITE[2]);
  }

  lemma PathB()
    ensures Path(B, FLUSH)
  {
    Switches();
    Flushes();
    Begin1();
    Path3(D3, D4, D5, D6, FLUSH[0], FLUSH[1], FLUSH[2]);
  }

  lemma PathC()
    ensures Path(C, COMPACT)
  {
    Outputs();
    Finish1();
    Path3(D6, D7, D8, D9, COMPACT[0], COMPACT[1], COMPACT[2]);
  }

  lemma PathD()
    ensures Path(D, REWRITE)
  {
    Snapshots();
    Writes();
    Switches();
    Path3(D9, D10, D11, D12, REWRITE[0], REWRITE[1], REWRITE[2]);
  }

  lemma PathE()
    ensures Path(E, SELECT)
  {
    Flushes();
    Begin2();
    Outputs();
    Path3(D12, D13, D14, D15, SELECT[0], SELECT[1], SELECT[2]);
  }

  ghost const STEPS: seq<Step> := WRITE + FLUSH + COMPACT + REWRITE + SELECT
  ghost const STATES: seq<Db> := A + B[1..] + C[1..] + D[1..] + E[1..]

  lemma RunExists()
    ensures Run(STATES, STEPS) && |STEPS| == 15 && STATES[15] == D15
  {
    PathA();
    PathB();
    PathC();
    PathD();
    PathE();
    PathConcat(A, WRITE, B, FLUSH);
    PathConcat(A + B[1..], WRITE + FLUSH, C, COMPACT);
    PathConcat(A + B[1..] + C[1..], WRITE + FLUSH + COMPACT, D, REWRITE);
    PathConcat(A + B[1..] + C[1..] + D[1..], WRITE + FLUSH + COMPACT + REWRITE, E, SELECT);
  }

  /** The compaction that ends this run makes a read at its smallest snapshot or later
      return something else: the deleted value of key 7 is back. */
  lemma DeletedValueComesBack()
    ensures Run(STATES, STEPS) && Enabled(D15, FinishCompaction([OUTPUT]))
    ensures !SameView(VersionElems(Apply(D15, FinishCompaction([OUTPUT])).version), VersionElems(D15.version), 4)
  {
    RunExists();
    Tears2();
    RunsAreRight(STATES, STEPS, 15);
    FinishView(D15, [OUTPUT]);
  }
}
