/** Redirection of value files (db/db_impl.cc, InstallCompactionResults): a value
    compaction deletes its inputs and records, for each, that its last output replaces it.
    Readers follow the dependency map from the file number stored with a key. */
module ValueFiles {
  import opened Forest

  /** The roots of the dependency map where they differ from the node itself. */
  type Roots = map<nat, nat>

  /** What FindParent gives. */
  function RootOf(r: Roots, x: nat): nat {
    if x in r then r[x] else x
  }

  /** SetParent. */
  function Join(r: Roots, parent: nat, child: nat): Roots {
    map y | y in r.Keys + {child, RootOf(r, child)} ::
      if RootOf(r, y) == RootOf(r, child) then RootOf(r, parent) else RootOf(r, y)
  }

  lemma JoinIs(r: Roots, parent: nat, child: nat, y: nat)
    ensures RootOf(Join(r, parent, child), y) == if RootOf(r, y) == RootOf(r, child) then RootOf(r, parent) else RootOf(r, y)
  {
  }

  /** One SetParent per input, in order. */
  function JoinEach(r: Roots, parent: nat, children: seq<nat>): Roots {
    if children == [] then r else Join(JoinEach(r, parent, children[..|children| - 1]), parent, children[|children| - 1])
  }

  /** r has the roots of the dependency map m. */
  ghost predicate Shows(m: Map, rank: nat -> nat, r: Roots) {
    Ranked(m, rank) && forall y: nat :: RootOf(r, y) == Root(m, rank, y)
  }

  /** Join is what SetParent does to the roots. */
  lemma JoinRefines(m: Map, rank: nat -> nat, m': Map, rank': nat -> nat, r: Roots, parent: nat, child: nat)
    requires Shows(m, rank, r) && Ranked(m', rank')
    requires forall y: nat :: Root(m', rank', y) == Joined(m, rank, parent, child, y)
    ensures Shows(m', rank', Join(r, parent, child))
  {
    forall y: nat ensures RootOf(Join(r, parent, child), y) == Root(m', rank', y) {
      JoinIs(r, parent, child, y);
    }
  }

  /** AddDependency for every input, carried out on the map itself. */
  method RecordInputs(d: Dependency, output: nat, inputs: seq<nat>, ghost r: Roots)
    requires Shows(d.depMap, d.rank, r)
    modifies d
    ensures Shows(d.depMap, d.rank, JoinEach(r, output, inputs))
  {
    var i := 0;
    while i < |inputs|
      invariant i <= |inputs| && Shows(d.depMap, d.rank, JoinEach(r, output, inputs[..i]))
    {
      ghost var m, k := d.depMap, d.rank;
      d.SetParent(output, inputs[i]);
      JoinRefines(m, k, d.depMap, d.rank, JoinEach(r, output, inputs[..i]), output, inputs[i]);
      assert inputs[..i + 1][..i] == inputs[..i];
      i := i + 1;
    }
    assert inputs[..i] == inputs;
  }

  /** Setting the parents of roots, one after the other, sends exactly their trees to the
      new root. */
  lemma {:induction false} JoinEachIs(r: Roots, parent: nat, children: seq<nat>, y: nat)
    requires RootOf(r, parent) == parent && parent !in children && forall c :: c in children ==> RootOf(r, c) == c
    ensures RootOf(JoinEach(r, parent, children), y) == if RootOf(r, y) in children then parent else RootOf(r, y)
    decreases |children|
  {
    if children != [] {
      var before, c := children[..|children| - 1], children[|children| - 1];
      assert children == before + [c];
      JoinEachIs(r, parent, before, y);
      JoinEachIs(r, parent, before, c);
      JoinEachIs(r, parent, before, parent);
      JoinIs(JoinEach(r, parent, before), parent, c, y);
    }
  }

  /** Stacking a map of the edit's own on the version's, as Forest.SaveTo does, is joining
      the edit's pairs to the version's. */
  lemma StackedJoins(r: Roots, parent: nat, children: seq<nat>, y: nat)
    requires RootOf(r, parent) == parent && parent !in children && forall c :: c in children ==> RootOf(r, c) == c
    ensures RootOf(JoinEach(map[], parent, children), RootOf(r, y)) == RootOf(JoinEach(r, parent, children), y)
  {
    JoinEachIs(r, parent, children, y);
    JoinEachIs(map[], parent, children, RootOf(r, y));
  }

  /** Files in use, those of them on value level 1, files ever in use, the map of the
      current version, the map a replay of the manifest would give, and the files already
      retired when the manifest was begun. */
  datatype State = State(live: set<nat>, level1: set<nat>, created: set<nat>, roots: Roots, stored: Roots, lost: set<nat>)

  /** in0 and in1 are the inputs from the two value levels; outs the numbers of the
      outputs, of which only those in `added` hold anything and are added. */
  datatype Step =
    | Flush(number: nat)
    | Compact(in0: seq<nat>, in1: seq<nat>, outs: seq<nat>, added: set<nat>)
    | Reopen

  predicate Enabled(s: State, step: Step) {
    match step
    case Flush(n) => n !in s.created
    case Compact(in0, in1, outs, added) =>
      && (forall x :: x in in0 ==> x in s.live && x !in s.level1) && (forall x :: x in in1 ==> x in s.live && x in s.level1)
      && outs != [] && (forall x :: x in outs ==> x !in s.created)
      && (forall x :: x in added ==> x in outs)
    case Reopen => true
  }

  function Last(outs: seq<nat>): nat
    requires outs != []
  {
    outs[|outs| - 1]
  }

  /** With an input from level 1, or many from level 0, the outputs go to level 1. */
  predicate GoesDown(in0: seq<nat>, in1: seq<nat>) {
    in1 != [] || |in0| >= 8
  }

  function Apply(s: State, step: Step): State
    requires Enabled(s, step)
  {
    match step
    case Flush(n) => s.(live := s.live + {n}, created := s.created + {n})
    case Compact(in0, in1, outs, added) =>
      var s' := s.(live := (s.live - (set x | x in in0) - (set x | x in in1)) + added,
                   level1 := (s.level1 - (set x | x in in1)) + if GoesDown(in0, in1) then added else {},
                   created := s.created + added);
      if in1 == [] then s'.(roots := JoinEach(s.roots, Last(outs), in0), stored := JoinEach(s.stored, Last(outs), in0)) else s'
    case Reopen => State(s.live, s.level1, s.created, s.stored, map[], s.created - s.live)
  }

  const EMPTY: State := State({}, {}, {}, map[], map[], {})

  /** The roots of the files ever in use are exactly the files in use. */
  ghost predicate RootsAreLive(s: State) {
    && (forall x :: x in s.created ==> RootOf(s.roots, x) in s.live)
    && (forall x :: x in s.live ==> x in s.created && RootOf(s.roots, x) == x)
  }

  /** What holds besides: numbers not used yet are their own root; the stored map agrees
      except on files retired before it was begun, which it has forgotten. */
  ghost predicate Sound(s: State) {
    && s.level1 <= s.live <= s.created && s.lost <= s.created && s.lost !! s.live
    && (forall x :: x in s.created && x !in s.lost ==> RootOf(s.stored, x) == RootOf(s.roots, x))
    && (forall x :: x in s.lost ==> RootOf(s.stored, x) == x)
    && (forall x :: x !in s.created ==> RootOf(s.roots, x) == x && RootOf(s.stored, x) == x)
  }

  lemma FlushKeeps(s: State, n: nat)
    requires RootsAreLive(s) && Sound(s) && n !in s.created
    ensures RootsAreLive(Apply(s, Flush(n))) && Sound(Apply(s, Flush(n)))
  {
  }

  /** A value compaction keeps redirection right exactly when it has no input from level 1,
      and its last output is one that was added, unless it had no inputs at all. */
  lemma CompactExact(s: State, in0: seq<nat>, in1: seq<nat>, outs: seq<nat>, added: set<nat>)
    requires RootsAreLive(s) && Sound(s) && Enabled(s, Compact(in0, in1, outs, added))
    ensures RootsAreLive(Apply(s, Compact(in0, in1, outs, added))) <==> in1 == [] && (in0 == [] || Last(outs) in added)
  {
    var s', last := Apply(s, Compact(in0, in1, outs, added)), Last(outs);
    assert last in outs;
    if in1 != [] {
      assert in1[0] in s.created && RootOf(s'.roots, in1[0]) == in1[0] && in1[0] !in s'.live;
    } else {
      forall y: nat ensures RootOf(s'.roots, y) == if RootOf(s.roots, y) in in0 then last else RootOf(s.roots, y) {
        JoinEachIs(s.roots, last, in0, y);
      }
      if in0 != [] && last !in added {
        assert in0[0] in s'.created && RootOf(s'.roots, in0[0]) == last;
      }
    }
  }

  lemma CompactKeepsSound(s: State, in0: seq<nat>, outs: seq<nat>, added: set<nat>)
    requires RootsAreLive(s) && Sound(s) && Enabled(s, Compact(in0, [], outs, added)) && (in0 == [] || Last(outs) in added)
    ensures Sound(Apply(s, Compact(in0, [], outs, added)))
  {
    var s', last := Apply(s, Compact(in0, [], outs, added)), Last(outs);
    assert last in outs;
    assert forall c :: c in in0 ==> RootOf(s.roots, c) == c && RootOf(s.stored, c) == c;
    forall y: nat
      ensures RootOf(s'.roots, y) == (if RootOf(s.roots, y) in in0 then last else RootOf(s.roots, y))
      ensures RootOf(s'.stored, y) == if RootOf(s.stored, y) in in0 then last else RootOf(s.stored, y)
    {
      JoinEachIs(s.roots, last, in0, y);
      JoinEachIs(s.stored, last, in0, y);
    }
  }

  /** Opening starts a manifest without the map. The next opening finds redirection right
      exactly when no file had been retired by the time of the last one. */
  lemma ReopenExact(s: State)
    requires RootsAreLive(s) && Sound(s)
    ensures RootsAreLive(Apply(s, Reopen)) <==> s.lost == {}
  {
    var s' := Apply(s, Reopen);
    if x :| x in s.lost {
      assert x in s'.created && RootOf(s'.roots, x) == x && x !in s'.live;
    }
  }

  lemma ReopenKeepsSound(s: State)
    requires RootsAreLive(s) && Sound(s) && s.lost == {}
    ensures Sound(Apply(s, Reopen))
  {
  }

  /** The steps that keep redirection right. */
  predicate Gentle(s: State, step: Step)
    requires Enabled(s, step)
  {
    match step
    case Flush(_) => true
    case Compact(in0, in1, outs, added) => in1 == [] && (in0 == [] || Last(outs) in added)
    case Reopen => s.lost == {}
  }

  ghost predicate Trace(states: seq<State>, steps: seq<Step>) {
    && |states| == |steps| + 1 && states[0] == EMPTY
    && forall i :: 0 <= i < |steps| ==>
         Enabled(states[i], steps[i]) && Gentle(states[i], steps[i]) && states[i + 1] == Apply(states[i], steps[i])
  }

  /** Over every run of such steps, FindParent of any file ever created is a live file, and
      every live file is its own root. */
  lemma {:induction false} RunsRedirect(states: seq<State>, steps: seq<Step>, i: nat)
    requires Trace(states, steps) && i < |states|
    ensures RootsAreLive(states[i]) && Sound(states[i])
  {
    if i > 0 {
      RunsRedirect(states, steps, i - 1);
      var s, step := states[i - 1], steps[i - 1];
      match step
      case Flush(n) => FlushKeeps(s, n);
      case Compact(in0, in1, outs, added) =>
        CompactExact(s, in0, in1, outs, added);
        CompactKeepsSound(s, in0, outs, added);
      case Reopen =>
        ReopenExact(s);
        ReopenKeepsSound(s);
    }
  }

  // ----- where it fails -----

  /** A run, whether or not its steps keep redirection right. */
  ghost predicate Run(states: seq<State>, steps: seq<Step>) {
    && |states| == |steps| + 1 && states[0] == EMPTY
    && forall i :: 0 <= i < |steps| ==> Goes(states[i], steps[i], states[i + 1])
  }

  predicate Goes(s: State, step: Step, s': State) {
    Enabled(s, step) && s' == Apply(s, step)
  }

  /** A file gets to level 1 only by a compaction of eight or more files of level 0. */
  lemma {:induction false} LevelOneNeedsEight(states: seq<State>, steps: seq<Step>, i: nat)
    requires Run(states, steps) && i < |states| && states[i].level1 != {}
    ensures exists j :: 0 <= j < i && steps[j].Compact? && |steps[j].in0| >= 8
  {
    assert Goes(states[i - 1], steps[i - 1], states[i]);
    LevelOneStep(states[i - 1], steps[i - 1]);
    if states[i - 1].level1 != {} { LevelOneNeedsEight(states, steps, i - 1); }
  }

  lemma LevelOneStep(s: State, step: Step)
    requires Enabled(s, step) && Apply(s, step).level1 != {}
    ensures s.level1 != {} || (step.Compact? && |step.in0| >= 8)
  {
    if step.Compact? && step.in1 != [] { assert step.in1[0] in s.level1; }
  }

  lemma RunMore(states: seq<State>, steps: seq<Step>, step: Step, s': State)
    requires Run(states, steps) && Goes(states[|states| - 1], step, s')
    ensures Run(states + [s'], steps + [step])
  {
  }

  const FLUSHED: State := Apply(EMPTY, Flush(1))
  const MERGE: Step := Compact([1], [], [2], {2})

  /** File 1 flushed and compacted into file 2: file 1 is retired. */
  lemma Merged() returns (s: State)
    ensures Enabled(FLUSHED, MERGE) && s == Apply(FLUSHED, MERGE)
    ensures RootsAreLive(s) && Sound(s) && s.live == {2} && s.created == {1, 2} && s.lost == {}
  {
    FlushKeeps(EMPTY, 1);
    CompactExact(FLUSHED, [1], [], [2], {2});
    CompactKeepsSound(FLUSHED, [1], [2], {2});
    s := Apply(FLUSHED, MERGE);
  }

  /** The first opening still has file 1 redirected, the second sends its readers nowhere. */
  lemma SecondReopenForgets() returns (states: seq<State>, steps: seq<Step>)
    ensures Run(states, steps) && steps == [Flush(1), MERGE, Reopen, Reopen]
    ensures RootsAreLive(states[3]) && !RootsAreLive(states[4])
  {
    var merged := Merged();
    var once := Apply(merged, Reopen);
    ReopenExact(merged);
    ReopenKeepsSound(merged);
    assert 1 in once.lost;
    ReopenExact(once);
    steps := [Flush(1), MERGE, Reopen, Reopen];
    states := [EMPTY, FLUSHED, merged, once, Apply(once, Reopen)];
  }

  /** A compaction with a level-1 input: readers of that file are sent nowhere. */
  lemma LevelOneInputIsLost(s: State, in0: seq<nat>, x: nat, out: nat)
    requires RootsAreLive(s) && x in s.live && out !in s.created && Enabled(s, Compact(in0, [x], [out], {out}))
    ensures var s' := Apply(s, Compact(in0, [x], [out], {out})); x in s'.created && RootOf(s'.roots, x) !in s'.live
  {
  }

  function UpTo(n: nat): set<nat> {
    if n == 0 then {} else UpTo(n - 1) + {n}
  }

  lemma {:induction false} UpToIs(n: nat)
    ensures forall i :: i in UpTo(n) <==> 1 <= i <= n
  {
    if n > 0 { UpToIs(n - 1); }
  }

  /** Files 1 to n flushed. */
  function Flushed(n: nat): State {
    EMPTY.(live := UpTo(n), created := UpTo(n))
  }

  lemma FlushNext(n: nat)
    ensures Goes(Flushed(n), Flush(n + 1), Flushed(n + 1))
  {
    UpToIs(n);
  }

  lemma {:induction false} FlushedOk(n: nat)
    ensures RootsAreLive(Flushed(n)) && Sound(Flushed(n))
  {
    if n > 0 {
      FlushedOk(n - 1);
      FlushNext(n - 1);
      FlushKeeps(Flushed(n - 1), n);
    } else {
      assert Flushed(0) == EMPTY;
    }
  }

  function Numbers(n: nat): seq<nat> {
    seq(n, i requires 0 <= i => i + 1)
  }

  /** Many flushed files become one file on level 1. */
  lemma MergedDown(n: nat, step: Step) returns (s: State)
    requires n >= 8 && step == Compact(Numbers(n), [], [n + 1], {n + 1})
    ensures Goes(Flushed(n), step, s) && RootsAreLive(s) && Sound(s)
    ensures n + 1 in s.live && n + 1 in s.level1 && n + 2 !in s.created && n + 3 !in s.created
  {
    FlushedOk(n);
    UpToIs(n);
    CompactExact(Flushed(n), Numbers(n), [], [n + 1], {n + 1});
    CompactKeepsSound(Flushed(n), Numbers(n), [n + 1], {n + 1});
    s := Apply(Flushed(n), step);
  }

  /** The next flush compacted with the file x on level 1. */
  lemma Across(s: State, y: nat, x: nat, out: nat, step: Step) returns (s': State)
    requires RootsAreLive(s) && x in s.live && x in s.level1 && y in s.live && y !in s.level1 && out !in s.created
    requires step == Compact([y], [x], [out], {out})
    ensures Goes(s, step, s') && x in s'.created && RootOf(s'.roots, x) !in s'.live
  {
    LevelOneInputIsLost(s, [y], x, out);
    s' := Apply(s, step);
  }

  function Downward(n: nat): Step {
    Compact(Numbers(n), [], [n + 1], {n + 1})
  }

  function Sideways(n: nat): Step {
    Compact([n + 2], [n + 1], [n + 3], {n + 3})
  }

  /** One more flush leaves the file on level 1 where it is. */
  lemma FlushBeside(s: State, x: nat, y: nat, z: nat) returns (s': State)
    requires RootsAreLive(s) && Sound(s) && x in s.live && x in s.level1 && y !in s.created && z !in s.created && y != z
    ensures Goes(s, Flush(y), s') && RootsAreLive(s') && z !in s'.created
    ensures x in s'.live && x in s'.level1 && y in s'.live && y !in s'.level1
  {
    FlushKeeps(s, y);
    s' := Apply(s, Flush(y));
  }

  lemma RunDown(n: nat) returns (states: seq<State>, steps: seq<Step>)
    requires n >= 8
    ensures Run(states, steps) && |steps| == n + 1 && steps[n] == Downward(n)
    ensures var s := states[n + 1];
            && RootsAreLive(s) && Sound(s) && n + 1 in s.live && n + 1 in s.level1 && n + 2 !in s.created && n + 3 !in s.created
  {
    var ds, ss := Flushes(n);
    var s := MergedDown(n, Downward(n));
    RunMore(ds, ss, Downward(n), s);
    states, steps := ds + [s], ss + [Downward(n)];
  }

  lemma RunBeside(n: nat) returns (states: seq<State>, steps: seq<Step>)
    requires n >= 8
    ensures Run(states, steps) && |steps| == n + 2 && steps[n..] == [Downward(n), Flush(n + 2)]
    ensures var s := states[n + 2];
            && RootsAreLive(s) && n + 1 in s.live && n + 1 in s.level1 && n + 2 in s.live && n + 2 !in s.level1 && n + 3 !in s.created
  {
    var ds, ss := RunDown(n);
    var s := FlushBeside(ds[n + 1], n + 1, n + 2, n + 3);
    RunMore(ds, ss, Flush(n + 2), s);
    states, steps := ds + [s], ss + [Flush(n + 2)];
  }

  /** Eight flushes or more, a compaction that takes them to level 1, one more flush, and a
      compaction of that with the file on level 1: that file is lost. */
  lemma LevelOneRun(n: nat) returns (states: seq<State>, steps: seq<Step>)
    requires n >= 8
    ensures Run(states, steps) && |steps| == n + 3 && steps[n..] == [Downward(n), Flush(n + 2), Sideways(n)]
    ensures RootsAreLive(states[n + 2])
    ensures n + 1 in states[n + 3].created && RootOf(states[n + 3].roots, n + 1) !in states[n + 3].live
  {
    var ds, ss := RunBeside(n);
    var s := Across(ds[n + 2], n + 2, n + 1, n + 3, Sideways(n));
    RunMore(ds, ss, Sideways(n), s);
    states, steps := ds + [s], ss + [Sideways(n)];
  }

  lemma {:induction false} Flushes(n: nat) returns (states: seq<State>, steps: seq<Step>)
    ensures Run(states, steps) && |steps| == n && states[n] == Flushed(n)
  {
    if n == 0 {
      states, steps := [EMPTY], [];
    } else {
      states, steps := Flushes(n - 1);
      FlushNext(n - 1);
      RunMore(states, steps, Flush(n), Flushed(n));
      states, steps := states + [Flushed(n)], steps + [Flush(n)];
    }
  }
}
