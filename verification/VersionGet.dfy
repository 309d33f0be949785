/** Version::Get (db/version_set.cc:429-634) refines the reading rule over all files. */
module VersionGet {
  import opened InternalKeys
  import opened Versions

  // ----- level 0: all overlapping files, newest first -----

  ghost predicate NewestFirst(fs: seq<File>) {
    forall i, j :: 0 <= i < j < |fs| ==> fs[i].number > fs[j].number
  }

  function Insert(f: File, fs: seq<File>): (r: seq<File>)
    ensures forall g :: g in r <==> g == f || g in fs
  {
    if fs == [] || f.number > fs[0].number then [f] + fs
    else
      assert fs == [fs[0]] + fs[1..];
      [fs[0]] + Insert(f, fs[1..])
  }

  lemma {:induction false} InsertOrdered(f: File, fs: seq<File>)
    requires NewestFirst(fs) && forall g :: g in fs ==> g.number != f.number
    ensures NewestFirst(Insert(f, fs))
  {
    if fs == [] || f.number > fs[0].number {
      assert forall g :: g in fs ==> g.number < f.number;
      HeadFirst(f, fs);
    } else {
      InsertOrdered(f, fs[1..]);
      var r := Insert(f, fs[1..]);
      forall g | g in r ensures g.number < fs[0].number {
        if g != f { assert g in fs[1..]; }
      }
      HeadFirst(fs[0], r);
    }
  }

  lemma HeadFirst(f: File, fs: seq<File>)
    requires NewestFirst(fs) && forall g :: g in fs ==> g.number < f.number
    ensures NewestFirst([f] + fs)
  {
    assert forall i :: 0 <= i < |fs| ==> fs[i] in fs;
  }

  /** std::sort with the NewestFirst order */
  function SortNewestFirst(fs: seq<File>): (r: seq<File>)
    ensures forall g :: g in r <==> g in fs
  {
    if fs == [] then []
    else
      assert fs == [fs[0]] + fs[1..];
      Insert(fs[0], SortNewestFirst(fs[1..]))
  }

  lemma {:induction false} SortOrdered(fs: seq<File>)
    requires DistinctNumbers(fs)
    ensures NewestFirst(SortNewestFirst(fs))
  {
    if fs != [] {
      SortOrdered(fs[1..]);
      InsertOrdered(fs[0], SortNewestFirst(fs[1..]));
    }
  }

  /** The file loop: the first table that knows the key answers. */
  function SearchInOrder(cs: seq<File>, k: UserKey, s: nat): Outcome {
    if cs == [] then Missing
    else
      var o := TableGet(cs[0], k, s);
      if o.Missing? then SearchInOrder(cs[1..], k, s) else o
  }

  /** Each file holds only newer versions than the ones behind it. */
  ghost predicate Layered(cs: seq<File>) {
    forall i, j :: 0 <= i < j < |cs| ==> Newer(cs[i], cs[j])
  }

  lemma HeadIsNewer(cs: seq<File>)
    requires Layered(cs) && cs != []
    ensures forall e, h :: e in FileElems(cs[0]) && h in FilesElems(cs[1..]) && e.ik.user == h.ik.user
                           ==> e.ik.sn > h.ik.sn
  {
    forall e, h | e in FileElems(cs[0]) && h in FilesElems(cs[1..]) && e.ik.user == h.ik.user
      ensures e.ik.sn > h.ik.sn
    {
      var i :| 1 <= i < |cs| && h in cs[i].entries;
      assert Newer(cs[0], cs[i]);
    }
  }

  lemma {:induction false} LayeredSearch(cs: seq<File>, k: UserKey, s: nat)
    requires AllValid(cs) && Layered(cs)
    ensures Distinct(FilesElems(cs))
    ensures SearchInOrder(cs, k, s) == Look(FilesElems(cs), k, s)
  {
    if cs == [] {
      LookNone(FilesElems(cs), k, s);
    } else {
      TailIsLayered(cs);
      LayeredSearch(cs[1..], k, s);
      HeadOverTail(cs, k, s);
    }
  }

  lemma TailIsLayered(cs: seq<File>)
    requires AllValid(cs) && Layered(cs) && cs != []
    ensures AllValid(cs[1..]) && Layered(cs[1..]) && FilesElems(cs) == FileElems(cs[0]) + FilesElems(cs[1..])
  {
    assert cs == [cs[0]] + cs[1..];
    FilesElemsCons(cs[0], cs[1..]);
  }

  /** The first file decides what it can, the others the rest. */
  lemma HeadOverTail(cs: seq<File>, k: UserKey, s: nat)
    requires AllValid(cs) && Layered(cs) && cs != [] && Distinct(FilesElems(cs[1..]))
    requires FilesElems(cs) == FileElems(cs[0]) + FilesElems(cs[1..])
    ensures Distinct(FilesElems(cs))
    ensures var t := TableGet(cs[0], k, s); Look(FilesElems(cs), k, s) == if t.Missing? then Look(FilesElems(cs[1..]), k, s) else t
  {
    TableGetIsLook(cs[0], k, s);
    HeadIsNewer(cs);
    LookLayered(FileElems(cs[0]), FilesElems(cs[1..]), k, s);
  }

  lemma NewestFirstSearch(fs: seq<File>, cs: seq<File>, k: UserKey, s: nat)
    requires OrderedLevel0(fs) && NewestFirst(cs)
    requires forall f :: f in cs ==> f in fs
    ensures Distinct(FilesElems(cs))
    ensures SearchInOrder(cs, k, s) == Look(FilesElems(cs), k, s)
  {
    assert forall i :: 0 <= i < |cs| ==> cs[i] in fs;
    LayeredSearch(cs, k, s);
  }

  lemma Level0Search(fs: seq<File>, cs: seq<File>, k: UserKey, s: nat)
    requires OrderedLevel0(fs) && NewestFirst(cs)
    requires forall f :: f in cs <==> f in fs && Spans(f, k)
    ensures SearchInOrder(cs, k, s) == Look(FilesElems(fs), k, s)
  {
    NewestFirstSearch(fs, cs, k, s);
    Level0Distinct(fs);
    forall e | Covers(e, k, s) ensures e in FilesElems(fs) <==> e in FilesElems(cs) {
      if e in FilesElems(fs) {
        var f :| f in fs && e in f.entries;
        EntryBounds(f, e);
        assert f in cs;
      }
    }
    LookSame(FilesElems(cs), s, FilesElems(fs), s, k);
  }

  lemma OneFlush(fs: seq<File>, i: nat, j: nat, e: Entry, h: Entry)
    requires OrderedLevel0(fs) && i < |fs| && j < |fs|
    requires e in fs[i].entries && h in fs[j].entries && e.ik == h.ik
    ensures i == j
  {
    assert fs[i] in fs && fs[j] in fs;
  }

  lemma Level0Distinct(fs: seq<File>)
    requires OrderedLevel0(fs)
    ensures Distinct(FilesElems(fs))
  {
    forall e, h | e in FilesElems(fs) && h in FilesElems(fs) && e.ik == h.ik ensures e == h {
      var i :| 0 <= i < |fs| && e in fs[i].entries;
      var j :| 0 <= j < |fs| && h in fs[j].entries;
      OneFlush(fs, i, j, e, h);
      SortedDistinct(fs[i].entries);
      assert e in Elems(fs[i].entries) && h in Elems(fs[i].entries);
    }
  }

  // ----- across levels -----

  lemma LevelElemsDistinct(v: Version, l: nat)
    requires WellFormed(v) && l < NUM_LEVELS
    ensures Distinct(FilesElems(v.levels[l]))
  {
    if l == 0 { Level0Distinct(v.levels[0]); } else { LevelDistinct(v.levels[l]); }
  }

  lemma VersionDistinct(v: Version)
    requires WellFormed(v)
    ensures Distinct(VersionElems(v))
  {
    forall e, h | e in VersionElems(v) && h in VersionElems(v) && e.ik == h.ik ensures e == h {
      var i, f :| 0 <= i < |v.levels| && f in v.levels[i] && e in f.entries;
      var j, g :| 0 <= j < |v.levels| && g in v.levels[j] && h in g.entries;
      assert InLevel(v, i, f) && InLevel(v, j, g);
      assert i == j;
      LevelElemsDistinct(v, i);
      assert e in FilesElems(v.levels[i]) && h in FilesElems(v.levels[i]);
    }
  }

  /** No level above l holds an entry that the read could return. */
  ghost predicate Passed(v: Version, k: UserKey, s: nat, l: nat) {
    forall i, f, e :: 0 <= i < l && InLevel(v, i, f) && e in f.entries ==> !Covers(e, k, s)
  }

  lemma LevelDecides(v: Version, k: UserKey, s: nat, l: nat)
    requires WellFormed(v) && l < NUM_LEVELS && Passed(v, k, s, l)
    ensures Look(FilesElems(v.levels[l]), k, s).Missing? ==> Passed(v, k, s, l + 1)
    ensures !Look(FilesElems(v.levels[l]), k, s).Missing? ==>
              Look(VersionElems(v), k, s) == Look(FilesElems(v.levels[l]), k, s)
  {
    var S := FilesElems(v.levels[l]);
    LevelElemsDistinct(v, l);
    if c :| c in S && Covers(c, k, s) {
      var m := NewestExists(S, k, s, c);
      LookIs(S, k, s, m);
      var f :| f in v.levels[l] && m in f.entries;
      VersionDistinct(v);
      forall h | h in VersionElems(v) && Covers(h, k, s) ensures h.ik.sn <= m.ik.sn {
        var j, g :| 0 <= j < |v.levels| && g in v.levels[j] && h in g.entries;
        assert InLevel(v, j, g) && InLevel(v, l, f);
        if j == l { assert h in S; }
      }
      assert Newest(VersionElems(v), k, s, m);
      LookIs(VersionElems(v), k, s, m);
    } else {
      LookNone(S, k, s);
      forall i, f, e | 0 <= i < l + 1 && InLevel(v, i, f) && e in f.entries ensures !Covers(e, k, s) {
        if i == l { assert e in S; }
      }
    }
  }

  /** The files a level contributes to the search. */
  method CandidateFiles(v: Version, level: nat, k: UserKey, s: nat) returns (cs: seq<File>)
    requires WellFormed(v) && level < NUM_LEVELS
    ensures SearchInOrder(cs, k, s) == Look(FilesElems(v.levels[level]), k, s)
  {
    var files := v.levels[level];
    if level == 0 {
      cs := Level0Candidates(files, k);
      Level0Search(files, cs, k, s);
    } else {
      var index := FindFile(files, IKey(k, s));
      OneFilePerLevel(files, k, s, index);
      if index >= |files| || k < files[index].smallest.user {
        cs := [];
      } else {
        cs := [files[index]];
        assert SearchInOrder(cs[1..], k, s) == Missing;
      }
    }
  }

  method Level0Candidates(files: seq<File>, k: UserKey) returns (cs: seq<File>)
    requires OrderedLevel0(files)
    ensures NewestFirst(cs)
    ensures forall f :: f in cs <==> f in files && Spans(f, k)
  {
    var tmp: seq<File> := [];
    for i := 0 to |files|
      invariant forall f :: f in tmp <==> f in files[..i] && Spans(f, k)
      invariant DistinctNumbers(tmp)
    {
      var f := files[i];
      if f.smallest.user <= k && k <= f.largest.user {
        assert forall a :: 0 <= a < |tmp| ==> tmp[a] in tmp;
        tmp := tmp + [f];
      }
    }
    SortOrdered(tmp);
    cs := SortNewestFirst(tmp);
  }

  /** Searching level by level, newest level-0 file first and one file per deeper
      level, gives what the newest entry over all files gives. */
  method Get(v: Version, k: UserKey, s: nat) returns (o: Outcome)
    requires WellFormed(v)
    ensures o == Look(VersionElems(v), k, s)
  {
    for level := 0 to NUM_LEVELS
      invariant Passed(v, k, s, level)
    {
      LevelDecides(v, k, s, level);
      var cs := CandidateFiles(v, level, k, s);
      for i := 0 to |cs|
        invariant SearchInOrder(cs, k, s) == SearchInOrder(cs[i..], k, s)
      {
        o := TableGet(cs[i], k, s);
        if !o.Missing? { return; }
        assert cs[i..][1..] == cs[i + 1..];
      }
    }
    forall e | e in VersionElems(v) ensures !Covers(e, k, s) {
      var i, f :| 0 <= i < |v.levels| && f in v.levels[i] && e in f.entries;
      assert InLevel(v, i, f);
    }
    LookNone(VersionElems(v), k, s);
    o := Missing;
  }
}
