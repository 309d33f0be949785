/** Table files, versions and the point lookup (db/version_set.cc:95-113, 429-634).

    A table is its sorted sequence of entries; block layout, caches and bloom
    filters are not modelled. */
module Versions {
  import opened InternalKeys

  const NUM_LEVELS: nat := 7

  /** FileMetaData together with the contents of the table it names */
  datatype File = File(number: nat, size: nat, smallest: IKey, largest: IKey, entries: seq<Entry>) {
    predicate Valid() {
      && |entries| > 0
      && Sorted(entries)
      && smallest == entries[0].ik
      && largest == entries[|entries| - 1].ik
    }
    predicate RangeOk() {
      !Lt(largest, smallest)
    }
  }

  /** The file's range of user keys has k. */
  predicate Spans(f: File, k: UserKey) {
    f.smallest.user <= k <= f.largest.user
  }

  ghost predicate AllValid(fs: seq<File>) {
    forall i :: 0 <= i < |fs| ==> fs[i].Valid()
  }

  /** Files ordered and disjoint as ranges of internal keys. Adjacent files may
      still share a user key. */
  ghost predicate SortedRanges(fs: seq<File>) {
    && (forall i :: 0 <= i < |fs| ==> fs[i].RangeOk())
    && (forall i, j :: 0 <= i < j < |fs| ==> Lt(fs[i].largest, fs[j].smallest))
  }

  /** The shape of a level below level 0 */
  ghost predicate SortedLevel(fs: seq<File>) {
    AllValid(fs) && SortedRanges(fs)
  }

  ghost function FileElems(f: File): set<Entry> {
    Elems(f.entries)
  }

  ghost function FilesElems(fs: seq<File>): set<Entry> {
    set f, e | f in fs && e in f.entries :: e
  }

  lemma FilesElemsCons(f: File, fs: seq<File>)
    ensures FilesElems([f] + fs) == FileElems(f) + FilesElems(fs)
  {
  }

  datatype Version = Version(levels: seq<seq<File>>)

  ghost predicate InLevel(v: Version, l: nat, f: File) {
    l < |v.levels| && f in v.levels[l]
  }

  ghost function VersionElems(v: Version): set<Entry> {
    set l, f, e | 0 <= l < |v.levels| && f in v.levels[l] && e in f.entries :: e
  }

  /** Every version of a user key in f is newer than every version of it in g. */
  ghost predicate Newer(f: File, g: File) {
    forall e, h :: e in f.entries && h in g.entries && e.ik.user == h.ik.user ==> e.ik.sn > h.ik.sn
  }

  ghost predicate DistinctNumbers(fs: seq<File>) {
    forall i, j :: 0 <= i < j < |fs| ==> fs[i].number != fs[j].number
  }

  /** Level-0 files overlap; the larger file number is the newer flush. */
  ghost predicate OrderedLevel0(fs: seq<File>) {
    && AllValid(fs)
    && DistinctNumbers(fs)
    && (forall f, g :: f in fs && g in fs && f.number > g.number ==> Newer(f, g))
  }

  /** Versions of a user key get older going down the levels. */
  ghost predicate Downward(v: Version) {
    forall i, j, f, g :: 0 <= i < j && InLevel(v, i, f) && InLevel(v, j, g) ==> Newer(f, g)
  }

  ghost predicate WellFormed(v: Version) {
    && |v.levels| == NUM_LEVELS
    && OrderedLevel0(v.levels[0])
    && (forall l :: 1 <= l < NUM_LEVELS ==> SortedLevel(v.levels[l]))
    && Downward(v)
  }

  // ----- one table -----

  /** The first entry at or after the target, as a table iterator's Seek finds it. */
  function Seek(es: seq<Entry>, t: IKey): (i: nat)
    ensures i <= |es|
    ensures forall j :: 0 <= j < i ==> Lt(es[j].ik, t)
    ensures i < |es| ==> !Lt(es[i].ik, t)
  {
    if es == [] || !Lt(es[0].ik, t) then 0 else
      var r := Seek(es[1..], t);
      assert forall j :: 0 < j < r + 1 ==> es[j] == es[1..][j - 1];
      1 + r
  }

  /** TableCache::Get with SaveValue as its callback */
  function TableGet(f: File, k: UserKey, s: nat): Outcome {
    var i := Seek(f.entries, IKey(k, s));
    if i < |f.entries| && f.entries[i].ik.user == k then OutcomeOf(f.entries[i]) else Missing
  }

  lemma SortedDistinct(es: seq<Entry>)
    requires Sorted(es)
    ensures Distinct(Elems(es))
  {
  }

  lemma TableGetIsLook(f: File, k: UserKey, s: nat)
    requires f.Valid()
    ensures Distinct(FileElems(f))
    ensures TableGet(f, k, s) == Look(FileElems(f), k, s)
  {
    var es := f.entries;
    var i := Seek(es, IKey(k, s));
    SortedDistinct(es);
    if i < |es| && es[i].ik.user == k {
      assert Newest(FileElems(f), k, s, es[i]);
      LookIs(FileElems(f), k, s, es[i]);
    } else {
      forall e | e in FileElems(f) ensures !Covers(e, k, s) {
        var j :| 0 <= j < |es| && es[j] == e;
        if i < j { assert Lt(es[i].ik, es[j].ik); }
      }
      LookNone(FileElems(f), k, s);
    }
  }

  // ----- one level below level 0 -----

  /** FindFile (db/version_set.cc:95-113): the first file whose largest key is at
      or after the target. */
  method FindFile(files: seq<File>, key: IKey) returns (right: nat)
    requires SortedRanges(files)
    ensures right <= |files|
    ensures forall i :: 0 <= i < right ==> Lt(files[i].largest, key)
    ensures forall i :: right <= i < |files| ==> !Lt(files[i].largest, key)
  {
    var left := 0;
    right := |files|;
    while left < right
      invariant left <= right <= |files|
      invariant forall i :: 0 <= i < left ==> Lt(files[i].largest, key)
      invariant forall i :: right <= i < |files| ==> !Lt(files[i].largest, key)
    {
      var mid := (left + right) / 2;
      if Lt(files[mid].largest, key) {
        forall i | 0 <= i < mid ensures Lt(files[i].largest, key) {
          LargestMonotone(files, i, mid);
        }
        left := mid + 1;
      } else {
        forall i | mid < i < |files| ensures !Lt(files[i].largest, key) {
          LargestMonotone(files, mid, i);
        }
        right := mid;
      }
    }
  }

  lemma EntryBounds(f: File, e: Entry)
    requires f.Valid() && e in f.entries
    ensures !Lt(e.ik, f.smallest) && !Lt(f.largest, e.ik)
    ensures f.RangeOk()
  {
    var j :| 0 <= j < |f.entries| && f.entries[j] == e;
    if j > 0 { assert Lt(f.entries[0].ik, e.ik); }
    if j < |f.entries| - 1 { assert Lt(e.ik, f.entries[|f.entries| - 1].ik); }
  }

  lemma LargestMonotone(fs: seq<File>, i: nat, j: nat)
    requires SortedRanges(fs) && i < j < |fs|
    ensures Lt(fs[i].largest, fs[j].largest)
  {
    assert fs[j].RangeOk();
  }

  lemma OneFile(fs: seq<File>, i: nat, j: nat, e: Entry, h: Entry)
    requires SortedLevel(fs) && i < |fs| && j < |fs|
    requires e in fs[i].entries && h in fs[j].entries && e.ik == h.ik
    ensures i == j
  {
    EntryBounds(fs[i], e);
    EntryBounds(fs[j], h);
  }

  lemma LevelDistinct(fs: seq<File>)
    requires SortedLevel(fs)
    ensures Distinct(FilesElems(fs))
  {
    forall e, h | e in FilesElems(fs) && h in FilesElems(fs) && e.ik == h.ik ensures e == h {
      var i :| 0 <= i < |fs| && e in fs[i].entries;
      var j :| 0 <= j < |fs| && h in fs[j].entries;
      OneFile(fs, i, j, e, h);
      SortedDistinct(fs[i].entries);
      assert e in Elems(fs[i].entries) && h in Elems(fs[i].entries);
    }
  }

  /** One file answers for the whole level, even when versions of the key are
      split across adjacent files. */
  lemma OneFilePerLevel(fs: seq<File>, k: UserKey, s: nat, r: nat)
    requires SortedLevel(fs) && r <= |fs|
    requires forall i :: 0 <= i < r ==> Lt(fs[i].largest, IKey(k, s))
    requires forall i :: r <= i < |fs| ==> !Lt(fs[i].largest, IKey(k, s))
    ensures Look(FilesElems(fs), k, s) ==
            if r == |fs| || k < fs[r].smallest.user then Missing else TableGet(fs[r], k, s)
  {
    forall i, e | 0 <= i < r && e in fs[i].entries ensures !Covers(e, k, s) {
      EntryBounds(fs[i], e);
    }
    LevelDistinct(fs);
    if r == |fs| {
      LookNone(FilesElems(fs), k, s);
    } else if k < fs[r].smallest.user {
      LevelAfter(fs, r, k, s);
      LookNone(FilesElems(fs), k, s);
    } else {
      LevelHit(fs, k, s, r);
    }
  }

  lemma LevelAfter(fs: seq<File>, r: nat, k: UserKey, s: nat)
    requires SortedLevel(fs) && r < |fs| && k < fs[r].smallest.user
    ensures forall i, e :: r <= i < |fs| && e in fs[i].entries ==> !Covers(e, k, s)
  {
    forall i, e | r <= i < |fs| && e in fs[i].entries ensures !Covers(e, k, s) {
      EntryBounds(fs[i], e);
      assert fs[r].RangeOk();
      if r < i { assert Lt(fs[r].largest, fs[i].smallest); }
    }
  }

  lemma LevelHit(fs: seq<File>, k: UserKey, s: nat, r: nat)
    requires SortedLevel(fs) && r < |fs| && fs[r].smallest.user <= k
    requires !Lt(fs[r].largest, IKey(k, s))
    requires forall i, e :: 0 <= i < r && e in fs[i].entries ==> !Covers(e, k, s)
    requires Distinct(FilesElems(fs))
    ensures Look(FilesElems(fs), k, s) == TableGet(fs[r], k, s)
  {
    var es := fs[r].entries;
    var n := Seek(es, IKey(k, s));
    assert !Lt(es[|es| - 1].ik, IKey(k, s));
    assert n < |es|;
    var m := es[n];
    forall i, e | 0 <= i < |fs| && e in fs[i].entries && Covers(e, k, s)
      ensures m.ik.user == k && e.ik.sn <= m.ik.sn
    {
      EntryBounds(fs[i], e);
      EntryBounds(fs[r], m);
      if i == r {
        var j :| 0 <= j < |es| && es[j] == e;
        if n < j { assert Lt(m.ik, e.ik); }
      } else {
        assert Lt(fs[r].largest, fs[i].smallest);
      }
    }
    if m.ik.user == k {
      assert Newest(FilesElems(fs), k, s, m);
      LookIs(FilesElems(fs), k, s, m);
    } else {
      LookNone(FilesElems(fs), k, s);
    }
  }
}
