/** VersionSet::Builder (db/version_set.cc): edits accumulated against a base version and
    merged into a new one. Recover feeds one Builder every edit of the manifest;
    LogAndApply uses a new Builder for each. */
module Builder {
  import opened InternalKeys
  import opened Versions

  datatype VersionEdit = VersionEdit(deleted: seq<(nat, nat)>, added: seq<(nat, File)>)

  /** BySmallestKey: by smallest key, then by number. */
  predicate Before(f: File, g: File) {
    Lt(f.smallest, g.smallest) || (f.smallest == g.smallest && f.number < g.number)
  }

  predicate Ordered(fs: seq<File>) {
    forall i, j :: 0 <= i < j < |fs| ==> Before(fs[i], fs[j])
  }

  function Files(fs: seq<File>): set<File> {
    set f | f in fs
  }

  function Numbers(S: set<File>): set<nat> {
    set f | f in S :: f.number
  }

  /** What an edit does to one level. */
  function DeletedAt(e: VersionEdit, level: nat): set<nat> {
    set d | d in e.deleted && d.0 == level :: d.1
  }

  function AddedAt(e: VersionEdit, level: nat): set<File> {
    set a | a in e.added && a.0 == level :: a.1
  }

  /** A level of the Builder: files added so far, numbers deleted so far. */
  datatype Pending = Pending(added: set<File>, deleted: set<nat>)

  /** Deletions first; adding a file takes its number off the deleted list. */
  function Accumulate(p: Pending, e: VersionEdit, level: nat): Pending {
    Pending(p.added + AddedAt(e, level), (p.deleted + DeletedAt(e, level)) - Numbers(AddedAt(e, level)))
  }

  function AccumulateAll(es: seq<VersionEdit>, level: nat): Pending {
    if es == [] then Pending({}, {})
    else Accumulate(AccumulateAll(es[..|es| - 1], level), es[|es| - 1], level)
  }

  /** The files a level is left with: those of the base and the added ones, without the
      deleted ones. */
  function Surviving(base: set<File>, p: Pending): set<File> {
    set f | f in base + p.added && f.number !in p.deleted
  }

  /** One Builder per edit. */
  function OneByOne(base: set<File>, es: seq<VersionEdit>, level: nat): set<File> {
    if es == [] then base
    else Surviving(OneByOne(base, es[..|es| - 1], level), Accumulate(Pending({}, {}), es[|es| - 1], level))
  }

  /** No edit brings back a number the level has had before. */
  predicate NoReadd(base: set<File>, es: seq<VersionEdit>, level: nat) {
    es == [] ||
    var before := es[..|es| - 1];
    && NoReadd(base, before, level)
    && Numbers(AddedAt(es[|es| - 1], level)) !! Numbers(base + AccumulateAll(before, level).added)
  }

  /** Replaying a whole manifest through one Builder leaves each level with the same files
      as applying the edits one at a time. */
  lemma {:induction false} ReplayIsOneByOne(base: set<File>, es: seq<VersionEdit>, level: nat)
    requires NoReadd(base, es, level)
    ensures Surviving(base, AccumulateAll(es, level)) == OneByOne(base, es, level)
  {
    if es != [] {
      var before, e := es[..|es| - 1], es[|es| - 1];
      ReplayIsOneByOne(base, before, level);
      var p, joined := AccumulateAll(before, level), AddedAt(e, level);
      forall f | f in base + p.added + joined
        ensures f in Surviving(base, AccumulateAll(es, level)) <==> f in OneByOne(base, es, level)
      {
        if f in joined {
          assert f.number in Numbers(joined);
        } else {
          assert f.number in Numbers(base + p.added);
        }
      }
    }
  }

  // ----- lists -----

  lemma BeforeTotal(f: File, g: File)
    ensures Before(f, g) || Before(g, f) || (f.smallest == g.smallest && f.number == g.number)
    ensures !(Before(f, g) && Before(g, f))
  {
  }

  /** An ordered list is determined by its files. */
  lemma {:induction false} OrderedUnique(a: seq<File>, b: seq<File>)
    requires Ordered(a) && Ordered(b) && Files(a) == Files(b)
    ensures a == b
    decreases |a|
  {
    SomeFile(a);
    SomeFile(b);
    if a != [] && b != [] {
      SameLast(a, b);
      SameInit(a, b);
      OrderedUnique(a[..|a| - 1], b[..|b| - 1]);
      assert a == a[..|a| - 1] + [a[|a| - 1]] && b == b[..|b| - 1] + [b[|b| - 1]];
    }
  }

  lemma SameLast(a: seq<File>, b: seq<File>)
    requires Ordered(a) && Ordered(b) && Files(a) == Files(b) && a != [] && b != []
    ensures a[|a| - 1] == b[|b| - 1]
  {
    var f, g := a[|a| - 1], b[|b| - 1];
    assert f in Files(a) && g in Files(b);
    LastIsGreatest(a, g);
    LastIsGreatest(b, f);
  }

  lemma SameInit(a: seq<File>, b: seq<File>)
    requires Ordered(a) && Ordered(b) && Files(a) == Files(b) && a != [] && b != [] && a[|a| - 1] == b[|b| - 1]
    ensures Files(a[..|a| - 1]) == Files(b[..|b| - 1])
  {
    var x, y := a[..|a| - 1], b[..|b| - 1];
    forall h ensures h in x <==> h in y {
      assert h in Files(a) <==> h in Files(b);
      InitMember(a, h);
      InitMember(b, h);
    }
  }

  lemma SomeFile(a: seq<File>)
    ensures a == [] <==> Files(a) == {}
  {
    if a != [] { assert a[0] in Files(a); }
  }

  lemma LastIsGreatest(a: seq<File>, g: File)
    requires Ordered(a) && g in a
    ensures g == a[|a| - 1] || Before(g, a[|a| - 1])
  {
  }

  lemma InitMember(a: seq<File>, h: File)
    requires Ordered(a) && a != []
    ensures h in a[..|a| - 1] <==> h in a && h != a[|a| - 1]
  {
  }

  // ----- the Builder as it runs -----

  /** The std::set of added files: in order, and no two alike. */
  method InsertFile(fs: seq<File>, f: File) returns (r: seq<File>)
    requires Ordered(fs) && forall g :: g in fs ==> g.number != f.number
    ensures Ordered(r) && Files(r) == Files(fs) + {f}
  {
    var i := |fs|;
    while i > 0 && Before(f, fs[i - 1])
      invariant 0 <= i <= |fs| && forall j :: i <= j < |fs| ==> Before(f, fs[j])
    {
      i := i - 1;
    }
    r := fs[..i] + [f] + fs[i..];
    assert i > 0 ==> Before(fs[i - 1], f) by { if i > 0 { BeforeTotal(fs[i - 1], f); assert fs[i - 1] in fs; } }
    InsertKeeps(fs, f, i);
  }

  lemma InsertKeeps(fs: seq<File>, f: File, i: nat)
    requires Ordered(fs) && i <= |fs| && (i > 0 ==> Before(fs[i - 1], f)) && forall j :: i <= j < |fs| ==> Before(f, fs[j])
    ensures Ordered(fs[..i] + [f] + fs[i..]) && Files(fs[..i] + [f] + fs[i..]) == Files(fs) + {f}
  {
    var r := fs[..i] + [f] + fs[i..];
    assert fs == fs[..i] + fs[i..];
    forall j | 0 <= j < i ensures Before(fs[j], f) {
      if j < i - 1 { assert Before(fs[j], fs[i - 1]); }
    }
  }

  datatype LevelState = LevelState(added: seq<File>, deleted: set<nat>)

  ghost function Abstract(l: LevelState): Pending {
    Pending(Files(l.added), l.deleted)
  }

  /** The numbers an edit adds to a level are new to that level of the Builder. */
  ghost predicate NewNumbers(levels: seq<LevelState>, added: seq<(nat, File)>) {
    && (forall i :: 0 <= i < |added| ==> added[i].0 < |levels|)
    && OncePerLevel(added)
    && forall i, g :: 0 <= i < |added| && g in levels[added[i].0].added ==> added[i].1.number != g.number
  }

  /** No number is added to a level twice. */
  ghost predicate OncePerLevel(added: seq<(nat, File)>) {
    forall i, j :: 0 <= i < j < |added| && added[i].0 == added[j].0 ==> added[i].1.number != added[j].1.number
  }

  class VersionBuilder {
    const base: Version
    var levels: seq<LevelState>

    ghost predicate Valid()
      reads this
    {
      && |levels| == |base.levels|
      && forall l :: 0 <= l < |levels| ==> Ordered(levels[l].added) && Ordered(base.levels[l])
    }

    constructor (base: Version)
      requires forall l :: 0 <= l < |base.levels| ==> Ordered(base.levels[l])
      ensures Valid() && this.base == base
      ensures forall l :: 0 <= l < |levels| ==> Abstract(levels[l]) == Pending({}, {})
    {
      this.base := base;
      levels := seq(|base.levels|, _ => LevelState([], {}));
    }

    method Apply(e: VersionEdit)
      requires Valid() && NewNumbers(levels, e.added) && forall i :: 0 <= i < |e.deleted| ==> e.deleted[i].0 < |levels|
      modifies this
      ensures Valid() && |levels| == |old(levels)|
      ensures forall l :: 0 <= l < |levels| ==> Abstract(levels[l]) == Accumulate(Abstract(old(levels)[l]), e, l)
    {
      Delete(e);
      Add(e);
    }

    method Delete(e: VersionEdit)
      requires Valid() && forall i :: 0 <= i < |e.deleted| ==> e.deleted[i].0 < |levels|
      modifies this
      ensures Valid() && |levels| == |old(levels)|
      ensures forall l :: 0 <= l < |levels| ==>
                levels[l] == old(levels)[l].(deleted := old(levels)[l].deleted + DeletedAt(e, l))
    {
      var i := 0;
      ghost var was := levels;
      while i < |e.deleted|
        invariant i <= |e.deleted| && Valid() && |levels| == |was|
        invariant forall l :: 0 <= l < |levels| ==>
                    levels[l] == was[l].(deleted := was[l].deleted + DeletedAt(VersionEdit(e.deleted[..i], []), l))
      {
        var level, number := e.deleted[i].0, e.deleted[i].1;
        ghost var prior := levels;
        levels := levels[level := levels[level].(deleted := levels[level].deleted + {number})];
        forall l | 0 <= l < |levels|
          ensures levels[l] == was[l].(deleted := was[l].deleted + DeletedAt(VersionEdit(e.deleted[..i + 1], []), l))
        {
          DeletedMore(e.deleted, i, l);
        }
        i := i + 1;
      }
      assert e.deleted[..i] == e.deleted;
      assert forall l: nat :: DeletedAt(VersionEdit(e.deleted, []), l) == DeletedAt(e, l);
    }

    method Add(e: VersionEdit)
      requires Valid() && NewNumbers(levels, e.added)
      modifies this
      ensures Valid() && |levels| == |old(levels)|
      ensures forall l :: 0 <= l < |levels| ==>
                && Files(levels[l].added) == Files(old(levels)[l].added) + AddedAt(e, l)
                && levels[l].deleted == old(levels)[l].deleted - Numbers(AddedAt(e, l))
    {
      var i := 0;
      ghost var was := levels;
      while i < |e.added|
        invariant i <= |e.added| && Valid() && |levels| == |was|
        invariant forall l :: 0 <= l < |levels| ==> Partly(levels[l], was[l], e.added[..i], l)
      {
        var level, f := e.added[i].0, e.added[i].1;
        ghost var prior := levels;
        NotThere(levels[level], was[level], e.added, i, was, level);
        var added := InsertFile(levels[level].added, f);
        levels := levels[level := LevelState(added, levels[level].deleted - {f.number})];
        forall l | 0 <= l < |levels| ensures Partly(levels[l], was[l], e.added[..i + 1], l) {
          AddedMore(e.added, i, l);
        }
        i := i + 1;
      }
      assert e.added[..i] == e.added;
      forall l | 0 <= l < |levels|
        ensures && Files(levels[l].added) == Files(was[l].added) + AddedAt(e, l)
                && levels[l].deleted == was[l].deleted - Numbers(AddedAt(e, l))
      {
        assert Partly(levels[l], was[l], e.added, l);
        assert AddedAt(VersionEdit([], e.added), l) == AddedAt(e, l);
      }
    }

    /** Merges one level: the surviving files, in order. */
    method SaveTo(level: nat) returns (files: seq<File>)
      requires Valid() && level < |levels|
      requires Numbers(Files(base.levels[level])) !! Numbers(Files(levels[level].added))
      ensures Ordered(files) && Files(files) == Surviving(Files(base.levels[level]), Abstract(levels[level]))
    {
      files := Merge(base.levels[level], levels[level].added, levels[level].deleted);
    }
  }

  /** The level after the first i files of an edit. */
  ghost predicate Partly(l: LevelState, was: LevelState, added: seq<(nat, File)>, level: nat) {
    && Files(l.added) == Files(was.added) + AddedAt(VersionEdit([], added), level)
    && l.deleted == was.deleted - Numbers(AddedAt(VersionEdit([], added), level))
  }

  lemma DeletedMore(deleted: seq<(nat, nat)>, i: nat, level: nat)
    requires i < |deleted|
    ensures DeletedAt(VersionEdit(deleted[..i + 1], []), level) ==
            DeletedAt(VersionEdit(deleted[..i], []), level) + if deleted[i].0 == level then {deleted[i].1} else {}
  {
    assert deleted[..i + 1] == deleted[..i] + [deleted[i]];
  }

  lemma AddedMore(added: seq<(nat, File)>, i: nat, level: nat)
    requires i < |added|
    ensures AddedAt(VersionEdit([], added[..i + 1]), level) ==
            AddedAt(VersionEdit([], added[..i]), level) + if added[i].0 == level then {added[i].1} else {}
  {
    assert added[..i + 1] == added[..i] + [added[i]];
  }

  lemma NotThere(l: LevelState, was: LevelState, added: seq<(nat, File)>, i: nat, levels: seq<LevelState>, level: nat)
    requires NewNumbers(levels, added) && i < |added| && added[i].0 == level && levels[level] == was
    requires Partly(l, was, added[..i], level)
    ensures forall g :: g in l.added ==> g.number != added[i].1.number
  {
    forall g | g in l.added ensures g.number != added[i].1.number {
      assert g in Files(l.added);
      if g !in was.added {
        var a :| a in added[..i] && a.0 == level && a.1 == g;
        var j :| 0 <= j < i && added[j] == a;
      }
    }
  }

  /** Two ordered lists into one, without the deleted numbers. */
  method Merge(base: seq<File>, added: seq<File>, deleted: set<nat>) returns (files: seq<File>)
    requires Ordered(base) && Ordered(added) && Numbers(Files(base)) !! Numbers(Files(added))
    ensures Ordered(files) && Files(files) == Surviving(Files(base), Pending(Files(added), deleted))
  {
    files := [];
    var b, a := 0, 0;
    while a < |added|
      invariant a <= |added| && b <= |base| && Merged(files, base, added, deleted, b, a)
    {
      while b < |base| && !Before(added[a], base[b])
        invariant b <= |base| && Merged(files, base, added, deleted, b, a)
      {
        NumbersApart(base, added, b, a);
        BeforeTotal(added[a], base[b]);
        TakeBase(files, base, added, deleted, b, a);
        files := MaybeAdd(files, base[b], deleted);
        b := b + 1;
      }
      TakeAdded(files, base, added, deleted, b, a);
      files := MaybeAdd(files, added[a], deleted);
      a := a + 1;
    }
    while b < |base|
      invariant b <= |base| && Merged(files, base, added, deleted, b, a)
    {
      TakeBase(files, base, added, deleted, b, a);
      files := MaybeAdd(files, base[b], deleted);
      b := b + 1;
    }
    assert base[..b] == base && added[..a] == added;
  }

  /** MaybeAddFile */
  function MaybeAdd(files: seq<File>, f: File, deleted: set<nat>): seq<File> {
    if f.number in deleted then files else files + [f]
  }

  lemma MaybeAddOrdered(files: seq<File>, f: File, deleted: set<nat>)
    requires Ordered(files) && forall g :: g in files ==> Before(g, f)
    ensures Ordered(MaybeAdd(files, f, deleted))
    ensures Files(MaybeAdd(files, f, deleted)) == Files(files) + if f.number in deleted then {} else {f}
  {
    var r := files + [f];
    forall i, j | 0 <= i < j < |r| ensures Before(r[i], r[j]) {
      assert r[i] in files;
    }
  }

  lemma FilesMore(fs: seq<File>, i: nat)
    requires i < |fs|
    ensures Files(fs[..i + 1]) == Files(fs[..i]) + {fs[i]}
  {
    assert fs[..i + 1] == fs[..i] + [fs[i]];
  }

  lemma TakeBase(files: seq<File>, base: seq<File>, added: seq<File>, deleted: set<nat>, b: nat, a: nat)
    requires Ordered(base) && Ordered(added) && b < |base| && a <= |added| && Merged(files, base, added, deleted, b, a)
    requires a < |added| ==> Before(base[b], added[a])
    ensures Merged(MaybeAdd(files, base[b], deleted), base, added, deleted, b + 1, a)
  {
    MaybeAddOrdered(files, base[b], deleted);
    FilesMore(base, b);
    forall j | a <= j < |added| ensures Before(base[b], added[j]) {
      if a < j { BeforeTransitive(base[b], added[a], added[j]); }
    }
    StillBefore(files, base[b], deleted, base, b + 1);
    StillBefore(files, base[b], deleted, added, a);
  }

  lemma TakeAdded(files: seq<File>, base: seq<File>, added: seq<File>, deleted: set<nat>, b: nat, a: nat)
    requires Ordered(base) && Ordered(added) && b <= |base| && a < |added| && Merged(files, base, added, deleted, b, a)
    requires b < |base| ==> Before(added[a], base[b])
    ensures Merged(MaybeAdd(files, added[a], deleted), base, added, deleted, b, a + 1)
  {
    MaybeAddOrdered(files, added[a], deleted);
    FilesMore(added, a);
    forall j | b <= j < |base| ensures Before(added[a], base[j]) {
      if b < j { BeforeTransitive(added[a], base[b], base[j]); }
    }
    StillBefore(files, added[a], deleted, base, b);
    StillBefore(files, added[a], deleted, added, a + 1);
  }

  lemma StillBefore(files: seq<File>, f: File, deleted: set<nat>, rest: seq<File>, k: nat)
    requires forall g, j :: g in files && k <= j < |rest| ==> Before(g, rest[j])
    requires forall j :: k <= j < |rest| ==> Before(f, rest[j])
    ensures forall g, j :: g in MaybeAdd(files, f, deleted) && k <= j < |rest| ==> Before(g, rest[j])
  {
  }

  lemma BeforeTransitive(f: File, g: File, h: File)
    requires Before(f, g) && Before(g, h)
    ensures Before(f, h)
  {
  }

  lemma NumbersApart(base: seq<File>, added: seq<File>, b: nat, a: nat)
    requires Numbers(Files(base)) !! Numbers(Files(added)) && b < |base| && a < |added|
    ensures base[b].number != added[a].number
  {
    assert base[b] in Files(base) && added[a] in Files(added);
    assert base[b].number in Numbers(Files(base)) && added[a].number in Numbers(Files(added));
  }

  /** After b base files and a added ones: what survives of them, in order, all before
      the files to come. */
  ghost predicate Merged(files: seq<File>, base: seq<File>, added: seq<File>, deleted: set<nat>, b: nat, a: nat)
    requires b <= |base| && a <= |added|
  {
    && Ordered(files)
    && Files(files) == Surviving(Files(base[..b]), Pending(Files(added[..a]), deleted))
    && (forall f, j :: f in files && b <= j < |base| ==> Before(f, base[j]))
    && (forall f, j :: f in files && a <= j < |added| ==> Before(f, added[j]))
  }

  // ----- a whole manifest -----

  /** A list of edits a version set can have logged on top of base. */
  ghost predicate Manifest(base: Version, es: seq<VersionEdit>) {
    && (forall l :: 0 <= l < |base.levels| ==> Ordered(base.levels[l]) && NoReadd(Files(base.levels[l]), es, l))
    && forall k :: 0 <= k < |es| ==> EditOk(es[k], |base.levels|)
  }

  ghost predicate EditOk(e: VersionEdit, levels: nat) {
    && OncePerLevel(e.added)
    && (forall i :: 0 <= i < |e.added| ==> e.added[i].0 < levels)
    && (forall i :: 0 <= i < |e.deleted| ==> e.deleted[i].0 < levels)
  }

  lemma ManifestPrefix(base: Version, es: seq<VersionEdit>, k: nat)
    requires Manifest(base, es) && k < |es|
    ensures Manifest(base, es[..k]) && es[..k + 1][..k] == es[..k]
    ensures forall l :: 0 <= l < |base.levels| ==>
              Numbers(AddedAt(es[k], l)) !! Numbers(Files(base.levels[l]) + AccumulateAll(es[..k], l).added)
  {
    forall l | 0 <= l < |base.levels|
      ensures NoReadd(Files(base.levels[l]), es[..k], l)
      ensures Numbers(AddedAt(es[k], l)) !! Numbers(Files(base.levels[l]) + AccumulateAll(es[..k], l).added)
    {
      NoReaddPrefix(Files(base.levels[l]), es, l, k + 1);
      assert es[..k + 1][..k] == es[..k];
    }
    assert es[..k + 1][..k] == es[..k];
  }

  lemma {:induction false} NoReaddPrefix(base: set<File>, es: seq<VersionEdit>, level: nat, k: nat)
    requires NoReadd(base, es, level) && k <= |es|
    ensures NoReadd(base, es[..k], level)
    decreases |es|
  {
    if k < |es| {
      NoReaddPrefix(base, es[..|es| - 1], level, k);
      assert es[..|es| - 1][..k] == es[..k];
    } else {
      assert es[..k] == es;
    }
  }

  lemma FreshAt(levels: seq<LevelState>, e: VersionEdit)
    requires EditOk(e, |levels|)
    requires forall l :: 0 <= l < |levels| ==> Numbers(AddedAt(e, l)) !! Numbers(Files(levels[l].added))
    ensures NewNumbers(levels, e.added)
  {
    forall i, g | 0 <= i < |e.added| && g in levels[e.added[i].0].added ensures e.added[i].1.number != g.number {
      var l, f := e.added[i].0, e.added[i].1;
      assert f in AddedAt(e, l) && f.number in Numbers(AddedAt(e, l));
      assert g in Files(levels[l].added) && g.number in Numbers(Files(levels[l].added));
    }
  }

  lemma NumbersSubset(S: set<File>, T: set<File>)
    requires S <= T
    ensures Numbers(S) <= Numbers(T)
  {
  }

  /** Version w has, level by level and in order, exactly these files. */
  ghost predicate HasFiles(w: Version, base: Version, es: seq<VersionEdit>) {
    && |w.levels| == |base.levels|
    && forall l :: 0 <= l < |w.levels| ==> Ordered(w.levels[l]) && Files(w.levels[l]) == OneByOne(Files(base.levels[l]), es, l)
  }

  /** The levels a Builder has accumulated from es. */
  ghost predicate Holds(levels: seq<LevelState>, es: seq<VersionEdit>) {
    forall l :: 0 <= l < |levels| ==> Abstract(levels[l]) == AccumulateAll(es, l)
  }

  /** VersionSet::Recover: one Builder for all edits. */
  method Recover(base: Version, es: seq<VersionEdit>) returns (w: Version)
    requires Manifest(base, es)
    ensures HasFiles(w, base, es)
  {
    var b := new VersionBuilder(base);
    var k := 0;
    while k < |es|
      invariant k <= |es| && fresh(b) && b.Valid() && b.base == base && Holds(b.levels, es[..k])
    {
      ManifestPrefix(base, es, k);
      forall l | 0 <= l < |b.levels| ensures Numbers(AddedAt(es[k], l)) !! Numbers(Files(b.levels[l].added)) {
        NumbersSubset(Files(b.levels[l].added), Files(base.levels[l]) + AccumulateAll(es[..k], l).added);
      }
      FreshAt(b.levels, es[k]);
      b.Apply(es[k]);
      k := k + 1;
    }
    assert es[..k] == es;
    w := SaveAll(b, es);
  }

  /** Saves every level. */
  method SaveAll(b: VersionBuilder, ghost es: seq<VersionEdit>) returns (w: Version)
    requires b.Valid() && Manifest(b.base, es) && Holds(b.levels, es)
    ensures HasFiles(w, b.base, es)
  {
    var levels: seq<seq<File>> := [];
    while |levels| < |b.levels|
      invariant |levels| <= |b.levels|
      invariant forall l :: 0 <= l < |levels| ==>
                  Ordered(levels[l]) && Files(levels[l]) == OneByOne(Files(b.base.levels[l]), es, l)
    {
      var l := |levels|;
      AddedApart(Files(b.base.levels[l]), es, l);
      ReplayIsOneByOne(Files(b.base.levels[l]), es, l);
      assert Abstract(b.levels[l]) == AccumulateAll(es, l);
      var files := b.SaveTo(l);
      levels := levels + [files];
    }
    w := Version(levels);
  }

  /** What the edits add, the base does not have. */
  lemma {:induction false} AddedApart(base: set<File>, es: seq<VersionEdit>, level: nat)
    requires NoReadd(base, es, level)
    ensures Numbers(base) !! Numbers(AccumulateAll(es, level).added)
  {
    if es != [] {
      var before, e := es[..|es| - 1], es[|es| - 1];
      AddedApart(base, before, level);
      var p := AccumulateAll(before, level);
      NumbersSubset(base, base + p.added);
      assert Numbers(p.added + AddedAt(e, level)) == Numbers(p.added) + Numbers(AddedAt(e, level));
    }
  }

  /** LogAndApply: a new Builder on the current version, for one edit. */
  method LogAndApply(v: Version, e: VersionEdit) returns (w: Version)
    requires Manifest(v, [e])
    ensures HasFiles(w, v, [e])
  {
    var b := new VersionBuilder(v);
    FreshAt(b.levels, [e][0]);
    b.Apply(e);
    assert [e][..0] == [];
    w := SaveAll(b, [e]);
  }

  /** LogAndApply for each edit in turn. */
  method LogAndApplyAll(base: Version, es: seq<VersionEdit>) returns (w: Version)
    requires Manifest(base, es)
    ensures HasFiles(w, base, es)
  {
    w := base;
    var k := 0;
    while k < |es|
      invariant k <= |es| && HasFiles(w, base, es[..k])
    {
      ManifestPrefix(base, es, k);
      NextEdit(base, es, k, w);
      ghost var v := w;
      w := LogAndApply(w, es[k]);
      NextVersion(base, es, k, v, w);
      k := k + 1;
    }
    assert es[..k] == es;
  }

  lemma {:induction false} OneByOneWithin(base: set<File>, es: seq<VersionEdit>, level: nat)
    ensures OneByOne(base, es, level) <= base + AccumulateAll(es, level).added
  {
    if es != [] { OneByOneWithin(base, es[..|es| - 1], level); }
  }

  lemma NextEdit(base: Version, es: seq<VersionEdit>, k: nat, w: Version)
    requires Manifest(base, es) && k < |es| && HasFiles(w, base, es[..k])
    ensures Manifest(w, [es[k]])
  {
    ManifestPrefix(base, es, k);
    assert [es[k]][..0] == [];
    forall l | 0 <= l < |w.levels| ensures Ordered(w.levels[l]) && NoReadd(Files(w.levels[l]), [es[k]], l) {
      OneByOneWithin(Files(base.levels[l]), es[..k], l);
      NumbersSubset(Files(w.levels[l]), Files(base.levels[l]) + AccumulateAll(es[..k], l).added);
      assert Files(w.levels[l]) + {} == Files(w.levels[l]);
    }
  }

  lemma NextVersion(base: Version, es: seq<VersionEdit>, k: nat, v: Version, w: Version)
    requires k < |es| && HasFiles(v, base, es[..k]) && HasFiles(w, v, [es[k]])
    ensures HasFiles(w, base, es[..k + 1])
  {
    assert es[..k + 1][..k] == es[..k] && [es[k]][..0] == [];
    forall l | 0 <= l < |w.levels| ensures Ordered(w.levels[l]) && Files(w.levels[l]) == OneByOne(Files(base.levels[l]), es[..k + 1], l) {
      assert OneByOne(Files(v.levels[l]), [], l) == Files(v.levels[l]);
    }
  }

  lemma OneVersion(a: Version, b: Version, base: Version, es: seq<VersionEdit>)
    requires HasFiles(a, base, es) && HasFiles(b, base, es)
    ensures a == b
  {
    forall l | 0 <= l < |a.levels| ensures a.levels[l] == b.levels[l] {
      OrderedUnique(a.levels[l], b.levels[l]);
    }
    assert a.levels == b.levels;
  }

  /** Reading a manifest back gives, list by list, the version that was built while it was
      written. */
  method RecoverEqualsLogAndApply(base: Version, es: seq<VersionEdit>) returns (recovered: Version, applied: Version)
    requires Manifest(base, es)
    ensures recovered == applied && HasFiles(recovered, base, es)
  {
    recovered := Recover(base, es);
    applied := LogAndApplyAll(base, es);
    OneVersion(recovered, applied, base, es);
  }
}
