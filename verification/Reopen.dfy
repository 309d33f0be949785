/** A database opened again: the engine goes on from the recovered version, and the new
    manifest, a snapshot of the version before recovery and the edit of the recovery
    (VersionSet::WriteSnapshot, DB::Open), describes it. */
module Reopen {
  import opened Versions
  import opened FileNumbers
  import opened Engine
  import opened EngineManifest
  import opened InstallEdit
  import B = Builder
  import VersionGet
  import D = Durability
  import S = Storage

  // ----- the snapshot record -----

  /** The files of the first n levels. */
  function FilesTo(v: Version, n: nat): seq<(nat, File)>
    requires n <= |v.levels|
  {
    if n == 0 then [] else FilesTo(v, n - 1) + Adds(n - 1, v.levels[n - 1])
  }

  /** WriteSnapshot: one AddFile for every file there is. */
  function SnapshotEdit(v: Version): B.VersionEdit {
    B.VersionEdit([], FilesTo(v, |v.levels|))
  }

  lemma AddedConcat(a: seq<(nat, File)>, b: seq<(nat, File)>, l: nat)
    ensures B.AddedAt(B.VersionEdit([], a + b), l) == B.AddedAt(B.VersionEdit([], a), l) + B.AddedAt(B.VersionEdit([], b), l)
  {
  }

  lemma {:induction false} SnapshotAt(v: Version, n: nat, l: nat)
    requires n <= |v.levels|
    ensures B.AddedAt(B.VersionEdit([], FilesTo(v, n)), l) == if l < n then B.Files(v.levels[l]) else {}
  {
    if n > 0 {
      SnapshotAt(v, n - 1, l);
      AddsMembers(n - 1, v.levels[n - 1], l);
      AddedConcat(FilesTo(v, n - 1), Adds(n - 1, v.levels[n - 1]), l);
    }
  }

  lemma {:induction false} SnapshotFits(v: Version, n: nat)
    requires UniqueNumbers(v) && n <= |v.levels|
    ensures B.OncePerLevel(FilesTo(v, n)) && forall i :: 0 <= i < |FilesTo(v, n)| ==> FilesTo(v, n)[i].0 < n
  {
    if n > 0 { SnapshotFits(v, n - 1); }
  }

  lemma SnapshotIsLogged(base: Version, v: Version)
    requires Empty(base) && |base.levels| == |v.levels| && WellFormed(v) && UniqueNumbers(v) && Listed(v)
    ensures B.Manifest(base, [SnapshotEdit(v)]) && B.HasFiles(v, base, [SnapshotEdit(v)])
  {
    var e := SnapshotEdit(v);
    SnapshotFits(v, |v.levels|);
    forall l | 0 <= l < |v.levels|
      ensures B.Ordered(v.levels[l]) && B.Files(v.levels[l]) == After(base, e, l) && B.NoReadd(B.Files(base.levels[l]), [e], l)
    {
      LevelsOrdered(v, l);
      SnapshotAt(v, |v.levels|, l);
      assert B.DeletedAt(e, l) == {};
      SingleEdit(B.Files(base.levels[l]), e, l);
    }
    OneEdit(base, e, v);
  }

  // ----- the edit of the recovery -----

  function RecoveryEdit(fs: seq<File>): B.VersionEdit {
    B.VersionEdit([], Adds(0, fs))
  }

  lemma RecoveryIsLogged(v: Version, fs: seq<File>, level0: seq<File>)
    requires WellFormed(v) && Listed(v) && S.NewFiles(v, fs) && S.Joined(v.levels[0], fs, level0)
    ensures B.HasFiles(S.WithLevel0(v, level0), v, [RecoveryEdit(fs)])
  {
    var w, e := S.WithLevel0(v, level0), RecoveryEdit(fs);
    S.JoinedShape(v, fs, level0);
    forall l | 0 <= l < |v.levels| ensures B.Ordered(w.levels[l]) && B.Files(w.levels[l]) == After(v, e, l) {
      LevelsOrdered(w, l);
      AddsMembers(0, fs, l);
      assert B.DeletedAt(e, l) == {};
    }
    OneEdit(v, e, w);
  }

  lemma BothApply(base: Version, v: Version, fs: seq<File>)
    requires Empty(base) && |base.levels| == |v.levels| && WellFormed(v) && UniqueNumbers(v) && Listed(v)
    requires S.NewFiles(v, fs) && DistinctNumbers(fs)
    ensures B.Manifest(base, [SnapshotEdit(v), RecoveryEdit(fs)])
  {
    var e1, e2 := SnapshotEdit(v), RecoveryEdit(fs);
    SnapshotIsLogged(base, v);
    assert [e1, e2][..1] == [e1] && [e1][..0] == [];
    assert B.EditOk(e2, |base.levels|);
    forall l | 0 <= l < |base.levels| ensures B.NoReadd(B.Files(base.levels[l]), [e1, e2], l) {
      SnapshotAt(v, |v.levels|, l);
      AddsMembers(0, fs, l);
      forall f, g | f in B.AddedAt(e2, l) && g in B.Files(base.levels[l]) + B.AccumulateAll([e1], l).added ensures f.number != g.number {
        assert InLevel(v, l, g);
      }
    }
  }

  // ----- the engine from there on -----

  /** The engine as it starts: empty memtables over the version. */
  ghost function Started(s: S.Store): Db
    requires s.db.Up?
  {
    Db([], NoImm, s.v, s.db.m.lastSequence, [], s.db.m.nextFile, Idle, VersionElems(s.v))
  }

  lemma StartedOk(mod: nat, s: S.Store)
    requires S.Inv(mod, s) && s.db.Up?
    ensures Inv(Started(s)) && History(Started(s)) == D.Present(s.db.disk)
    ensures Started(s).version == s.v && Started(s).lastSequence == s.db.m.lastSequence && Started(s).nextFile == s.db.m.nextFile
    ensures Started(s).snapshots == [] && Started(s).job.Idle?
  {
    S.MirrorPresent(s.db.disk, s.v);
    VersionGet.VersionDistinct(s.v);
    assert VersionElems(s.v) <= D.LiveEntries(s.db.disk);
  }

  lemma InUse(d: Db, l: nat, f: File)
    requires NumbersOk(d) && InLevel(d.version, l, f)
    ensures AddedBefore(d, l, f.number)
  {
  }

  lemma BothAdded(e1: B.VersionEdit, e2: B.VersionEdit, l: nat)
    ensures B.AccumulateAll([e1, e2], l).added == B.AddedAt(e1, l) + B.AddedAt(e2, l)
  {
    assert [e1, e2][..1] == [e1] && [e1][..0] == [];
    assert B.AccumulateAll([e1], l).added == {} + B.AddedAt(e1, l);
  }

  lemma UsedBefore(d: Db, v: Version, fs: seq<File>, level0: seq<File>)
    requires NumbersOk(d) && |v.levels| > 0 && S.Joined(v.levels[0], fs, level0) && d.version == S.WithLevel0(v, level0)
    ensures AllBefore(d, [SnapshotEdit(v), RecoveryEdit(fs)])
  {
    forall l: nat, f | f in B.AccumulateAll([SnapshotEdit(v), RecoveryEdit(fs)], l).added ensures AddedBefore(d, l, f.number) {
      BothAdded(SnapshotEdit(v), RecoveryEdit(fs), l);
      SnapshotAt(v, |v.levels|, l);
      AddsMembers(0, fs, l);
      S.JoinedFiles(v, fs, level0, l, f);
      InUse(d, l, f);
    }
  }

  lemma BeginIsLogged(d: Db, v: Version, fs: seq<File>, level0: seq<File>)
    requires WellFormed(v) && UniqueNumbers(v) && Listed(v) && S.NewFiles(v, fs) && DistinctNumbers(fs)
    requires NumbersOk(d) && S.Joined(v.levels[0], fs, level0) && d.version == S.WithLevel0(v, level0)
    ensures Logged(S.EMPTY, d, [SnapshotEdit(v), RecoveryEdit(fs)])
  {
    BothApply(S.EMPTY, v, fs);
    SnapshotIsLogged(S.EMPTY, v);
    RecoveryIsLogged(v, fs, level0);
    OneMoreEdit(S.EMPTY, [SnapshotEdit(v)], RecoveryEdit(fs), v, d.version);
    assert [SnapshotEdit(v)] + [RecoveryEdit(fs)] == [SnapshotEdit(v), RecoveryEdit(fs)];
    UsedBefore(d, v, fs, level0);
  }

  /** Opening after a crash: the engine starts in a good state, and the new manifest
      describes its version, so that RunsAreLogged and RecoverVersion hold of all that
      follows. */
  lemma OpenIsLogged(mod: nat, s: S.Store, fs: seq<File>, level0: seq<File>)
    requires S.Inv(mod, s) && S.Enabled(mod, s, S.Open(fs, level0))
    ensures var d := Started(S.Next(mod, s, S.Open(fs, level0)));
            Inv(d) && Logged(S.EMPTY, d, [SnapshotEdit(s.v), RecoveryEdit(fs)])
  {
    S.StepKeeps(mod, s, S.Open(fs, level0));
    StartedOk(mod, S.Next(mod, s, S.Open(fs, level0)));
    S.OpenFiles(mod, s, fs, level0);
    BeginIsLogged(Started(S.Next(mod, s, S.Open(fs, level0))), s.v, fs, level0);
  }
}
