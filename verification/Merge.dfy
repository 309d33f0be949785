/** Sorted insertion: the memtable's effect, and the merged input stream. */
module Merge {
  import opened InternalKeys
  import opened Versions
  import opened Drop

  function InsertEntry(es: seq<Entry>, e: Entry): (r: seq<Entry>)
    ensures forall x :: x in r <==> x == e || x in es
  {
    if es == [] || Lt(e.ik, es[0].ik) then [e] + es
    else
      assert es == [es[0]] + es[1..];
      [es[0]] + InsertEntry(es[1..], e)
  }

  lemma {:induction false} InsertSorted(es: seq<Entry>, e: Entry)
    requires Sorted(es) && forall x :: x in es ==> x.ik != e.ik
    ensures Sorted(InsertEntry(es, e))
  {
    if es != [] && !Lt(e.ik, es[0].ik) {
      assert forall x :: x in es[1..] ==> x in es && Lt(es[0].ik, x.ik);
      InsertSorted(es[1..], e);
      var r := InsertEntry(es[1..], e);
      assert forall i :: 0 <= i < |r| ==> r[i] in r;
    }
  }

  function InsertAll(es: seq<Entry>, batch: seq<Entry>): (r: seq<Entry>)
    ensures forall x :: x in r <==> x in es || x in batch
    decreases |batch|
  {
    if batch == [] then es
    else
      assert batch == [batch[0]] + batch[1..];
      InsertAll(InsertEntry(es, batch[0]), batch[1..])
  }

  /** No key of the batch is in the list, and none is in the batch twice. */
  ghost predicate FreshKeys(es: seq<Entry>, batch: seq<Entry>) {
    && (forall x, y :: x in es && y in batch ==> x.ik != y.ik)
    && (forall i, j :: 0 <= i < j < |batch| ==> batch[i].ik != batch[j].ik)
  }

  lemma {:induction false} InsertAllSorted(es: seq<Entry>, batch: seq<Entry>)
    requires Sorted(es) && FreshKeys(es, batch)
    ensures Sorted(InsertAll(es, batch))
    decreases |batch|
  {
    if batch != [] {
      InsertSorted(es, batch[0]);
      assert forall y :: y in batch[1..] ==> y in batch && y.ik != batch[0].ik;
      InsertAllSorted(InsertEntry(es, batch[0]), batch[1..]);
    }
  }

  // ----- tables from the output stream -----

  function ToFile(number: nat, size: nat, es: seq<Entry>): File
    requires es != []
  {
    File(number, size, es[0].ik, es[|es| - 1].ik, es)
  }

  function ToFiles(tables: seq<seq<Entry>>, first: nat, sizes: nat -> nat): (fs: seq<File>)
    requires NoEmptyTable(tables)
    ensures |fs| == |tables|
    ensures forall i :: 0 <= i < |fs| ==> fs[i] == ToFile(first + i, sizes(i), tables[i])
  {
    seq(|tables|, i requires 0 <= i < |tables| => ToFile(first + i, sizes(i), tables[i]))
  }

  lemma {:induction false} FlattenMembers(tables: seq<seq<Entry>>)
    ensures forall e :: e in Flatten(tables) <==> exists i :: 0 <= i < |tables| && e in tables[i]
  {
    if tables != [] {
      FlattenMembers(tables[..|tables| - 1]);
    }
  }

  ghost predicate InOrder(tables: seq<seq<Entry>>) {
    && (forall i :: 0 <= i < |tables| ==> Sorted(tables[i]))
    && (forall i, j, x, y :: 0 <= i < j < |tables| && x in tables[i] && y in tables[j] ==> Lt(x.ik, y.ik))
  }

  lemma {:induction false} FlattenSorted(tables: seq<seq<Entry>>)
    requires Sorted(Flatten(tables))
    ensures InOrder(tables)
  {
    if tables != [] {
      var n := |tables| - 1;
      var front, last := Flatten(tables[..n]), tables[n];
      PartsSorted(front, last);
      FlattenSorted(tables[..n]);
      FlattenMembers(tables[..n]);
      forall i, x, y | 0 <= i < n && x in tables[i] && y in last ensures Lt(x.ik, y.ik) {
        assert x in tables[..n][i];
        CrossSorted(front, last, x, y);
      }
    }
  }

  lemma PartsSorted(front: seq<Entry>, last: seq<Entry>)
    requires Sorted(front + last)
    ensures Sorted(front) && Sorted(last)
  {
    assert forall i :: 0 <= i < |front| ==> front[i] == (front + last)[i];
    assert forall i :: 0 <= i < |last| ==> last[i] == (front + last)[|front| + i];
  }

  lemma CrossSorted(front: seq<Entry>, last: seq<Entry>, x: Entry, y: Entry)
    requires Sorted(front + last) && x in front && y in last
    ensures Lt(x.ik, y.ik)
  {
    var a :| 0 <= a < |front| && front[a] == x;
    var b :| 0 <= b < |last| && last[b] == y;
    assert (front + last)[a] == x && (front + last)[|front| + b] == y;
  }

  lemma ToFileValid(number: nat, size: nat, es: seq<Entry>)
    requires es != [] && Sorted(es)
    ensures ToFile(number, size, es).Valid() && ToFile(number, size, es).RangeOk()
  {
    EntryBounds(ToFile(number, size, es), es[0]);
  }

  /** However the sizing rules cut the stream, the tables form a sorted level. */
  lemma TablesFormLevel(tables: seq<seq<Entry>>, first: nat, sizes: nat -> nat)
    requires NoEmptyTable(tables) && Sorted(Flatten(tables))
    ensures SortedLevel(ToFiles(tables, first, sizes))
  {
    FlattenSorted(tables);
    var fs := ToFiles(tables, first, sizes);
    forall i | 0 <= i < |fs| ensures fs[i].Valid() && fs[i].RangeOk() {
      ToFileValid(first + i, sizes(i), tables[i]);
    }
    forall i, j | 0 <= i < j < |fs| ensures Lt(fs[i].largest, fs[j].smallest) {
      var x, y := tables[i][|tables[i]| - 1], tables[j][0];
      assert x in tables[i] && y in tables[j];
    }
  }

  lemma TablesElems(tables: seq<seq<Entry>>, first: nat, sizes: nat -> nat)
    requires NoEmptyTable(tables)
    ensures FilesElems(ToFiles(tables, first, sizes)) == Elems(Flatten(tables))
  {
    FlattenMembers(tables);
    var fs := ToFiles(tables, first, sizes);
    forall e | e in FilesElems(fs) ensures e in Elems(Flatten(tables)) {
      var i :| 0 <= i < |fs| && e in fs[i].entries;
      assert e in tables[i];
    }
    forall e | e in Elems(Flatten(tables)) ensures e in FilesElems(fs) {
      var i :| 0 <= i < |tables| && e in tables[i];
      assert fs[i] in fs && e in fs[i].entries;
    }
  }
}
