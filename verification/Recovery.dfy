/** Replaying the logs when a database is opened (db/db_impl.cc, Recover and
    RecoverLogFile). The records are those log::Reader returns. */
module Recovery {
  import opened InternalKeys
  import opened Durability
  import opened DurabilityRuns

  /** Whether a memtable has outgrown the write buffer; an empty one never has. */
  type Budget = seq<Batch> -> bool

  ghost predicate IsBudget(full: Budget) {
    forall bs :: full(bs) ==> EntriesOf(bs) != {}
  }

  /** A record that log::Reader returns: shorter than a batch header, or a batch. */
  datatype Record = Short | Whole(batch: Batch)

  /** The batches among the first n records. */
  function Wholes(rs: seq<Record>, n: nat): seq<Batch>
    requires n <= |rs|
  {
    if n == 0 then [] else Wholes(rs, n - 1) + if rs[n - 1].Whole? then [rs[n - 1].batch] else []
  }

  /** The batches still in the memtable after n records. */
  function Tail(full: Budget, rs: seq<Record>, n: nat): seq<Batch>
    requires n <= |rs|
  {
    if n == 0 then []
    else
      var mem := Tail(full, rs, n - 1);
      if rs[n - 1].Short? then mem
      else if full(mem + [rs[n - 1].batch]) then []
      else mem + [rs[n - 1].batch]
  }

  /** The last memtable of the log exists but holds no entry. */
  predicate EndsEmpty(full: Budget, rs: seq<Record>) {
    Tail(full, rs, |rs|) != [] && EntriesOf(Tail(full, rs, |rs|)) == {}
  }

  /** A log as its records. */
  function Records(bs: seq<Batch>): seq<Record> {
    seq(|bs|, i requires 0 <= i < |bs| => Whole(bs[i]))
  }

  lemma {:induction false} RecordsWhole(bs: seq<Batch>, n: nat)
    requires n <= |bs|
    ensures Wholes(Records(bs), n) == bs[..n]
  {
    if n > 0 {
      RecordsWhole(bs, n - 1);
      assert bs[..n] == bs[..n - 1] + [bs[n - 1]];
    }
  }

  lemma {:induction false} WholesPrefix(rs: seq<Record>, i: nat, j: nat)
    requires i <= j <= |rs|
    ensures Wholes(rs, i) <= Wholes(rs, j)
  {
    if i < j { WholesPrefix(rs, i, j - 1); }
  }

  function UnionOf(ts: seq<set<Entry>>): set<Entry> {
    set t, e | t in ts && e in t :: e
  }

  lemma UnionGrows(ts: seq<set<Entry>>, t: set<Entry>)
    ensures UnionOf(ts + [t]) == UnionOf(ts) + t
  {
    assert t in ts + [t];
    forall e | e in UnionOf(ts) ensures e in UnionOf(ts + [t]) {
      var u :| u in ts && e in u;
      assert u in ts + [t];
    }
  }

  /** An empty memtable makes an empty table, which is an error. */
  method WriteLevel0Table(mem: seq<Batch>) returns (ok: bool, table: set<Entry>)
    ensures ok <==> EntriesOf(mem) != {}
    ensures ok ==> table == EntriesOf(mem)
  {
    table := EntriesOf(mem);
    ok := table != {};
  }

  /** Tables written one after the other hold newer and newer entries. */
  ghost predicate Stacked(ts: seq<set<Entry>>) {
    && (forall t :: t in ts ==> t != {})
    && (forall i, j :: 0 <= i < j < |ts| ==> Older(ts[i], ts[j]))
  }

  lemma StackMore(ts: seq<set<Entry>>, t: set<Entry>)
    requires Stacked(ts) && t != {} && Older(UnionOf(ts), t)
    ensures Stacked(ts + [t])
  {
    forall i | 0 <= i < |ts| ensures Older(ts[i], t) {
      assert ts[i] in ts;
    }
  }

  /** A further batch goes into the memtable. */
  lemma NextBatch(done: seq<Batch>, b: Batch, mem: seq<Batch>, tables: seq<set<Entry>>)
    requires UnionOf(tables) + EntriesOf(mem) == EntriesOf(done)
    ensures EntriesOf(done + [b]) == EntriesOf(done) + Entries(b)
    ensures UnionOf(tables) + EntriesOf(mem + [b]) == EntriesOf(done + [b])
    ensures Older(UnionOf(tables), EntriesOf(mem)) && Ascending(done + [b]) ==> Older(UnionOf(tables), EntriesOf(mem + [b]))
  {
    EntriesConcat(done, [b]);
    EntriesConcat(mem, [b]);
    EntriesOne(b);
    if Ascending(done + [b]) {
      SplitBatches(done + [b], |done|);
      assert (done + [b])[..|done|] == done && (done + [b])[|done|..] == [b];
    }
  }

  /** What the tables and the memtable together have after the first n records. */
  ghost predicate Holds(tables: seq<set<Entry>>, mem: seq<Batch>, rs: seq<Record>, n: nat)
    requires n <= |rs|
  {
    && UnionOf(tables) + EntriesOf(mem) == EntriesOf(Wholes(rs, n))
    && (forall t :: t in tables ==> t != {})
    && (Ascending(Wholes(rs, |rs|)) ==> Stacked(tables) && Older(UnionOf(tables), EntriesOf(mem)))
  }

  lemma HoldsNext(tables: seq<set<Entry>>, mem: seq<Batch>, rs: seq<Record>, n: nat)
    requires n < |rs| && Holds(tables, mem, rs, n) && rs[n].Whole?
    ensures Holds(tables, mem + [rs[n].batch], rs, n + 1)
    ensures EntriesOf(Wholes(rs, n + 1)) == EntriesOf(Wholes(rs, n)) + Entries(rs[n].batch)
  {
    WholesPrefix(rs, n + 1, |rs|);
    NextBatch(Wholes(rs, n), rs[n].batch, mem, tables);
  }

  lemma HoldsWritten(tables: seq<set<Entry>>, mem: seq<Batch>, rs: seq<Record>, n: nat)
    requires n <= |rs| && Holds(tables, mem, rs, n) && EntriesOf(mem) != {}
    ensures Holds(tables + [EntriesOf(mem)], [], rs, n)
  {
    UnionGrows(tables, EntriesOf(mem));
    EntriesNone();
    if Ascending(Wholes(rs, |rs|)) { StackMore(tables, EntriesOf(mem)); }
  }

  /** The tables written after n records. */
  function TablesTo(full: Budget, rs: seq<Record>, n: nat): seq<set<Entry>>
    requires n <= |rs|
  {
    if n == 0 then []
    else
      var ts := TablesTo(full, rs, n - 1);
      if rs[n - 1].Short? then ts
      else
        var mem := Tail(full, rs, n - 1) + [rs[n - 1].batch];
        if full(mem) then ts + [EntriesOf(mem)] else ts
  }

  // ----- where the tables are cut -----

  /** The batches fill the write buffer with the last of them. */
  ghost predicate Filled(full: Budget, bs: seq<Batch>) {
    bs != [] && full(bs) && forall k :: 0 < k < |bs| ==> !full(bs[..k])
  }

  ghost predicate Room(full: Budget, bs: seq<Batch>) {
    forall k :: 0 < k <= |bs| ==> !full(bs[..k])
  }

  function Flat(chunks: seq<seq<Batch>>): seq<Batch> {
    if chunks == [] then [] else Flat(chunks[..|chunks| - 1]) + chunks[|chunks| - 1]
  }

  /** One table for each chunk. */
  ghost predicate AreTables(tables: seq<set<Entry>>, chunks: seq<seq<Batch>>) {
    |tables| == |chunks| && forall i :: 0 <= i < |tables| ==> tables[i] == EntriesOf(chunks[i])
  }

  /** The batches in order, cut after each that fills the write buffer. */
  ghost predicate Cuts(full: Budget, bs: seq<Batch>, chunks: seq<seq<Batch>>, tail: seq<Batch>) {
    Flat(chunks) + tail == bs && (forall i :: 0 <= i < |chunks| ==> Filled(full, chunks[i])) && Room(full, tail)
  }

  lemma CutsMore(full: Budget, bs: seq<Batch>, chunks: seq<seq<Batch>>, tail: seq<Batch>, b: Batch)
    requires Cuts(full, bs, chunks, tail)
    ensures full(tail + [b]) ==> Cuts(full, bs + [b], chunks + [tail + [b]], [])
    ensures !full(tail + [b]) ==> Cuts(full, bs + [b], chunks, tail + [b])
  {
    var more := tail + [b];
    forall k | 0 < k < |more| ensures !full(more[..k]) {
      assert more[..k] == tail[..k];
    }
    assert more[..|more|] == more;
    if full(more) {
      assert (chunks + [more])[..|chunks|] == chunks;
      assert Flat(chunks + [more]) + [] == bs + [b];
    } else {
      assert Flat(chunks) + more == bs + [b];
    }
  }

  lemma {:induction false} CutsAt(full: Budget, rs: seq<Record>, n: nat) returns (chunks: seq<seq<Batch>>)
    requires n <= |rs|
    ensures Cuts(full, Wholes(rs, n), chunks, Tail(full, rs, n)) && AreTables(TablesTo(full, rs, n), chunks)
  {
    if n == 0 {
      chunks := [];
    } else {
      chunks := CutsAt(full, rs, n - 1);
      if rs[n - 1].Whole? {
        var mem := Tail(full, rs, n - 1);
        CutsMore(full, Wholes(rs, n - 1), chunks, mem, rs[n - 1].batch);
        if full(mem + [rs[n - 1].batch]) { chunks := chunks + [mem + [rs[n - 1].batch]]; }
      }
    }
  }

  /** The tables of a log: one for each chunk, and one for what is left at the end. */
  ghost predicate CutInto(full: Budget, bs: seq<Batch>, tables: seq<set<Entry>>) {
    exists chunks, tail :: Cuts(full, bs, chunks, tail) && AreTables(tables, WithTail(chunks, tail))
  }

  function WithTail(chunks: seq<seq<Batch>>, tail: seq<Batch>): seq<seq<Batch>> {
    if tail == [] then chunks else chunks + [tail]
  }

  lemma TailTable(tables: seq<set<Entry>>, chunks: seq<seq<Batch>>, tail: seq<Batch>)
    requires AreTables(tables, chunks)
    ensures AreTables(if tail == [] then tables else tables + [EntriesOf(tail)], WithTail(chunks, tail))
  {
  }

  lemma LastTable(full: Budget, rs: seq<Record>, tables: seq<set<Entry>>)
    requires var tail := Tail(full, rs, |rs|);
             tables == if tail == [] then TablesTo(full, rs, |rs|) else TablesTo(full, rs, |rs|) + [EntriesOf(tail)]
    ensures CutInto(full, Wholes(rs, |rs|), tables)
  {
    var chunks := CutsAt(full, rs, |rs|);
    var tail := Tail(full, rs, |rs|);
    TailTable(TablesTo(full, rs, |rs|), chunks, tail);
  }

  /** The largest sequence number after n records. */
  function LastTo(rs: seq<Record>, n: nat, first: nat): nat
    requires n <= |rs|
  {
    if n == 0 then first
    else
      var last := LastTo(rs, n - 1, first);
      if rs[n - 1].Short? then last else Later(last, rs[n - 1].batch)
  }

  function Later(last: nat, b: Batch): nat {
    if b.first + |b.ops| - 1 > last then b.first + |b.ops| - 1 else last
  }

  /** The largest sequence number of the batches, from `first` on. */
  ghost predicate Tops(bs: seq<Batch>, first: nat, last: nat) {
    && first <= last && (forall b :: b in bs ==> LastOf(b) <= last)
    && (last == first || exists b :: b in bs && LastOf(b) == last)
  }

  lemma {:induction false} LastTops(rs: seq<Record>, n: nat, first: nat)
    requires n <= |rs|
    ensures Tops(Wholes(rs, n), first, LastTo(rs, n, first))
  {
    if n > 0 {
      LastTops(rs, n - 1, first);
      if rs[n - 1].Whole? { TopsMore(Wholes(rs, n - 1), first, LastTo(rs, n - 1, first), rs[n - 1].batch); }
    }
  }

  lemma TopsMore(bs: seq<Batch>, first: nat, last: nat, b: Batch)
    requires Tops(bs, first, last)
    ensures Tops(bs + [b], first, Later(last, b))
  {
    if LastOf(b) > last {
      assert b in bs + [b];
    } else if last != first {
      var c :| c in bs && LastOf(c) == last;
      assert c in bs + [b];
    }
  }

  lemma {:induction false} HoldsAt(full: Budget, rs: seq<Record>, n: nat)
    requires IsBudget(full) && n <= |rs|
    ensures Holds(TablesTo(full, rs, n), Tail(full, rs, n), rs, n)
  {
    if n == 0 {
      EntriesNone();
    } else {
      HoldsAt(full, rs, n - 1);
      HoldsStep(full, rs, n - 1);
    }
  }

  lemma HoldsStep(full: Budget, rs: seq<Record>, n: nat)
    requires IsBudget(full) && n < |rs| && Holds(TablesTo(full, rs, n), Tail(full, rs, n), rs, n)
    ensures Holds(TablesTo(full, rs, n + 1), Tail(full, rs, n + 1), rs, n + 1)
  {
    var tables, mem := TablesTo(full, rs, n), Tail(full, rs, n);
    if rs[n].Short? {
      HoldsShort(tables, mem, rs, n);
    } else {
      var more := mem + [rs[n].batch];
      if full(more) { HoldsFull(tables, mem, rs, n, more); } else { HoldsNext(tables, mem, rs, n); }
    }
  }

  lemma HoldsFull(tables: seq<set<Entry>>, mem: seq<Batch>, rs: seq<Record>, n: nat, more: seq<Batch>)
    requires n < |rs| && rs[n].Whole? && Holds(tables, mem, rs, n) && more == mem + [rs[n].batch] && EntriesOf(more) != {}
    ensures Holds(tables + [EntriesOf(more)], [], rs, n + 1)
  {
    HoldsNext(tables, mem, rs, n);
    HoldsWritten(tables, more, rs, n + 1);
  }

  lemma HoldsShort(tables: seq<set<Entry>>, mem: seq<Batch>, rs: seq<Record>, n: nat)
    requires n < |rs| && Holds(tables, mem, rs, n) && rs[n].Short?
    ensures Holds(tables, mem, rs, n + 1)
  {
    assert Wholes(rs, n + 1) == Wholes(rs, n);
  }

  lemma {:induction false} LastCovers(rs: seq<Record>, n: nat, first: nat)
    requires n <= |rs|
    ensures first <= LastTo(rs, n, first)
    ensures forall e :: e in EntriesOf(Wholes(rs, n)) ==> e.ik.sn <= LastTo(rs, n, first)
  {
    if n == 0 {
      EntriesNone();
    } else {
      LastCovers(rs, n - 1, first);
      if rs[n - 1].Whole? {
        EntriesConcat(Wholes(rs, n - 1), [rs[n - 1].batch]);
        EntriesOne(rs[n - 1].batch);
      }
    }
  }

  /** Reads the records into memtables and tables. Those too short for a batch are passed
      over, unless paranoid_checks makes them an error. */
  method ReplayRecords(full: Budget, paranoid: bool, rs: seq<Record>, maxSequence: nat)
    returns (ok: bool, mem: seq<Batch>, tables: seq<set<Entry>>, last: nat)
    requires IsBudget(full)
    ensures ok <==> !(paranoid && Short in rs)
    ensures ok ==> mem == Tail(full, rs, |rs|) && tables == TablesTo(full, rs, |rs|) && last == LastTo(rs, |rs|, maxSequence)
  {
    ok, mem, tables, last := true, [], [], maxSequence;
    var i := 0;
    while i < |rs|
      invariant i <= |rs|
      invariant mem == Tail(full, rs, i) && tables == TablesTo(full, rs, i) && last == LastTo(rs, i, maxSequence)
      invariant forall k :: 0 <= k < i ==> !(paranoid && rs[k].Short?)
    {
      if rs[i].Short? {
        if paranoid { return false, mem, tables, last; }
      } else {
        mem := mem + [rs[i].batch];
        last := Later(last, rs[i].batch);
        if full(mem) {
          var _, table := WriteLevel0Table(mem);
          mem, tables := [], tables + [table];
        }
      }
      i := i + 1;
    }
  }

  /** Reads one log into tables. */
  method RecoverLogFile(full: Budget, paranoid: bool, rs: seq<Record>, maxSequence: nat)
    returns (ok: bool, tables: seq<set<Entry>>, last: nat)
    requires IsBudget(full)
    ensures ok <==> !(paranoid && Short in rs) && !EndsEmpty(full, rs)
    ensures ok ==> UnionOf(tables) == EntriesOf(Wholes(rs, |rs|)) && forall t :: t in tables ==> t != {}
    ensures ok ==> CutInto(full, Wholes(rs, |rs|), tables)
    ensures ok && Ascending(Wholes(rs, |rs|)) ==> Stacked(tables)
    ensures ok ==> Tops(Wholes(rs, |rs|), maxSequence, last)
    ensures ok ==> forall e :: e in EntriesOf(Wholes(rs, |rs|)) ==> e.ik.sn <= last
  {
    var mem;
    ok, mem, tables, last := ReplayRecords(full, paranoid, rs, maxSequence);
    if ok {
      HoldsAt(full, rs, |rs|);
      LastCovers(rs, |rs|, maxSequence);
      LastTops(rs, |rs|, maxSequence);
      if mem != [] {
        var table;
        ok, table := WriteLevel0Table(mem);
        if ok {
          HoldsWritten(tables, mem, rs, |rs|);
          tables := tables + [table];
        }
      }
      if ok {
        AllInTables(rs, tables);
        LastTable(full, rs, tables);
      }
    }
  }

  lemma AllInTables(rs: seq<Record>, tables: seq<set<Entry>>)
    requires Holds(tables, [], rs, |rs|)
    ensures UnionOf(tables) == EntriesOf(Wholes(rs, |rs|)) && forall t :: t in tables ==> t != {}
    ensures Ascending(Wholes(rs, |rs|)) ==> Stacked(tables)
  {
    EntriesNone();
  }

  // ----- all the logs -----

  predicate Increasing(ns: seq<nat>) {
    forall i, j :: 0 <= i < j < |ns| ==> ns[i] < ns[j]
  }

  lemma {:induction false} LeastExists(ns: set<nat>) returns (n: nat)
    requires ns != {}
    ensures n in ns && forall k :: k in ns ==> n <= k
  {
    var m :| m in ns;
    if ns == {m} {
      n := m;
    } else {
      var r := LeastExists(ns - {m});
      n := if m < r then m else r;
      assert forall k :: k in ns ==> k == m || k in ns - {m};
    }
  }

  /** std::sort over the numbers found in the directory. */
  method SortNumbers(numbers: set<nat>) returns (ns: seq<nat>)
    ensures Increasing(ns) && forall n :: n in ns <==> n in numbers
  {
    ns := [];
    var rest := numbers;
    while rest != {}
      invariant Increasing(ns) && rest <= numbers
      invariant forall n :: n in ns || n in rest <==> n in numbers
      invariant forall i, k :: 0 <= i < |ns| && k in rest ==> ns[i] < k
      decreases |rest|
    {
      ghost var least := LeastExists(rest);
      var n :| n in rest && forall k :: k in rest ==> n <= k;
      ns, rest := ns + [n], rest - {n};
    }
  }

  /** Gives the tables the numbers from `next` on. */
  method Number(tables: map<nat, set<Entry>>, added: seq<set<Entry>>, next: nat) returns (all: map<nat, set<Entry>>, free: nat)
    requires forall n :: n in tables ==> n < next
    ensures free == next + |added| && all == Numbered(tables, added, next, |added|)
    ensures forall n :: n in all <==> n in tables || next <= n < free
    ensures TableEntries(all) == TableEntries(tables) + UnionOf(added)
  {
    all, free := tables, next;
    var i := 0;
    while i < |added|
      invariant i <= |added| && free == next + i && all == Numbered(tables, added, next, i)
      invariant forall n :: n in all <==> n in tables || next <= n < free
      invariant TableEntries(all) == TableEntries(tables) + UnionOf(added[..i])
    {
      assert added[..i + 1] == added[..i] + [added[i]];
      UnionGrows(added[..i], added[i]);
      TableAdded(all, free, added[i]);
      all := all[free := added[i]];
      free := free + 1;
      i := i + 1;
    }
    assert added[..i] == added;
  }

  function Numbered(tables: map<nat, set<Entry>>, added: seq<set<Entry>>, next: nat, n: nat): map<nat, set<Entry>>
    requires n <= |added|
  {
    if n == 0 then tables else Numbered(tables, added, next, n - 1)[next + n - 1 := added[n - 1]]
  }

  lemma {:induction false} NumberedAt(tables: map<nat, set<Entry>>, added: seq<set<Entry>>, next: nat, n: nat)
    requires n <= |added| && forall k :: k in tables ==> k < next
    ensures var all := Numbered(tables, added, next, n);
            && (forall k :: k in all <==> k in tables || next <= k < next + n)
            && (forall k :: k in tables ==> all[k] == tables[k])
            && (forall i :: 0 <= i < n ==> all[next + i] == added[i])
  {
    if n > 0 { NumberedAt(tables, added, next, n - 1); }
  }

  lemma UnionHas(ts: seq<set<Entry>>, i: nat)
    requires i < |ts|
    ensures ts[i] <= UnionOf(ts)
  {
    assert ts[i] in ts;
  }

  lemma OlderParts(S: set<Entry>, T: set<Entry>, S': set<Entry>, T': set<Entry>)
    requires Older(S, T) && S' <= S && T' <= T
    ensures Older(S', T')
  {
  }

  lemma TableHas(tables: map<nat, set<Entry>>, k: nat)
    requires k in tables
    ensures tables[k] <= TableEntries(tables)
  {
  }

  /** Later tables over earlier ones: the numbers follow the age. */
  lemma NumberedAged(tables: map<nat, set<Entry>>, added: seq<set<Entry>>, next: nat)
    requires (forall k :: k in tables ==> k < next) && Aged(tables.Keys, tables)
    requires Stacked(added) && Older(TableEntries(tables), UnionOf(added))
    ensures var all := Numbered(tables, added, next, |added|); Aged(all.Keys, all)
  {
    var all := Numbered(tables, added, next, |added|);
    NumberedAt(tables, added, next, |added|);
    forall k | k in all ensures all[k] != {} {
      if k !in tables { assert all[k] == added[k - next] && added[k - next] in added; }
    }
    forall j, k | j in all && k in all && j < k ensures Older(all[j], all[k]) {
      if k !in tables {
        assert all[k] == added[k - next];
        if j in tables {
          TableHas(tables, j);
          UnionHas(added, k - next);
          OlderParts(TableEntries(tables), UnionOf(added), all[j], all[k]);
        } else {
          assert all[j] == added[j - next];
        }
      }
    }
  }

  lemma TableAdded(tables: map<nat, set<Entry>>, n: nat, t: set<Entry>)
    requires n !in tables
    ensures TableEntries(tables[n := t]) == TableEntries(tables) + t
  {
    var all := tables[n := t];
    forall e | e in TableEntries(tables) + t ensures e in TableEntries(all) {
      if e in t {
        assert n in all && e in all[n];
      } else {
        var k :| k in tables && e in tables[k];
        assert k in all && e in all[k];
      }
    }
  }

  ghost predicate Recovers(full: Budget, d: Disk) {
    forall n :: n in d.logs && n >= d.logNumber ==> !EndsEmpty(full, Records(d.logs[n].batches))
  }

  /** Nothing of the logs done so far is newer than the next one. */
  lemma OlderThanNext(d: Disk, logs: seq<nat>, i: nat, done: set<Entry>)
    requires LogsOrdered(d) && Needed(d, logs) && i < |logs|
    requires exists last :: Covered(d, logs, i, done, last)
    ensures Older(done, EntriesOf(d.logs[logs[i]].batches))
  {
    forall x, y | x in done && y in EntriesOf(d.logs[logs[i]].batches) ensures x.ik.sn < y.ik.sn {
      assert FromLogs(d, logs, i, x);
      var k :| 0 <= k < i && InLog(d, logs[k], x);
      assert logs[k] in logs && logs[i] in logs;
    }
  }

  /** The log is in order and newer than the tables there are. */
  ghost predicate Follows(d: Disk, n: nat, tables: map<nat, set<Entry>>)
    requires n in d.logs
  {
    && Ascending(d.logs[n].batches) && Aged(tables.Keys, tables)
    && Older(TableEntries(tables), EntriesOf(d.logs[n].batches))
  }

  /** One more log: its tables get the next numbers. */
  method RecoverNext(full: Budget, d: Disk, n: nat, tables: map<nat, set<Entry>>, next: nat, maxSequence: nat)
    returns (ok: bool, all: map<nat, set<Entry>>, free: nat, last: nat)
    requires IsBudget(full) && n in d.logs && forall k :: k in tables ==> k < next
    ensures ok <==> !EndsEmpty(full, Records(d.logs[n].batches))
    ensures !ok ==> all == tables && free == next
    ensures ok ==> TableEntries(all) == TableEntries(tables) + EntriesOf(d.logs[n].batches)
    ensures ok && Follows(d, n, tables) ==> Aged(all.Keys, all)
    ensures next <= free && forall k :: k in all ==> k in tables || next <= k < free
    ensures forall k :: k in tables || next <= k < free ==> k in all
    ensures ok ==> Tops(d.logs[n].batches, maxSequence, last)
    ensures ok ==> forall e :: e in EntriesOf(d.logs[n].batches) ==> e.ik.sn <= last
  {
    var bs := d.logs[n].batches;
    RecordsWhole(bs, |bs|);
    assert bs[..|bs|] == bs;
    var added;
    ok, added, last := RecoverLogFile(full, false, Records(bs), maxSequence);
    if !ok { return false, tables, next, last; }
    all, free := Number(tables, added, next);
    if Follows(d, n, tables) {
      NumberedAged(tables, added, next);
    }
  }

  /** The logs to replay, oldest first. */
  ghost predicate Needed(d: Disk, logs: seq<nat>) {
    Increasing(logs) && forall n :: n in logs <==> n in d.logs && n >= d.logNumber
  }

  /** S is what the first i logs hold, up to sequence number last. */
  ghost predicate Covered(d: Disk, logs: seq<nat>, i: nat, S: set<Entry>, last: nat)
    requires i <= |logs|
  {
    && (forall k, e :: 0 <= k < i && InLog(d, logs[k], e) ==> e in S && e.ik.sn <= last)
    && (forall e :: e in S ==> FromLogs(d, logs, i, e))
  }

  ghost predicate FromLogs(d: Disk, logs: seq<nat>, i: nat, e: Entry)
    requires i <= |logs|
  {
    exists k :: 0 <= k < i && InLog(d, logs[k], e)
  }

  lemma CoveredMore(d: Disk, logs: seq<nat>, i: nat, S: set<Entry>, last: nat, T: set<Entry>, last': nat)
    requires i < |logs| && logs[i] in d.logs && logs[i] >= d.logNumber && Covered(d, logs, i, S, last) && last <= last'
    requires T == EntriesOf(d.logs[logs[i]].batches) && forall e :: e in T ==> e.ik.sn <= last'
    ensures Covered(d, logs, i + 1, S + T, last')
  {
    forall e | e in S + T ensures FromLogs(d, logs, i + 1, e) {
      if e in S {
        assert FromLogs(d, logs, i, e);
      } else {
        assert InLog(d, logs[i], e);
      }
    }
  }

  /** The largest number among the first i logs is last, and 0 if they are all empty. */
  ghost predicate Topmost(d: Disk, logs: seq<nat>, i: nat, last: nat)
    requires i <= |logs|
  {
    && (forall k, b :: 0 <= k < i && ToReplay(d, logs[k], b) ==> LastOf(b) <= last)
    && (last == 0 || exists k, b :: 0 <= k < i && ToReplay(d, logs[k], b) && LastOf(b) == last)
  }

  lemma TopmostMore(d: Disk, logs: seq<nat>, i: nat, last: nat, last': nat)
    requires i < |logs| && logs[i] in d.logs && logs[i] >= d.logNumber
    requires Topmost(d, logs, i, last) && Tops(d.logs[logs[i]].batches, last, last')
    ensures Topmost(d, logs, i + 1, last')
  {
    if last' != last {
      var b :| b in d.logs[logs[i]].batches && LastOf(b) == last';
      assert ToReplay(d, logs[i], b);
    } else if last != 0 {
      var k, b :| 0 <= k < i && ToReplay(d, logs[k], b) && LastOf(b) == last;
      assert ToReplay(d, logs[k], b) && LastOf(b) == last';
    }
  }

  lemma AllReached(d: Disk, logs: seq<nat>, last: nat)
    requires Needed(d, logs) && Topmost(d, logs, |logs|, last)
    ensures Reaches(d, if d.lastSequence < last then last else d.lastSequence)
  {
    forall n, b | ToReplay(d, n, b) ensures LastOf(b) <= last {
      assert n in logs;
      var k :| 0 <= k < |logs| && logs[k] == n;
    }
    if d.lastSequence < last {
      var k, b :| 0 <= k < |logs| && ToReplay(d, logs[k], b) && LastOf(b) == last;
      assert ToReplay(d, logs[k], b) && LastOf(b) == last;
    }
  }

  /** The first i logs have been replayed. */
  ghost predicate Done(full: Budget, d: Disk, logs: seq<nat>, i: nat, tables: map<nat, set<Entry>>, next: nat, last: nat) {
    && Needed(d, logs) && i <= |logs| && d.nextFile < next
    && (forall n :: n in tables ==> d.nextFile < n < next)
    && Covered(d, logs, i, TableEntries(tables), last) && Topmost(d, logs, i, last)
    && (LogsOrdered(d) ==> Aged(tables.Keys, tables))
    && Passed(full, d, logs, i, next) && NoGaps(d, tables, next)
  }

  /** None of the first i logs stands in the way, and their numbers are used up. */
  ghost predicate Passed(full: Budget, d: Disk, logs: seq<nat>, i: nat, next: nat) {
    i <= |logs| && forall k :: 0 <= k < i ==>
      logs[k] in d.logs && logs[k] < next && !EndsEmpty(full, Records(d.logs[logs[k]].batches))
  }

  /** No number is passed over but those up to a log that is replayed. */
  ghost predicate NoGaps(d: Disk, tables: map<nat, set<Entry>>, next: nat) {
    forall n :: d.nextFile < n < next && n !in tables ==> UpToLog(d, n)
  }

  ghost predicate UpToLog(d: Disk, n: nat) {
    exists k :: k in d.logs && k >= d.logNumber && n <= k
  }

  lemma NoGapsMore(d: Disk, tables: map<nat, set<Entry>>, next: nat, all: map<nat, set<Entry>>, next': nat, log: nat)
    requires NoGaps(d, tables, next) && log in d.logs && log >= d.logNumber
    requires forall k :: k in tables || (next <= k < next' && k > log) ==> k in all
    ensures NoGaps(d, all, next')
  {
    forall n | d.nextFile < n < next' && n !in all ensures UpToLog(d, n) {
      if n < next { assert UpToLog(d, n); } else { assert n <= log; }
    }
  }

  lemma PassedMore(full: Budget, d: Disk, logs: seq<nat>, i: nat, next: nat, next': nat)
    requires Passed(full, d, logs, i, next) && i < |logs| && next <= next'
    requires logs[i] in d.logs && logs[i] < next' && !EndsEmpty(full, Records(d.logs[logs[i]].batches))
    ensures Passed(full, d, logs, i + 1, next')
  {
  }

  /** The i-th log has been read into tables, the others are as before. */
  lemma DoneMore(full: Budget, d: Disk, logs: seq<nat>, i: nat, tables: map<nat, set<Entry>>, next: nat, last: nat,
                 all: map<nat, set<Entry>>, next': nat, last': nat)
    requires Done(full, d, logs, i, tables, next, last) && i < |logs| && logs[i] in d.logs
    requires TableEntries(all) == TableEntries(tables) + EntriesOf(d.logs[logs[i]].batches)
    requires next <= next' && logs[i] < next' && (forall n :: n in all ==> n in tables || next <= n < next')
    requires Tops(d.logs[logs[i]].batches, last, last') && forall e :: e in EntriesOf(d.logs[logs[i]].batches) ==> e.ik.sn <= last'
    requires LogsOrdered(d) ==> Aged(all.Keys, all)
    requires forall k :: k in tables || (next <= k < next' && k > logs[i]) ==> k in all
    requires !EndsEmpty(full, Records(d.logs[logs[i]].batches))
    ensures Done(full, d, logs, i + 1, all, next', last')
  {
    assert logs[i] in logs;
    PassedMore(full, d, logs, i, next, next');
    NoGapsMore(d, tables, next, all, next', logs[i]);
    CoveredMore(d, logs, i, TableEntries(tables), last, EntriesOf(d.logs[logs[i]].batches), last');
    TopmostMore(d, logs, i, last, last');
  }

  lemma AllDone(full: Budget, d: Disk, logs: seq<nat>, tables: map<nat, set<Entry>>, next: nat, last: nat, edit: Edit)
    requires DiskOk(d) && Done(full, d, logs, |logs|, tables, next, last)
    requires edit == Edit(next, tables.Keys, next + 1, if d.lastSequence < last then last else d.lastSequence)
    ensures Recovers(full, d) && Replays(d, edit, tables) && NoGaps(d, tables, edit.logNumber)
  {
    AllReached(d, logs, last);
    forall n | n in d.logs && n >= d.logNumber ensures n < next && !EndsEmpty(full, Records(d.logs[n].batches)) {
      assert n in logs;
    }
    forall n, e | InLog(d, n, e) ensures e in TableEntries(tables) && e.ik.sn <= last {
      assert n in logs;
    }
    forall e | e in TableEntries(tables) ensures e in LogEntries(d) {
      assert FromLogs(d, logs, |logs|, e);
    }
  }

  method LogsToReplay(d: Disk) returns (logs: seq<nat>)
    requires 0 !in d.logs
    ensures Needed(d, logs)
  {
    logs := SortNumbers(set n | n in d.logs && (n >= d.logNumber || n == 0));
  }

  lemma FirstDone(full: Budget, d: Disk, logs: seq<nat>)
    requires Needed(d, logs)
    ensures Done(full, d, logs, 0, map[], d.nextFile + 1, 0)
  {
  }

  /** The next log, after which its number counts as used. */
  method RecoverOne(full: Budget, d: Disk, logs: seq<nat>, i: nat, tables: map<nat, set<Entry>>, next: nat, last: nat)
    returns (ok: bool, all: map<nat, set<Entry>>, free: nat, last': nat)
    requires IsBudget(full) && i < |logs| && Done(full, d, logs, i, tables, next, last)
    ensures if ok then Done(full, d, logs, i + 1, all, free, last') else !Recovers(full, d) && all == tables
  {
    var n := logs[i];
    assert n in logs;
    if LogsOrdered(d) { OlderThanNext(d, logs, i, TableEntries(tables)); }
    ok, all, free, last' := RecoverNext(full, d, n, tables, next, last);
    if ok {
      if free <= n { free := n + 1; }
      DoneMore(full, d, logs, i, tables, next, last, all, free, last');
    }
  }

  method ReplayAll(full: Budget, d: Disk, logs: seq<nat>) returns (ok: bool, tables: map<nat, set<Entry>>, next: nat, last: nat)
    requires IsBudget(full) && Needed(d, logs)
    ensures if ok then Done(full, d, logs, |logs|, tables, next, last) else !Recovers(full, d)
    ensures forall n :: n in tables ==> n > d.nextFile
  {
    ok, tables, next, last := true, map[], d.nextFile + 1, 0; // d.nextFile is the new manifest's
    var i := 0;
    FirstDone(full, d, logs);
    while i < |logs|
      invariant Done(full, d, logs, i, tables, next, last)
    {
      ok, tables, next, last := RecoverOne(full, d, logs, i, tables, next, last);
      if !ok { return; }
      i := i + 1;
    }
    ok := true;
  }

  /** Replays every log the manifest asks for, oldest first. It succeeds exactly when no
      such log ends with a memtable that was created and stayed empty. */
  method Recover(full: Budget, d: Disk) returns (ok: bool, edit: Edit, tables: map<nat, set<Entry>>)
    requires IsBudget(full) && DiskOk(d)
    ensures ok <==> Recovers(full, d)
    ensures ok ==> Replays(d, edit, tables)
    ensures ok ==> edit.nextFile == edit.logNumber + 1 && NoGaps(d, tables, edit.logNumber)
    ensures forall n :: n in tables ==> n > d.nextFile
  {
    edit := Edit(0, {}, 0, 0);
    var logs := LogsToReplay(d);
    var next, last;
    ok, tables, next, last := ReplayAll(full, d, logs);
    if ok {
      edit := Edit(next, tables.Keys, next + 1, if d.lastSequence < last then last else d.lastSequence);
      AllDone(full, d, logs, tables, next, last, edit);
    }
  }

  /** Without empty batches the number is that of an entry in the logs, or the manifest's. */
  lemma LastIsAnEntry(d: Disk, last: nat)
    requires Reaches(d, last) && forall n, b :: ToReplay(d, n, b) ==> b.ops != []
    ensures last == d.lastSequence || exists e :: e in LogEntries(d) && e.ik.sn == last
  {
    if last != d.lastSequence {
      var n, b :| ToReplay(d, n, b) && LastOf(b) == last;
      var e := EntryAt(b, |b.ops| - 1);
      assert e in Entries(b) && InLog(d, n, e);
      assert e in LogEntries(d) && e.ik.sn == last;
    }
  }

  /** Without empty batches in the logs, opening always succeeds. */
  lemma {:induction false} TailHasEntries(full: Budget, rs: seq<Record>, n: nat)
    requires n <= |rs| && forall r :: r in rs && r.Whole? ==> r.batch.ops != []
    ensures forall b :: b in Tail(full, rs, n) ==> b.ops != []
  {
    if n > 0 {
      TailHasEntries(full, rs, n - 1);
      assert rs[n - 1] in rs;
    }
  }

  lemma NonEmptyBatchesRecover(full: Budget, d: Disk)
    requires forall n, b :: n in d.logs && b in d.logs[n].batches ==> b.ops != []
    ensures Recovers(full, d)
  {
    forall n | n in d.logs ensures !EndsEmpty(full, Records(d.logs[n].batches)) {
      var rs := Records(d.logs[n].batches);
      TailHasEntries(full, rs, |rs|);
      var tail := Tail(full, rs, |rs|);
      if tail != [] {
        assert EntryAt(tail[0], 0) in Entries(tail[0]);
        assert EntryAt(tail[0], 0) in EntriesOf(tail);
      }
    }
  }

  /** An empty batch alone in a log: the database cannot be opened again. */
  lemma EmptyBatchBlocksOpen(full: Budget, d: Disk, n: nat, first: nat)
    requires IsBudget(full) && n in d.logs && n >= d.logNumber && d.logs[n].batches == [Batch(first, [])]
    ensures !Recovers(full, d)
  {
    var b := Batch(first, []);
    var rs := Records([b]);
    EntriesOne(b);
    assert [] + [b] == [b] && !full([b]);
    assert Tail(full, rs, 0) == [];
    assert Tail(full, rs, 1) == [b];
  }

  const EMPTY: Batch := Batch(1, [])

  lemma EmptyWrite() returns (d3: Db, d4: Db)
    ensures Goes(0, OPENED, Append([], false), d3) && Goes(0, d3, Ack, d4)
    ensures d4.disk == OPENED.disk.(logs := map[3 := LogFile([EMPTY], 0)])
  {
    d3 := Apply(0, OPENED, Append([], false));
    d4 := Apply(0, d3, Ack);
    assert [] + [EMPTY] == [EMPTY];
  }

  lemma EmptyTrace() returns (dbs: seq<Db>, steps: seq<Step>)
    ensures Trace(0, dbs, steps) && dbs[0] == Fresh() && |steps| == 5
    ensures steps[2] == Append([], false) && steps[3] == Ack && steps[4] == Kill
    ensures dbs[5].Down? && dbs[5].disk == OPENED.disk.(logs := map[3 := LogFile([EMPTY], 0)])
  {
    var d1 := OpenFresh(0);
    var d3, d4 := EmptyWrite();
    steps := OPEN + [Append([], false), Ack, Kill];
    dbs := [Fresh(), d1, OPENED, d3, d4, Apply(0, d4, Kill)];
  }

  /** Two calls are enough to get there: open a new database, write an empty batch. */
  lemma EmptyBatchRun(full: Budget) returns (dbs: seq<Db>, steps: seq<Step>)
    requires IsBudget(full)
    ensures Trace(0, dbs, steps) && dbs[0] == Fresh() && |steps| == 5
    ensures steps[2] == Append([], false) && steps[3] == Ack && steps[4] == Kill
    ensures dbs[5].Down? && !Recovers(full, dbs[5].disk)
  {
    dbs, steps := EmptyTrace();
    EmptyBatchBlocksOpen(full, dbs[5].disk, 3, 1);
  }
}
