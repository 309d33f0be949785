/** Iterating over the database: what the iterator walks in any reachable state of the
    engine is the live part of everything ever written. */
module Scan {
  import opened InternalKeys
  import opened Engine
  import opened EngineRuns
  import Compaction
  import DbIter

  /** NewInternalIterator: memtables and tables merged into one sorted stream. */
  lemma HeldStream(d: Db) returns (es: seq<Entry>)
    requires Inv(d)
    ensures Sorted(es) && Elems(es) == Held(d)
  {
    HeldIsDistinct(d);
    es := Compaction.SortSet(Held(d));
  }

  /** A key is live for the iterator exactly when its newest entry in the history at the
      snapshot is a value. */
  lemma LiveIsHistory(d: Db, es: seq<Entry>, s: nat, k: UserKey, v: string)
    requires Inv(d) && Oldest(d) <= s && Elems(es) == Held(d)
    ensures DbIter.Live(es, s, k, v) <==> Visible(Look(History(d), k, s)) == Found(v)
  {
    HeldIsHistory(d, k, s);
  }

  /** A scan at a live snapshot returns the database as it was then: every key with a value
      once, in order. */
  method ScanAll(d: Db, es: seq<Entry>, s: nat) returns (r: seq<(UserKey, string)>)
    requires Inv(d) && Oldest(d) <= s && Sorted(es) && Elems(es) == Held(d)
    ensures DbIter.InKeyOrder(r)
    ensures forall k, v :: (k, v) in r <==> Visible(Look(History(d), k, s)) == Found(v)
  {
    r := DbIter.ScanAll(es, s);
    forall k, v ensures (k, v) in r <==> Visible(Look(History(d), k, s)) == Found(v) {
      LiveIsHistory(d, es, s, k, v);
    }
  }
}
