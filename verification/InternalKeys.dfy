/** Internal keys, entries and the reading rule (db/dbformat.cc, db/dbformat.h).

    User keys are integers: every definition below uses only their order, so an
    integer stands for any key of the comparator's total order. */
module InternalKeys {

  type UserKey = int

  datatype ValueType = TypeDeletion | TypeValue

  /** The searchable part of an internal key. The type byte is part of the stored
      tag but never decides a comparison, see TagOrder. */
  datatype IKey = IKey(user: UserKey, sn: nat)

  datatype Entry = Entry(ik: IKey, kind: ValueType, value: string)

  /** Increasing user key, then decreasing sequence number. */
  predicate Lt(a: IKey, b: IKey) {
    a.user < b.user || (a.user == b.user && a.sn > b.sn)
  }

  const MAX_SEQUENCE: nat := 0xff_ffff_ffff_ffff

  /** PackSequenceAndType */
  function Tag(sn: nat, kind: ValueType): nat {
    sn * 256 + if kind == TypeValue then 1 else 0
  }

  /** The comparator on 64-bit tags (db/dbformat.cc:18-42) */
  predicate TagLt(ua: UserKey, ta: nat, ub: UserKey, tb: nat) {
    ua < ub || (ua == ub && ta > tb)
  }

  /** A seek key carries the largest type byte, so tag order against a seek key,
      or between entries of distinct sequence numbers, is the order Lt. */
  lemma TagOrder(e: Entry, k: UserKey, s: nat, f: Entry)
    ensures TagLt(e.ik.user, Tag(e.ik.sn, e.kind), k, Tag(s, TypeValue)) <==> Lt(e.ik, IKey(k, s))
    ensures e.ik != f.ik ==>
              (TagLt(e.ik.user, Tag(e.ik.sn, e.kind), f.ik.user, Tag(f.ik.sn, f.kind)) <==> Lt(e.ik, f.ik))
  {
  }

  predicate Sorted(es: seq<Entry>) {
    forall i, j :: 0 <= i < j < |es| ==> Lt(es[i].ik, es[j].ik)
  }

  ghost function Elems(es: seq<Entry>): set<Entry> {
    set e | e in es
  }

  // ----- what a read at a snapshot must return -----

  datatype Outcome = Found(value: string) | Deleted | Missing

  function OutcomeOf(e: Entry): Outcome {
    if e.kind == TypeValue then Found(e.value) else Deleted
  }

  /** Readers cannot tell a deletion marker from an absent key. */
  function Visible(o: Outcome): Outcome {
    if o.Deleted? then Missing else o
  }

  /** e is an entry of user key k no newer than snapshot s. */
  predicate Covers(e: Entry, k: UserKey, s: nat) {
    e.ik.user == k && e.ik.sn <= s
  }

  ghost predicate Newest(S: set<Entry>, k: UserKey, s: nat, e: Entry) {
    e in S && Covers(e, k, s) && forall f :: f in S && Covers(f, k, s) ==> f.ik.sn <= e.ik.sn
  }

  ghost predicate Distinct(S: set<Entry>) {
    forall e, f :: e in S && f in S && e.ik == f.ik ==> e == f
  }

  /** The reference reading rule: the newest entry at or below the snapshot decides. */
  ghost function Look(S: set<Entry>, k: UserKey, s: nat): Outcome {
    if exists e :: Newest(S, k, s, e) then
      var e :| Newest(S, k, s, e);
      OutcomeOf(e)
    else Missing
  }

  lemma LookIs(S: set<Entry>, k: UserKey, s: nat, e: Entry)
    requires Distinct(S) && Newest(S, k, s, e)
    ensures Look(S, k, s) == OutcomeOf(e)
  {
    forall f | Newest(S, k, s, f) ensures f == e {
      assert f.ik == e.ik;
    }
  }

  lemma LookNone(S: set<Entry>, k: UserKey, s: nat)
    requires forall e :: e in S ==> !Covers(e, k, s)
    ensures Look(S, k, s) == Missing
  {
  }

  lemma {:induction false} NewestExists(S: set<Entry>, k: UserKey, s: nat, e: Entry)
    returns (m: Entry)
    requires e in S && Covers(e, k, s)
    ensures Newest(S, k, s, m)
    decreases s - e.ik.sn
  {
    if f :| f in S && Covers(f, k, s) && f.ik.sn > e.ik.sn {
      m := NewestExists(S, k, s, f);
    } else {
      m := e;
    }
  }

  /** Reads that see the same entries return the same. */
  lemma LookSame(S: set<Entry>, s: nat, T: set<Entry>, s': nat, k: UserKey)
    requires Distinct(S) && Distinct(T)
    requires forall e :: e in S && Covers(e, k, s) <==> e in T && Covers(e, k, s')
    ensures Look(S, k, s) == Look(T, k, s')
  {
    if e :| e in S && Covers(e, k, s) {
      var m := NewestExists(S, k, s, e);
      LookIs(S, k, s, m);
      LookIs(T, k, s', m);
    } else {
      LookNone(S, k, s);
      LookNone(T, k, s');
    }
  }

  /** Reading a union whose first part holds only newer versions of each key:
      the first part decides whenever it has anything at all. */
  lemma LookLayered(S: set<Entry>, T: set<Entry>, k: UserKey, s: nat)
    requires Distinct(S) && Distinct(T)
    requires forall e, f :: e in S && f in T && e.ik.user == f.ik.user ==> e.ik.sn > f.ik.sn
    ensures Distinct(S + T)
    ensures Look(S + T, k, s) == if Look(S, k, s).Missing? then Look(T, k, s) else Look(S, k, s)
  {
    if e :| e in S && Covers(e, k, s) {
      var m := NewestExists(S, k, s, e);
      LookIs(S, k, s, m);
      LookIs(S + T, k, s, m);
    } else {
      LookNone(S, k, s);
      LookSame(S + T, s, T, s, k);
    }
  }
}
