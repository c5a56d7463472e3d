/**
 * `listSessions`: distinct session ids read by seeking from each id to the next greater one,
 * merged with the ids of the metadata table and sorted. Ids compare character by character.
 */
module SkipScan {
  import opened Prelude
  import opened EventTable
  import opened TextOrder

  /** `SELECT MIN(session_id)`: NULL over no rows. */
  ghost function MinOf(s: set<string>): (m: Option<string>)
    ensures m.None? <==> s == {}
    ensures m.Some? ==> IsLeast(s, m.value)
  {
    if s == {} then None
    else
      SomeLeast(s);
      var x :| IsLeast(s, x);
      Some(x)
  }

  ghost function Above(s: set<string>, x: string): set<string> {
    set y | y in s && Before(x, y)
  }

  /** Rows of the recursive term from `row` on, down to and including the final NULL. */
  ghost function Seek(s: set<string>, row: Option<string>): seq<Option<string>>
    requires row.Some? ==> row.value in s
    decreases if row.Some? then 1 + |Above(s, row.value)| else 0
  {
    match row
    case None => [None]
    case Some(previous) =>
      var next := MinOf(Above(s, previous));
      AboveNext(s, previous, next);
      [row] + Seek(s, next)
  }

  lemma AboveNext(s: set<string>, previous: string, next: Option<string>)
    requires next == MinOf(Above(s, previous))
    ensures next.Some? ==> next.value in s && |Above(s, next.value)| < |Above(s, previous)|
  {
    if next.Some? {
      var x := next.value;
      BeforeIrreflexive(x);
      forall y | y in Above(s, x) ensures y in Above(s, previous) {
        BeforeTransitive(previous, x, y);
      }
      Smaller(Above(s, x), Above(s, previous), x);
    }
  }

  /** `WHERE session_id IS NOT NULL`. */
  function NotNull(rows: seq<Option<string>>): seq<string> {
    if rows == [] then []
    else (if rows[0].Some? then [rows[0].value] else []) + NotNull(rows[1..])
  }

  ghost predicate Ascending(ids: seq<string>) {
    forall i, j | 0 <= i < j < |ids| :: Before(ids[i], ids[j])
  }

  /** The reference: the ids of a set in ascending order, taken one least element at a time. */
  ghost function SortedIds(s: set<string>): seq<string>
    decreases |s|
  {
    match MinOf(s)
    case None => []
    case Some(x) => [x] + SortedIds(s - {x})
  }

  lemma AscendingCons(x: string, rest: seq<string>)
    requires Ascending(rest) && forall y | y in Elements(rest) :: Before(x, y)
    ensures Ascending([x] + rest) && Elements([x] + rest) == {x} + Elements(rest)
  {
    var all := [x] + rest;
    forall i, j | 0 <= i < j < |all| ensures Before(all[i], all[j]) {
      assert all[j] == rest[j - 1] && rest[j - 1] in Elements(rest);
    }
  }

  lemma {:induction false} SortedIdsMeaning(s: set<string>)
    ensures Ascending(SortedIds(s)) && Elements(SortedIds(s)) == s
    decreases |s|
  {
    var m := MinOf(s);
    if m.Some? {
      SortedIdsMeaning(s - {m.value});
      AscendingCons(m.value, SortedIds(s - {m.value}));
    }
  }

  /** One ascending list holds given ids at most. */
  lemma {:induction false} AscendingUnique(a: seq<string>, b: seq<string>)
    requires Ascending(a) && Ascending(b) && Elements(a) == Elements(b)
    ensures a == b
    decreases |a|
  {
    NoElements(a);
    NoElements(b);
    if Elements(a) == {} {
    } else {
      FirstIsLeast(a);
      FirstIsLeast(b);
      LeastUnique(Elements(a), a[0], b[0]);
      TailElements(a);
      TailElements(b);
      AscendingUnique(a[1..], b[1..]);
      assert a == [a[0]] + a[1..] && b == [b[0]] + b[1..];
    }
  }

  lemma NoElements(a: seq<string>)
    ensures Elements(a) == {} <==> a == []
  {
    if a != [] {
      assert a[0] in Elements(a);
    }
  }

  lemma FirstIsLeast(a: seq<string>)
    requires Ascending(a) && a != []
    ensures IsLeast(Elements(a), a[0])
  {
  }

  lemma TailElements(a: seq<string>)
    requires Ascending(a) && a != []
    ensures Elements(a[1..]) == Elements(a) - {a[0]}
  {
    BeforeIrreflexive(a[0]);
    forall x ensures x in a[1..] <==> x in a && x != a[0] {
      if x in a && x != a[0] {
        var i :| 0 <= i < |a| && a[i] == x;
        assert a[1..][i - 1] == x;
      }
    }
  }

  /** The seek from a row lists that id and every greater one, in ascending order. */
  lemma {:induction false} SeekFrom(s: set<string>, row: Option<string>)
    requires row.Some? ==> row.value in s
    ensures NotNull(Seek(s, row)) == if row.None? then [] else [row.value] + SortedIds(Above(s, row.value))
    decreases if row.Some? then 1 + |Above(s, row.value)| else 0
  {
    match row {
      case None =>
        assert Seek(s, row)[1..] == [];
      case Some(previous) =>
        var next := MinOf(Above(s, previous));
        AboveNext(s, previous, next);
        SeekFrom(s, next);
        assert Seek(s, row)[1..] == Seek(s, next);
        if next.Some? {
          AboveMinusLeast(s, previous, next.value);
        }
    }
  }

  lemma AboveMinusLeast(s: set<string>, previous: string, x: string)
    requires IsLeast(Above(s, previous), x)
    ensures Above(s, x) == Above(s, previous) - {x}
  {
    BeforeIrreflexive(x);
    forall y ensures y in Above(s, x) <==> y in Above(s, previous) && y != x {
      if y in Above(s, x) {
        BeforeTransitive(previous, x, y);
      }
    }
  }

  /** Main result: the skip-scan yields every distinct id once, in ascending order. */
  lemma {:induction false} SkipScanIsDistinct(s: set<string>)
    ensures NotNull(Seek(s, MinOf(s))) == SortedIds(s)
  {
    var m := MinOf(s);
    SeekFrom(s, m);
    if m.Some? {
      BeforeIrreflexive(m.value);
      assert Above(s, m.value) == s - {m.value};
    }
  }

  ghost function EventSessions(t: Table): set<string> {
    set key | key in t :: key.0
  }

  /** The statement as a whole: the seek, `UNION` with the metadata ids, `ORDER BY session_id`. */
  ghost function ListSessions(t: Table, metadata: map<SessionId, string>): seq<string> {
    var ids := EventSessions(t);
    SortedIds(Elements(NotNull(Seek(ids, MinOf(ids)))) + metadata.Keys)
  }

  /** Sorted, without duplicates, and a session is listed exactly when either table knows it. */
  lemma ListSessionsMeaning(t: Table, metadata: map<SessionId, string>)
    ensures Ascending(ListSessions(t, metadata))
    ensures forall sid :: sid in ListSessions(t, metadata) <==> (exists q :: (sid, q) in t) || sid in metadata
  {
    var ids := EventSessions(t);
    SkipScanIsDistinct(ids);
    SortedIdsMeaning(ids);
    SortedIdsMeaning(ids + metadata.Keys);
    var all := ListSessions(t, metadata);
    forall sid ensures sid in all <==> (exists q :: (sid, q) in t) || sid in metadata {
      assert sid in all <==> sid in Elements(all);
      if sid in ids {
        var key :| key in t && key.0 == sid;
        assert (sid, key.1) in t;
      }
      if exists q :: (sid, q) in t {
        var q :| (sid, q) in t;
        assert (sid, q).0 in ids;
      }
    }
  }
}
