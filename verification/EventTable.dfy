/**
 * The event table: one row per event under the key (session, sequence number). The SQL
 * statements are modelled by what they do to the table; a transaction either commits
 * everything or puts the table back.
 */
module EventTable {
  import opened Prelude

  type SessionId = string

  type Payload = string

  type Table = map<(SessionId, int), Payload>

  const EVENTS_PER_INSERT := 33

  const MAX_BINDINGS := 100

  /** The session's rows are numbered 0..n-1 and carry exactly `log`. */
  ghost predicate IsLog(t: Table, sid: SessionId, log: seq<Payload>) {
    && (forall q :: (sid, q) in t <==> 0 <= q < |log|)
    && (forall q | 0 <= q < |log| :: t[(sid, q)] == log[q])
  }

  ghost predicate GapFree(t: Table, sid: SessionId) {
    exists log :: IsLog(t, sid, log)
  }

  lemma LogUnique(t: Table, sid: SessionId, a: seq<Payload>, b: seq<Payload>)
    requires IsLog(t, sid, a) && IsLog(t, sid, b)
    ensures a == b
  {
    assert (sid, |a|) !in t && (sid, |b|) !in t;
  }

  ghost predicate SameSession(t: Table, t': Table, sid: SessionId) {
    && (forall q :: (sid, q) in t <==> (sid, q) in t')
    && (forall q | (sid, q) in t && (sid, q) in t' :: t[(sid, q)] == t'[(sid, q)])
  }

  /** MAX(seq) of the session, -1 when it has no row. */
  ghost predicate IsLastSeq(t: Table, sid: SessionId, last: int) {
    && (forall q | (sid, q) in t :: q <= last)
    && ((sid, last) in t || (last == -1 && forall q :: (sid, q) !in t))
  }

  /** The whole effect of one committed batch: event i goes under number first + i. */
  function AppendRows(t: Table, sid: SessionId, first: int, events: seq<Payload>): Table
    decreases |events|
  {
    if events == [] then t
    else
      var n := |events| - 1;
      AppendRows(t, sid, first, events[..n])[(sid, first + n) := events[n]]
  }

  function DeleteRows(t: Table, sid: SessionId): Table {
    map key | key in t && key.0 != sid :: t[key]
  }

  lemma {:induction false} AppendedRows(t: Table, sid: SessionId, first: int, events: seq<Payload>)
    ensures var t' := AppendRows(t, sid, first, events);
      && (forall q :: (sid, q) in t' <==> (sid, q) in t || first <= q < first + |events|)
      && (forall q | (sid, q) in t' :: t'[(sid, q)] == if first <= q < first + |events| then events[q - first] else t[(sid, q)])
    decreases |events|
  {
    if events == [] {
    } else {
      var n := |events| - 1;
      var before := AppendRows(t, sid, first, events[..n]);
      var t' := AppendRows(t, sid, first, events);
      AppendedRows(t, sid, first, events[..n]);
      forall q ensures (sid, q) in t' <==> (sid, q) in t || first <= q < first + |events| {
        assert (sid, q) in before <==> (sid, q) in t || first <= q < first + n;
      }
    }
  }

  lemma {:induction false} AppendSparesOthers(t: Table, sid: SessionId, first: int, events: seq<Payload>, other: SessionId)
    requires other != sid
    ensures SameSession(t, AppendRows(t, sid, first, events), other)
    decreases |events|
  {
    if events == [] {
    } else {
      AppendSparesOthers(t, sid, first, events[..|events| - 1], other);
    }
  }

  /** A batch that continues at the last number appends its events, in order, to one log only. */
  lemma AppendMeaning(t: Table, sid: SessionId, log: seq<Payload>, events: seq<Payload>)
    requires IsLog(t, sid, log)
    ensures IsLog(AppendRows(t, sid, |log|, events), sid, log + events)
    ensures forall other | other != sid :: SameSession(t, AppendRows(t, sid, |log|, events), other)
  {
    AppendedRows(t, sid, |log|, events);
    forall other | other != sid ensures SameSession(t, AppendRows(t, sid, |log|, events), other) {
      AppendSparesOthers(t, sid, |log|, events, other);
    }
  }

  lemma DeleteMeaning(t: Table, sid: SessionId)
    ensures IsLog(DeleteRows(t, sid), sid, [])
    ensures forall other | other != sid :: SameSession(t, DeleteRows(t, sid), other)
  {
  }

  lemma LastSeqOfLog(t: Table, sid: SessionId, log: seq<Payload>, last: int)
    requires IsLog(t, sid, log)
    ensures IsLastSeq(t, sid, last) <==> last == |log| - 1
  {
    if |log| > 0 {
      assert (sid, |log| - 1) in t;
    }
  }

  lemma {:induction false} SplitRows(t: Table, sid: SessionId, first: int, a: seq<Payload>, b: seq<Payload>)
    ensures AppendRows(AppendRows(t, sid, first, a), sid, first + |a|, b) == AppendRows(t, sid, first, a + b)
    decreases |b|
  {
    if b == [] {
      assert a + b == a;
    } else {
      var n := |b| - 1;
      SplitRows(t, sid, first, a, b[..n]);
      assert (a + b)[..|a + b| - 1] == a + b[..n];
    }
  }

  ghost predicate Unused(t: Table, sid: SessionId, first: int, n: nat) {
    forall q | first <= q < first + n :: (sid, q) !in t
  }

  /** The next chunk meets no taken number and extends what the earlier chunks wrote. */
  lemma ChunkFits(t: Table, sid: SessionId, log: seq<Payload>, events: seq<Payload>, from: nat, to: nat)
    requires IsLog(t, sid, log) && from <= to <= |events|
    ensures var before := AppendRows(t, sid, |log|, events[..from]);
      && Unused(before, sid, |log| + from, to - from)
      && AppendRows(before, sid, |log| + from, events[from..to]) == AppendRows(t, sid, |log|, events[..to])
  {
    AppendedRows(t, sid, |log|, events[..from]);
    assert events[..to] == events[..from] + events[from..to];
    SplitRows(t, sid, |log|, events[..from], events[from..to]);
  }

  /** The table when the loop has reached `offset`. */
  ghost function Written(t: Table, sid: SessionId, first: int, events: seq<Payload>, offset: nat): Table {
    AppendRows(t, sid, first, events[..Min(offset, |events|)])
  }

  lemma NextChunk(t: Table, sid: SessionId, log: seq<Payload>, events: seq<Payload>, offset: nat)
    requires IsLog(t, sid, log) && offset < |events|
    ensures var before := Written(t, sid, |log|, events, offset);
      var chunk := events[offset..Min(offset + EVENTS_PER_INSERT, |events|)];
      && 3 * |chunk| <= MAX_BINDINGS
      && Unused(before, sid, |log| + offset, |chunk|)
      && AppendRows(before, sid, |log| + offset, chunk) == Written(t, sid, |log|, events, offset + EVENTS_PER_INSERT)
  {
    ChunkFits(t, sid, log, events, offset, Min(offset + EVENTS_PER_INSERT, |events|));
  }

  lemma WrittenAll(t: Table, sid: SessionId, first: int, events: seq<Payload>, offset: nat)
    ensures Written(t, sid, first, events, 0) == t
    ensures offset >= |events| ==> Written(t, sid, first, events, offset) == AppendRows(t, sid, first, events)
  {
    assert events[..0] == [];
    assert events[..|events|] == events;
  }

  /** The database handle, with its two tables. */
  class Database {
    var rows: Table
    var metadata: map<SessionId, string>

    constructor (rows: Table, metadata: map<SessionId, string>)
      ensures this.rows == rows && this.metadata == metadata
    {
      this.rows, this.metadata := rows, metadata;
    }

    /** MAX(seq), -1 instead of the NULL of no row. */
    method LastSeq(sid: SessionId) returns (last: int)
      ensures IsLastSeq(rows, sid, last)
    {
      var max: Option<int> := None;
      var todo := rows.Keys;
      while todo != {}
        invariant todo <= rows.Keys
        invariant max.None? ==> forall q :: (sid, q) !in rows.Keys - todo
        invariant max.Some? ==> (sid, max.value) in rows && forall q | (sid, q) in rows.Keys - todo :: q <= max.value
        decreases |todo|
      {
        var key :| key in todo;
        if key.0 == sid && (max.None? || max.value < key.1) {
          max := Some(key.1);
        }
        todo := todo - {key};
      }
      return if max.Some? then max.value else -1;
    }

    /** INSERT of several rows: refused when it binds too much or meets an existing key. */
    method Insert(sid: SessionId, first: int, events: seq<Payload>, broken: bool) returns (ok: bool)
      modifies this`rows
      ensures ok <==> !broken && 3 * |events| <= MAX_BINDINGS && Unused(old(rows), sid, first, |events|)
      ensures rows == if ok then AppendRows(old(rows), sid, first, events) else old(rows)
    {
      if broken || 3 * |events| > MAX_BINDINGS {
        return false;
      }
      var i := 0;
      while i < |events|
        invariant 0 <= i <= |events|
        invariant Unused(rows, sid, first, i)
      {
        if (sid, first + i) in rows {
          return false;
        }
        i := i + 1;
      }
      rows := AppendRows(rows, sid, first, events);
      return true;
    }

    /**
     * The append transaction. `brokenAt` is the statement the host fails, if any. Nothing else
     * can fail it: no chunk binds too many parameters and no number is taken.
     */
    method AppendBatch(sid: SessionId, events: seq<Payload>, brokenAt: Option<nat>, ghost log: seq<Payload>) returns (ok: bool)
      requires IsLog(rows, sid, log)
      modifies this`rows
      ensures ok <==> brokenAt.None? || |events| <= brokenAt.value * EVENTS_PER_INSERT
      ensures rows == if ok then AppendRows(old(rows), sid, |log|, events) else old(rows)
    {
      var snapshot := rows;
      var last := LastSeq(sid);
      LastSeqOfLog(rows, sid, log, last);
      var first := last + 1;
      var offset := 0;
      var statement := 0;
      WrittenAll(snapshot, sid, first, events, 0);
      while offset < |events|
        invariant offset == statement * EVENTS_PER_INSERT
        invariant rows == Written(snapshot, sid, first, events, offset)
        invariant brokenAt.Some? ==> statement <= brokenAt.value
      {
        NextChunk(snapshot, sid, log, events, offset);
        var chunk := events[offset..Min(offset + EVENTS_PER_INSERT, |events|)];
        var inserted := Insert(sid, first + offset, chunk, brokenAt == Some(statement));
        if !inserted {
          rows := snapshot;
          return false;
        }
        offset := offset + EVENTS_PER_INSERT;
        statement := statement + 1;
      }
      WrittenAll(snapshot, sid, first, events, offset);
      return true;
    }

    /** The delete transaction reports how many events went. */
    method DeleteSession(sid: SessionId, ghost log: seq<Payload>) returns (count: nat)
      requires IsLog(rows, sid, log)
      modifies this
      ensures rows == DeleteRows(old(rows), sid)
      ensures metadata == old(metadata) - {sid}
      ensures count == |log|
    {
      count := 0;
      var todo := rows.Keys;
      ghost var counted: set<int> := {};
      while todo != {}
        invariant todo <= rows.Keys
        invariant counted == set key | key in rows.Keys - todo && key.0 == sid :: key.1
        invariant count == |counted|
        decreases |todo|
      {
        var key :| key in todo;
        if key.0 == sid {
          count := count + 1;
          counted := counted + {key.1};
        }
        todo := todo - {key};
      }
      forall q ensures q in counted <==> 0 <= q < |log| {
        assert (sid, q) in rows <==> 0 <= q < |log|;
      }
      CountRange(counted, |log|);
      rows := DeleteRows(rows, sid);
      metadata := metadata - {sid};
    }
  }

  lemma {:induction false} CountRange(s: set<int>, n: nat)
    requires forall q :: q in s <==> 0 <= q < n
    ensures |s| == n
  {
    if n > 0 {
      CountRange(s - {n - 1}, n - 1);
    } else {
      assert forall q :: q !in s;
      assert s == {};
    }
  }

  // ---- ranged loads ----

  /** What `WHERE seq > since ORDER BY seq LIMIT limit` returns; a negative limit is none. */
  ghost predicate IsQuery(t: Table, sid: SessionId, since: int, limit: int, res: seq<(int, Payload)>) {
    && (forall i, j | 0 <= i < j < |res| :: res[i].0 < res[j].0)
    && (forall i | 0 <= i < |res| :: since < res[i].0 && (sid, res[i].0) in t && t[(sid, res[i].0)] == res[i].1)
    && (limit >= 0 ==> |res| <= limit)
    && (forall q | (sid, q) in t && since < q :: Listed(res, q) || (|res| == limit && CutBefore(res, q)))
  }

  ghost predicate Listed(res: seq<(int, Payload)>, q: int) {
    exists i :: 0 <= i < |res| && res[i].0 == q
  }

  ghost predicate CutBefore(res: seq<(int, Payload)>, q: int) {
    forall i | 0 <= i < |res| :: res[i].0 < q
  }

  datatype Range<T> = Range(events: seq<T>, fromIndex: int, toIndex: int)

  function Payloads(res: seq<(int, Payload)>): seq<Payload> {
    seq(|res|, i requires 0 <= i < |res| => res[i].1)
  }

  function SqlLimit(limit: Option<int>): int {
    match limit
    case None => -1
    case Some(n) => if n < 0 then 0 else n
  }

  /** `loadRange` after its query. */
  function LoadRange(res: seq<(int, Payload)>, lastSeq: int): Range<Payload> {
    if res == [] then Range([], -1, lastSeq)
    else Range(Payloads(res), res[0].0, res[|res| - 1].0)
  }

  /** The same page cut out of the log. */
  function Page<T>(log: seq<T>, since: int, limit: Option<int>): Range<T> {
    var lo := if since < 0 then 0 else Min(since + 1, |log|);
    var n := match limit case None => |log| - lo case Some(k) => if k < 0 then 0 else Min(k, |log| - lo);
    if n == 0 then Range([], -1, |log| - 1) else Range(log[lo..lo + n], lo, lo + n - 1)
  }

  /** The first number behind `since`. */
  function Low(since: int): nat {
    if since < 0 then 0 else since + 1
  }

  lemma {:induction false} QueryIndex(t: Table, sid: SessionId, log: seq<Payload>, since: int, limit: int,
                                      res: seq<(int, Payload)>, i: nat)
    requires IsLog(t, sid, log) && IsQuery(t, sid, since, limit, res) && i < |res|
    ensures res[i].0 == Low(since) + i
    decreases i
  {
    var lo := Low(since);
    if i == 0 {
    } else {
      QueryIndex(t, sid, log, since, limit, res, i - 1);
    }
    var q := lo + i;
    assert q <= res[i].0;
    assert (sid, res[i].0) in t;
    assert (sid, q) in t;
    assert Listed(res, q);
  }

  lemma QueryEntry(t: Table, sid: SessionId, log: seq<Payload>, since: int, limit: int, res: seq<(int, Payload)>, i: nat)
    requires IsLog(t, sid, log) && IsQuery(t, sid, since, limit, res) && i < |res|
    ensures IsEntry(log, Low(since), res, i)
  {
    QueryIndex(t, sid, log, since, limit, res, i);
    assert (sid, res[i].0) in t;
  }

  ghost predicate IsEntry(log: seq<Payload>, lo: nat, res: seq<(int, Payload)>, i: nat) {
    i < |res| && lo + i < |log| && res[i] == (lo + i, log[lo + i])
  }

  lemma QueryEntries(t: Table, sid: SessionId, log: seq<Payload>, since: int, limit: int, res: seq<(int, Payload)>)
    requires IsLog(t, sid, log) && IsQuery(t, sid, since, limit, res)
    ensures forall i: nat | i < |res| :: IsEntry(log, Low(since), res, i)
  {
    forall i: nat | i < |res| ensures IsEntry(log, Low(since), res, i) {
      QueryEntry(t, sid, log, since, limit, res, i);
    }
  }

  lemma QueryLength(t: Table, sid: SessionId, log: seq<Payload>, since: int, limit: int, res: seq<(int, Payload)>)
    requires IsLog(t, sid, log) && IsQuery(t, sid, since, limit, res)
    ensures var lo := Low(since);
      && (|log| <= lo + |res| || |res| == limit)
      && (|res| > 0 ==> lo + |res| <= |log|)
  {
    var lo := Low(since);
    QueryEntries(t, sid, log, since, limit, res);
    if lo + |res| < |log| {
      assert (sid, lo + |res|) in t;
      forall i | 0 <= i < |res| ensures res[i].0 != lo + |res| {
        assert IsEntry(log, lo, res, i);
      }
      assert !Listed(res, lo + |res|);
    }
    if |res| > 0 {
      assert IsEntry(log, lo, res, |res| - 1);
    }
  }

  lemma CutPage(log: seq<Payload>, since: int, limit: Option<int>, res: seq<(int, Payload)>)
    requires var lo := Low(since);
      && (forall i: nat | i < |res| :: IsEntry(log, lo, res, i))
      && (|log| <= lo + |res| || |res| == SqlLimit(limit))
      && (|res| > 0 ==> lo + |res| <= |log|)
    requires SqlLimit(limit) >= 0 ==> |res| <= SqlLimit(limit)
    ensures LoadRange(res, |log| - 1) == Page(log, since, limit)
  {
    var lo := Low(since);
    if res != [] {
      forall i | 0 <= i < |res| ensures res[i] == (lo + i, log[lo + i]) {
        assert IsEntry(log, lo, res, i);
      }
      assert Payloads(res) == log[lo..lo + |res|];
    }
  }

  /** Over a gap-free table any result of the query is the page of the log. */
  lemma LoadRangeIsPage(t: Table, sid: SessionId, log: seq<Payload>, since: int, limit: Option<int>, res: seq<(int, Payload)>, last: int)
    requires IsLog(t, sid, log)
    requires IsQuery(t, sid, since, SqlLimit(limit), res) && IsLastSeq(t, sid, last)
    ensures LoadRange(res, last) == Page(log, since, limit)
  {
    LastSeqOfLog(t, sid, log, last);
    QueryLength(t, sid, log, since, SqlLimit(limit), res);
    QueryEntries(t, sid, log, since, SqlLimit(limit), res);
    CutPage(log, since, limit, res);
  }

  lemma NextSlice<T>(log: seq<T>, lo: nat, n: nat)
    requires lo + n <= |log|
    ensures log[..lo + n] == log[..lo] + log[lo..lo + n]
  {
  }

  /** Following the reported index pages through the log without a gap or a repeat. */
  lemma PagesMeet<T>(log: seq<T>, since: int, limit: Option<int>)
    requires -1 <= since < |log| && (limit.Some? ==> limit.value >= 1)
    ensures var page := Page(log, since, limit);
      && since <= page.toIndex < |log|
      && log[..page.toIndex + 1] == log[..since + 1] + page.events
      && (|page.events| == 0 <==> since == |log| - 1)
      && (forall i | 0 <= i < |page.events| :: page.events[i] == log[since + 1 + i])
  {
    var page := Page(log, since, limit);
    var n := page.toIndex - since;
    assert page.events == log[since + 1..since + 1 + n];
    NextSlice(log, since + 1, n);
  }
}
