/**
 * The `getEvents` call over one log: a window read from the store, filtered, cut to a page, and a
 * cursor for the next call.
 */
module EventPages {
  import opened Prelude

  import EventTable

  const PAGE_SIZE := 100

  const READ_WINDOW := 1000

  datatype Query = Query(since: Option<int>, limit: Option<int>, offset: Option<int>)

  datatype Reply<T> = Reply(events: seq<T>, total: nat, lastIndex: int)

  function Or(value: Option<int>, other: int): int {
    if value.Some? then value.value else other
  }

  /** A slice bound: a negative one counts from the end, and both are clamped. */
  function Bound(length: nat, k: int): nat {
    if k < 0 then Max(length + k, 0) else Min(k, length)
  }

  /** `s.slice(from, to)`. */
  function Slice<T>(s: seq<T>, from: int, to: int): seq<T> {
    var lo, hi := Bound(|s|, from), Bound(|s|, to);
    if lo < hi then s[lo..hi] else []
  }

  /** The filter keeps each event's absolute index. */
  function Matched<T>(events: seq<T>, from: int, keep: T -> bool): seq<(T, int)> {
    if |events| == 0 then []
    else (if keep(events[0]) then [(events[0], from)] else []) + Matched(events[1..], from + 1, keep)
  }

  function Events<T>(matched: seq<(T, int)>): seq<T> {
    seq(|matched|, i requires 0 <= i < |matched| => matched[i].0)
  }

  /** The events that pass the filter. */
  function Kept<T>(events: seq<T>, keep: T -> bool): seq<T> {
    if |events| == 0 then []
    else (if keep(events[0]) then [events[0]] else []) + Kept(events[1..], keep)
  }

  /** The page and the cursor, from what was loaded. */
  function Answer<T>(loaded: EventTable.Range<T>, offset: int, limit: int, keep: T -> bool): Reply<T> {
    var matched := Matched(loaded.events, loaded.fromIndex, keep);
    var page := Slice(matched, offset, offset + limit);
    var truncated := |matched| > offset + limit;
    Reply(Events(page), |matched|, if truncated && |page| > 0 then page[|page| - 1].1 else loaded.toIndex)
  }

  function GetEvents<T>(log: seq<T>, q: Query, keep: T -> bool): Reply<T> {
    var limit := Or(q.limit, PAGE_SIZE);
    var offset := if q.since.None? then Or(q.offset, 0) else 0;
    var readLimit := Max(Or(q.limit, READ_WINDOW), offset + limit);
    Answer(EventTable.Page(log, Or(q.since, -1), Some(readLimit)), offset, limit, keep)
  }

  // ---- the filter ----

  lemma {:induction false} MatchedAll<T>(events: seq<T>, from: int, keep: T -> bool)
    ensures Events(Matched(events, from, keep)) == Kept(events, keep)
  {
    if |events| == 0 {
    } else {
      MatchedAll(events[1..], from + 1, keep);
      var rest := Matched(events[1..], from + 1, keep);
      assert Events([(events[0], from)] + rest) == [events[0]] + Events(rest);
      assert [] + rest == rest && [] + Kept(events[1..], keep) == Kept(events[1..], keep);
    }
  }

  lemma KeptHead<T>(events: seq<T>, keep: T -> bool, k: nat)
    requires k < |events|
    ensures Kept(events[..k + 1], keep) == (if keep(events[0]) then [events[0]] else []) + Kept(events[1..][..k], keep)
  {
    assert events[..k + 1][1..] == events[1..][..k];
  }

  lemma EventsCons<T>(first: (T, int), rest: seq<(T, int)>, n: nat)
    requires n <= |rest|
    ensures ([first] + rest)[..n + 1] == [first] + rest[..n]
    ensures Events([first] + rest[..n]) == [first.0] + Events(rest[..n])
  {
  }

  /** The first n matches are the matches up to the index of the n-th. */
  ghost predicate PrefixMatches<T>(events: seq<T>, from: int, keep: T -> bool, m: seq<(T, int)>, n: nat)
    requires 0 < n <= |m|
  {
    && from <= m[n - 1].1 < from + |events|
    && Events(m[..n]) == Kept(events[..m[n - 1].1 - from + 1], keep)
  }

  /** A match in front of the others. */
  lemma PrefixCons<T>(events: seq<T>, from: int, keep: T -> bool, rest: seq<(T, int)>, n: nat)
    requires |events| > 0 && keep(events[0]) && 0 < n <= |rest| && PrefixMatches(events[1..], from + 1, keep, rest, n)
    ensures PrefixMatches(events, from, keep, [(events[0], from)] + rest, n + 1)
  {
    EventsCons((events[0], from), rest, n);
    KeptHead(events, keep, rest[n - 1].1 - from);
  }

  lemma PrefixFirst<T>(events: seq<T>, from: int, keep: T -> bool, rest: seq<(T, int)>)
    requires |events| > 0 && keep(events[0])
    ensures PrefixMatches(events, from, keep, [(events[0], from)] + rest, 1)
  {
    EventsCons((events[0], from), rest, 0);
    KeptHead(events, keep, 0);
  }

  lemma PrefixSkip<T>(events: seq<T>, from: int, keep: T -> bool, rest: seq<(T, int)>, n: nat)
    requires |events| > 0 && !keep(events[0]) && 0 < n <= |rest| && PrefixMatches(events[1..], from + 1, keep, rest, n)
    ensures PrefixMatches(events, from, keep, rest, n)
  {
    KeptHead(events, keep, rest[n - 1].1 - from);
  }

  lemma {:induction false} MatchedPrefix<T>(events: seq<T>, from: int, keep: T -> bool, n: nat)
    requires 0 < n <= |Matched(events, from, keep)|
    ensures PrefixMatches(events, from, keep, Matched(events, from, keep), n)
  {
    var rest := Matched(events[1..], from + 1, keep);
    if !keep(events[0]) {
      assert Matched(events, from, keep) == rest;
      MatchedPrefix(events[1..], from + 1, keep, n);
      PrefixSkip(events, from, keep, rest, n);
    } else if n == 1 {
      PrefixFirst(events, from, keep, rest);
    } else {
      MatchedPrefix(events[1..], from + 1, keep, n - 1);
      PrefixCons(events, from, keep, rest, n - 1);
    }
  }

  lemma {:induction false} KeptEvery<T>(events: seq<T>, keep: T -> bool)
    requires forall i | 0 <= i < |events| :: keep(events[i])
    ensures Kept(events, keep) == events
  {
    if |events| == 0 {
    } else {
      KeptEvery(events[1..], keep);
    }
  }

  // ---- the cursor ----

  /** What a reader that follows the cursor relies on. */
  ghost predicate MeetsAll<T>(log: seq<T>, since: int, reply: Reply<T>, keep: T -> bool) {
    && since <= reply.lastIndex < |log|
    && -1 <= since
    && reply.events == Kept(log[since + 1..reply.lastIndex + 1], keep)
  }

  /** The events of an answer are the matches up to its cursor. */
  lemma AnswerMeets<T>(loaded: EventTable.Range<T>, limit: int, keep: T -> bool)
    requires limit >= 1 && |loaded.events| > 0 && loaded.toIndex == loaded.fromIndex + |loaded.events| - 1
    ensures var reply := Answer(loaded, 0, limit, keep);
      && loaded.fromIndex <= reply.lastIndex <= loaded.toIndex
      && reply.events == Kept(loaded.events[..reply.lastIndex - loaded.fromIndex + 1], keep)
  {
    var matched := Matched(loaded.events, loaded.fromIndex, keep);
    if |matched| > limit {
      MatchedPrefix(loaded.events, loaded.fromIndex, keep, limit);
      assert Slice(matched, 0, limit) == matched[..limit];
    } else {
      MatchedAll(loaded.events, loaded.fromIndex, keep);
      assert Slice(matched, 0, limit) == matched;
      assert loaded.events[..|loaded.events|] == loaded.events;
    }
  }

  /** What the store reads behind `since`. */
  lemma PageIs<T>(log: seq<T>, since: int, limit: int)
    requires -1 <= since < |log| && limit >= 1
    ensures var loaded := EventTable.Page(log, since, Some(limit));
      if since == |log| - 1 then loaded == EventTable.Range([], -1, since)
      else
        && |loaded.events| > 0 && loaded.fromIndex == since + 1 && loaded.toIndex == since + |loaded.events| < |log|
        && loaded.events == log[since + 1..loaded.toIndex + 1]
  {
  }

  lemma SliceTake<T>(log: seq<T>, a: nat, b: nat, n: nat)
    requires a + n <= b <= |log|
    ensures log[a..b][..n] == log[a..a + n]
  {
  }

  /** A page of at least one event meets every match up to its cursor, and the cursor moves until the end. */
  lemma CursorMeets<T>(log: seq<T>, since: int, limit: Option<int>, keep: T -> bool)
    requires -1 <= since < |log| && Or(limit, PAGE_SIZE) >= 1
    ensures var reply := GetEvents(log, Query(Some(since), limit, None), keep);
      MeetsAll(log, since, reply, keep) && (reply.lastIndex == since <==> since == |log| - 1)
  {
    var size, window := Or(limit, PAGE_SIZE), Max(Or(limit, READ_WINDOW), Or(limit, PAGE_SIZE));
    var loaded := EventTable.Page(log, since, Some(window));
    PageIs(log, since, window);
    if since < |log| - 1 {
      AnswerMeets(loaded, size, keep);
      var k := Answer(loaded, 0, size, keep).lastIndex;
      SliceTake(log, since + 1, loaded.toIndex + 1, k - since);
    }
  }

  /** A limit below one reads nothing and sends the cursor to the end of the log. */
  lemma NoLimitReadsNothing<T>(log: seq<T>, since: int, limit: int, keep: T -> bool)
    requires -1 <= since < |log| && limit < 1
    ensures var reply := GetEvents(log, Query(Some(since), Some(limit), None), keep);
      reply.events == [] && reply.lastIndex == |log| - 1
  {
  }

  /** Main result: nothing is skipped exactly when the limit is at least one or nothing is left to match. */
  lemma CursorExactly<T>(log: seq<T>, since: int, limit: Option<int>, keep: T -> bool)
    requires -1 <= since < |log|
    ensures MeetsAll(log, since, GetEvents(log, Query(Some(since), limit, None), keep), keep)
      <==> Or(limit, PAGE_SIZE) >= 1 || Kept(log[since + 1..], keep) == []
  {
    if Or(limit, PAGE_SIZE) >= 1 {
      CursorMeets(log, since, limit, keep);
    } else {
      NoLimitReadsNothing(log, since, limit.value, keep);
      assert log[since + 1..|log|] == log[since + 1..];
    }
  }

  /** Without a filter and an offset the reply is the page of the log, for a poll and for a first load alike. */
  lemma UnfilteredIsPage<T>(log: seq<T>, since: Option<int>, limit: int, keep: T -> bool)
    requires limit >= 1 && (since.Some? ==> -1 <= since.value) && forall e :: keep(e)
    ensures var reply, page := GetEvents(log, Query(since, Some(limit), None), keep), EventTable.Page(log, Or(since, -1), Some(limit));
      reply.events == page.events && reply.lastIndex == page.toIndex && reply.total == |page.events|
  {
    var page := EventTable.Page(log, Or(since, -1), Some(limit));
    MatchedAll(page.events, page.fromIndex, keep);
    KeptEvery(page.events, keep);
    var matched := Matched(page.events, page.fromIndex, keep);
    assert |Events(matched)| == |matched|;
    assert Slice(matched, 0, limit) == matched;
  }
}
