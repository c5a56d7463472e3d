/**
 * The call log: one record per call under a row id, unique per (session, call id). Records of
 * the old format hold their texts in columns, records of the new format in the payload tables.
 */
module LlmCallLog {
  import opened Prelude
  import opened LlmPayloads
  import Order = TextOrder

  datatype Status = Running | Success | Errored

  /** A call as the callers see it. */
  datatype CallRow = CallRow(
    callId: string,
    agentId: string,
    createdAt: int,
    status: Status,
    retried: bool,
    model: string,
    request: string,
    completedAt: Option<int>,
    durationMs: Option<int>,
    providerRequestId: Option<string>,
    response: Option<string>,
    metrics: Option<string>,
    failure: Option<string>)

  datatype Outcome = Outcome(
    status: Status,
    completedAt: int,
    durationMs: int,
    providerRequestId: Option<string>,
    response: Option<string>,
    metrics: Option<string>,
    failure: Option<string>)

  /** A stored record; `chunked` is payload format 1, its negation the legacy format 0. */
  datatype Record = Record(
    sessionId: string,
    callId: string,
    createdAt: int,
    status: Status,
    completedAt: Option<int>,
    durationMs: Option<int>,
    chunked: bool,
    retried: int,
    agentId: string,
    model: string,
    request: string,
    providerRequestId: Option<string>,
    response: Option<string>,
    metrics: Option<string>,
    failure: Option<string>)

  type Calls = map<int, Record>

  type Content = map<Key, Option<string>>

  datatype LogError = Unreadable(e: ReadError) | NotAString

  /** All seven payloads of a call are there, and the three that a call always has are texts. */
  ghost predicate Readable(content: Content, rowid: int) {
    && (forall f: Field :: (rowid, f) in content)
    && content[(rowid, AgentId)].Some? && content[(rowid, Model)].Some? && content[(rowid, Request)].Some?
  }

  ghost function RowOf(record: Record, rowid: int, content: Content): CallRow
    requires record.chunked ==> Readable(content, rowid)
  {
    var c := record.chunked;
    CallRow(
      record.callId,
      if c then content[(rowid, AgentId)].value else record.agentId,
      record.createdAt,
      record.status,
      record.retried == 1,
      if c then content[(rowid, Model)].value else record.model,
      if c then content[(rowid, Request)].value else record.request,
      record.completedAt,
      record.durationMs,
      if c then content[(rowid, ProviderRequestId)] else record.providerRequestId,
      if c then content[(rowid, Response)] else record.response,
      if c then content[(rowid, Metrics)] else record.metrics,
      if c then content[(rowid, Failure)] else record.failure)
  }

  function PutRequest(c: Content, rowid: int, row: CallRow): Content {
    c[(rowid, AgentId) := Some(row.agentId)][(rowid, Model) := Some(row.model)][(rowid, Request) := Some(row.request)]
  }

  function PutOutcome(c: Content, rowid: int, provider: Option<string>, response: Option<string>, metrics: Option<string>, failure: Option<string>): Content {
    c[(rowid, ProviderRequestId) := provider][(rowid, Response) := response][(rowid, Metrics) := metrics][(rowid, Failure) := failure]
  }

  function CompleteRecord(rec: Record, o: Outcome): Record {
    rec.(status := o.status, completedAt := Some(o.completedAt), durationMs := Some(o.durationMs), chunked := true,
         providerRequestId := None, response := None, metrics := None, failure := None)
  }

  function BlankRequest(rec: Record): Record {
    rec.(agentId := "", model := "", request := "")
  }

  /** The request half is kept, the outcome half is replaced. */
  function Completed(row: CallRow, o: Outcome): CallRow {
    row.(status := o.status, completedAt := Some(o.completedAt), durationMs := Some(o.durationMs),
         providerRequestId := o.providerRequestId, response := o.response, metrics := o.metrics, failure := o.failure)
  }

  ghost predicate Unique(calls: Calls) {
    forall r, q | r in calls && q in calls && calls[r].sessionId == calls[q].sessionId && calls[r].callId == calls[q].callId :: r == q
  }

  ghost predicate Sound(calls: Calls, content: Content) {
    && Unique(calls)
    && (forall r | r in calls && calls[r].chunked :: Readable(content, r))
    && (forall key: Key | key in content :: key.0 in calls)
  }

  /** Rows of other calls read the same after a change of one call's payloads. */
  lemma OtherRows(rec: Record, r: int, c: Content, c': Content)
    requires rec.chunked ==> Readable(c, r)
    requires forall f: Field :: (r, f) in c <==> (r, f) in c'
    requires forall f: Field | (r, f) in c && (r, f) in c' :: c[(r, f)] == c'[(r, f)]
    ensures rec.chunked ==> Readable(c', r)
    ensures RowOf(rec, r, c) == RowOf(rec, r, c')
  {
    if rec.chunked {
      assert (r, AgentId) in c && (r, Model) in c && (r, Request) in c && (r, ProviderRequestId) in c;
      assert (r, Response) in c && (r, Metrics) in c && (r, Failure) in c;
    }
  }

  function RecordAfter(rec: Record, o: Outcome): Record {
    CompleteRecord(if rec.chunked then rec else BlankRequest(rec), o)
  }

  ghost function ContentAfter(rec: Record, rowid: int, c: Content, o: Outcome): Content
    requires rec.chunked ==> Readable(c, rowid)
  {
    PutOutcome(if rec.chunked then c else PutRequest(c, rowid, RowOf(rec, rowid, c)), rowid, o.providerRequestId, o.response, o.metrics, o.failure)
  }

  /** In either format the one call is completed and reads back from chunks. */
  lemma OneCompleted(rec: Record, rowid: int, c: Content, o: Outcome)
    requires rec.chunked ==> Readable(c, rowid)
    ensures var c' := ContentAfter(rec, rowid, c, o);
      Readable(c', rowid) && RowOf(RecordAfter(rec, o), rowid, c') == Completed(RowOf(rec, rowid, c), o)
  {
    var c' := ContentAfter(rec, rowid, c, o);
    forall f: Field ensures (rowid, f) in c' {
      match f case AgentId => case Model => case Request => case ProviderRequestId =>
        case Response => case Metrics => case Failure =>
    }
  }

  lemma CompleteEffect(calls: Calls, c: Content, rowid: int, o: Outcome)
    requires Sound(calls, c) && rowid in calls
    ensures var calls' := calls[rowid := RecordAfter(calls[rowid], o)];
      var c' := ContentAfter(calls[rowid], rowid, c, o);
      && Sound(calls', c')
      && forall r | r in calls :: RowOf(calls'[r], r, c') ==
           if r == rowid then Completed(RowOf(calls[r], r, c), o) else RowOf(calls[r], r, c)
  {
    var calls' := calls[rowid := RecordAfter(calls[rowid], o)];
    var c' := ContentAfter(calls[rowid], rowid, c, o);
    OneCompleted(calls[rowid], rowid, c, o);
    forall r | r in calls && r != rowid
      ensures (calls[r].chunked ==> Readable(c', r)) && RowOf(calls[r], r, c') == RowOf(calls[r], r, c)
    {
      OtherRows(calls[r], r, c, c');
    }
    forall r, q | r in calls' && q in calls' && calls'[r].sessionId == calls'[q].sessionId && calls'[r].callId == calls'[q].callId ensures r == q {
      assert calls[r].sessionId == calls[q].sessionId && calls[r].callId == calls[q].callId;
    }
  }

  ghost predicate Fits(codec: Codec, value: Option<string>) {
    value.Some? ==> |codec.encode(value.value)| <= MAX_SAFE_INTEGER
  }

  ghost predicate RequestFits(codec: Codec, row: CallRow) {
    Fits(codec, Some(row.agentId)) && Fits(codec, Some(row.model)) && Fits(codec, Some(row.request))
  }

  ghost predicate OutcomeFits(codec: Codec, provider: Option<string>, response: Option<string>, metrics: Option<string>, failure: Option<string>) {
    Fits(codec, provider) && Fits(codec, response) && Fits(codec, metrics) && Fits(codec, failure)
  }

  // ---- retention ----

  ghost function IdsOf(calls: Calls, sid: string): set<string> {
    set row | row in calls.Items && row.1.sessionId == sid :: row.1.callId
  }

  ghost function Greater(ids: set<string>, id: string): set<string> {
    set x | x in ids && Order.Before(id, x)
  }

  /** Among the n greatest ids of the set; a cap of zero or less keeps all. */
  ghost predicate Retained(ids: set<string>, id: string, n: int) {
    n <= 0 || |Greater(ids, id)| < n
  }

  /** A call of another session survives, a call of the session when it is retained. */
  ghost predicate Survives(calls: Calls, r: int, sid: string, ids: set<string>, n: int)
    requires r in calls
  {
    calls[r].sessionId != sid || Retained(ids, calls[r].callId, n)
  }

  /** The call id at `ORDER BY call_id DESC LIMIT 1 OFFSET offset`, NULL when there is none. */
  ghost predicate IsAtOffset(ids: set<string>, offset: nat, x: Option<string>) {
    match x
    case None => |ids| <= offset
    case Some(id) => id in ids && |Greater(ids, id)| == offset
  }

  lemma GreaterGrows(ids: set<string>, low: string, high: string)
    requires high in ids && Order.Before(low, high)
    ensures |Greater(ids, high)| < |Greater(ids, low)|
  {
    forall x | x in Greater(ids, high) ensures x in Greater(ids, low) {
      Order.BeforeTransitive(low, high, x);
    }
    Order.BeforeIrreflexive(high);
    Order.Smaller(Greater(ids, high), Greater(ids, low), high);
  }

  /** Deleting below the id at offset n-1 keeps exactly the n greatest ids. */
  lemma ThresholdIsRetention(ids: set<string>, n: int, x: Option<string>, id: string)
    requires n > 0 && IsAtOffset(ids, n - 1, x) && id in ids
    ensures (x.Some? && Order.Before(id, x.value)) <==> !Retained(ids, id, n)
  {
    match x {
      case None =>
        Order.BeforeIrreflexive(id);
        Order.Smaller(Greater(ids, id), ids, id);
      case Some(y) =>
        Order.BeforeTotal(id, y);
        if Order.Before(id, y) {
          GreaterGrows(ids, id, y);
        } else if id != y {
          GreaterGrows(ids, y, id);
          if Order.Before(id, y) {
            Order.BeforeTransitive(id, y, id);
            Order.BeforeIrreflexive(id);
          }
        }
    }
  }

  ghost function RetainedOf(ids: set<string>, n: int): set<string> {
    set x | x in ids && Retained(ids, x, n)
  }

  /** A cap of n > 0 keeps n ids, or all of them when there are fewer, and they are the greatest. */
  lemma {:induction false} RetentionSize(ids: set<string>, n: nat)
    requires n > 0
    ensures |RetainedOf(ids, n)| == Min(n, |ids|)
    ensures forall kept, gone | kept in RetainedOf(ids, n) && gone in ids - RetainedOf(ids, n) :: Order.Before(gone, kept)
  {
    TopSize(ids, n);
    assert RetainedOf(ids, n) == Top(ids, n);
    forall kept, gone | kept in RetainedOf(ids, n) && gone in ids - RetainedOf(ids, n) ensures Order.Before(gone, kept) {
      Order.BeforeTotal(gone, kept);
      if Order.Before(kept, gone) {
        GreaterGrows(ids, kept, gone);
      }
    }
  }

  ghost function Top(ids: set<string>, n: nat): set<string> {
    set x | x in ids && |Greater(ids, x)| < n
  }

  lemma GreaterOfRest(ids: set<string>, least: string)
    requires least in ids && forall y | y in ids && y != least :: Order.Before(least, y)
    ensures Greater(ids, least) == ids - {least}
    ensures forall x | x in ids - {least} :: Greater(ids, x) == Greater(ids - {least}, x)
  {
    Order.BeforeIrreflexive(least);
    forall x | x in ids - {least} ensures Greater(ids, x) == Greater(ids - {least}, x) {
      if Order.Before(x, least) {
        Order.BeforeTransitive(x, least, x);
        Order.BeforeIrreflexive(x);
      }
    }
  }

  lemma {:induction false} TopSize(ids: set<string>, n: nat)
    ensures |Top(ids, n)| == Min(n, |ids|)
    decreases |ids|
  {
    if ids == {} {
      assert Top(ids, n) == {};
    } else {
      var least := Order.LeastExists(ids);
      var rest := ids - {least};
      TopSize(rest, n);
      GreaterOfRest(ids, least);
      assert Top(ids, n) == Top(rest, n) + if |rest| < n then {least} else {};
    }
  }

  method Greatest(ids: set<string>) returns (x: string)
    requires ids != {}
    ensures x in ids && forall y | y in ids && y != x :: Order.Before(y, x)
  {
    x :| x in ids;
    var todo := ids - {x};
    while todo != {}
      invariant todo <= ids && x in ids - todo
      invariant forall y | y in ids - todo && y != x :: Order.Before(y, x)
      decreases |todo|
    {
      var z :| z in todo;
      Order.BeforeTotal(x, z);
      if Order.Before(x, z) {
        forall y | y in ids - todo && y != x ensures Order.Before(y, z) {
          Order.BeforeTransitive(y, x, z);
        }
        x := z;
      }
      todo := todo - {z};
    }
  }

  /** Every id of `low` is before every id of `high`. */
  ghost predicate AllBefore(low: set<string>, high: set<string>) {
    forall x, y | x in low && y in high :: Order.Before(x, y)
  }

  lemma GreaterThanTop(ids: set<string>, rest: set<string>, top: string)
    requires rest <= ids && top in rest && AllBefore(rest, ids - rest)
    requires forall y | y in rest && y != top :: Order.Before(y, top)
    ensures Greater(ids, top) == ids - rest
  {
    forall y ensures y in Greater(ids, top) <==> y in ids - rest {
      if y in rest && Order.Before(top, y) {
        Order.BeforeIrreflexive(top);
        Order.BeforeTransitive(top, y, top);
      }
    }
  }

  lemma NextSkipped(ids: set<string>, rest: set<string>, top: string)
    requires rest <= ids && top in rest && AllBefore(rest, ids - rest)
    requires forall y | y in rest && y != top :: Order.Before(y, top)
    ensures AllBefore(rest - {top}, ids - (rest - {top}))
    ensures |ids - (rest - {top})| == |ids - rest| + 1
  {
    assert ids - (rest - {top}) == (ids - rest) + {top};
  }

  /** `ORDER BY call_id DESC LIMIT 1 OFFSET offset` over distinct ids. */
  method AtOffset(ids: set<string>, offset: nat) returns (x: Option<string>)
    ensures IsAtOffset(ids, offset, x)
  {
    var rest, skipped := ids, 0;
    while skipped < offset && rest != {}
      invariant rest <= ids && skipped <= offset && |ids - rest| == skipped
      invariant AllBefore(rest, ids - rest)
      decreases |rest|
    {
      var top := Greatest(rest);
      NextSkipped(ids, rest, top);
      rest, skipped := rest - {top}, skipped + 1;
    }
    if rest == {} {
      assert ids - rest == ids;
      return None;
    }
    var top := Greatest(rest);
    GreaterThanTop(ids, rest, top);
    return Some(top);
  }

  lemma HasId(calls: Calls, r: int)
    requires r in calls
    ensures calls[r].callId in IdsOf(calls, calls[r].sessionId)
  {
    assert (r, calls[r]) in calls.Items;
  }

  lemma RowStays(calls: Calls, row: (int, Record), other: (int, Record))
    requires row in calls.Items && other in calls.Items && other != row
    ensures other in (calls - {row.0}).Items
  {
    assert calls[other.0] == other.1 && calls[row.0] == row.1;
  }

  lemma NewIds(calls: Calls, calls': Calls, sid: string, id: int)
    requires id !in calls && id in calls' && calls' == calls[id := calls'[id]] && calls'[id].sessionId == sid
    ensures IdsOf(calls', sid) == IdsOf(calls, sid) + {calls'[id].callId}
  {
    HasId(calls', id);
    forall x ensures x in IdsOf(calls', sid) <==> x in IdsOf(calls, sid) || x == calls'[id].callId {
      if x in IdsOf(calls, sid) {
        var row :| row in calls.Items && row.1.sessionId == sid && row.1.callId == x;
        HasId(calls', row.0);
      }
    }
  }

  function NewRecord(sid: string, row: CallRow): Record {
    Record(sid, row.callId, row.createdAt, row.status, row.completedAt, row.durationMs, true, if row.retried then 1 else 0,
           "", "", "", None, None, None, None)
  }

  lemma InsertEffect(calls: Calls, c: Content, sid: string, id: int, row: CallRow)
    requires Sound(calls, c) && id !in calls && row.callId !in IdsOf(calls, sid)
    ensures var calls' := calls[id := NewRecord(sid, row)];
      var c' := PutOutcome(PutRequest(c, id, row), id, row.providerRequestId, row.response, row.metrics, row.failure);
      && Sound(calls', c') && RowOf(calls'[id], id, c') == row
      && forall r | r in calls :: RowOf(calls'[r], r, c') == RowOf(calls[r], r, c)
  {
    var calls' := calls[id := NewRecord(sid, row)];
    var c' := PutOutcome(PutRequest(c, id, row), id, row.providerRequestId, row.response, row.metrics, row.failure);
    forall f: Field ensures (id, f) in c' {
      match f case AgentId => case Model => case Request => case ProviderRequestId =>
        case Response => case Metrics => case Failure =>
    }
    forall r | r in calls ensures (calls[r].chunked ==> Readable(c', r)) && RowOf(calls[r], r, c') == RowOf(calls[r], r, c) {
      OtherRows(calls[r], r, c, c');
    }
    forall r | r in calls && calls[r].sessionId == sid ensures calls[r].callId != row.callId {
      HasId(calls, r);
    }
  }

  class CallLog {
    const maxCallsPerSession: int
    const payloads: Payloads
    var calls: Calls

    ghost predicate Valid()
      reads this, payloads
    {
      payloads.Valid() && Sound(calls, payloads.content)
    }

    ghost predicate Has(rowid: int)
      reads this, payloads
    {
      payloads.Valid() && rowid in calls && (calls[rowid].chunked ==> Readable(payloads.content, rowid))
    }

    ghost function RowAt(rowid: int): CallRow
      requires Has(rowid)
      reads this, payloads
    {
      RowOf(calls[rowid], rowid, payloads.content)
    }

    /** A log over the tables that earlier processes left, legacy records and chunked ones. */
    constructor (maxCallsPerSession: int, payloads: Payloads, calls: Calls)
      requires payloads.Valid() && Sound(calls, payloads.content)
      ensures Valid() && this.calls == calls && this.payloads == payloads
      ensures this.maxCallsPerSession == maxCallsPerSession
    {
      this.maxCallsPerSession, this.payloads, this.calls := maxCallsPerSession, payloads, calls;
    }

    method Find(sid: string, callId: string) returns (rowid: Option<int>)
      requires Valid()
      ensures rowid.Some? ==> rowid.value in calls && calls[rowid.value].sessionId == sid && calls[rowid.value].callId == callId
      ensures rowid.None? ==> forall r | r in calls :: calls[r].sessionId != sid || calls[r].callId != callId
      ensures rowid.None? ==> callId !in IdsOf(calls, sid)
    {
      var todo := calls.Items;
      while todo != {}
        invariant todo <= calls.Items
        invariant forall row | row in calls.Items - todo :: row.1.sessionId != sid || row.1.callId != callId
        decreases |todo|
      {
        var row :| row in todo;
        if row.1.sessionId == sid && row.1.callId == callId {
          return Some(row.0);
        }
        todo := todo - {row};
      }
      assert forall r | r in calls :: (r, calls[r]) in calls.Items;
      return None;
    }

    /** Some row id that no call has. */
    method NewRowid() returns (rowid: int)
      ensures rowid !in calls
    {
      rowid := 1;
      var todo := calls.Items;
      while todo != {}
        invariant todo <= calls.Items
        invariant forall row | row in calls.Items - todo :: row.0 < rowid
        decreases |todo|
      {
        var row :| row in todo;
        if rowid <= row.0 {
          rowid := row.0 + 1;
        }
        todo := todo - {row};
      }
      assert forall r | r in calls :: (r, calls[r]) in calls.Items;
    }

    method WriteRequest(rowid: int, row: CallRow)
      requires payloads.Valid() && RequestFits(payloads.codec, row)
      modifies payloads
      ensures payloads.Valid()
      ensures payloads.content == PutRequest(old(payloads.content), rowid, row)
    {
      payloads.Write(rowid, AgentId, Some(row.agentId));
      payloads.Write(rowid, Model, Some(row.model));
      payloads.Write(rowid, Request, Some(row.request));
    }

    method WriteOutcome(rowid: int, provider: Option<string>, response: Option<string>, metrics: Option<string>, failure: Option<string>)
      requires payloads.Valid() && OutcomeFits(payloads.codec, provider, response, metrics, failure)
      modifies payloads
      ensures payloads.Valid()
      ensures payloads.content == PutOutcome(old(payloads.content), rowid, provider, response, metrics, failure)
    {
      payloads.Write(rowid, ProviderRequestId, provider);
      payloads.Write(rowid, Response, response);
      payloads.Write(rowid, Metrics, metrics);
      payloads.Write(rowid, Failure, failure);
    }

    method ReadText(rowid: int, field: Field) returns (r: Result<string, LogError>)
      requires payloads.Valid()
      ensures (rowid, field) in payloads.content && payloads.content[(rowid, field)].Some? ==> r == Ok(payloads.content[(rowid, field)].value)
    {
      var stored := payloads.Read(rowid, field);
      match stored {
        case Err(e) => return Err(Unreadable(e));
        case Ok(None) => return Err(NotAString);
        case Ok(Some(text)) => return Ok(text);
      }
    }

    method ReadOptional(rowid: int, field: Field) returns (r: Result<Option<string>, LogError>)
      requires payloads.Valid()
      ensures (rowid, field) in payloads.content ==> r == Ok(payloads.content[(rowid, field)])
    {
      var stored := payloads.Read(rowid, field);
      match stored {
        case Err(e) => return Err(Unreadable(e));
        case Ok(text) => return Ok(text);
      }
    }

    /** Every reachable record reads back, in either format. */
    method ToRow(rowid: int) returns (r: Result<CallRow, LogError>)
      requires Has(rowid)
      ensures r == Ok(RowAt(rowid))
    {
      var rec := calls[rowid];
      if !rec.chunked {
        return Ok(CallRow(rec.callId, rec.agentId, rec.createdAt, rec.status, rec.retried == 1, rec.model, rec.request,
                          rec.completedAt, rec.durationMs, rec.providerRequestId, rec.response, rec.metrics, rec.failure));
      }
      var agentId := ReadText(rowid, AgentId);
      var model := ReadText(rowid, Model);
      var request := ReadText(rowid, Request);
      var provider := ReadOptional(rowid, ProviderRequestId);
      var response := ReadOptional(rowid, Response);
      var metrics := ReadOptional(rowid, Metrics);
      var failure := ReadOptional(rowid, Failure);
      return Ok(CallRow(rec.callId, agentId.value, rec.createdAt, rec.status, rec.retried == 1, model.value, request.value,
                        rec.completedAt, rec.durationMs, provider.value, response.value, metrics.value, failure.value));
    }

    method Get(sid: string, callId: string) returns (r: Result<Option<CallRow>, LogError>)
      requires Valid()
      ensures forall q | q in calls && calls[q].sessionId == sid && calls[q].callId == callId :: r == Ok(Some(RowAt(q)))
      ensures (forall q | q in calls :: calls[q].sessionId != sid || calls[q].callId != callId) ==> r == Ok(None)
    {
      var rowid := Find(sid, callId);
      if rowid.None? {
        return Ok(None);
      }
      var row := ToRow(rowid.value);
      return Ok(Some(row.value));
    }

    /** A legacy call moves its request half to chunks and keeps the legacy flag until the end. */
    method MoveRequest(rowid: int)
      requires Has(rowid) && RequestFits(payloads.codec, RowAt(rowid))
      modifies this, payloads
      ensures payloads.Valid()
      ensures calls == if old(calls[rowid]).chunked then old(calls) else old(calls)[rowid := BlankRequest(old(calls[rowid]))]
      ensures payloads.content ==
        if old(calls[rowid]).chunked then old(payloads.content) else PutRequest(old(payloads.content), rowid, old(RowAt(rowid)))
    {
      if !calls[rowid].chunked {
        var legacy := ToRow(rowid);
        WriteRequest(rowid, legacy.value);
        calls := calls[rowid := BlankRequest(calls[rowid])];
      }
    }

    method CompleteAt(rowid: int, outcome: Outcome)
      requires Has(rowid)
      requires OutcomeFits(payloads.codec, outcome.providerRequestId, outcome.response, outcome.metrics, outcome.failure)
      requires RequestFits(payloads.codec, RowAt(rowid))
      modifies this, payloads
      ensures payloads.Valid()
      ensures calls == old(calls)[rowid := RecordAfter(old(calls[rowid]), outcome)]
      ensures payloads.content == ContentAfter(old(calls[rowid]), rowid, old(payloads.content), outcome)
    {
      MoveRequest(rowid);
      WriteOutcome(rowid, outcome.providerRequestId, outcome.response, outcome.metrics, outcome.failure);
      calls := calls[rowid := CompleteRecord(calls[rowid], outcome)];
    }

    method CompleteFound(rowid: int, outcome: Outcome)
      requires Valid() && rowid in calls && RequestFits(payloads.codec, RowAt(rowid))
      requires OutcomeFits(payloads.codec, outcome.providerRequestId, outcome.response, outcome.metrics, outcome.failure)
      modifies this, payloads
      ensures Valid() && calls.Keys == old(calls).Keys && calls[rowid].chunked
      ensures forall r | r in calls ::
        && calls[r].sessionId == old(calls[r].sessionId) && calls[r].callId == old(calls[r].callId)
        && RowAt(r) == if r == rowid then Completed(old(RowAt(r)), outcome) else old(RowAt(r))
    {
      CompleteEffect(calls, payloads.content, rowid, outcome);
      CompleteAt(rowid, outcome);
    }

    /**
     * A legacy record is first moved to chunks. Whatever the format was, the one call keeps its
     * request half and takes the outcome, and every other call is as before.
     */
    method Complete(sid: string, callId: string, outcome: Outcome)
      requires Valid()
      requires OutcomeFits(payloads.codec, outcome.providerRequestId, outcome.response, outcome.metrics, outcome.failure)
      requires forall r | r in calls :: RequestFits(payloads.codec, RowAt(r))
      modifies this, payloads
      ensures Valid() && calls.Keys == old(calls).Keys
      ensures forall r | r in calls ::
        && calls[r].sessionId == old(calls[r].sessionId)
        && RowAt(r) == if old(calls[r].sessionId == sid && calls[r].callId == callId) then Completed(old(RowAt(r)), outcome) else old(RowAt(r))
      ensures forall r | r in calls && calls[r].sessionId == sid && calls[r].callId == callId :: calls[r].chunked
    {
      var found := Find(sid, callId);
      if found.None? {
        return;
      }
      CompleteFound(found.value, outcome);
    }

    /** DELETE of one call, with its trigger. */
    method DeleteCall(rowid: int)
      requires Valid()
      modifies this, payloads
      ensures Valid() && calls == old(calls) - {rowid}
      ensures forall r | r in calls :: RowAt(r) == old(RowAt(r))
    {
      payloads.DeleteCall(rowid);
      calls := calls - {rowid};
    }

    /** DELETE of several calls, with the trigger for each. */
    method DeleteCalls(doomed: set<(int, Record)>)
      requires Valid() && doomed <= calls.Items
      modifies this, payloads
      ensures Valid()
      ensures forall r :: r in calls <==> r in old(calls) && (r, old(calls[r])) !in doomed
      ensures forall r | r in calls :: calls[r] == old(calls[r]) && RowAt(r) == old(RowAt(r))
    {
      var todo := doomed;
      while todo != {}
        invariant Valid() && todo <= doomed && todo <= calls.Items
        invariant forall r :: r in calls <==> r in old(calls) && (r, old(calls[r])) !in doomed - todo
        invariant forall r | r in calls :: calls[r] == old(calls[r]) && RowAt(r) == old(RowAt(r))
        decreases |todo|
      {
        var row :| row in todo;
        forall other | other in todo - {row} ensures other in (calls - {row.0}).Items {
          RowStays(calls, row, other);
        }
        DeleteCall(row.0);
        todo := todo - {row};
      }
    }

    /** The retention rule, as the statement computes it: delete below the id at offset cap-1. */
    method Trim(sid: string)
      requires Valid()
      modifies this, payloads
      ensures Valid()
      ensures forall r :: r in calls <==> r in old(calls) && Survives(old(calls), r, sid, IdsOf(old(calls), sid), maxCallsPerSession)
      ensures forall r | r in calls :: calls[r] == old(calls[r]) && RowAt(r) == old(RowAt(r))
    {
      if maxCallsPerSession <= 0 {
        return;
      }
      var ids := set row | row in calls.Items && row.1.sessionId == sid :: row.1.callId;
      var threshold := AtOffset(ids, maxCallsPerSession - 1);
      forall r | r in calls && calls[r].sessionId == sid
        ensures (threshold.Some? && Order.Before(calls[r].callId, threshold.value)) <==> !Retained(ids, calls[r].callId, maxCallsPerSession)
      {
        HasId(calls, r);
        ThresholdIsRetention(ids, maxCallsPerSession, threshold, calls[r].callId);
      }
      if threshold.None? {
        return;
      }
      DeleteCalls(set row | row in calls.Items && row.1.sessionId == sid && Order.Before(row.1.callId, threshold.value));
    }

    method InsertCall(sid: string, id: int, row: CallRow)
      requires Valid() && RequestFits(payloads.codec, row) && id !in calls && row.callId !in IdsOf(calls, sid)
      requires OutcomeFits(payloads.codec, row.providerRequestId, row.response, row.metrics, row.failure)
      modifies this, payloads
      ensures Valid() && id in calls && calls == old(calls)[id := calls[id]]
      ensures calls[id].sessionId == sid && calls[id].callId == row.callId && calls[id].chunked && RowAt(id) == row
      ensures forall r | r in old(calls) :: RowAt(r) == old(RowAt(r))
    {
      InsertEffect(calls, payloads.content, sid, id, row);
      calls := calls[id := NewRecord(sid, row)];
      WriteRequest(id, row);
      WriteOutcome(id, row.providerRequestId, row.response, row.metrics, row.failure);
    }

    /** Refused for a call id the session already holds, and then nothing changes. */
    method Create(sid: string, row: CallRow) returns (ok: bool, ghost rowid: int)
      requires Valid() && RequestFits(payloads.codec, row)
      requires OutcomeFits(payloads.codec, row.providerRequestId, row.response, row.metrics, row.failure)
      modifies this, payloads
      ensures Valid()
      ensures ok <==> row.callId !in IdsOf(old(calls), sid)
      ensures !ok ==> calls == old(calls) && payloads.content == old(payloads.content)
      ensures ok ==> rowid !in old(calls)
      ensures ok ==> (rowid in calls <==> Retained(IdsOf(old(calls), sid) + {row.callId}, row.callId, maxCallsPerSession))
      ensures ok ==> (rowid in calls ==> calls[rowid].sessionId == sid && calls[rowid].chunked && RowAt(rowid) == row)
      ensures ok ==> forall r | r in old(calls) ::
        (r in calls <==> Survives(old(calls), r, sid, IdsOf(old(calls), sid) + {row.callId}, maxCallsPerSession))
      ensures ok ==> forall r | r in calls && r != rowid :: r in old(calls) && calls[r] == old(calls[r]) && RowAt(r) == old(RowAt(r))
    {
      rowid := 0;
      var found := Find(sid, row.callId);
      if found.Some? {
        HasId(calls, found.value);
        return false, rowid;
      }
      var id := NewRowid();
      InsertCall(sid, id, row);
      NewIds(old(calls), calls, sid, id);
      Trim(sid);
      return true, id;
    }

    method Delete(sid: string) returns (count: nat)
      requires Valid()
      modifies this, payloads
      ensures Valid()
      ensures count == |set row | row in old(calls).Items && row.1.sessionId == sid|
      ensures forall r :: r in calls <==> r in old(calls) && old(calls[r].sessionId) != sid
      ensures forall r | r in calls :: calls[r] == old(calls[r]) && RowAt(r) == old(RowAt(r))
    {
      var doomed := set row | row in calls.Items && row.1.sessionId == sid;
      count := |doomed|;
      DeleteCalls(doomed);
    }
  }
}
