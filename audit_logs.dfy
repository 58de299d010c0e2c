/**
 * The audit trail (src/app/api/audit-logs/route.js): GET filters the entries, orders them newest
 * first and returns one page with the total count; POST appends an entry.
 *
 * Dates are seconds; query-string numbers are taken as already parsed.
 */
module AuditLogs {
  import opened Common
  import opened Tables

  const DefaultLimit: nat := 50
  const DefaultOffset: nat := 0

  /** The query-string parameters; an absent parameter is `None`. */
  datatype AuditQuery = AuditQuery(userId: Option<string>, action: Option<string>, entity: Option<string>,
                                   startDate: Option<int>, endDate: Option<int>,
                                   limit: Option<nat>, offset: Option<nat>)

  /** The GET body: one page of entries, the number of entries the filters select, and the window. */
  datatype Page = Page(logs: seq<AuditEntry>, total: nat, limit: nat, offset: nat)

  /** The POST body. */
  datatype NewEntry = NewEntry(userId: string, action: string, entity: string,
                               entityId: Option<string>, details: Details)

  /** A text filter applies only when the parameter is present and non-empty. */
  predicate TextFilter(param: Option<string>, column: string) {
    Present(param) ==> column == param.value
  }

  /** An entry passes every filter the query sets; the date bounds are inclusive. */
  predicate Matches(q: AuditQuery, e: AuditEntry) {
    && TextFilter(q.userId, e.userId)
    && TextFilter(q.action, e.action)
    && TextFilter(q.entity, e.entity)
    && (q.startDate.Some? ==> e.createdAt >= q.startDate.value)
    && (q.endDate.Some? ==> e.createdAt <= q.endDate.value)
  }

  function Filtered(rows: seq<AuditEntry>, q: AuditQuery): seq<AuditEntry> {
    Where(rows, (e: AuditEntry) => Matches(q, e))
  }

  function CreatedAt(e: AuditEntry): int {
    e.createdAt
  }

  function Min(a: int, b: int): int {
    if a <= b then a else b
  }

  /** `.range(offset, offset + limit - 1)`: at most `limit` rows starting at `offset`. */
  function Window(s: seq<AuditEntry>, offset: nat, limit: nat): (w: seq<AuditEntry>)
    ensures |w| <= limit
    ensures |w| == if offset >= |s| then 0 else Min(limit, |s| - offset)
    ensures forall i :: 0 <= i < |w| ==> w[i] == s[offset + i]
  {
    if offset >= |s| then [] else s[offset..Min(offset + limit, |s|)]
  }

  /** A page of the newest-first order is itself newest first and holds only selected entries. */
  lemma PageOfSorted(matching: seq<AuditEntry>, offset: nat, limit: nat)
    ensures var page := Window(SortDesc(matching, CreatedAt), offset, limit);
      && SortedDesc(page, CreatedAt)
      && forall e :: e in page ==> e in matching
  {
    var sorted := SortDesc(matching, CreatedAt);
    var page := Window(sorted, offset, limit);
    forall e | e in page ensures e in matching {
      var i :| 0 <= i < |page| && page[i] == e;
      assert sorted[offset + i] in multiset(sorted);
    }
  }

  /** GET: the page of matching entries, newest first. */
  function QueryLogs(rows: seq<AuditEntry>, q: AuditQuery, queryError: Option<string>): (r: Response<Page>)
    ensures queryError.Some? ==> r == Failure(500, queryError.value)
    ensures queryError.None? ==>
      && r.Success?
      && r.value.limit == (if q.limit.Some? then q.limit.value else DefaultLimit)
      && r.value.offset == (if q.offset.Some? then q.offset.value else DefaultOffset)
      && r.value.total == |Filtered(rows, q)|
      && r.value.logs == Window(SortDesc(Filtered(rows, q), CreatedAt), r.value.offset, r.value.limit)
      && |r.value.logs| == (if r.value.offset >= r.value.total then 0
                            else Min(r.value.limit, r.value.total - r.value.offset))
      && |r.value.logs| <= r.value.limit
      && SortedDesc(r.value.logs, CreatedAt)
      && (forall e :: e in r.value.logs ==> e in rows && Matches(q, e))
  {
    if queryError.Some? then Failure(500, queryError.value)
    else
      var limit := if q.limit.Some? then q.limit.value else DefaultLimit;
      var offset := if q.offset.Some? then q.offset.value else DefaultOffset;
      var matching := Filtered(rows, q);
      var sorted := SortDesc(matching, CreatedAt);
      var page := Window(sorted, offset, limit);
      PageOfSorted(matching, offset, limit);
      SortDescLength(matching, CreatedAt);
      Success(Page(page, |matching|, limit, offset))
  }

  /** Without filters, every entry is counted. */
  lemma NoFiltersKeepAll(rows: seq<AuditEntry>, limit: Option<nat>, offset: Option<nat>)
    ensures Filtered(rows, AuditQuery(None, None, None, None, None, limit, offset)) == rows
  {
  }

  /** Adding a user filter narrows the selection to that user's entries and keeps their order. */
  lemma UserFilterNarrows(rows: seq<AuditEntry>, q: AuditQuery, userId: string)
    requires q.userId.None? && userId != ""
    ensures var narrowed := Filtered(rows, q.(userId := Some(userId)));
      && (forall e :: e in narrowed <==> e in Filtered(rows, q) && e.userId == userId)
      && IsSubsequence(narrowed, rows)
  {
  }

  /**
   * Paging covers the sorted selection without gaps or overlap: two consecutive pages of size
   * `limit` are the page of size `2 * limit` at the same offset.
   */
  lemma ConsecutivePages(s: seq<AuditEntry>, offset: nat, limit: nat)
    ensures Window(s, offset, limit) + Window(s, offset + limit, limit) == Window(s, offset, 2 * limit)
  {
    var a, b, c := Window(s, offset, limit), Window(s, offset + limit, limit), Window(s, offset, 2 * limit);
    assert |a + b| == |c|;
    forall i | 0 <= i < |c| ensures (a + b)[i] == c[i] {
      if i >= |a| {
        assert (a + b)[i] == b[i - |a|];
      }
    }
  }

  /** The pages at offsets 0, limit, 2 * limit, ... concatenate to the whole sorted selection. */
  function AllPages(s: seq<AuditEntry>, offset: nat, limit: nat): seq<AuditEntry>
    requires limit > 0
    decreases |s| - offset
  {
    if offset >= |s| then [] else Window(s, offset, limit) + AllPages(s, offset + limit, limit)
  }

  lemma {:induction false} AllPagesCover(s: seq<AuditEntry>, offset: nat, limit: nat)
    requires limit > 0 && offset <= |s|
    ensures AllPages(s, offset, limit) == s[offset..]
    decreases |s| - offset
  {
    if offset < |s| {
      if offset + limit <= |s| {
        AllPagesCover(s, offset + limit, limit);
        assert s[offset..] == s[offset..offset + limit] + s[offset + limit..];
      } else {
        assert AllPages(s, offset + limit, limit) == [];
      }
    }
  }

  /** POST: append an entry stamped with the caller's address and browser, or `unknown`. */
  method Append(db: Database, body: Option<NewEntry>, now: int,
                forwardedFor: Option<string>, userAgent: Option<string>, insertError: Option<string>)
    returns (resp: Response<()>)
    modifies db`auditLogs
    ensures body.None? ==> resp == Failure(500, InternalError)
    ensures body.Some? && insertError.Some? ==> resp == Failure(500, insertError.value)
    ensures resp.Failure? ==> db.auditLogs == old(db.auditLogs)
    ensures body.Some? && insertError.None? ==>
      var e := body.value;
      && resp == Success(())
      && db.auditLogs == old(db.auditLogs)
           + [AuditEntry(e.userId, e.action, e.entity, e.entityId, e.details,
                         OrUnknown(forwardedFor), Some(OrUnknown(userAgent)), now)]
  {
    if body.None? {
      return Failure(500, InternalError);
    }
    var ipAddress := OrUnknown(forwardedFor);
    var agent := OrUnknown(userAgent);
    if insertError.Some? {
      return Failure(500, insertError.value);
    }
    var e := body.value;
    db.auditLogs := db.auditLogs
      + [AuditEntry(e.userId, e.action, e.entity, e.entityId, e.details, ipAddress, Some(agent), now)];
    resp := Success(());
  }

  /** An entry appended now is found by a query for its user, action and entity from `now` on. */
  lemma AppendedEntryIsFound(rows: seq<AuditEntry>, e: AuditEntry)
    requires e.userId != "" && e.action != ""
    ensures e in Filtered(rows + [e], AuditQuery(Some(e.userId), Some(e.action), None,
                                                 Some(e.createdAt), None, None, None))
  {
  }
}
