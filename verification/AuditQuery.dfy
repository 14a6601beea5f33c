/** The audit viewer: the filter store.ListAudit builds and the page of rows it returns. */
module AuditQuery {
  import opened Text
  import opened Schema
  import opened Calendar
  import opened Tabular
  import opened Invariants

  const DEFAULT_AUDIT_LIMIT := 200
  const MAX_AUDIT_LIMIT := 5000

  datatype Query = Query(entityType: string, entityId: int, actor: string, from: string, to: string, limit: int)

  /** A full row as the viewer shows it; a NULL entity_id reads as 0. */
  datatype AuditEvent = AuditEvent(
    id: int, occurredAt: string, actorOid: string, actorUpn: string,
    action: string, entityType: string, entityId: int, details: Event)

  /** One "column op ?" condition with its argument. */
  datatype Cond =
    | EntityTypeIs(entityType: string)
    | EntityIdIs(id: int)
    | ActorIs(upn: string)
    | AtOrAfter(bound: string)
    | Before(bound: string)

  /** SQL truth of a condition: a NULL entity_id equals nothing. */
  predicate Holds(c: Cond, row: AuditRow) {
    match c
    case EntityTypeIs(et) => row.event.EntityType() == et
    case EntityIdIs(id) => row.event.EntityId() == Some(id)
    case ActorIs(upn) => row.actor.upn == upn
    case AtOrAfter(bound) => !Less(row.at, bound)
    case Before(bound) => Less(row.at, bound)
  }

  /** What the filter means: each field that is set must agree with the row. An entity id
      counts only beside an entity type, and a day that does not parse is ignored. */
  predicate Matches(q: Query, row: AuditRow) {
    && (Trim(q.entityType) != "" ==>
          row.event.EntityType() == Trim(q.entityType) &&
          (q.entityId > 0 ==> row.event.EntityId() == Some(q.entityId)))
    && (Trim(q.actor) != "" ==> row.actor.upn == Trim(q.actor))
    && (ParseDay(Trim(q.from)).Some? ==> !Less(row.at, DayLowerBound(q.from)))
    && (ParseDay(Trim(q.to)).Some? ==> Less(row.at, DayUpperBound(q.to)))
  }

  /** ORDER BY occurred_at DESC, id DESC. */
  predicate Newer(a: AuditRow, b: AuditRow) {
    Less(b.at, a.at) || (a.at == b.at && a.id > b.id)
  }

  const NEWER := (a: AuditRow, b: AuditRow) => Newer(a, b)

  function AuditLimit(n: int): nat {
    if n <= 0 then DEFAULT_AUDIT_LIMIT else if n > MAX_AUDIT_LIMIT then MAX_AUDIT_LIMIT else n
  }

  predicate HoldAll(conds: seq<Cond>, row: AuditRow) {
    forall c | c in conds :: Holds(c, row)
  }

  lemma HoldAllNone()
    ensures forall row :: HoldAll([], row)
  {
  }

  /** One more condition. */
  function And(conds: seq<Cond>, c: Cond): (more: seq<Cond>)
    ensures forall row :: HoldAll(more, row) <==> HoldAll(conds, row) && Holds(c, row)
  {
    assert forall row :: HoldAll(conds + [c], row) <==> HoldAll(conds, row) && Holds(c, row) by {
      assert (conds + [c])[|conds|] == c;
      forall d
        ensures d in conds + [c] <==> d in conds || d == c
      {
      }
    }
    conds + [c]
  }

  /** SELECT ... FROM audit_log WHERE conds joined by AND. */
  function Where(log: seq<AuditRow>, conds: seq<Cond>): seq<AuditRow> {
    Filter(log, (row: AuditRow) => HoldAll(conds, row))
  }

  function Matching(log: seq<AuditRow>, q: Query): seq<AuditRow> {
    Filter(log, (row: AuditRow) => Matches(q, row))
  }

  /** ORDER BY occurred_at DESC, id DESC LIMIT n. */
  function Newest(rows: seq<AuditRow>, n: nat): seq<AuditRow> {
    var sorted := OrderBy(rows, NEWER);
    if |sorted| <= n then sorted else sorted[..n]
  }

  function Page(log: seq<AuditRow>, q: Query): seq<AuditRow> {
    Newest(Matching(log, q), AuditLimit(q.limit))
  }

  function ToEvent(row: AuditRow): AuditEvent {
    AuditEvent(row.id, row.at, row.actor.oid, row.actor.upn, row.event.Action(), row.event.EntityType(),
               if row.event.EntityId().Some? then row.event.EntityId().value else 0, row.event)
  }

  /** ListAudit returns the page of its query. */
  method ListAudit(log: seq<AuditRow>, q: Query) returns (events: seq<AuditEvent>)
    ensures |events| == |Page(log, q)|
    ensures forall k | 0 <= k < |events| :: events[k] == ToEvent(Page(log, q)[k])
  {
    hide OrderBy, Filter, Less, Trim, DayLowerBound, DayUpperBound, ParseDay, HoldAll;
    var conds: seq<Cond> := [];
    assert forall row :: HoldAll(conds, row) by {
      HoldAllNone();
    }
    var et := Trim(q.entityType);
    if et != "" {
      conds := And(conds, EntityTypeIs(et));
      if q.entityId > 0 {
        conds := And(conds, EntityIdIs(q.entityId));
      }
    }
    var a := Trim(q.actor);
    if a != "" {
      conds := And(conds, ActorIs(a));
    }
    var lo := DayLowerBound(q.from);
    if lo != "" {
      conds := And(conds, AtOrAfter(lo));
    }
    var hi := DayUpperBound(q.to);
    if hi != "" {
      conds := And(conds, Before(hi));
    }
    BoundsParse(q);
    forall row: AuditRow
      ensures HoldAll(conds, row) == Matches(q, row)
    {
    }
    FilterSame(log, (row: AuditRow) => HoldAll(conds, row), (row: AuditRow) => Matches(q, row));
    var rows := Newest(Where(log, conds), AuditLimit(q.limit));
    events := [];
    for i := 0 to |rows|
      invariant |events| == i
      invariant forall k | 0 <= k < i :: events[k] == ToEvent(rows[k])
    {
      events := events + [ToEvent(rows[i])];
    }
  }

  lemma BoundsParse(q: Query)
    ensures DayLowerBound(q.from) != "" <==> ParseDay(Trim(q.from)).Some?
    ensures DayUpperBound(q.to) != "" <==> ParseDay(Trim(q.to)).Some?
  {
  }

  lemma NewerIsTransitive()
    ensures Transitive(NEWER)
  {
    forall a, b, c | Newer(a, b) && Newer(b, c)
      ensures Newer(a, c)
    {
      if Less(b.at, a.at) && Less(c.at, b.at) {
        LessTransitive(c.at, b.at, a.at);
      }
    }
  }

  lemma NewerDecides(log: seq<AuditRow>)
    requires LogNumbered(log)
    ensures Decides(NEWER, log)
  {
    forall i, j | 0 <= i < j < |log|
      ensures Newer(log[i], log[j]) || Newer(log[j], log[i])
    {
      LessTotal(log[i].at, log[j].at);
    }
  }

  /** Descending by stored time, and by id where that is equal. */
  ghost predicate LaterThan(a: AuditRow, b: AuditRow) {
    !Less(a.at, b.at) && (a.at == b.at ==> b.id < a.id)
  }

  lemma NewerIsLater(a: AuditRow, b: AuditRow)
    ensures Newer(a, b) ==> LaterThan(a, b) && !LaterThan(b, a)
  {
    LessTotal(a.at, b.at);
  }

  /** What the page is, on any log: only matching rows, newest first by stored time and then
      id, never more than the limit; all of them when they fit, and otherwise exactly the
      limit, each newer than every matching row left out. */
  lemma PageIsNewestMatches(log: seq<AuditRow>, q: Query)
    requires LogNumbered(log)
    ensures var page, n, all := Page(log, q), AuditLimit(q.limit), Matching(log, q);
            && n == (if q.limit <= 0 then 200 else if q.limit <= 5000 then q.limit else 5000)
            && |page| == (if |all| <= n then |all| else n)
            && (forall i, j | 0 <= i < j < |page| :: LaterThan(page[i], page[j]))
            && (forall row | row in page :: row in log && Matches(q, row))
            && (forall row | row in log && Matches(q, row) && row !in page ::
                  forall k | 0 <= k < |page| :: LaterThan(page[k], row))
            && (|all| <= n ==> forall row | row in log && Matches(q, row) :: row in page)
  {
    SortedMatches(log, q);
    assert forall a, b | Newer(a, b) :: LaterThan(a, b) by {
      forall a, b | Newer(a, b)
        ensures LaterThan(a, b)
      {
        NewerIsLater(a, b);
      }
    }
    hide Matches, Newer, LaterThan, OrderBy, Matching, LogNumbered;
    var rows := OrderBy(Matching(log, q), NEWER);
    var page := Page(log, q);
    forall row | row in log && Matches(q, row) && row !in page
      ensures forall k | 0 <= k < |page| :: LaterThan(page[k], row)
    {
      var j :| 0 <= j < |rows| && rows[j] == row;
      assert forall k | 0 <= k < |page| :: page[k] == rows[k] && k < j;
    }
  }

  lemma SortedMatches(log: seq<AuditRow>, q: Query)
    requires LogNumbered(log)
    ensures var rows := OrderBy(Matching(log, q), NEWER);
            && |rows| == |Matching(log, q)|
            && (forall i, j | 0 <= i < j < |rows| :: Newer(rows[i], rows[j]))
            && (forall row :: row in rows <==> row in log && Matches(q, row))
  {
    hide Matches, OrderBy, LogNumbered, Less, Trim;
    NewerIsTransitive();
    NewerDecides(log);
    var keep := (row: AuditRow) => Matches(q, row);
    FilterDecides(log, keep, NEWER);
    FilterKeeps(log, keep);
    OrderByOrders(Matching(log, q), NEWER);
    OrderByPermutes(Matching(log, q), NEWER);
    var rows := OrderBy(Matching(log, q), NEWER);
    forall row
      ensures row in rows <==> row in log && Matches(q, row)
    {
      SameElements(rows, Matching(log, q), row);
    }
  }

  predicate About(row: AuditRow, entityType: string, entityId: int) {
    row.event.EntityType() == entityType && row.event.EntityId() == Some(entityId)
  }

  /** ListAuditForEntity: one entity's history, without a limit. */
  function ForEntity(log: seq<AuditRow>, entityType: string, entityId: int): seq<AuditRow> {
    OrderBy(Filter(log, (row: AuditRow) => About(row, entityType, entityId)), NEWER)
  }

  /** One entity's history is every row about it, each once, newest first. */
  lemma HistoryIsOrdered(log: seq<AuditRow>, entityType: string, entityId: int)
    requires LogNumbered(log)
    ensures var rows := ForEntity(log, entityType, entityId);
            && (forall row :: row in rows <==> row in log && About(row, entityType, entityId))
            && (forall i, j | 0 <= i < j < |rows| :: LaterThan(rows[i], rows[j]) && rows[i].id != rows[j].id)
  {
    var keep := (row: AuditRow) => About(row, entityType, entityId);
    var part, rows := Filter(log, keep), ForEntity(log, entityType, entityId);
    NewerIsTransitive();
    NewerDecides(log);
    FilterDecides(log, keep, NEWER);
    FilterKeeps(log, keep);
    OrderByOrders(part, NEWER);
    OrderByPermutes(part, NEWER);
    hide OrderBy, About, Filter;
    forall row
      ensures row in rows <==> row in log && About(row, entityType, entityId)
    {
      SameElements(rows, part, row);
    }
    forall i, j | 0 <= i < j < |rows|
      ensures LaterThan(rows[i], rows[j]) && rows[i].id != rows[j].id
    {
      assert NEWER(rows[i], rows[j]);
      NewerIsLater(rows[i], rows[j]);
      assert rows[i] in log && rows[j] in log;
      NotNewerThanItself(rows[i]);
      var a :| 0 <= a < |log| && log[a] == rows[i];
      var b :| 0 <= b < |log| && log[b] == rows[j];
    }
  }

  lemma NotNewerThanItself(a: AuditRow)
    ensures !Newer(a, a)
  {
    LessTotal(a.at, a.at);
  }

  /** A query for one entity alone is that entity's whole history, as long as it fits. */
  lemma PageProjectsToEntity(log: seq<AuditRow>, q: Query)
    requires Trim(q.entityType) != "" && q.entityId > 0 && Trim(q.actor) == ""
    requires ParseDay(Trim(q.from)).None? && ParseDay(Trim(q.to)).None?
    requires |ForEntity(log, Trim(q.entityType), q.entityId)| <= AuditLimit(q.limit)
    ensures Page(log, q) == ForEntity(log, Trim(q.entityType), q.entityId)
  {
    FilterSame(log, (row: AuditRow) => Matches(q, row),
               (row: AuditRow) => About(row, Trim(q.entityType), q.entityId));
  }

  /** The page is newest-first in time wherever two rows fall in different seconds. */
  lemma PageFollowsTime(log: seq<AuditRow>, q: Query, i: nat, j: nat, x: Stamp, y: Stamp)
    requires LogNumbered(log) && i < j < |Page(log, q)|
    requires ValidStamp(x) && ValidStamp(y) && !SameSecond(x, y)
    requires Page(log, q)[i].at == FormatStamp(x) && Page(log, q)[j].at == FormatStamp(y)
    ensures EarlierSecond(y, x)
  {
    PageIsNewestMatches(log, q);
    assert LaterThan(Page(log, q)[i], Page(log, q)[j]);
    StampTextOrder(y, x);
    StampTextOrder(x, y);
    LessTotal(FormatStamp(x), FormatStamp(y));
  }
}
