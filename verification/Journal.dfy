/** How the entry of each call reads in the audit viewer: the action, the kind of entity and the
    row it is filed under, as core names them. */
module Journal {
  import opened Text
  import opened Schema
  import opened Registry
  import opened LogTruth
  import Invariants
  import opened Tabular
  import opened AuditQuery

  function ActionOf(op: Op): string {
    match op
    case Bootstrap(_) => "tenant.bootstrap"
    case CreatePerson(_) => "person.create"
    case RenamePerson(_, _) => "person.rename"
    case CreateSystem(_) => "system.create"
    case RenameSystem(_, _) => "system.rename"
    case DisableSystem(_) => "system.disable"
    case EnableSystem(_) => "system.enable"
    case CreateAssociation(_, _, _) => "association.create"
    case RemoveAssociation(_, _) => "association.remove"
    case PromoteSteward(_) => "steward.invite"
    case DemoteSteward(_) => "steward.demote"
    case CancelInvite(_) => "steward.uninvite"
    case ClaimInvite => "steward.promote"
  }

  /** The kind of entity and the id a call files its entry under, 0 for none: associations
      under their person, invitations under no steward row. */
  function FiledUnder(s: State, op: Op): (string, int) {
    match op
    case Bootstrap(_) => ("tenant", 0)
    case CreatePerson(_) => ("person", s.t.personSeq + 1)
    case RenamePerson(id, _) => ("person", id)
    case CreateSystem(_) => ("system", s.t.systemSeq + 1)
    case RenameSystem(id, _) => ("system", id)
    case DisableSystem(id) => ("system", id)
    case EnableSystem(id) => ("system", id)
    case CreateAssociation(p, _, _) => ("person", p)
    case RemoveAssociation(p, _) => ("person", p)
    case PromoteSteward(_) => ("steward", 0)
    case DemoteSteward(id) => ("steward", id)
    case CancelInvite(_) => ("steward", 0)
    case ClaimInvite => ("steward", s.t.stewardSeq + 1)
  }

  predicate AboutRows(op: Op) {
    op.CreatePerson? || op.RenamePerson? || op.CreateAssociation? || op.RemoveAssociation?
  }

  predicate AboutSystems(op: Op) {
    op.CreateSystem? || op.RenameSystem? || op.DisableSystem? || op.EnableSystem?
  }

  /** The event of the call reads as the call. */
  ghost predicate Reads(s: State, req: Request, e: Event) {
    var (kind, id) := FiledUnder(s, req.op);
    && e.Action() == ActionOf(req.op) && e.EntityType() == kind
    && e.EntityId() == if id == 0 then None else Some(id)
  }

  lemma RowEventReads(s: State, req: Request)
    requires Decide(s, req).Change? && Decide(s, req).event.Some? && AboutRows(req.op)
    ensures Reads(s, req, Decide(s, req).event.value)
  {
  }

  lemma SystemEventReads(s: State, req: Request)
    requires Decide(s, req).Change? && Decide(s, req).event.Some? && AboutSystems(req.op)
    ensures Reads(s, req, Decide(s, req).event.value)
  {
  }

  lemma StewardEventReads(s: State, req: Request)
    requires Decide(s, req).Change? && Decide(s, req).event.Some?
    requires !AboutRows(req.op) && !AboutSystems(req.op)
    ensures Reads(s, req, Decide(s, req).event.value)
  {
  }

  lemma EventReads(s: State, req: Request)
    requires Decide(s, req).Change? && Decide(s, req).event.Some?
    ensures Reads(s, req, Decide(s, req).event.value)
  {
    hide Decide, Reads;
    if AboutRows(req.op) {
      RowEventReads(s, req);
    } else if AboutSystems(req.op) {
      SystemEventReads(s, req);
    } else {
      StewardEventReads(s, req);
    }
  }

  /** A call that files an entry files one, at the end, and it reads as the call: its clock,
      its actor, its action, and the entity it was about. */
  lemma EntryReads(s: State, req: Request)
    requires Step(s, req).st.log != s.log
    ensures var log, (kind, id) := Step(s, req).st.log, FiledUnder(s, req.op);
            && |log| == |s.log| + 1 && log[..|s.log|] == s.log
            && ToEvent(log[|s.log|]) ==
               AuditEvent(|s.log| + 1, req.at, req.actor.oid, req.actor.upn,
                          ActionOf(req.op), kind, id, log[|s.log|].event)
  {
    FiledEntry(s, req);
    EventReads(s, req);
    hide Step, Decide, FiledUnder, ActionOf;
  }

  lemma FiledEntry(s: State, req: Request)
    requires Step(s, req).st.log != s.log
    ensures Decide(s, req).Change? && Decide(s, req).event.Some?
    ensures Step(s, req).st.log == s.log + [Entry(s, req)]
  {
    hide Decide, ExecAll;
    if Decide(s, req).Change? {
      StepChange(s, req);
      Invariants.WriteKinds(s, req);
      WritesKeepLog(Decide(s, req).writes, s);
    }
  }

  /** The history of an entity gains the call's entry exactly if the call was about it: a
      person's has its links, by the person's id, and no other person's. */
  lemma HistoryGains(s: State, req: Request, kind: string, id: int)
    requires Step(s, req).st.log != s.log
    ensures var log, (kind', id') := Step(s, req).st.log, FiledUnder(s, req.op);
            |log| == |s.log| + 1 &&
            multiset(ForEntity(log, kind, id)) ==
            multiset(ForEntity(s.log, kind, id)) +
            if kind == kind' && id == id' != 0 then multiset{log[|s.log|]} else multiset{}
  {
    FiledEntry(s, req);
    EventReads(s, req);
    hide Step, Decide, FiledUnder, ActionOf;
    var row := Entry(s, req);
    var keep := (r: AuditRow) => About(r, kind, id);
    FilterLast(s.log, row, keep);
    OrderByPermutes(Filter(s.log, keep), NEWER);
    OrderByPermutes(Filter(s.log + [row], keep), NEWER);
  }

  lemma {:induction false} FilterLast<T>(rows: seq<T>, x: T, keep: T -> bool)
    ensures Filter(rows + [x], keep) == Filter(rows, keep) + if keep(x) then [x] else []
  {
    if rows == [] {
      assert rows + [x] == [x] && [x][1..] == [];
      assert Filter([x][1..], keep) == [];
    } else {
      var more := rows + [x];
      assert more[0] == rows[0] && more[1..] == rows[1..] + [x];
      FilterLast(rows[1..], x, keep);
      var first := if keep(rows[0]) then [rows[0]] else [];
      assert Filter(more, keep) == first + Filter(more[1..], keep);
      assert Filter(rows, keep) == first + Filter(rows[1..], keep);
    }
  }
}
