/** core/associations.go, laid out like Persons. */
module Associations {
  import opened Text
  import opened Schema
  import opened Registry
  import opened Driver
  import opened Core

  lemma CreateGuards(s: State, req: Request)
    requires req.op.CreateAssociation?
    ensures var CreateAssociation(p, y, fid) := req.op;
            if req.actor.oid == "" then Step(s, req) == Outcome(s, Err(ActorRequired))
            else if Row(s.t.persons, p).None? || Row(s.t.systems, y).None? then
              Step(s, req) == Outcome(s, Err(NotFound))
            else Starts(s, req, InsertAssociation(p, y, Trim(fid), req.actor.upn))
  {
  }

  lemma CreateDone(s: State, req: Request, ws: seq<Write>, mid: State, done: State)
    requires req.op.CreateAssociation? && req.actor.oid != ""
    requires Row(s.t.persons, req.op.personId).Some? && Row(s.t.systems, req.op.systemId).Some?
    requires var CreateAssociation(p, y, fid) := req.op;
             ws == Audited(req, [InsertAssociation(p, y, Trim(fid), req.actor.upn)],
                           AssociationCreate(p, mid.t.linkSeq, y, Row(s.t.systems, y).value.name, Trim(fid)))
    requires Leads(s, ws, mid, done)
    ensures var back := GetAssociation(done.t, mid.t.linkSeq);
            back.Some? && Completes(s, req, ws, done, AssociationReply(back.value))
  {
    OneWriteStep(s, req, ws, mid, done);
  }

  /** A link is taken exactly when an actor is named and both rows exist. A disabled system
      still takes links, and a second link between the same two rows is a row of its own. */
  lemma LinkTakenExactly(s: State, req: Request)
    requires req.op.CreateAssociation?
    ensures var CreateAssociation(p, y, fid) := req.op;
            var o, id := Step(s, req), s.t.linkSeq + 1;
            && (o.result.Ok? <==> req.actor.oid != "" && p in s.t.persons && y in s.t.systems)
            && (o.result.Ok? ==>
                  o.st.t == s.t.(links := s.t.links[id := Link(id, p, y, Trim(fid), req.actor.upn)], linkSeq := id))
  {
    CreateGuards(s, req);
    var CreateAssociation(p, y, fid) := req.op;
    if req.actor.oid != "" && p in s.t.persons && y in s.t.systems {
      var mid := Exec(InsertAssociation(p, y, Trim(fid), req.actor.upn), s).value;
      var event := AssociationCreate(p, mid.t.linkSeq, y, s.t.systems[y].name, Trim(fid));
      var ws := Audited(req, [InsertAssociation(p, y, Trim(fid), req.actor.upn)], event);
      CreateDone(s, req, ws, mid, Exec(ws[1], mid).value);
    }
    hide Step;
  }

  method CreateAssociation(db: Database, actor: Actor, at: string,
                           personId: int, systemId: int, rawForeignId: string) returns (r: Result<Reply>)
    modifies db
    ensures var req := Request(actor, at, Op.CreateAssociation(personId, systemId, rawForeignId));
            Refines(old(db.state), db.state, req, r, old(db.Quiet())) && Issues(old(db.state), req, db.issued, r)
    ensures db.openTxs == old(db.openTxs) && (old(db.Quiet()) ==> db.Quiet())
  {
    hide ExecAll, Exec, Step, Decide, GetAssociation, Row, Trim, Plan, Database.Quiet;
    ghost var req := Request(actor, at, Op.CreateAssociation(personId, systemId, rawForeignId));
    db.issued := [];
    CreateGuards(db.state, req);
    if actor.oid == "" {
      return Err(ActorRequired);
    }
    var foreignId := Trim(rawForeignId);
    var tx, ok := db.BeginTx();
    if !ok {
      return Err(StoreFault);
    }
    label body: {
      var person := tx.QueryRow(Row(tx.work.t.persons, personId));
      if person.Err? {
        r := Err(Missing(person.error));
        break body;
      }
      var system := tx.QueryRow(Row(tx.work.t.systems, systemId));
      if system.Err? {
        r := Err(Missing(system.error));
        break body;
      }
      var inserted := tx.Run(InsertAssociation(personId, systemId, foreignId, actor.upn));
      if inserted.Err? {
        r := Err(inserted.error);
        break body;
      }
      var id := tx.work.t.linkSeq;
      ghost var mid := tx.work;
      var logged := WriteAudit(tx, at, actor, AssociationCreate(personId, id, systemId, system.value.name, foreignId));
      if logged.Err? {
        r := Err(logged.error);
        break body;
      }
      CreateDone(old(db.state), req, db.issued, mid, tx.work);
      var back := tx.QueryRow(GetAssociation(tx.work.t, id));
      if back.Err? {
        r := Err(back.error);
        break body;
      }
      var committed := tx.Commit();
      r := if committed.Err? then Err(committed.error) else Ok(AssociationReply(back.value));
    }
    if r.Err? {
      tx.Rollback();
    }
  }

  lemma RemoveGuards(s: State, req: Request)
    requires req.op.RemoveAssociation?
    ensures var found := GetAssociation(s.t, req.op.id);
            if req.actor.oid == "" then Step(s, req) == Outcome(s, Err(ActorRequired))
            else if found.None? || found.value.link.personId != req.op.personId then
              Step(s, req) == Outcome(s, Err(NotFound))
            else Starts(s, req, DeleteAssociation(req.op.id))
  {
  }

  lemma RemoveDone(s: State, req: Request, ws: seq<Write>, mid: State, done: State)
    requires req.op.RemoveAssociation? && req.actor.oid != ""
    requires GetAssociation(s.t, req.op.id).Some?
    requires GetAssociation(s.t, req.op.id).value.link.personId == req.op.personId
    requires var RemoveAssociation(p, id) := req.op;
             var Association(link, name) := GetAssociation(s.t, id).value;
             ws == Audited(req, [DeleteAssociation(req.op.id)],
                           AssociationRemove(p, id, link.systemId, name, link.foreignId))
    requires Leads(s, ws, mid, done)
    ensures Completes(s, req, ws, done, Done)
  {
    OneWriteStep(s, req, ws, mid, done);
  }

  method RemoveAssociation(db: Database, actor: Actor, at: string, personId: int, id: int) returns (r: Result<Reply>)
    modifies db
    ensures Refines(old(db.state), db.state, Request(actor, at, Op.RemoveAssociation(personId, id)), r, old(db.Quiet()))
    ensures Issues(old(db.state), Request(actor, at, Op.RemoveAssociation(personId, id)), db.issued, r)
    ensures db.openTxs == old(db.openTxs) && (old(db.Quiet()) ==> db.Quiet())
  {
    hide ExecAll, Exec, Step, Decide, GetAssociation, Plan, Database.Quiet;
    ghost var req := Request(actor, at, Op.RemoveAssociation(personId, id));
    db.issued := [];
    RemoveGuards(db.state, req);
    if actor.oid == "" {
      return Err(ActorRequired);
    }
    var tx, ok := db.BeginTx();
    if !ok {
      return Err(StoreFault);
    }
    label body: {
      var current := tx.QueryRow(GetAssociation(tx.work.t, id));
      if current.Err? {
        r := Err(Missing(current.error));
        break body;
      }
      var link := current.value.link;
      if link.personId != personId {
        r := Err(NotFound);
        break body;
      }
      var deleted := tx.Run(DeleteAssociation(id));
      if deleted.Err? {
        r := Err(deleted.error);
        break body;
      }
      ghost var mid := tx.work;
      var name := current.value.systemName;
      var logged := WriteAudit(tx, at, actor, AssociationRemove(personId, id, link.systemId, name, link.foreignId));
      if logged.Err? {
        r := Err(logged.error);
        break body;
      }
      RemoveDone(old(db.state), req, db.issued, mid, tx.work);
      var committed := tx.Commit();
      r := if committed.Err? then Err(committed.error) else Ok(Done);
    }
    if r.Err? {
      tx.Rollback();
    }
  }
}
