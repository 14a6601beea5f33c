/** core/persons.go. For each function, what its guard reads decide (Guards) and what its
    statements, read back, amount to (Done); the method itself is about control and faults. */
module Persons {
  import opened Text
  import opened Schema
  import opened Registry
  import opened Driver
  import opened Core

  lemma CreateGuards(s: State, req: Request)
    requires req.op.CreatePerson?
    ensures if req.actor.oid == "" then Step(s, req) == Outcome(s, Err(ActorRequired))
            else Starts(s, req, InsertPerson(Trim(req.op.name), req.actor.upn))
  {
  }

  lemma CreateDone(s: State, req: Request, ws: seq<Write>, mid: State, done: State)
    requires req.op.CreatePerson? && req.actor.oid != ""
    requires ws == Audited(req, [InsertPerson(Trim(req.op.name), req.actor.upn)],
                           PersonCreate(mid.t.personSeq, Trim(req.op.name)))
    requires Leads(s, ws, mid, done)
    ensures var back := Row(done.t.persons, mid.t.personSeq);
            back.Some? && Completes(s, req, ws, done, PersonReply(back.value))
  {
    OneWriteStep(s, req, ws, mid, done);
  }

  method CreatePerson(db: Database, actor: Actor, at: string, rawName: string) returns (r: Result<Reply>)
    modifies db
    ensures Refines(old(db.state), db.state, Request(actor, at, Op.CreatePerson(rawName)), r, old(db.Quiet()))
    ensures Issues(old(db.state), Request(actor, at, Op.CreatePerson(rawName)), db.issued, r)
    ensures db.openTxs == old(db.openTxs) && (old(db.Quiet()) ==> db.Quiet())
  {
    hide ExecAll, Exec, Step, Decide, Row, Trim, Plan, Database.Quiet;
    ghost var req := Request(actor, at, Op.CreatePerson(rawName));
    db.issued := [];
    CreateGuards(db.state, req);
    if actor.oid == "" {
      return Err(ActorRequired);
    }
    var name := Trim(rawName);
    var tx, ok := db.BeginTx();
    if !ok {
      return Err(StoreFault);
    }
    label body: {
      var inserted := tx.Run(InsertPerson(name, actor.upn));
      if inserted.Err? {
        r := Err(inserted.error);
        break body;
      }
      var id := tx.work.t.personSeq;
      ghost var mid := tx.work;
      var logged := WriteAudit(tx, at, actor, PersonCreate(id, name));
      if logged.Err? {
        r := Err(logged.error);
        break body;
      }
      CreateDone(old(db.state), req, db.issued, mid, tx.work);
      var back := tx.QueryRow(Row(tx.work.t.persons, id));
      if back.Err? {
        r := Err(back.error);
        break body;
      }
      var committed := tx.Commit();
      r := if committed.Err? then Err(committed.error) else Ok(PersonReply(back.value));
    }
    if r.Err? {
      tx.Rollback();
    }
  }

  lemma RenameGuards(s: State, req: Request)
    requires req.op.RenamePerson?
    ensures var id, name, found := req.op.id, Trim(req.op.name), Row(s.t.persons, req.op.id);
            if req.actor.oid == "" then Step(s, req) == Outcome(s, Err(ActorRequired))
            else if found.None? then Step(s, req) == Outcome(s, Err(NotFound))
            else if found.value.name == name then Keeps(s, req, PersonReply(found.value))
            else Starts(s, req, UpdatePersonName(id, name, req.actor.upn))
  {
  }

  lemma RenameDone(s: State, req: Request, ws: seq<Write>, mid: State, done: State)
    requires req.op.RenamePerson? && req.actor.oid != ""
    requires Row(s.t.persons, req.op.id).Some? && Row(s.t.persons, req.op.id).value.name != Trim(req.op.name)
    requires ws == Audited(req, [UpdatePersonName(req.op.id, Trim(req.op.name), req.actor.upn)],
                           PersonRename(req.op.id, Row(s.t.persons, req.op.id).value.name, Trim(req.op.name)))
    requires Leads(s, ws, mid, done)
    ensures var back := Row(done.t.persons, req.op.id);
            back.Some? && Completes(s, req, ws, done, PersonReply(back.value))
  {
    OneWriteStep(s, req, ws, mid, done);
  }

  method RenamePerson(db: Database, actor: Actor, at: string, id: int, rawName: string) returns (r: Result<Reply>)
    modifies db
    ensures Refines(old(db.state), db.state, Request(actor, at, Op.RenamePerson(id, rawName)), r, old(db.Quiet()))
    ensures Issues(old(db.state), Request(actor, at, Op.RenamePerson(id, rawName)), db.issued, r)
    ensures db.openTxs == old(db.openTxs) && (old(db.Quiet()) ==> db.Quiet())
  {
    hide ExecAll, Exec, Step, Decide, Row, Trim, Plan, Database.Quiet;
    ghost var req := Request(actor, at, Op.RenamePerson(id, rawName));
    db.issued := [];
    RenameGuards(db.state, req);
    if actor.oid == "" {
      return Err(ActorRequired);
    }
    var name := Trim(rawName);
    var tx, ok := db.BeginTx();
    if !ok {
      return Err(StoreFault);
    }
    label body: {
      var current := tx.QueryRow(Row(tx.work.t.persons, id));
      if current.Err? {
        r := Err(Missing(current.error));
        break body;
      }
      if current.value.name == name {
        tx.Rollback();
        return Ok(PersonReply(current.value));
      }
      var updated := tx.Run(UpdatePersonName(id, name, actor.upn));
      if updated.Err? {
        r := Err(updated.error);
        break body;
      }
      ghost var mid := tx.work;
      var logged := WriteAudit(tx, at, actor, PersonRename(id, current.value.name, name));
      if logged.Err? {
        r := Err(logged.error);
        break body;
      }
      RenameDone(old(db.state), req, db.issued, mid, tx.work);
      var back := tx.QueryRow(Row(tx.work.t.persons, id));
      if back.Err? {
        r := Err(back.error);
        break body;
      }
      var committed := tx.Commit();
      r := if committed.Err? then Err(committed.error) else Ok(PersonReply(back.value));
    }
    if r.Err? {
      tx.Rollback();
    }
  }
}
