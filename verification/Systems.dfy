/** core/systems.go, laid out like Persons. */
module Systems {
  import opened Text
  import opened Schema
  import opened Registry
  import opened Driver
  import opened Core

  lemma CreateGuards(s: State, req: Request)
    requires req.op.CreateSystem?
    ensures if req.actor.oid == "" then Step(s, req) == Outcome(s, Err(ActorRequired))
            else if Trim(req.op.name) == "" then Step(s, req) == Outcome(s, Err(NameRequired))
            else Starts(s, req, InsertSystem(Trim(req.op.name), req.actor.upn))
  {
  }

  lemma CreateDone(s: State, req: Request, ws: seq<Write>, mid: State, done: State)
    requires req.op.CreateSystem? && req.actor.oid != ""
    requires Trim(req.op.name) != ""
    requires ws == Audited(req, [InsertSystem(Trim(req.op.name), req.actor.upn)],
                           SystemCreate(mid.t.systemSeq, Trim(req.op.name)))
    requires Leads(s, ws, mid, done)
    ensures var back := Row(done.t.systems, mid.t.systemSeq);
            back.Some? && Completes(s, req, ws, done, SystemReply(back.value))
  {
    OneWriteStep(s, req, ws, mid, done);
  }

  method CreateSystem(db: Database, actor: Actor, at: string, rawName: string) returns (r: Result<Reply>)
    modifies db
    ensures Refines(old(db.state), db.state, Request(actor, at, Op.CreateSystem(rawName)), r, old(db.Quiet()))
    ensures Issues(old(db.state), Request(actor, at, Op.CreateSystem(rawName)), db.issued, r)
    ensures db.openTxs == old(db.openTxs) && (old(db.Quiet()) ==> db.Quiet())
  {
    hide ExecAll, Exec, Step, Decide, Row, Trim, Plan, Database.Quiet;
    ghost var req := Request(actor, at, Op.CreateSystem(rawName));
    db.issued := [];
    CreateGuards(db.state, req);
    if actor.oid == "" {
      return Err(ActorRequired);
    }
    var name := Trim(rawName);
    if name == "" {
      return Err(NameRequired);
    }
    var tx, ok := db.BeginTx();
    if !ok {
      return Err(StoreFault);
    }
    label body: {
      var inserted := tx.Run(InsertSystem(name, actor.upn));
      if inserted.Err? {
        r := Err(inserted.error);
        break body;
      }
      var id := tx.work.t.systemSeq;
      ghost var mid := tx.work;
      var logged := WriteAudit(tx, at, actor, SystemCreate(id, name));
      if logged.Err? {
        r := Err(logged.error);
        break body;
      }
      CreateDone(old(db.state), req, db.issued, mid, tx.work);
      var back := tx.QueryRow(Row(tx.work.t.systems, id));
      if back.Err? {
        r := Err(back.error);
        break body;
      }
      var committed := tx.Commit();
      r := if committed.Err? then Err(committed.error) else Ok(SystemReply(back.value));
    }
    if r.Err? {
      tx.Rollback();
    }
  }

  lemma RenameGuards(s: State, req: Request)
    requires req.op.RenameSystem?
    ensures var id, name, found := req.op.id, Trim(req.op.name), Row(s.t.systems, req.op.id);
            if req.actor.oid == "" then Step(s, req) == Outcome(s, Err(ActorRequired))
            else if name == "" then Step(s, req) == Outcome(s, Err(NameRequired))
            else if found.None? || found.value.Disabled() then Step(s, req) == Outcome(s, Err(NotFound))
            else if found.value.name == name then Keeps(s, req, SystemReply(found.value))
            else Starts(s, req, UpdateSystemName(id, name, req.actor.upn))
  {
  }

  lemma RenameDone(s: State, req: Request, ws: seq<Write>, mid: State, done: State)
    requires req.op.RenameSystem? && req.actor.oid != ""
    requires Row(s.t.systems, req.op.id).Some? && !Row(s.t.systems, req.op.id).value.Disabled()
    requires Trim(req.op.name) != "" && Row(s.t.systems, req.op.id).value.name != Trim(req.op.name)
    requires ws == Audited(req, [UpdateSystemName(req.op.id, Trim(req.op.name), req.actor.upn)],
                           SystemRename(req.op.id, Row(s.t.systems, req.op.id).value.name, Trim(req.op.name)))
    requires Leads(s, ws, mid, done)
    ensures var back := Row(done.t.systems, req.op.id);
            back.Some? && Completes(s, req, ws, done, SystemReply(back.value))
  {
    OneWriteStep(s, req, ws, mid, done);
  }

  method RenameSystem(db: Database, actor: Actor, at: string, id: int, rawName: string) returns (r: Result<Reply>)
    modifies db
    ensures Refines(old(db.state), db.state, Request(actor, at, Op.RenameSystem(id, rawName)), r, old(db.Quiet()))
    ensures Issues(old(db.state), Request(actor, at, Op.RenameSystem(id, rawName)), db.issued, r)
    ensures db.openTxs == old(db.openTxs) && (old(db.Quiet()) ==> db.Quiet())
  {
    hide ExecAll, Exec, Step, Decide, Row, Trim, Plan, Database.Quiet;
    ghost var req := Request(actor, at, Op.RenameSystem(id, rawName));
    db.issued := [];
    RenameGuards(db.state, req);
    if actor.oid == "" {
      return Err(ActorRequired);
    }
    var name := Trim(rawName);
    if name == "" {
      return Err(NameRequired);
    }
    var tx, ok := db.BeginTx();
    if !ok {
      return Err(StoreFault);
    }
    label body: {
      var current := tx.QueryRow(Row(tx.work.t.systems, id));
      if current.Err? {
        r := Err(Missing(current.error));
        break body;
      }
      if current.value.Disabled() {
        r := Err(NotFound);
        break body;
      }
      if current.value.name == name {
        tx.Rollback();
        return Ok(SystemReply(current.value));
      }
      var updated := tx.Run(UpdateSystemName(id, name, actor.upn));
      if updated.Err? {
        r := Err(updated.error);
        break body;
      }
      ghost var mid := tx.work;
      var logged := WriteAudit(tx, at, actor, SystemRename(id, current.value.name, name));
      if logged.Err? {
        r := Err(logged.error);
        break body;
      }
      RenameDone(old(db.state), req, db.issued, mid, tx.work);
      var back := tx.QueryRow(Row(tx.work.t.systems, id));
      if back.Err? {
        r := Err(back.error);
        break body;
      }
      var committed := tx.Commit();
      r := if committed.Err? then Err(committed.error) else Ok(SystemReply(back.value));
    }
    if r.Err? {
      tx.Rollback();
    }
  }

  lemma DisableGuards(s: State, req: Request)
    requires req.op.DisableSystem?
    ensures var found := Row(s.t.systems, req.op.id);
            if req.actor.oid == "" then Step(s, req) == Outcome(s, Err(ActorRequired))
            else if found.None? then Step(s, req) == Outcome(s, Err(NotFound))
            else if found.value.Disabled() then Keeps(s, req, SystemReply(found.value))
            else Starts(s, req, Write.DisableSystem(req.op.id, req.actor.upn))
  {
  }

  lemma DisableDone(s: State, req: Request, ws: seq<Write>, mid: State, done: State)
    requires req.op.DisableSystem? && req.actor.oid != ""
    requires Row(s.t.systems, req.op.id).Some? && !Row(s.t.systems, req.op.id).value.Disabled()
    requires ws == Audited(req, [Write.DisableSystem(req.op.id, req.actor.upn)],
                           SystemDisable(req.op.id, Row(s.t.systems, req.op.id).value.name))
    requires Leads(s, ws, mid, done)
    ensures var back := Row(done.t.systems, req.op.id);
            back.Some? && Completes(s, req, ws, done, SystemReply(back.value))
  {
    OneWriteStep(s, req, ws, mid, done);
  }

  method DisableSystem(db: Database, actor: Actor, at: string, id: int) returns (r: Result<Reply>)
    modifies db
    ensures Refines(old(db.state), db.state, Request(actor, at, Op.DisableSystem(id)), r, old(db.Quiet()))
    ensures Issues(old(db.state), Request(actor, at, Op.DisableSystem(id)), db.issued, r)
    ensures db.openTxs == old(db.openTxs) && (old(db.Quiet()) ==> db.Quiet())
  {
    hide ExecAll, Exec, Step, Decide, Row, Plan, Database.Quiet;
    ghost var req := Request(actor, at, Op.DisableSystem(id));
    db.issued := [];
    DisableGuards(db.state, req);
    if actor.oid == "" {
      return Err(ActorRequired);
    }
    var tx, ok := db.BeginTx();
    if !ok {
      return Err(StoreFault);
    }
    label body: {
      var current := tx.QueryRow(Row(tx.work.t.systems, id));
      if current.Err? {
        r := Err(Missing(current.error));
        break body;
      }
      if current.value.Disabled() {
        tx.Rollback();
        return Ok(SystemReply(current.value));
      }
      var updated := tx.Run(Write.DisableSystem(id, actor.upn));
      if updated.Err? {
        r := Err(updated.error);
        break body;
      }
      ghost var mid := tx.work;
      var logged := WriteAudit(tx, at, actor, SystemDisable(id, current.value.name));
      if logged.Err? {
        r := Err(logged.error);
        break body;
      }
      DisableDone(old(db.state), req, db.issued, mid, tx.work);
      var back := tx.QueryRow(Row(tx.work.t.systems, id));
      if back.Err? {
        r := Err(back.error);
        break body;
      }
      var committed := tx.Commit();
      r := if committed.Err? then Err(committed.error) else Ok(SystemReply(back.value));
    }
    if r.Err? {
      tx.Rollback();
    }
  }

  lemma EnableGuards(s: State, req: Request)
    requires req.op.EnableSystem?
    ensures var found := Row(s.t.systems, req.op.id);
            if req.actor.oid == "" then Step(s, req) == Outcome(s, Err(ActorRequired))
            else if found.None? then Step(s, req) == Outcome(s, Err(NotFound))
            else if !found.value.Disabled() then Keeps(s, req, SystemReply(found.value))
            else Starts(s, req, Write.EnableSystem(req.op.id))
  {
  }

  lemma EnableDone(s: State, req: Request, ws: seq<Write>, mid: State, done: State)
    requires req.op.EnableSystem? && req.actor.oid != ""
    requires Row(s.t.systems, req.op.id).Some? && Row(s.t.systems, req.op.id).value.Disabled()
    requires ws == Audited(req, [Write.EnableSystem(req.op.id)],
                           SystemEnable(req.op.id, Row(s.t.systems, req.op.id).value.name))
    requires Leads(s, ws, mid, done)
    ensures var back := Row(done.t.systems, req.op.id);
            back.Some? && Completes(s, req, ws, done, SystemReply(back.value))
  {
    OneWriteStep(s, req, ws, mid, done);
  }

  method EnableSystem(db: Database, actor: Actor, at: string, id: int) returns (r: Result<Reply>)
    modifies db
    ensures Refines(old(db.state), db.state, Request(actor, at, Op.EnableSystem(id)), r, old(db.Quiet()))
    ensures Issues(old(db.state), Request(actor, at, Op.EnableSystem(id)), db.issued, r)
    ensures db.openTxs == old(db.openTxs) && (old(db.Quiet()) ==> db.Quiet())
  {
    hide ExecAll, Exec, Step, Decide, Row, Plan, Database.Quiet;
    ghost var req := Request(actor, at, Op.EnableSystem(id));
    db.issued := [];
    EnableGuards(db.state, req);
    if actor.oid == "" {
      return Err(ActorRequired);
    }
    var tx, ok := db.BeginTx();
    if !ok {
      return Err(StoreFault);
    }
    label body: {
      var current := tx.QueryRow(Row(tx.work.t.systems, id));
      if current.Err? {
        r := Err(Missing(current.error));
        break body;
      }
      if !current.value.Disabled() {
        tx.Rollback();
        return Ok(SystemReply(current.value));
      }
      var updated := tx.Run(Write.EnableSystem(id));
      if updated.Err? {
        r := Err(updated.error);
        break body;
      }
      ghost var mid := tx.work;
      var logged := WriteAudit(tx, at, actor, SystemEnable(id, current.value.name));
      if logged.Err? {
        r := Err(logged.error);
        break body;
      }
      EnableDone(old(db.state), req, db.issued, mid, tx.work);
      var back := tx.QueryRow(Row(tx.work.t.systems, id));
      if back.Err? {
        r := Err(back.error);
        break body;
      }
      var committed := tx.Commit();
      r := if committed.Err? then Err(committed.error) else Ok(SystemReply(back.value));
    }
    if r.Err? {
      tx.Rollback();
    }
  }
}
