/** core/stewards.go and core/bootstrap.go, laid out like Persons. */
module Stewards {
  import opened Text
  import opened Schema
  import opened Registry
  import opened Driver
  import opened Core

  /** An invitation just inserted is the one its UPN finds. */
  lemma InviteReadBack(s: State, upn: string, who: string)
    requires Invited(s, upn).None?
    ensures var id := s.pendingSeq + 1;
            var p := Pending(id, upn, who);
            Invited(s.(pending := s.pending[id := p], pendingSeq := id), upn) == Some(p)
  {
    var id := s.pendingSeq + 1;
    FirstInvitedFrame(s.pending, s.pending[id := Pending(id, upn, who)], s.pendingSeq, Lower(upn));
  }

  lemma {:induction false} FirstInvitedFrame(m: map<int, Pending>, m': map<int, Pending>, n: nat, key: string)
    requires forall i | 1 <= i <= n :: (i in m <==> i in m') && (i in m ==> m[i] == m'[i])
    ensures FirstInvited(m, n, key) == FirstInvited(m', n, key)
  {
    if n > 0 {
      FirstInvitedFrame(m, m', n - 1, key);
    }
  }

  lemma PromoteGuards(s: State, req: Request)
    requires req.op.PromoteSteward?
    ensures var upn := Trim(req.op.upn);
            if req.actor.oid == "" then Step(s, req) == Outcome(s, Err(ActorRequired))
            else if upn == "" then Step(s, req) == Outcome(s, Err(UpnRequired))
            else if ActiveUpn(s.t, upn) then Step(s, req) == Outcome(s, Err(AlreadySteward))
            else if Invited(s, upn).Some? then Step(s, req) == Outcome(s, Err(AlreadyInvited))
            else
              var w := InsertPendingSteward(upn, req.actor.upn);
              [w] <= Plan(s, req) && (Exec(w, s).None? ==> Step(s, req) == Outcome(s, Err(Constraint)))
  {
    if Decide(s, req).Change? {
      var w := InsertPendingSteward(Trim(req.op.upn), req.actor.upn);
      if Exec(w, s).None? {
        OneWriteRejected(s, req, w);
      }
    }
  }

  lemma PromoteDone(s: State, req: Request, ws: seq<Write>, mid: State, done: State)
    requires req.op.PromoteSteward? && req.actor.oid != ""
    requires Trim(req.op.upn) != "" && !ActiveUpn(s.t, Trim(req.op.upn)) && Invited(s, Trim(req.op.upn)).None?
    requires ws == Audited(req, [InsertPendingSteward(Trim(req.op.upn), req.actor.upn)],
                           StewardInvite(Trim(req.op.upn)))
    requires Leads(s, ws, mid, done)
    ensures var back := Invited(done, Trim(req.op.upn));
            back.Some? && Completes(s, req, ws, done, PendingReply(back.value))
  {
    OneWriteStep(s, req, ws, mid, done);
    InviteReadBack(s, Trim(req.op.upn), req.actor.upn);
    hide ExecAll;
  }

  method PromoteSteward(db: Database, actor: Actor, at: string, rawUpn: string) returns (r: Result<Reply>)
    modifies db
    ensures Refines(old(db.state), db.state, Request(actor, at, Op.PromoteSteward(rawUpn)), r, old(db.Quiet()))
    ensures Issues(old(db.state), Request(actor, at, Op.PromoteSteward(rawUpn)), db.issued, r)
    ensures db.openTxs == old(db.openTxs) && (old(db.Quiet()) ==> db.Quiet())
  {
    hide ExecAll, Exec, Step, Decide, ActiveUpn, Invited, Trim, Plan, Database.Quiet;
    ghost var req := Request(actor, at, Op.PromoteSteward(rawUpn));
    db.issued := [];
    PromoteGuards(db.state, req);
    if actor.oid == "" {
      return Err(ActorRequired);
    }
    var upn := Trim(rawUpn);
    if upn == "" {
      return Err(UpnRequired);
    }
    var tx, ok := db.BeginTx();
    if !ok {
      return Err(StoreFault);
    }
    label body: {
      var already := tx.QueryRow(Some(ActiveUpn(tx.work.t, upn)));
      if already.Err? {
        r := Err(already.error);
        break body;
      }
      if already.value {
        r := Err(AlreadySteward);
        break body;
      }
      var invited := tx.QueryRow(Invited(tx.work, upn));
      if invited.Ok? {
        r := Err(AlreadyInvited);
        break body;
      }
      if invited.error != NoRows {
        r := Err(invited.error);
        break body;
      }
      var inserted := tx.Run(InsertPendingSteward(upn, actor.upn));
      if inserted.Err? {
        r := Err(inserted.error);
        break body;
      }
      ghost var mid := tx.work;
      var logged := WriteAudit(tx, at, actor, StewardInvite(upn));
      if logged.Err? {
        r := Err(logged.error);
        break body;
      }
      PromoteDone(old(db.state), req, db.issued, mid, tx.work);
      var back := tx.QueryRow(Invited(tx.work, upn));
      if back.Err? {
        r := Err(back.error);
        break body;
      }
      var committed := tx.Commit();
      r := if committed.Err? then Err(committed.error) else Ok(PendingReply(back.value));
    }
    if r.Err? {
      tx.Rollback();
    }
  }

  lemma DemoteGuards(s: State, req: Request)
    requires req.op.DemoteSteward?
    ensures var found := Row(s.t.stewards, req.op.id);
            if req.actor.oid == "" then Step(s, req) == Outcome(s, Err(ActorRequired))
            else if found.None? || found.value.Removed() then Step(s, req) == Outcome(s, Err(NotFound))
            else if found.value.oid == req.actor.oid then Step(s, req) == Outcome(s, Err(SelfRemoval))
            else Starts(s, req, Write.DemoteSteward(req.op.id, req.actor.upn))
  {
  }

  lemma DemoteDone(s: State, req: Request, ws: seq<Write>, mid: State, done: State)
    requires req.op.DemoteSteward? && req.actor.oid != ""
    requires Row(s.t.stewards, req.op.id).Some? && !Row(s.t.stewards, req.op.id).value.Removed()
    requires Row(s.t.stewards, req.op.id).value.oid != req.actor.oid
    requires ws == Audited(req, [Write.DemoteSteward(req.op.id, req.actor.upn)],
                           StewardDemote(req.op.id, Row(s.t.stewards, req.op.id).value.oid,
                                         Row(s.t.stewards, req.op.id).value.upn))
    requires Leads(s, ws, mid, done)
    ensures var back := Row(done.t.stewards, req.op.id);
            back.Some? && Completes(s, req, ws, done, StewardReply(back.value))
  {
    OneWriteStep(s, req, ws, mid, done);
  }

  method DemoteSteward(db: Database, actor: Actor, at: string, id: int) returns (r: Result<Reply>)
    modifies db
    ensures Refines(old(db.state), db.state, Request(actor, at, Op.DemoteSteward(id)), r, old(db.Quiet()))
    ensures Issues(old(db.state), Request(actor, at, Op.DemoteSteward(id)), db.issued, r)
    ensures db.openTxs == old(db.openTxs) && (old(db.Quiet()) ==> db.Quiet())
  {
    hide ExecAll, Exec, Step, Decide, Row, Plan, Database.Quiet;
    ghost var req := Request(actor, at, Op.DemoteSteward(id));
    db.issued := [];
    DemoteGuards(db.state, req);
    if actor.oid == "" {
      return Err(ActorRequired);
    }
    var tx, ok := db.BeginTx();
    if !ok {
      return Err(StoreFault);
    }
    label body: {
      var current := tx.QueryRow(Row(tx.work.t.stewards, id));
      if current.Err? {
        r := Err(Missing(current.error));
        break body;
      }
      if current.value.Removed() {
        r := Err(NotFound);
        break body;
      }
      if current.value.oid == actor.oid {
        r := Err(SelfRemoval);
        break body;
      }
      var demoted := tx.Run(Write.DemoteSteward(id, actor.upn));
      if demoted.Err? {
        r := Err(demoted.error);
        break body;
      }
      ghost var mid := tx.work;
      var logged := WriteAudit(tx, at, actor, StewardDemote(id, current.value.oid, current.value.upn));
      if logged.Err? {
        r := Err(logged.error);
        break body;
      }
      DemoteDone(old(db.state), req, db.issued, mid, tx.work);
      var back := tx.QueryRow(Row(tx.work.t.stewards, id));
      if back.Err? {
        r := Err(back.error);
        break body;
      }
      var committed := tx.Commit();
      r := if committed.Err? then Err(committed.error) else Ok(StewardReply(back.value));
    }
    if r.Err? {
      tx.Rollback();
    }
  }

  lemma CancelGuards(s: State, req: Request)
    requires req.op.CancelInvite?
    ensures if req.actor.oid == "" then Step(s, req) == Outcome(s, Err(ActorRequired))
            else if Row(s.pending, req.op.id).None? then Step(s, req) == Outcome(s, Err(NotFound))
            else Starts(s, req, DeletePendingSteward(req.op.id))
  {
  }

  lemma CancelDone(s: State, req: Request, ws: seq<Write>, mid: State, done: State)
    requires req.op.CancelInvite? && req.actor.oid != ""
    requires Row(s.pending, req.op.id).Some?
    requires ws == Audited(req, [DeletePendingSteward(req.op.id)],
                           StewardUninvite(Row(s.pending, req.op.id).value.upn))
    requires Leads(s, ws, mid, done)
    ensures Completes(s, req, ws, done, Done)
  {
    OneWriteStep(s, req, ws, mid, done);
  }

  method CancelStewardInvite(db: Database, actor: Actor, at: string, id: int) returns (r: Result<Reply>)
    modifies db
    ensures Refines(old(db.state), db.state, Request(actor, at, Op.CancelInvite(id)), r, old(db.Quiet()))
    ensures Issues(old(db.state), Request(actor, at, Op.CancelInvite(id)), db.issued, r)
    ensures db.openTxs == old(db.openTxs) && (old(db.Quiet()) ==> db.Quiet())
  {
    hide ExecAll, Exec, Step, Decide, Row, Plan, Database.Quiet;
    ghost var req := Request(actor, at, Op.CancelInvite(id));
    db.issued := [];
    CancelGuards(db.state, req);
    if actor.oid == "" {
      return Err(ActorRequired);
    }
    var tx, ok := db.BeginTx();
    if !ok {
      return Err(StoreFault);
    }
    label body: {
      var pending := tx.QueryRow(Row(tx.work.pending, id));
      if pending.Err? {
        r := Err(Missing(pending.error));
        break body;
      }
      var deleted := tx.Run(DeletePendingSteward(id));
      if deleted.Err? {
        r := Err(deleted.error);
        break body;
      }
      ghost var mid := tx.work;
      var logged := WriteAudit(tx, at, actor, StewardUninvite(pending.value.upn));
      if logged.Err? {
        r := Err(logged.error);
        break body;
      }
      CancelDone(old(db.state), req, db.issued, mid, tx.work);
      var committed := tx.Commit();
      r := if committed.Err? then Err(committed.error) else Ok(Done);
    }
    if r.Err? {
      tx.Rollback();
    }
  }

  lemma ClaimGuards(s: State, req: Request)
    requires req.op.ClaimInvite?
    ensures var found := Invited(s, req.actor.upn);
            if req.actor.oid == "" || req.actor.upn == "" then Step(s, req) == Outcome(s, Err(ActorRequired))
            else if found.None? then Keeps(s, req, ClaimedReply(false))
            else if ActiveOid(s.t, req.actor.oid) then
              var drop := DeletePendingSteward(found.value.id);
              Exec(drop, s).Some? && Completes(s, req, [drop], Exec(drop, s).value, ClaimedReply(false))
            else
              var insert := InsertSteward(req.actor.oid, req.actor.upn, found.value.invitedBy);
              var drop := DeletePendingSteward(found.value.id);
              Exec(insert, s).Some? && Exec(drop, Exec(insert, s).value).Some? && [insert, drop] <= Plan(s, req)
  {
    if TakesStaleBranch(s, req) {
      var w := DeletePendingSteward(Invited(s, req.actor.upn).value.id);
      ExecAllShort(s, w, w, w);
      StepChange(s, req);
    }
    hide ExecAll;
  }

  lemma ClaimDone(s: State, req: Request, ws: seq<Write>, p: Pending, added: State, mid: State, done: State)
    requires req.op.ClaimInvite? && req.actor.oid != "" && req.actor.upn != ""
    requires Invited(s, req.actor.upn) == Some(p) && !ActiveOid(s.t, req.actor.oid)
    requires var Actor(oid, upn) := req.actor;
             ws == Audited(req, [InsertSteward(oid, upn, p.invitedBy), DeletePendingSteward(p.id)],
                           StewardPromote(added.t.stewardSeq, oid, upn, p.invitedBy))
    requires LeadsTwice(s, ws, added, mid, done)
    ensures Completes(s, req, ws, done, ClaimedReply(true))
  {
    TwoWriteStep(s, req, ws, added, mid, done);
  }

  method ClaimPendingSteward(db: Database, actor: Actor, at: string) returns (r: Result<Reply>)
    modifies db
    ensures Refines(old(db.state), db.state, Request(actor, at, ClaimInvite), r, old(db.Quiet()))
    ensures Issues(old(db.state), Request(actor, at, ClaimInvite), db.issued, r)
    ensures db.openTxs == old(db.openTxs) && (old(db.Quiet()) ==> db.Quiet())
  {
    hide ExecAll, Exec, Step, Decide, ActiveOid, Invited, Plan, Database.Quiet;
    ghost var req := Request(actor, at, ClaimInvite);
    db.issued := [];
    ClaimGuards(db.state, req);
    if actor.oid == "" || actor.upn == "" {
      return Err(ActorRequired);
    }
    var tx, ok := db.BeginTx();
    if !ok {
      return Err(StoreFault);
    }
    label body: {
      var pending := tx.QueryRow(Invited(tx.work, actor.upn));
      if pending == Err(NoRows) {
        tx.Rollback();
        return Ok(ClaimedReply(false));
      }
      if pending.Err? {
        r := Err(pending.error);
        break body;
      }
      var active := tx.QueryRow(Some(ActiveOid(tx.work.t, actor.oid)));
      if active.Err? {
        r := Err(active.error);
        break body;
      }
      var p := pending.value;
      if active.value {
        var consumed := tx.Run(DeletePendingSteward(p.id));
        if consumed.Err? {
          r := Err(consumed.error);
          break body;
        }
        var done := tx.Commit();
        r := if done.Err? then Err(done.error) else Ok(ClaimedReply(false));
        break body;
      }
      var inserted := tx.Run(InsertSteward(actor.oid, actor.upn, p.invitedBy));
      if inserted.Err? {
        r := Err(inserted.error);
        break body;
      }
      var id := tx.work.t.stewardSeq;
      ghost var added := tx.work;
      var deleted := tx.Run(DeletePendingSteward(p.id));
      if deleted.Err? {
        r := Err(deleted.error);
        break body;
      }
      ghost var mid := tx.work;
      var logged := WriteAudit(tx, at, actor, StewardPromote(id, actor.oid, actor.upn, p.invitedBy));
      if logged.Err? {
        r := Err(logged.error);
        break body;
      }
      ClaimDone(old(db.state), req, db.issued, p, added, mid, tx.work);
      var committed := tx.Commit();
      r := if committed.Err? then Err(committed.error) else Ok(ClaimedReply(true));
    }
    if r.Err? {
      tx.Rollback();
    }
  }

  lemma BootstrapGuards(s: State, req: Request)
    requires req.op.Bootstrap?
    ensures var a, tid := req.actor, req.op.tid;
            if a.oid == "" || a.upn == "" || tid == "" then Step(s, req) == Outcome(s, Err(ClaimIncomplete))
            else if s.t.tenant != "" then Step(s, req) == Outcome(s, Err(AlreadyBound))
            else
              var bind, insert := BindTenant(tid), InsertSteward(a.oid, a.upn, "bootstrap");
              && Exec(bind, s).Some? && [bind, insert] <= Plan(s, req)
              && (Exec(insert, Exec(bind, s).value).None? ==> Step(s, req) == Outcome(s, Err(Constraint)))
  {
    if Decide(s, req).Change? {
      var bind, insert := BindTenant(req.op.tid), InsertSteward(req.actor.oid, req.actor.upn, "bootstrap");
      if Then(insert, Exec(bind, s)).None? {
        TwoWriteRejected(s, req, bind, insert);
      }
    }
  }

  lemma BootstrapDone(s: State, req: Request, ws: seq<Write>, bound: State, mid: State, done: State)
    requires req.op.Bootstrap? && req.actor.oid != "" && req.actor.upn != "" && req.op.tid != "" && s.t.tenant == ""
    requires var Actor(oid, upn) := req.actor;
             ws == Audited(req, [BindTenant(req.op.tid), InsertSteward(oid, upn, "bootstrap")],
                           TenantBootstrap(req.op.tid, mid.t.stewardSeq, oid, upn))
    requires LeadsTwice(s, ws, bound, mid, done)
    ensures Completes(s, req, ws, done, StewardIdReply(mid.t.stewardSeq))
  {
    TwoWriteStep(s, req, ws, bound, mid, done);
  }

  /** The caller passes the claims of the signing-in user as the actor, and their tid. */
  method Bootstrap(db: Database, actor: Actor, at: string, tid: string) returns (r: Result<Reply>)
    modifies db
    ensures Refines(old(db.state), db.state, Request(actor, at, Op.Bootstrap(tid)), r, old(db.Quiet()))
    ensures Issues(old(db.state), Request(actor, at, Op.Bootstrap(tid)), db.issued, r)
    ensures db.openTxs == old(db.openTxs) && (old(db.Quiet()) ==> db.Quiet())
  {
    hide ExecAll, Exec, Step, Decide, Plan, Database.Quiet;
    ghost var req := Request(actor, at, Op.Bootstrap(tid));
    db.issued := [];
    BootstrapGuards(db.state, req);
    if actor.oid == "" || actor.upn == "" || tid == "" {
      return Err(ClaimIncomplete);
    }
    var tx, ok := db.BeginTx();
    if !ok {
      return Err(StoreFault);
    }
    label body: {
      var existing := tx.QueryRow(Some(tx.work.t.tenant));
      if existing.Err? {
        r := Err(existing.error);
        break body;
      }
      if existing.value != "" {
        r := Err(AlreadyBound);
        break body;
      }
      var bound := tx.Run(BindTenant(tid));
      if bound.Err? {
        r := Err(bound.error);
        break body;
      }
      ghost var named := tx.work;
      var inserted := tx.Run(InsertSteward(actor.oid, actor.upn, "bootstrap"));
      if inserted.Err? {
        r := Err(inserted.error);
        break body;
      }
      var id := tx.work.t.stewardSeq;
      ghost var mid := tx.work;
      var logged := WriteAudit(tx, at, actor, TenantBootstrap(tid, id, actor.oid, actor.upn));
      if logged.Err? {
        r := Err(logged.error);
        break body;
      }
      BootstrapDone(old(db.state), req, db.issued, named, mid, tx.work);
      var committed := tx.Commit();
      r := if committed.Err? then Err(committed.error) else Ok(StewardIdReply(id));
    }
    if r.Err? {
      tx.Rollback();
    }
  }
}
