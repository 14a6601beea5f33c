/** What each mutating function of core does to the database: the guards it checks, the
    statements it then issues in its transaction, and what it returns. */
module Registry {
  import opened Text
  import opened Schema

  datatype Op =
    | Bootstrap(tid: string)
    | CreatePerson(name: string)
    | RenamePerson(id: int, name: string)
    | CreateSystem(name: string)
    | RenameSystem(id: int, name: string)
    | DisableSystem(id: int)
    | EnableSystem(id: int)
    | CreateAssociation(personId: int, systemId: int, foreignId: string)
    | RemoveAssociation(personId: int, id: int)
    | PromoteSteward(upn: string)
    | DemoteSteward(id: int)
    | CancelInvite(id: int)
    | ClaimInvite

  /** A call: who acts, what the clock reads when the audit row is written, and the call. */
  datatype Request = Request(actor: Actor, at: string, op: Op)

  datatype Reply =
    | PersonReply(person: Person)
    | SystemReply(system: System)
    | AssociationReply(association: Association)
    | StewardReply(steward: Steward)
    | PendingReply(pending: Pending)
    | StewardIdReply(id: int)
    | ClaimedReply(claimed: bool)
    | Done

  /** What a call decides from the rows it reads: an error, a reply that changes nothing, or
      statements to run in order and the entry to file after them, with the reply to give
      once all that is committed. */
  datatype Decision =
    | Reject(error: Error)
    | Keep(reply: Reply)
    | Change(writes: seq<Write>, event: Option<Event>, reply: Reply)

  function Decide(s: State, req: Request): Decision {
    var who, op := req.actor.upn, req.op;
    if op.Bootstrap? then
      if req.actor.oid == "" || who == "" || op.tid == "" then Reject(ClaimIncomplete)
      else DecideBootstrap(s, req)
    else if op.ClaimInvite? then
      if req.actor.oid == "" || who == "" then Reject(ActorRequired) else DecideClaim(s, req)
    else if req.actor.oid == "" then Reject(ActorRequired)
    else
      match op
      case CreatePerson(name) => DecideCreatePerson(s, req)
      case RenamePerson(id, name) => DecideRenamePerson(s, req)
      case CreateSystem(name) => DecideCreateSystem(s, req)
      case RenameSystem(id, name) => DecideRenameSystem(s, req)
      case DisableSystem(id) => DecideDisableSystem(s, req)
      case EnableSystem(id) => DecideEnableSystem(s, req)
      case CreateAssociation(p, y, fid) => DecideCreateAssociation(s, req)
      case RemoveAssociation(p, id) => DecideRemoveAssociation(s, req)
      case PromoteSteward(upn) => DecidePromote(s, req)
      case DemoteSteward(id) => DecideDemote(s, req)
      case CancelInvite(id) => DecideCancel(s, req)
  }

  function DecideBootstrap(s: State, req: Request): Decision
    requires req.op.Bootstrap?
  {
    var a, tid, id := req.actor, req.op.tid, s.t.stewardSeq + 1;
    if s.t.tenant != "" then Reject(AlreadyBound)
    else Change([BindTenant(tid), InsertSteward(a.oid, a.upn, "bootstrap")],
                Some(TenantBootstrap(tid, id, a.oid, a.upn)), StewardIdReply(id))
  }

  function DecideCreatePerson(s: State, req: Request): Decision
    requires req.op.CreatePerson?
  {
    var name, who, id := Trim(req.op.name), req.actor.upn, s.t.personSeq + 1;
    Change([InsertPerson(name, who)], Some(PersonCreate(id, name)),
           PersonReply(Person(id, name, who, who)))
  }

  function DecideRenamePerson(s: State, req: Request): Decision
    requires req.op.RenamePerson?
  {
    var id, name, who := req.op.id, Trim(req.op.name), req.actor.upn;
    if id !in s.t.persons then Reject(NotFound)
    else
      var p := s.t.persons[id];
      if p.name == name then Keep(PersonReply(p))
      else Change([UpdatePersonName(id, name, who)], Some(PersonRename(id, p.name, name)),
                  PersonReply(p.(name := name, updatedBy := who)))
  }

  function DecideCreateSystem(s: State, req: Request): Decision
    requires req.op.CreateSystem?
  {
    var name, who, id := Trim(req.op.name), req.actor.upn, s.t.systemSeq + 1;
    if name == "" then Reject(NameRequired)
    else Change([InsertSystem(name, who)], Some(SystemCreate(id, name)),
                SystemReply(System(id, name, who, who, None)))
  }

  function DecideRenameSystem(s: State, req: Request): Decision
    requires req.op.RenameSystem?
  {
    var id, name, who := req.op.id, Trim(req.op.name), req.actor.upn;
    if name == "" then Reject(NameRequired)
    else if id !in s.t.systems || s.t.systems[id].Disabled() then Reject(NotFound)
    else
      var y := s.t.systems[id];
      if y.name == name then Keep(SystemReply(y))
      else Change([UpdateSystemName(id, name, who)], Some(SystemRename(id, y.name, name)),
                  SystemReply(y.(name := name, updatedBy := who)))
  }

  function DecideDisableSystem(s: State, req: Request): Decision
    requires req.op.DisableSystem?
  {
    var id, who := req.op.id, req.actor.upn;
    if id !in s.t.systems then Reject(NotFound)
    else
      var y := s.t.systems[id];
      if y.Disabled() then Keep(SystemReply(y))
      else Change([Write.DisableSystem(id, who)], Some(SystemDisable(id, y.name)),
                  SystemReply(y.(disabledBy := Some(who))))
  }

  function DecideEnableSystem(s: State, req: Request): Decision
    requires req.op.EnableSystem?
  {
    var id := req.op.id;
    if id !in s.t.systems then Reject(NotFound)
    else
      var y := s.t.systems[id];
      if !y.Disabled() then Keep(SystemReply(y))
      else Change([Write.EnableSystem(id)], Some(SystemEnable(id, y.name)),
                  SystemReply(y.(disabledBy := None)))
  }

  function DecideCreateAssociation(s: State, req: Request): Decision
    requires req.op.CreateAssociation?
  {
    var CreateAssociation(p, y, fid0) := req.op;
    var fid, who, id := Trim(fid0), req.actor.upn, s.t.linkSeq + 1;
    if p !in s.t.persons || y !in s.t.systems then Reject(NotFound)
    else
      var name := s.t.systems[y].name;
      Change([InsertAssociation(p, y, fid, who)], Some(AssociationCreate(p, id, y, name, fid)),
             AssociationReply(Association(Link(id, p, y, fid, who), name)))
  }

  function DecideRemoveAssociation(s: State, req: Request): Decision
    requires req.op.RemoveAssociation?
  {
    var found := GetAssociation(s.t, req.op.id);
    if found.None? || found.value.link.personId != req.op.personId then Reject(NotFound)
    else
      var l, name := found.value.link, found.value.systemName;
      Change([DeleteAssociation(req.op.id)],
             Some(AssociationRemove(req.op.personId, req.op.id, l.systemId, name, l.foreignId)), Done)
  }

  function DecidePromote(s: State, req: Request): Decision
    requires req.op.PromoteSteward?
  {
    var upn, who := Trim(req.op.upn), req.actor.upn;
    if upn == "" then Reject(UpnRequired)
    else if ActiveUpn(s.t, upn) then Reject(AlreadySteward)
    else if Invited(s, upn).Some? then Reject(AlreadyInvited)
    else Change([InsertPendingSteward(upn, who)], Some(StewardInvite(upn)),
                PendingReply(Pending(s.pendingSeq + 1, upn, who)))
  }

  function DecideDemote(s: State, req: Request): Decision
    requires req.op.DemoteSteward?
  {
    var id, who := req.op.id, req.actor.upn;
    if id !in s.t.stewards || s.t.stewards[id].Removed() then Reject(NotFound)
    else
      var w := s.t.stewards[id];
      if w.oid == req.actor.oid then Reject(SelfRemoval)
      else Change([Write.DemoteSteward(id, who)], Some(StewardDemote(id, w.oid, w.upn)),
                  StewardReply(w.(removedBy := Some(who))))
  }

  function DecideCancel(s: State, req: Request): Decision
    requires req.op.CancelInvite?
  {
    var id := req.op.id;
    if id !in s.pending then Reject(NotFound)
    else Change([DeletePendingSteward(id)], Some(StewardUninvite(s.pending[id].upn)), Done)
  }

  /** A claim by someone already active consumes the stale invitation and files no entry. */
  function DecideClaim(s: State, req: Request): Decision
    requires req.op.ClaimInvite?
  {
    var a, found, id := req.actor, Invited(s, req.actor.upn), s.t.stewardSeq + 1;
    if found.None? then Keep(ClaimedReply(false))
    else
      var p := found.value;
      if ActiveOid(s.t, a.oid) then Change([DeletePendingSteward(p.id)], None, ClaimedReply(false))
      else Change([InsertSteward(a.oid, a.upn, p.invitedBy), DeletePendingSteward(p.id)],
                  Some(StewardPromote(id, a.oid, a.upn, p.invitedBy)), ClaimedReply(true))
  }

  datatype Outcome = Outcome(st: State, result: Result<Reply>)

  /** Every statement of a change, the audit entry last. */
  function Statements(req: Request, d: Decision): seq<Write>
    requires d.Change?
  {
    d.writes + if d.event.None? then [] else [InsertAudit(req.at, req.actor, d.event.value)]
  }

  /** A whole call, run alone and without store failures. */
  function Step(s: State, req: Request): Outcome {
    match Decide(s, req)
    case Reject(e) => Outcome(s, Err(e))
    case Keep(reply) => Outcome(s, Ok(reply))
    case Change(_, _, reply) =>
      match ExecAll(Statements(req, Decide(s, req)), s)
      case None => Outcome(s, Err(Constraint))
      case Some(s') => Outcome(s', Ok(reply))
  }

  /** The entry of a change added to the log. */
  function Filed(s: State, req: Request, event: Option<Event>): State {
    if event.None? then s
    else s.(log := s.log + [AuditRow(|s.log| + 1, req.at, req.actor, event.value)])
  }

  lemma {:induction false} WritesKeepLog(ws: seq<Write>, s: State)
    requires forall w | w in ws :: !w.InsertAudit?
    ensures ExecAll(ws, s).Some? ==> ExecAll(ws, s).value.log == s.log
  {
    if ws != [] {
      WritesKeepLog(ws[..|ws| - 1], s);
      assert ws[|ws| - 1] in ws;
    }
  }

  /** A change is its statements followed by its entry. */
  lemma StepChange(s: State, req: Request)
    requires Decide(s, req).Change?
    ensures var d := Decide(s, req);
            Step(s, req) ==
            match ExecAll(d.writes, s)
            case None => Outcome(s, Err(Constraint))
            case Some(mid) => Outcome(Filed(mid, req, d.event), Ok(d.reply))
  {
    var d := Decide(s, req);
    if d.event.Some? {
      assert Statements(req, d)[..|d.writes|] == d.writes;
    } else {
      assert Statements(req, d) == d.writes;
    }
  }

  /** The database after a sequence of calls on a fresh one. */
  function Run(reqs: seq<Request>): State {
    if reqs == [] then EMPTY else Step(Run(reqs[..|reqs| - 1]), reqs[|reqs| - 1]).st
  }

  lemma RunSnoc(reqs: seq<Request>, req: Request)
    ensures Run(reqs + [req]) == Step(Run(reqs), req).st
  {
    assert (reqs + [req])[..|reqs|] == reqs;
  }

  /** The branch that changes a table without an audit entry. */
  predicate TakesStaleBranch(s: State, req: Request) {
    req.op.ClaimInvite? && req.actor.oid != "" && req.actor.upn != "" &&
    Invited(s, req.actor.upn).Some? && ActiveOid(s.t, req.actor.oid)
  }

  /** The states a call may start from when it passes the gates of the service: a bootstrap
      needs a verified tid, a claim comes from a sign-in to the bound tenant, and every
      other call from an active steward of it. */
  predicate Gated(s: State, req: Request) {
    req.actor.oid != "" &&
    match req.op
    case Bootstrap(tid) => tid != ""
    case ClaimInvite => s.t.tenant != ""
    case _ => s.t.tenant != "" && ActiveOid(s.t, req.actor.oid)
  }

  ghost predicate GatedRun(reqs: seq<Request>) {
    forall i | 0 <= i < |reqs| :: Gated(Run(reqs[..i]), reqs[i])
  }
}
