/** What each call does, read off the rows and columns alone: when it is refused and with what,
    and otherwise every column it writes, the entry it files and the reply it gives. */
module Outcomes {
  import opened Text
  import opened Schema
  import opened Registry
  import opened Invariants
  import opened LogTruth
  import opened Gates

  /** The log with one more entry. */
  function Entered(s: State, req: Request, event: Event): seq<AuditRow> {
    s.log + [AuditRow(|s.log| + 1, req.at, req.actor, event)]
  }

  /** A call that changes nothing. */
  ghost predicate Refused(s: State, req: Request, e: Error) {
    Step(s, req) == Outcome(s, Err(e))
  }

  /** A decided change of one statement, carried out. */
  lemma OneWrite(s: State, req: Request, w: Write)
    requires Decide(s, req).Change? && Decide(s, req).writes == [w] && Decide(s, req).event.Some?
    requires Permitted(w, s) && Hits(w, s)
    ensures var s', event := Effect(w, s), Decide(s, req).event.value;
            s'.log == s.log ==>
              Step(s, req) == Outcome(s'.(log := Entered(s, req, event)), Ok(Decide(s, req).reply))
  {
    StepChange(s, req);
    SingleWrite(s, w);
    hide Decide, ExecAll;
  }

  // ---- persons ----

  lemma CreatePersonExactly(s: State, req: Request)
    requires req.op.CreatePerson?
    ensures var who, id := req.actor.upn, s.t.personSeq + 1;
            var p := Person(id, Trim(req.op.name), who, who);
            if req.actor.oid == "" then Refused(s, req, ActorRequired)
            else
              Step(s, req) == Outcome(
                s.(t := s.t.(persons := s.t.persons[id := p], personSeq := id),
                   log := Entered(s, req, PersonCreate(id, p.name))),
                Ok(PersonReply(p)))
  {
    if req.actor.oid != "" {
      OneWrite(s, req, InsertPerson(Trim(req.op.name), req.actor.upn));
    }
  }

  lemma RenamePersonExactly(s: State, req: Request)
    requires req.op.RenamePerson?
    ensures var id, name := req.op.id, Trim(req.op.name);
            if req.actor.oid == "" then Refused(s, req, ActorRequired)
            else if id !in s.t.persons then Refused(s, req, NotFound)
            else
              var p := s.t.persons[id];
              if p.name == name then Step(s, req) == Outcome(s, Ok(PersonReply(p)))
              else
                var p' := Person(p.id, name, p.createdBy, req.actor.upn);
                Step(s, req) == Outcome(
                  s.(t := s.t.(persons := s.t.persons[id := p']),
                     log := Entered(s, req, PersonRename(id, p.name, name))),
                  Ok(PersonReply(p')))
  {
    if Decide(s, req).Change? {
      OneWrite(s, req, UpdatePersonName(req.op.id, Trim(req.op.name), req.actor.upn));
    }
  }

  // ---- systems ----

  lemma CreateSystemExactly(s: State, req: Request)
    requires req.op.CreateSystem?
    ensures var who, id, name := req.actor.upn, s.t.systemSeq + 1, Trim(req.op.name);
            var y := System(id, name, who, who, None);
            if req.actor.oid == "" then Refused(s, req, ActorRequired)
            else if name == "" then Refused(s, req, NameRequired)
            else
              Step(s, req) == Outcome(
                s.(t := s.t.(systems := s.t.systems[id := y], systemSeq := id),
                   log := Entered(s, req, SystemCreate(id, name))),
                Ok(SystemReply(y)))
  {
    if Decide(s, req).Change? {
      OneWrite(s, req, InsertSystem(Trim(req.op.name), req.actor.upn));
    }
  }

  lemma RenameSystemExactly(s: State, req: Request)
    requires req.op.RenameSystem?
    ensures var id, name := req.op.id, Trim(req.op.name);
            if req.actor.oid == "" then Refused(s, req, ActorRequired)
            else if name == "" then Refused(s, req, NameRequired)
            else if id !in s.t.systems || s.t.systems[id].disabledBy.Some? then Refused(s, req, NotFound)
            else
              var y := s.t.systems[id];
              if y.name == name then Step(s, req) == Outcome(s, Ok(SystemReply(y)))
              else
                var y' := System(y.id, name, y.createdBy, req.actor.upn, None);
                Step(s, req) == Outcome(
                  s.(t := s.t.(systems := s.t.systems[id := y']),
                     log := Entered(s, req, SystemRename(id, y.name, name))),
                  Ok(SystemReply(y')))
  {
    if Decide(s, req).Change? {
      OneWrite(s, req, UpdateSystemName(req.op.id, Trim(req.op.name), req.actor.upn));
    }
  }

  lemma DisableSystemExactly(s: State, req: Request)
    requires req.op.DisableSystem?
    ensures var id := req.op.id;
            if req.actor.oid == "" then Refused(s, req, ActorRequired)
            else if id !in s.t.systems then Refused(s, req, NotFound)
            else
              var y := s.t.systems[id];
              if y.disabledBy.Some? then Step(s, req) == Outcome(s, Ok(SystemReply(y)))
              else
                var y' := System(y.id, y.name, y.createdBy, y.updatedBy, Some(req.actor.upn));
                Step(s, req) == Outcome(
                  s.(t := s.t.(systems := s.t.systems[id := y']), log := Entered(s, req, SystemDisable(id, y.name))),
                  Ok(SystemReply(y')))
  {
    if Decide(s, req).Change? {
      OneWrite(s, req, Write.DisableSystem(req.op.id, req.actor.upn));
    }
  }

  lemma EnableSystemExactly(s: State, req: Request)
    requires req.op.EnableSystem?
    ensures var id := req.op.id;
            if req.actor.oid == "" then Refused(s, req, ActorRequired)
            else if id !in s.t.systems then Refused(s, req, NotFound)
            else
              var y := s.t.systems[id];
              if y.disabledBy.None? then Step(s, req) == Outcome(s, Ok(SystemReply(y)))
              else
                var y' := System(y.id, y.name, y.createdBy, y.updatedBy, None);
                Step(s, req) == Outcome(
                  s.(t := s.t.(systems := s.t.systems[id := y']), log := Entered(s, req, SystemEnable(id, y.name))),
                  Ok(SystemReply(y')))
  {
    if Decide(s, req).Change? {
      OneWrite(s, req, Write.EnableSystem(req.op.id));
    }
  }

  // ---- associations ----

  lemma CreateAssociationExactly(s: State, req: Request)
    requires req.op.CreateAssociation?
    ensures var CreateAssociation(p, y, raw) := req.op;
            var id, fid := s.t.linkSeq + 1, Trim(raw);
            if req.actor.oid == "" then Refused(s, req, ActorRequired)
            else if p !in s.t.persons || y !in s.t.systems then Refused(s, req, NotFound)
            else
              var l, name := Link(id, p, y, fid, req.actor.upn), s.t.systems[y].name;
              Step(s, req) == Outcome(
                s.(t := s.t.(links := s.t.links[id := l], linkSeq := id),
                   log := Entered(s, req, AssociationCreate(p, id, y, name, fid))),
                Ok(AssociationReply(Association(l, name))))
  {
    if Decide(s, req).Change? {
      var CreateAssociation(p, y, raw) := req.op;
      OneWrite(s, req, InsertAssociation(p, y, Trim(raw), req.actor.upn));
    }
  }

  lemma RemoveAssociationExactly(s: State, req: Request)
    requires req.op.RemoveAssociation?
    ensures var RemoveAssociation(p, id) := req.op;
            if req.actor.oid == "" then Refused(s, req, ActorRequired)
            else if id !in s.t.links || s.t.links[id].systemId !in s.t.systems || s.t.links[id].personId != p then
              Refused(s, req, NotFound)
            else
              var l := s.t.links[id];
              var name := s.t.systems[l.systemId].name;
              Step(s, req) == Outcome(
                s.(t := s.t.(links := s.t.links - {id}),
                   log := Entered(s, req, AssociationRemove(p, id, l.systemId, name, l.foreignId))),
                Ok(Done))
  {
    if Decide(s, req).Change? {
      OneWrite(s, req, DeleteAssociation(req.op.id));
    }
  }

  // ---- stewards ----

  /** Some steward row that was never removed has this OID, or this UPN up to ASCII case. */
  ghost predicate HasOid(t: Tables, oid: string) {
    exists i | i in t.stewards :: t.stewards[i].removedBy.None? && t.stewards[i].oid == oid
  }

  ghost predicate HasUpn(t: Tables, upn: string) {
    exists i | i in t.stewards :: t.stewards[i].removedBy.None? && SameUpToCase(t.stewards[i].upn, upn)
  }

  /** The pending invitation with this UPN up to ASCII case. */
  ghost predicate Invites(s: State, id: int, upn: string) {
    id in s.pending && SameUpToCase(s.pending[id].upn, upn)
  }

  lemma OidFound(t: Tables, oid: string)
    ensures ActiveOid(t, oid) <==> HasOid(t, oid)
  {
  }

  lemma UpnFound(t: Tables, upn: string)
    ensures ActiveUpn(t, upn) <==> HasUpn(t, upn)
  {
    forall i | i in t.stewards
      ensures Lower(t.stewards[i].upn) == Lower(upn) <==> SameUpToCase(t.stewards[i].upn, upn)
    {
      FoldsCase(t.stewards[i].upn, upn);
    }
  }

  /** The lookup by UPN finds the invitation there is. */
  lemma InvitationFound(s: State, upn: string)
    requires Sound(s)
    ensures Invited(s, upn).Some? <==> exists i :: Invites(s, i, upn)
    ensures forall i | Invites(s, i, upn) :: Invited(s, upn) == Some(s.pending[i]) && s.pending[i].id == i
  {
    InvitedComplete(s, upn);
    forall i | i in s.pending
      ensures Lower(s.pending[i].upn) == Lower(upn) <==> Invites(s, i, upn)
    {
      FoldsCase(s.pending[i].upn, upn);
    }
    hide Invited, SameUpToCase, Lower;
  }

  /** An invitation is taken exactly if an actor is named, the UPN is not blank, no steward
      holds it and no invitation stands for it; someone demoted may be invited again. */
  lemma PromoteExactly(s: State, req: Request)
    requires Sound(s) && req.op.PromoteSteward?
    ensures var upn, id := Trim(req.op.upn), s.pendingSeq + 1;
            var p := Pending(id, upn, req.actor.upn);
            if req.actor.oid == "" then Refused(s, req, ActorRequired)
            else if upn == "" then Refused(s, req, UpnRequired)
            else if HasUpn(s.t, upn) then Refused(s, req, AlreadySteward)
            else if exists i :: Invites(s, i, upn) then Refused(s, req, AlreadyInvited)
            else
              Step(s, req) == Outcome(
                s.(pending := s.pending[id := p], pendingSeq := id, log := Entered(s, req, StewardInvite(upn))),
                Ok(PendingReply(p)))
  {
    var upn := Trim(req.op.upn);
    UpnFound(s.t, upn);
    InvitationFound(s, upn);
    AlsoNumbered(s);
    InvitedComplete(s, upn);
    hide Invited, ActiveUpn, HasUpn, Invites, Trim, Lower, Sound;
    if Decide(s, req).Change? {
      OneWrite(s, req, InsertPendingSteward(upn, req.actor.upn));
    }
  }

  lemma DemoteExactly(s: State, req: Request)
    requires req.op.DemoteSteward?
    ensures var id := req.op.id;
            if req.actor.oid == "" then Refused(s, req, ActorRequired)
            else if id !in s.t.stewards || s.t.stewards[id].removedBy.Some? then Refused(s, req, NotFound)
            else if s.t.stewards[id].oid == req.actor.oid then Refused(s, req, SelfRemoval)
            else
              var w := s.t.stewards[id];
              var w' := Steward(w.id, w.oid, w.upn, w.promotedBy, Some(req.actor.upn));
              Step(s, req) == Outcome(
                s.(t := s.t.(stewards := s.t.stewards[id := w']),
                   log := Entered(s, req, StewardDemote(id, w.oid, w.upn))),
                Ok(StewardReply(w')))
  {
    if Decide(s, req).Change? {
      OneWrite(s, req, Write.DemoteSteward(req.op.id, req.actor.upn));
    }
  }

  lemma CancelExactly(s: State, req: Request)
    requires req.op.CancelInvite?
    ensures var id := req.op.id;
            if req.actor.oid == "" then Refused(s, req, ActorRequired)
            else if id !in s.pending then Refused(s, req, NotFound)
            else
              Step(s, req) == Outcome(
                s.(pending := s.pending - {id}, log := Entered(s, req, StewardUninvite(s.pending[id].upn))),
                Ok(Done))
  {
    if Decide(s, req).Change? {
      OneWrite(s, req, DeletePendingSteward(req.op.id));
    }
  }

  /** A claim enrols its caller exactly if an invitation stands for their UPN, up to ASCII
      case, and they hold no active row; holding one, they only use the invitation up. */
  lemma ClaimExactly(s: State, req: Request)
    requires Sound(s) && req.op.ClaimInvite?
    ensures var Actor(oid, upn) := req.actor;
            if oid == "" || upn == "" then Refused(s, req, ActorRequired)
            else
              && ((forall i :: !Invites(s, i, upn)) ==> Step(s, req) == Outcome(s, Ok(ClaimedReply(false))))
              && forall i | Invites(s, i, upn) ::
                   var id, who := s.t.stewardSeq + 1, s.pending[i].invitedBy;
                   var w := Steward(id, oid, upn, who, None);
                   Step(s, req) ==
                   if HasOid(s.t, oid) then Outcome(s.(pending := s.pending - {i}), Ok(ClaimedReply(false)))
                   else Outcome(
                     s.(t := s.t.(stewards := s.t.stewards[id := w], stewardSeq := id), pending := s.pending - {i},
                        log := Entered(s, req, StewardPromote(id, oid, upn, who))),
                     Ok(ClaimedReply(true)))
  {
    InvitationFound(s, req.actor.upn);
    OidFound(s.t, req.actor.oid);
    if TakesStaleBranch(s, req) {
      StaleEffect(s, req);
      StepChange(s, req);
    } else if Decide(s, req).Change? {
      WriteKinds(s, req);
      ClaimWrites(s, req);
      ClaimDecision(s, req);
      StepChange(s, req);
    }
    hide ExecAll, Invited, ActiveOid, HasOid, Invites, Sound;
  }

  /** Bootstrap on any registry whose constraints have no part in it. */
  lemma BootstrapExactly(s: State, req: Request)
    requires req.op.Bootstrap?
    ensures var a, tid, id := req.actor, req.op.tid, s.t.stewardSeq + 1;
            if a.oid == "" || a.upn == "" || tid == "" then Refused(s, req, ClaimIncomplete)
            else if s.t.tenant != "" then Refused(s, req, AlreadyBound)
            else if HasOid(s.t, a.oid) then Refused(s, req, Constraint)
            else
              var w := Steward(id, a.oid, a.upn, "bootstrap", None);
              Step(s, req) == Outcome(
                s.(t := s.t.(tenant := tid, stewards := s.t.stewards[id := w], stewardSeq := id),
                   log := Entered(s, req, TenantBootstrap(tid, id, a.oid, a.upn))),
                Ok(StewardIdReply(id)))
  {
    OidFound(s.t, req.actor.oid);
    if Decide(s, req).Change? {
      BootstrapDecision(s, req);
      BindAndEnrol(s, req.op.tid, req.actor.oid, req.actor.upn);
      StepChange(s, req);
    }
    hide ExecAll, ActiveOid, HasOid;
  }

  // ---- the guarded statements of the store ----

  /** A guarded update changes a row in the state it asks for, and no row in any other. */
  lemma SystemStatementsExactly(s: State, id: int, name: string, who: string)
    ensures var m := s.t.systems;
            var active, off := id in m && m[id].disabledBy.None?, id in m && m[id].disabledBy.Some?;
            && Exec(UpdateSystemName(id, name, who), s) ==
               Some(if active then s.(t := s.t.(systems := m[id := System(m[id].id, name, m[id].createdBy, who, None)]))
                    else s)
            && Exec(Write.DisableSystem(id, who), s) ==
               Some(if active then s.(t := s.t.(systems := m[id := m[id].(disabledBy := Some(who))])) else s)
            && Exec(Write.EnableSystem(id), s) ==
               Some(if off then s.(t := s.t.(systems := m[id := m[id].(disabledBy := None)])) else s)
  {
  }

  lemma RowStatementsExactly(s: State, id: int, name: string, who: string)
    ensures var people, rows := s.t.persons, s.t.stewards;
            var active := id in rows && rows[id].removedBy.None?;
            && Exec(UpdatePersonName(id, name, who), s) ==
               Some(if id in people
                    then s.(t := s.t.(persons := people[id := Person(people[id].id, name, people[id].createdBy, who)]))
                    else s)
            && Exec(Write.DemoteSteward(id, who), s) ==
               Some(if active then s.(t := s.t.(stewards := rows[id := rows[id].(removedBy := Some(who))])) else s)
  {
  }

  /** A delete removes the row there is, and only that. */
  lemma DeletesExactly(s: State, id: int)
    ensures Exec(DeleteAssociation(id), s) == Some(s.(t := s.t.(links := s.t.links - {id})))
    ensures Exec(DeletePendingSteward(id), s) == Some(s.(pending := s.pending - {id}))
  {
    if id !in s.t.links {
      assert s.t.links - {id} == s.t.links;
    }
    if id !in s.pending {
      assert s.pending - {id} == s.pending;
    }
  }

  /** What the constraints of the schema reject, and nothing else. */
  lemma RejectsExactly(s: State, w: Write)
    ensures Exec(w, s).None? <==>
            || (w.InsertAssociation? && !(w.personId in s.t.persons && w.systemId in s.t.systems))
            || (w.InsertSteward? && HasOid(s.t, w.oid))
            || (w.InsertPendingSteward? && exists i | i in s.pending :: s.pending[i].upn == w.upn)
  {
    if w.InsertSteward? {
      OidFound(s.t, w.oid);
    }
    hide ActiveOid, HasOid, Effect;
  }

  // ---- consequences ----

  /** Stewardship can be given back: after a demotion, inviting the same person succeeds. */
  lemma InviteAfterDemotion(s: State, req: Request, again: Request)
    requires Guarded(s) && req.op.DemoteSteward? && Step(s, req).result.Ok?
    requires again.op.PromoteSteward? && again.actor.oid != ""
    requires req.op.id in s.t.stewards && s.t.stewards[req.op.id].upn == Trim(again.op.upn) != ""
    ensures Step(Step(s, req).st, again).result.Ok?
  {
    var s', upn := Step(s, req).st, Trim(again.op.upn);
    DemoteExactly(s, req);
    StepSound(s, req);
    PromoteExactly(s', again);
    forall i | i in s'.t.stewards && s'.t.stewards[i].removedBy.None?
      ensures !SameUpToCase(s'.t.stewards[i].upn, upn)
    {
      FoldsCase(s'.t.stewards[i].upn, upn);
    }
    forall i | i in s'.pending
      ensures !Invites(s', i, upn)
    {
      FoldsCase(s'.pending[i].upn, upn);
    }
    hide Step, Decide, Sound;
  }

  /** The identity invariant without folding: names and OIDs as they are compared by people. */
  lemma IdentitiesUpToCase(s: State)
    requires Guarded(s)
    ensures forall i, j | i in s.t.stewards && j in s.t.stewards && i != j &&
              s.t.stewards[i].removedBy.None? && s.t.stewards[j].removedBy.None? ::
              s.t.stewards[i].oid != s.t.stewards[j].oid && !SameUpToCase(s.t.stewards[i].upn, s.t.stewards[j].upn)
    ensures forall i, j | i in s.pending && j in s.pending && i != j ::
              !SameUpToCase(s.pending[i].upn, s.pending[j].upn)
    ensures forall i, j | i in s.t.stewards && s.t.stewards[i].removedBy.None? && j in s.pending ::
              !SameUpToCase(s.t.stewards[i].upn, s.pending[j].upn)
  {
    assert forall a, b :: Lower(a) == Lower(b) <==> SameUpToCase(a, b) by {
      forall a: string, b: string
        ensures Lower(a) == Lower(b) <==> SameUpToCase(a, b)
      {
        FoldsCase(a, b);
      }
    }
    hide Lower, SameUpToCase, Sound;
    assert ActiveOidsDistinct(s.t.stewards);
  }
}
