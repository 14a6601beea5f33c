/** The log tells the truth: replaying it rebuilds the tables of every run, and its rows
    always follow the grammar. */
module LogTruth {
  import opened Text
  import opened Schema
  import opened Registry
  import opened Invariants
  import opened Replay

  /** Every pending invitation is open in the log, under its folded UPN. */
  ghost predicate InvitesLogged(s: State, invites: map<string, Invite>) {
    forall i | i in s.pending ::
      Lower(s.pending[i].upn) in invites &&
      invites[Lower(s.pending[i].upn)] == Invite(s.pending[i].upn, s.pending[i].invitedBy)
  }

  /** Every invitation open in the log is pending. */
  ghost predicate InvitesPending(s: State, invites: map<string, Invite>) {
    forall key | key in invites :: exists i | i in s.pending :: Lower(s.pending[i].upn) == key
  }

  ghost predicate Truthful(s: State) {
    Grammatical(s.log) && Replayed(s.log).t == s.t && InvitesLogged(s, Replayed(s.log).invites)
  }

  /** What has to be shown of one change: its entry follows the log, and edits the book b it
      led to the way the statements edit the tables. */
  ghost predicate Mirrors(s: State, b: Book, mid: State, row: AuditRow) {
    && Follows(b, row)
    && Edit(b, row).t == mid.t
    && InvitesLogged(mid, Edit(b, row).invites)
    && (InvitesPending(s, b.invites) ==> InvitesPending(mid, Edit(b, row).invites))
  }

  /** A sound database with a book that agrees with it, and a call about to change it. */
  ghost predicate Ready(s: State, b: Book, req: Request) {
    Sound(s) && b.t == s.t && InvitesLogged(s, b.invites) && Decide(s, req).Change?
  }

  function Entry(s: State, req: Request): AuditRow
    requires Decide(s, req).Change? && Decide(s, req).event.Some?
  {
    AuditRow(|s.log| + 1, req.at, req.actor, Decide(s, req).event.value)
  }

  lemma PersonMirrors(s: State, b: Book, req: Request)
    requires Ready(s, b, req) && (req.op.CreatePerson? || req.op.RenamePerson?)
    ensures ExecAll(Decide(s, req).writes, s).Some?
    ensures Mirrors(s, b, ExecAll(Decide(s, req).writes, s).value, Entry(s, req))
  {
    hide ExecAll;
    SingleWrite(s, Decide(s, req).writes[0]);
  }

  lemma SystemNameMirrors(s: State, b: Book, req: Request)
    requires Ready(s, b, req) && (req.op.CreateSystem? || req.op.RenameSystem?)
    ensures ExecAll(Decide(s, req).writes, s).Some?
    ensures Mirrors(s, b, ExecAll(Decide(s, req).writes, s).value, Entry(s, req))
  {
    hide ExecAll;
    SingleWrite(s, Decide(s, req).writes[0]);
  }

  lemma SystemStateMirrors(s: State, b: Book, req: Request)
    requires Ready(s, b, req) && (req.op.DisableSystem? || req.op.EnableSystem?)
    ensures ExecAll(Decide(s, req).writes, s).Some?
    ensures Mirrors(s, b, ExecAll(Decide(s, req).writes, s).value, Entry(s, req))
  {
    hide ExecAll;
    SingleWrite(s, Decide(s, req).writes[0]);
  }

  lemma AssociationMirrors(s: State, b: Book, req: Request)
    requires Ready(s, b, req) && (req.op.CreateAssociation? || req.op.RemoveAssociation?)
    ensures ExecAll(Decide(s, req).writes, s).Some?
    ensures Mirrors(s, b, ExecAll(Decide(s, req).writes, s).value, Entry(s, req))
  {
    hide ExecAll;
    SingleWrite(s, Decide(s, req).writes[0]);
  }

  lemma DemoteMirrors(s: State, b: Book, req: Request)
    requires Ready(s, b, req) && req.op.DemoteSteward?
    ensures ExecAll(Decide(s, req).writes, s).Some?
    ensures Mirrors(s, b, ExecAll(Decide(s, req).writes, s).value, Entry(s, req))
  {
    hide ExecAll;
    SingleWrite(s, Decide(s, req).writes[0]);
  }

  lemma InviteKept(s: State, invites: map<string, Invite>, upn: string, who: string)
    requires PendingNumbered(s) && InvitesLogged(s, invites) && Invited(s, upn).None?
    ensures var id := s.pendingSeq + 1;
            var mid := s.(pending := s.pending[id := Pending(id, upn, who)], pendingSeq := id);
            var more := invites[Lower(upn) := Invite(upn, who)];
            InvitesLogged(mid, more) && (InvitesPending(s, invites) ==> InvitesPending(mid, more))
  {
    InvitedComplete(s, upn);
    var id := s.pendingSeq + 1;
    var mid := s.(pending := s.pending[id := Pending(id, upn, who)], pendingSeq := id);
    var more := invites[Lower(upn) := Invite(upn, who)];
    if InvitesPending(s, invites) {
      forall key | key in more
        ensures exists i | i in mid.pending :: Lower(mid.pending[i].upn) == key
      {
        if key == Lower(upn) {
          assert id in mid.pending && Lower(mid.pending[id].upn) == key;
        } else {
          var i :| i in s.pending && Lower(s.pending[i].upn) == key;
          assert i in mid.pending && mid.pending[i] == s.pending[i];
        }
      }
    }
  }

  lemma InviteDropped(s: State, invites: map<string, Invite>, id: int)
    requires InvitesDistinct(s.pending) && InvitesLogged(s, invites) && id in s.pending
    ensures var mid := s.(pending := s.pending - {id});
            var fewer := invites - {Lower(s.pending[id].upn)};
            InvitesLogged(mid, fewer) && (InvitesPending(s, invites) ==> InvitesPending(mid, fewer))
  {
    var key0 := Lower(s.pending[id].upn);
    var mid := s.(pending := s.pending - {id});
    if InvitesPending(s, invites) {
      forall key | key in invites - {key0}
        ensures exists i | i in mid.pending :: Lower(mid.pending[i].upn) == key
      {
        var i :| i in s.pending && Lower(s.pending[i].upn) == key;
        assert i in mid.pending;
      }
    }
  }

  lemma PromoteMirrors(s: State, b: Book, req: Request)
    requires Ready(s, b, req) && req.op.PromoteSteward?
    ensures ExecAll(Decide(s, req).writes, s).Some?
    ensures Mirrors(s, b, ExecAll(Decide(s, req).writes, s).value, Entry(s, req))
  {
    PromoteEffect(s, req);
    WriteKinds(s, req);
    InvitedComplete(s, Trim(req.op.upn));
    InviteKept(s, b.invites, Trim(req.op.upn), req.actor.upn);
    hide Decide, ExecAll, InvitesLogged, InvitesPending, Sound, ActiveUpn;
  }

  lemma CancelMirrors(s: State, b: Book, req: Request)
    requires Ready(s, b, req) && req.op.CancelInvite?
    ensures ExecAll(Decide(s, req).writes, s).Some?
    ensures Mirrors(s, b, ExecAll(Decide(s, req).writes, s).value, Entry(s, req))
  {
    var id := req.op.id;
    var upn := s.pending[id].upn;
    SingleWrite(s, DeletePendingSteward(id));
    InviteDropped(s, b.invites, id);
    assert Lower(upn) in b.invites && b.invites[Lower(upn)].upn == upn;
    hide ExecAll, InvitesLogged, InvitesPending, Sound;
  }

  lemma ClaimMirrors(s: State, b: Book, req: Request)
    requires Ready(s, b, req) && req.op.ClaimInvite? && Decide(s, req).event.Some?
    ensures ExecAll(Decide(s, req).writes, s).Some?
    ensures Mirrors(s, b, ExecAll(Decide(s, req).writes, s).value, Entry(s, req))
  {
    InvitedComplete(s, req.actor.upn);
    var p := Invited(s, req.actor.upn).value;
    ClaimWrites(s, req);
    WriteKinds(s, req);
    assert b.invites[Lower(req.actor.upn)].invitedBy == p.invitedBy;
    hide Decide, ExecAll, Exec, Sound, ActiveOid, Invited, InvitesLogged, InvitesPending, Lower;
    assert InvitesDistinct(s.pending) by { AlsoDistinct(s); }
    InviteDropped(s, b.invites, p.id);
  }

  lemma AlsoDistinct(s: State)
    requires Sound(s)
    ensures InvitesDistinct(s.pending)
  {
  }

  /** A claim that files an entry enrols its caller and consumes the invitation it found. */
  lemma ClaimWrites(s: State, req: Request)
    requires Sound(s) && req.op.ClaimInvite? && Decide(s, req).Change? && Decide(s, req).event.Some?
    ensures Invited(s, req.actor.upn).Some? && !ActiveOid(s.t, req.actor.oid)
    ensures var p, id, a := Invited(s, req.actor.upn).value, s.t.stewardSeq + 1, req.actor;
            && Decide(s, req).event == Some(StewardPromote(id, a.oid, a.upn, p.invitedBy))
            && ExecAll(Decide(s, req).writes, s) ==
               Some(s.(t := s.t.(stewards := s.t.stewards[id := Steward(id, a.oid, a.upn, p.invitedBy, None)],
                                 stewardSeq := id),
                       pending := s.pending - {p.id}))
  {
    InvitedComplete(s, req.actor.upn);
    ClaimDecision(s, req);
    hide Decide, ExecAll, Invited, Sound, Lower, ActiveOid;
    var p, a := Invited(s, req.actor.upn).value, req.actor;
    EnrolAndDrop(s, a.oid, a.upn, p.invitedBy, p.id);
  }

  lemma EnrolAndDrop(s: State, oid: string, upn: string, who: string, invite: int)
    requires !ActiveOid(s.t, oid) && invite in s.pending
    ensures var id := s.t.stewardSeq + 1;
            ExecAll([InsertSteward(oid, upn, who), DeletePendingSteward(invite)], s) ==
            Some(s.(t := s.t.(stewards := s.t.stewards[id := Steward(id, oid, upn, who, None)], stewardSeq := id),
                    pending := s.pending - {invite}))
  {
    hide ExecAll, ActiveOid;
    var drop := DeletePendingSteward(invite);
    ExecAllShort(s, InsertSteward(oid, upn, who), drop, drop);
  }

  lemma ClaimDecision(s: State, req: Request)
    requires req.op.ClaimInvite? && Decide(s, req).Change? && Decide(s, req).event.Some?
    ensures Invited(s, req.actor.upn).Some? && !ActiveOid(s.t, req.actor.oid)
    ensures var p, id, a := Invited(s, req.actor.upn).value, s.t.stewardSeq + 1, req.actor;
            Decide(s, req) == Change([InsertSteward(a.oid, a.upn, p.invitedBy), DeletePendingSteward(p.id)],
                                     Some(StewardPromote(id, a.oid, a.upn, p.invitedBy)), ClaimedReply(true))
  {
    hide Invited, ActiveOid;
  }

  lemma BindAndEnrol(s: State, tid: string, oid: string, upn: string)
    ensures var id := s.t.stewardSeq + 1;
            ExecAll([BindTenant(tid), InsertSteward(oid, upn, "bootstrap")], s) ==
            if ActiveOid(s.t, oid) then None
            else Some(s.(t := s.t.(tenant := tid,
                                   stewards := s.t.stewards[id := Steward(id, oid, upn, "bootstrap", None)],
                                   stewardSeq := id)))
  {
    hide ExecAll;
    assert ActiveOid(s.t.(tenant := tid), oid) == ActiveOid(s.t, oid);
    hide ActiveOid;
    ExecAllShort(s, BindTenant(tid), InsertSteward(oid, upn, "bootstrap"), BindTenant(tid));
  }

  lemma BootstrapDecision(s: State, req: Request)
    requires req.op.Bootstrap? && Decide(s, req).Change?
    ensures var a, tid, id := req.actor, req.op.tid, s.t.stewardSeq + 1;
            && s.t.tenant == "" && tid != "" && a.oid != ""
            && Decide(s, req) == Change([BindTenant(tid), InsertSteward(a.oid, a.upn, "bootstrap")],
                                        Some(TenantBootstrap(tid, id, a.oid, a.upn)), StewardIdReply(id))
  {
  }

  lemma BootstrapMirrors(s: State, b: Book, req: Request)
    requires Ready(s, b, req) && req.op.Bootstrap? && ExecAll(Decide(s, req).writes, s).Some?
    ensures Mirrors(s, b, ExecAll(Decide(s, req).writes, s).value, Entry(s, req))
  {
    BootstrapDecision(s, req);
    BindAndEnrol(s, req.op.tid, req.actor.oid, req.actor.upn);
    hide Decide, ExecAll, Sound, ActiveOid, Lower;
  }

  /** A sound database never has a change rejected by a constraint, except a bootstrap of an
      unbound registry where the bootstrapping OID already is an active steward. */
  lemma ConstraintsHold(s: State, b: Book, req: Request)
    requires Ready(s, b, req) && Decide(s, req).Change?
    requires req.op.Bootstrap? ==> !ActiveOid(s.t, req.actor.oid)
    ensures ExecAll(Decide(s, req).writes, s).Some?
  {
    hide Ready, ExecAll, Mirrors;
    match req.op
    case Bootstrap(_) =>
      var ws := Decide(s, req).writes;
      ExecAllShort(s, ws[0], ws[1], ws[1]);
    case CreatePerson(_) => PersonMirrors(s, b, req);
    case RenamePerson(_, _) => PersonMirrors(s, b, req);
    case CreateSystem(_) => SystemNameMirrors(s, b, req);
    case RenameSystem(_, _) => SystemNameMirrors(s, b, req);
    case DisableSystem(_) => SystemStateMirrors(s, b, req);
    case EnableSystem(_) => SystemStateMirrors(s, b, req);
    case CreateAssociation(_, _, _) => AssociationMirrors(s, b, req);
    case RemoveAssociation(_, _) => AssociationMirrors(s, b, req);
    case PromoteSteward(_) => PromoteMirrors(s, b, req);
    case DemoteSteward(_) => DemoteMirrors(s, b, req);
    case CancelInvite(_) => CancelMirrors(s, b, req);
    case ClaimInvite =>
      if Decide(s, req).event.Some? {
        ClaimMirrors(s, b, req);
      } else {
        SingleWrite(s, Decide(s, req).writes[0]);
      }
  }

  lemma ChangeMirrors(s: State, b: Book, req: Request)
    requires Ready(s, b, req) && Decide(s, req).event.Some?
    requires ExecAll(Decide(s, req).writes, s).Some?
    ensures Mirrors(s, b, ExecAll(Decide(s, req).writes, s).value, Entry(s, req))
  {
    hide Ready, ExecAll, Mirrors, Decide;
    match req.op
    case Bootstrap(_) => BootstrapMirrors(s, b, req);
    case CreatePerson(_) => PersonMirrors(s, b, req);
    case RenamePerson(_, _) => PersonMirrors(s, b, req);
    case CreateSystem(_) => SystemNameMirrors(s, b, req);
    case RenameSystem(_, _) => SystemNameMirrors(s, b, req);
    case DisableSystem(_) => SystemStateMirrors(s, b, req);
    case EnableSystem(_) => SystemStateMirrors(s, b, req);
    case CreateAssociation(_, _, _) => AssociationMirrors(s, b, req);
    case RemoveAssociation(_, _) => AssociationMirrors(s, b, req);
    case PromoteSteward(_) => PromoteMirrors(s, b, req);
    case DemoteSteward(_) => DemoteMirrors(s, b, req);
    case CancelInvite(_) => CancelMirrors(s, b, req);
    case ClaimInvite => ClaimMirrors(s, b, req);
  }

  /** One call keeps the log truthful, and keeps it exact about invitations unless it takes
      the stale-invitation branch. */
  lemma StepTruthful(s: State, req: Request)
    requires Sound(s) && Truthful(s)
    ensures Truthful(Step(s, req).st)
    ensures InvitesPending(s, Replayed(s.log).invites) && !TakesStaleBranch(s, req) ==>
            InvitesPending(Step(s, req).st, Replayed(Step(s, req).st.log).invites)
  {
    hide Decide, ExecAll, Step, Sound, Truthful, InvitesPending;
    if TakesStaleBranch(s, req) {
      StaleTruthful(s, req);
    } else if Decide(s, req).Change? && ExecAll(Decide(s, req).writes, s).Some? {
      ChangeTruthful(s, req);
    } else {
      NoChange(s, req);
    }
  }

  lemma NoChange(s: State, req: Request)
    requires Decide(s, req).Change? ==> ExecAll(Decide(s, req).writes, s).None?
    ensures Step(s, req).st == s
  {
    hide Decide, ExecAll;
    if Decide(s, req).Change? {
      StepChange(s, req);
    }
  }

  lemma StaleTruthful(s: State, req: Request)
    requires Sound(s) && Truthful(s) && TakesStaleBranch(s, req)
    ensures Truthful(Step(s, req).st)
  {
    StaleEffect(s, req);
    hide Decide, ExecAll, Sound, TakesStaleBranch, Replayed, Grammatical;
    StepChange(s, req);
  }

  lemma ChangeTruthful(s: State, req: Request)
    requires Sound(s) && Truthful(s) && !TakesStaleBranch(s, req)
    requires Decide(s, req).Change? && ExecAll(Decide(s, req).writes, s).Some?
    ensures Truthful(Step(s, req).st)
    ensures InvitesPending(s, Replayed(s.log).invites) ==>
            InvitesPending(Step(s, req).st, Replayed(Step(s, req).st.log).invites)
  {
    hide Decide, ExecAll, Sound, Follows, Edit, TakesStaleBranch, Replayed, Grammatical;
    StepChange(s, req);
    WriteKinds(s, req);
    WritesKeepLog(Decide(s, req).writes, s);
    ChangeMirrors(s, Replayed(s.log), req);
    GrammaticalSnoc(s.log, Entry(s, req));
    ReplayedSnoc(s.log, Entry(s, req));
  }

  /** Replaying the audit log of any run rebuilds the tenant and every person, system,
      association and steward row, with the columns naming who acted, and the counters; the
      log obeys its grammar; and every pending invitation is open in it. */
  lemma {:induction false} LogRebuildsTables(reqs: seq<Request>)
    ensures Truthful(Run(reqs))
  {
    if reqs != [] {
      var before := reqs[..|reqs| - 1];
      LogRebuildsTables(before);
      RunSound(before);
      hide Truthful, Step, Sound;
      StepTruthful(Run(before), reqs[|reqs| - 1]);
    }
  }

  ghost predicate NeverStale(reqs: seq<Request>) {
    forall k | 0 <= k < |reqs| :: !TakesStaleBranch(Run(reqs[..k]), reqs[k])
  }

  /** On a run that never takes the stale-invitation branch, the invitations open in the log
      are exactly the pending ones. */
  lemma {:induction false} LogRebuildsInvites(reqs: seq<Request>)
    requires NeverStale(reqs)
    ensures InvitesPending(Run(reqs), Replayed(Run(reqs).log).invites)
    ensures InvitesLogged(Run(reqs), Replayed(Run(reqs).log).invites)
  {
    LogRebuildsTables(reqs);
    if reqs != [] {
      var n := |reqs| - 1;
      var before := reqs[..n];
      assert forall k | 0 <= k < n :: before[..k] == reqs[..k];
      LogRebuildsInvites(before);
      RunSound(before);
      LogRebuildsTables(before);
      hide Step, Sound, InvitesPending;
      StepTruthful(Run(before), reqs[n]);
    }
  }
}
