/** What every run of calls keeps, gated or not: the constraints of the schema, one invitation
    per UPN, an attributed log, and one entry for each change. */
module Invariants {
  import opened Text
  import opened Schema
  import opened Registry

  // ---- invariants of every run ----

  ghost predicate RowsNumbered(t: Tables) {
    && (forall i | i in t.persons :: 1 <= i <= t.personSeq && t.persons[i].id == i)
    && (forall i | i in t.systems :: 1 <= i <= t.systemSeq && t.systems[i].id == i)
    && (forall i | i in t.links :: 1 <= i <= t.linkSeq && t.links[i].id == i)
    && (forall i | i in t.stewards :: 1 <= i <= t.stewardSeq && t.stewards[i].id == i)
  }

  ghost predicate LinksResolve(t: Tables) {
    forall i | i in t.links :: t.links[i].personId in t.persons && t.links[i].systemId in t.systems
  }

  ghost predicate ActiveOidsDistinct(m: map<int, Steward>) {
    forall i, j | i in m && j in m && i != j && !m[i].Removed() && !m[j].Removed() :: m[i].oid != m[j].oid
  }

  ghost predicate PendingNumbered(s: State) {
    forall i | i in s.pending :: 1 <= i <= s.pendingSeq && s.pending[i].id == i
  }

  ghost predicate LogNumbered(log: seq<AuditRow>) {
    forall k | 0 <= k < |log| :: log[k].id == k + 1
  }

  /** What the schema alone guarantees after any statements. */
  ghost predicate Constrained(s: State) {
    RowsNumbered(s.t) && LinksResolve(s.t) && ActiveOidsDistinct(s.t.stewards) &&
    PendingNumbered(s) && LogNumbered(s.log)
  }

  ghost predicate InvitesDistinct(m: map<int, Pending>) {
    forall i, j | i in m && j in m && i != j :: Lower(m[i].upn) != Lower(m[j].upn)
  }

  ghost predicate Attributed(log: seq<AuditRow>) {
    forall k | 0 <= k < |log| :: log[k].actor.oid != ""
  }

  ghost predicate Sound(s: State) {
    Constrained(s) && InvitesDistinct(s.pending) && Attributed(s.log)
  }

  lemma EffectConstrained(w: Write, s: State)
    requires Constrained(s) && Permitted(w, s) && Hits(w, s)
    ensures Constrained(Effect(w, s))
  {
    var s' := Effect(w, s);
    assert RowsNumbered(s'.t);
    assert LinksResolve(s'.t);
    assert PendingNumbered(s');
  }

  lemma {:induction false} ExecAllConstrained(ws: seq<Write>, s: State)
    requires Constrained(s) && ExecAll(ws, s).Some?
    ensures Constrained(ExecAll(ws, s).value)
  {
    if ws != [] {
      var head := ws[..|ws| - 1];
      ExecAllConstrained(head, s);
      var mid := ExecAll(head, s).value;
      if Hits(ws[|ws| - 1], mid) {
        EffectConstrained(ws[|ws| - 1], mid);
      }
    }
  }

  lemma {:induction false} WritesShrinkPending(ws: seq<Write>, s: State)
    requires forall w | w in ws :: !w.InsertPendingSteward?
    ensures ExecAll(ws, s).Some? ==>
            var m := ExecAll(ws, s).value.pending;
            forall i | i in m :: i in s.pending && m[i] == s.pending[i]
  {
    if ws != [] {
      WritesShrinkPending(ws[..|ws| - 1], s);
      assert ws[|ws| - 1] in ws;
    }
  }

  /** Under PendingNumbered, the lookup by UPN misses no invitation. */
  lemma InvitedComplete(s: State, upn: string)
    requires PendingNumbered(s)
    ensures Invited(s, upn).None? <==> forall i | i in s.pending :: Lower(s.pending[i].upn) != Lower(upn)
    ensures Invited(s, upn).Some? ==>
            var p := Invited(s, upn).value;
            p.id in s.pending && s.pending[p.id] == p && Lower(p.upn) == Lower(upn)
    ensures Invited(s, upn).Some? <==> exists i | i in s.pending :: SameUpToCase(s.pending[i].upn, upn)
  {
    forall i | i in s.pending
      ensures Lower(s.pending[i].upn) == Lower(upn) <==> SameUpToCase(s.pending[i].upn, upn)
    {
      FoldsCase(s.pending[i].upn, upn);
    }
  }

  /** The kinds of statement a call may issue. */
  lemma WriteKinds(s: State, req: Request)
    requires Decide(s, req).Change?
    ensures forall w | w in Decide(s, req).writes :: !w.InsertAudit?
    ensures !req.op.PromoteSteward? ==> forall w | w in Decide(s, req).writes :: !w.InsertPendingSteward?
    ensures req.actor.oid != ""
    ensures Decide(s, req).event.None? <==> TakesStaleBranch(s, req)
  {
  }

  lemma PromoteEffect(s: State, req: Request)
    requires Decide(s, req).Change? && req.op.PromoteSteward?
    ensures var upn, who := Trim(req.op.upn), req.actor.upn;
            && Invited(s, upn).None? && !ActiveUpn(s.t, upn) && upn != ""
            && Decide(s, req).event == Some(StewardInvite(upn))
            && ExecAll(Decide(s, req).writes, s) ==
               if forall i | i in s.pending :: s.pending[i].upn != upn
               then Some(s.(pending := s.pending[s.pendingSeq + 1 := Pending(s.pendingSeq + 1, upn, who)],
                            pendingSeq := s.pendingSeq + 1))
               else None
  {
    var w := InsertPendingSteward(Trim(req.op.upn), req.actor.upn);
    assert Decide(s, req).writes == [w];
    hide Decide, ExecAll, Invited, ActiveUpn, Trim;
    SingleWrite(s, w);
  }

  /** No folded duplicate of an invitation is ever created. */
  lemma StepInvitesDistinct(s: State, req: Request)
    requires Constrained(s) && InvitesDistinct(s.pending)
    ensures InvitesDistinct(Step(s, req).st.pending)
  {
    hide Decide, ExecAll, Constrained;
    if Decide(s, req).Change? {
      StepChange(s, req);
      WriteKinds(s, req);
      if req.op.PromoteSteward? {
        assert PendingNumbered(s) by { AlsoNumbered(s); }
        InvitedComplete(s, Trim(req.op.upn));
        PromoteEffect(s, req);
      } else {
        WritesShrinkPending(Decide(s, req).writes, s);
      }
    }
  }

  lemma AlsoNumbered(s: State)
    requires Constrained(s)
    ensures PendingNumbered(s)
  {
  }

  lemma StepConstrained(s: State, req: Request)
    requires Constrained(s)
    ensures Constrained(Step(s, req).st)
  {
    hide Decide, ExecAll, Constrained;
    if Decide(s, req).Change? {
      var ws := Statements(req, Decide(s, req));
      if ExecAll(ws, s).Some? {
        ExecAllConstrained(ws, s);
      }
    }
  }

  lemma StepAttributed(s: State, req: Request)
    requires Attributed(s.log)
    ensures Attributed(Step(s, req).st.log)
  {
    hide Decide, ExecAll;
    if Decide(s, req).Change? {
      StepChange(s, req);
      WriteKinds(s, req);
      WritesKeepLog(Decide(s, req).writes, s);
    }
  }

  lemma StepSound(s: State, req: Request)
    requires Sound(s)
    ensures Sound(Step(s, req).st)
  {
    hide Step, Constrained;
    StepInvitesDistinct(s, req);
    StepConstrained(s, req);
    StepAttributed(s, req);
  }

  /** Every run of calls, gated or not, leaves a sound database. */
  lemma {:induction false} RunSound(reqs: seq<Request>)
    ensures Sound(Run(reqs))
  {
    if reqs != [] {
      RunSound(reqs[..|reqs| - 1]);
      StepSound(Run(reqs[..|reqs| - 1]), reqs[|reqs| - 1]);
    }
  }

  // ---- one audit entry per change ----

  lemma StaleDecision(s: State, req: Request)
    requires TakesStaleBranch(s, req)
    ensures Decide(s, req) ==
            Change([DeletePendingSteward(Invited(s, req.actor.upn).value.id)], None, ClaimedReply(false))
  {
    hide Invited, ActiveOid;
  }

  lemma StaleEffect(s: State, req: Request)
    requires Sound(s) && TakesStaleBranch(s, req)
    ensures var p := Invited(s, req.actor.upn).value;
            && p.id in s.pending && s.pending[p.id] == p && Lower(p.upn) == Lower(req.actor.upn)
            && |s.pending - {p.id}| == |s.pending| - 1
            && Decide(s, req) == Change([DeletePendingSteward(p.id)], None, ClaimedReply(false))
            && ExecAll(Decide(s, req).writes, s) == Some(s.(pending := s.pending - {p.id}))
  {
    StaleDecision(s, req);
    AlsoNumbered(s);
    InvitedComplete(s, req.actor.upn);
    DropsInvite(s, Invited(s, req.actor.upn).value.id);
    hide Decide, ExecAll, Exec, Invited, ActiveOid, Sound, Lower, TakesStaleBranch;
  }

  lemma DropsInvite(s: State, id: int)
    requires id in s.pending
    ensures ExecAll([DeletePendingSteward(id)], s) == Some(s.(pending := s.pending - {id}))
    ensures |s.pending - {id}| == |s.pending| - 1
  {
    SingleWrite(s, DeletePendingSteward(id));
    SizeWithout(s.pending, id);
  }

  lemma SingleWrite(s: State, w: Write)
    ensures ExecAll([w], s) == Exec(w, s)
  {
    ExecAllShort(s, w, w, w);
  }

  lemma ChangesRows(s: State, req: Request)
    requires Sound(s) && Decide(s, req).Change? && ExecAll(Decide(s, req).writes, s).Some?
    requires req.op.CreatePerson? || req.op.RenamePerson? || req.op.CreateAssociation? || req.op.RemoveAssociation?
    ensures ExecAll(Decide(s, req).writes, s).value.t != s.t
  {
    var ws := Decide(s, req).writes;
    assert ws == [ws[0]];
    SingleWrite(s, ws[0]);
  }

  lemma ChangesSystems(s: State, req: Request)
    requires Sound(s) && Decide(s, req).Change? && ExecAll(Decide(s, req).writes, s).Some?
    requires req.op.CreateSystem? || req.op.RenameSystem? || req.op.DisableSystem? || req.op.EnableSystem?
    ensures ExecAll(Decide(s, req).writes, s).value.t != s.t
  {
    var ws := Decide(s, req).writes;
    assert ws == [ws[0]];
    SingleWrite(s, ws[0]);
  }

  lemma ChangesStewards(s: State, req: Request)
    requires Sound(s) && Decide(s, req).Change? && !TakesStaleBranch(s, req)
    requires ExecAll(Decide(s, req).writes, s).Some?
    requires req.op.Bootstrap? || req.op.ClaimInvite? || req.op.DemoteSteward?
    ensures ExecAll(Decide(s, req).writes, s).value.t != s.t
  {
    hide ExecAll, Sound, Invited;
    var ws := Decide(s, req).writes;
    if |ws| == 1 {
      SingleWrite(s, ws[0]);
    } else {
      ExecAllShort(s, ws[0], ws[1], ws[1]);
    }
  }

  lemma ChangesSomething(s: State, req: Request)
    requires Sound(s) && Decide(s, req).Change? && !TakesStaleBranch(s, req)
    requires ExecAll(Decide(s, req).writes, s).Some?
    ensures var s' := ExecAll(Decide(s, req).writes, s).value;
            (s'.t, s'.pending) != (s.t, s.pending)
  {
    hide ExecAll, Decide;
    match req.op
    case PromoteSteward(upn) =>
      PromoteEffect(s, req);
      assert s.pendingSeq + 1 !in s.pending;
    case CancelInvite(id) =>
      CancelDrops(s, req);
    case _ =>
      if req.op.Bootstrap? || req.op.ClaimInvite? || req.op.DemoteSteward? {
        ChangesStewards(s, req);
      } else if req.op.CreatePerson? || req.op.RenamePerson? || req.op.CreateAssociation? || req.op.RemoveAssociation? {
        ChangesRows(s, req);
      } else {
        ChangesSystems(s, req);
      }
  }

  lemma CancelDrops(s: State, req: Request)
    requires Decide(s, req).Change? && req.op.CancelInvite?
    ensures req.op.id in s.pending
    ensures ExecAll(Decide(s, req).writes, s) == Some(s.(pending := s.pending - {req.op.id}))
  {
    hide ExecAll;
    SingleWrite(s, DeletePendingSteward(req.op.id));
  }

  /** A call that fails or keeps everything leaves the database as it was; one that changes a
      table appends exactly one entry, attributed to its actor, keeping the old log as a
      prefix. The only change without an entry is the stale-invitation branch, which drops
      exactly one pending row. */
  lemma AuditedOnce(s: State, req: Request)
    requires Sound(s)
    ensures var s' := Step(s, req).st;
            if TakesStaleBranch(s, req) then
              s'.t == s.t && s'.log == s.log &&
              s'.pending == s.pending - {Invited(s, req.actor.upn).value.id} && |s'.pending| == |s.pending| - 1
            else if s' == s then true
            else
              && |s'.log| == |s.log| + 1 && s'.log[..|s.log|] == s.log
              && s'.log[|s.log|].actor == req.actor && req.actor.oid != "" && s'.log[|s.log|].at == req.at
              && (s'.t, s'.pending) != (s.t, s.pending)
    ensures Step(s, req).result.Err? ==> Step(s, req).st == s
  {
    hide Decide, ExecAll, Sound;
    if TakesStaleBranch(s, req) {
      StaleEffect(s, req);
      StepChange(s, req);
    } else if Decide(s, req).Change? {
      StepChange(s, req);
      WriteKinds(s, req);
      WritesKeepLog(Decide(s, req).writes, s);
      if ExecAll(Decide(s, req).writes, s).Some? {
        ChangesSomething(s, req);
      }
    }
  }
}
