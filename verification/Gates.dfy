/** What the gates of the service add. Calls that come from the bound tenant keep one active
    steward per OID and per UPN, none of them also invited, and leave the constraints nothing
    to reject; and when the steward gate and the transaction are one step, at least one active
    steward remains. */
module Gates {
  import opened Text
  import opened Schema
  import opened Registry
  import opened Invariants
  import opened LogTruth
  import Replay

  ghost predicate ActiveUpnsDistinct(m: map<int, Steward>) {
    forall i, j | i in m && j in m && i != j && !m[i].Removed() && !m[j].Removed() ::
      Lower(m[i].upn) != Lower(m[j].upn)
  }

  ghost predicate ActiveNotInvited(m: map<int, Steward>, p: map<int, Pending>) {
    forall i, j | i in m && j in p && !m[i].Removed() :: Lower(m[i].upn) != Lower(p[j].upn)
  }

  ghost predicate SomeActive(m: map<int, Steward>) {
    exists i | i in m :: !m[i].Removed()
  }

  /** The identity invariant. */
  ghost predicate Identities(tenant: string, m: map<int, Steward>, p: map<int, Pending>) {
    && (forall i | i in m :: m[i].oid != "")
    && ActiveOidsDistinct(m) && ActiveUpnsDistinct(m)
    && InvitesDistinct(p) && ActiveNotInvited(m, p)
    && (tenant == "" ==> m == map[] && p == map[])
  }

  ghost predicate Guarded(s: State) {
    Sound(s) && Identities(s.t.tenant, s.t.stewards, s.pending)
  }

  /** A bound registry has an active steward. */
  ghost predicate Manned(s: State) {
    s.t.tenant != "" ==> SomeActive(s.t.stewards)
  }

  /** What the gates leave true until the transaction, however long it takes to begin: the
      tenant, once bound, stays bound. Whether the caller is still a steward may change. */
  predicate Admitted(s: State, req: Request) {
    req.actor.oid != "" && if req.op.Bootstrap? then req.op.tid != "" else s.t.tenant != ""
  }

  ghost predicate AdmittedRun(reqs: seq<Request>) {
    forall i | 0 <= i < |reqs| :: Admitted(Run(reqs[..i]), reqs[i])
  }

  lemma GatedIsAdmitted(s: State, req: Request)
    requires Gated(s, req)
    ensures Admitted(s, req)
  {
  }

  predicate StewardOp(op: Op) {
    op.Bootstrap? || op.PromoteSteward? || op.DemoteSteward? || op.CancelInvite? || op.ClaimInvite?
  }

  /** Calls about persons, systems and associations leave the stewards alone. */
  lemma OtherCallsKeepStewards(s: State, req: Request)
    requires !StewardOp(req.op)
    ensures var s' := Step(s, req).st;
            s'.t.tenant == s.t.tenant && s'.t.stewards == s.t.stewards && s'.pending == s.pending
  {
    if Decide(s, req).Change? {
      OtherWrite(s, req);
      hide Decide, ExecAll;
      StepChange(s, req);
      var w := Decide(s, req).writes[0];
      SingleWrite(s, w);
      RegistryWriteKeepsStewards(s, w);
    }
  }

  /** Statements on persons, systems and associations. */
  predicate RegistryWrite(w: Write) {
    w.InsertPerson? || w.UpdatePersonName? || w.InsertSystem? || w.UpdateSystemName? ||
    w.DisableSystem? || w.EnableSystem? || w.InsertAssociation? || w.DeleteAssociation?
  }

  lemma OtherWrite(s: State, req: Request)
    requires !StewardOp(req.op) && Decide(s, req).Change?
    ensures |Decide(s, req).writes| == 1 && RegistryWrite(Decide(s, req).writes[0])
    ensures Decide(s, req).writes == [Decide(s, req).writes[0]]
  {
  }

  lemma RegistryWriteKeepsStewards(s: State, w: Write)
    requires RegistryWrite(w) && Exec(w, s).Some?
    ensures var s' := Exec(w, s).value;
            s'.t.tenant == s.t.tenant && s'.t.stewards == s.t.stewards && s'.pending == s.pending
  {
  }

  lemma BootstrapEffect(s: State, req: Request)
    requires req.op.Bootstrap? && Decide(s, req).Change? && !ActiveOid(s.t, req.actor.oid)
    ensures s.t.tenant == "" && req.op.tid != "" && req.actor.oid != ""
    ensures var s', id := Step(s, req).st, s.t.stewardSeq + 1;
            && s'.t.tenant == req.op.tid && s'.pending == s.pending
            && s'.t.stewards == s.t.stewards[id := Steward(id, req.actor.oid, req.actor.upn, "bootstrap", None)]
  {
    BootstrapDecision(s, req);
    BindAndEnrol(s, req.op.tid, req.actor.oid, req.actor.upn);
    StepChange(s, req);
    hide Decide, ExecAll, Step, ActiveOid;
  }

  lemma BootstrapIdentities(s: State, req: Request)
    requires Guarded(s) && req.op.Bootstrap?
    ensures var s' := Step(s, req).st; Identities(s'.t.tenant, s'.t.stewards, s'.pending)
    ensures Decide(s, req).Change? ==> !ActiveOid(s.t, req.actor.oid)
  {
    if Decide(s, req).Change? {
      assert s.t.stewards == map[];
      BootstrapEffect(s, req);
      hide Decide, Step, Sound;
    }
  }

  lemma PromoteIdentities(s: State, req: Request)
    requires Guarded(s) && req.op.PromoteSteward? && Admitted(s, req)
    ensures var s' := Step(s, req).st; Identities(s'.t.tenant, s'.t.stewards, s'.pending)
  {
    if Decide(s, req).Change? {
      hide ExecAll, Decide, Lower, ActiveOid, Invited;
      StepChange(s, req);
      PromoteEffect(s, req);
      InvitedComplete(s, Trim(req.op.upn));
    }
  }

  lemma DemoteIdentities(s: State, req: Request)
    requires Guarded(s) && req.op.DemoteSteward? && Admitted(s, req)
    ensures var s' := Step(s, req).st; Identities(s'.t.tenant, s'.t.stewards, s'.pending)
  {
    if Decide(s, req).Change? {
      DemoteSucceeds(s, req);
      hide Decide, Step, ExecAll, Sound;
    }
  }

  lemma CancelIdentities(s: State, req: Request)
    requires Guarded(s) && req.op.CancelInvite?
    ensures var s' := Step(s, req).st; Identities(s'.t.tenant, s'.t.stewards, s'.pending)
  {
    if Decide(s, req).Change? {
      hide Decide, ExecAll, Sound;
      StepChange(s, req);
      CancelDrops(s, req);
      hide Step;
    }
  }

  /** Enrolling the holder of an invitation and consuming it. */
  lemma EnrolKeepsIdentities(tenant: string, m: map<int, Steward>, p: map<int, Pending>,
                             id: int, w: Steward, invite: int)
    requires Identities(tenant, m, p) && tenant != "" && id !in m
    requires w.oid != "" && !w.Removed() && forall i | i in m && !m[i].Removed() :: m[i].oid != w.oid
    requires invite in p && Lower(p[invite].upn) == Lower(w.upn)
    ensures Identities(tenant, m[id := w], p - {invite})
  {
    assert m[id := w][id] == w;
  }

  lemma StaleIdentities(s: State, req: Request)
    requires Guarded(s) && TakesStaleBranch(s, req)
    ensures var s' := Step(s, req).st; Identities(s'.t.tenant, s'.t.stewards, s'.pending)
  {
    StaleEffect(s, req);
    StepChange(s, req);
    hide ExecAll, Decide, Step;
  }

  lemma ClaimEffect(s: State, req: Request)
    requires Sound(s) && req.op.ClaimInvite? && Decide(s, req).Change? && !TakesStaleBranch(s, req)
    ensures Invited(s, req.actor.upn).Some? && !ActiveOid(s.t, req.actor.oid) && req.actor.oid != ""
    ensures var s', id, p := Step(s, req).st, s.t.stewardSeq + 1, Invited(s, req.actor.upn).value;
            && p.id in s.pending && s.pending[p.id] == p && Lower(p.upn) == Lower(req.actor.upn)
            && id !in s.t.stewards
            && s'.t.tenant == s.t.tenant && s'.pending == s.pending - {p.id}
            && s'.t.stewards ==
               s.t.stewards[id := Steward(id, req.actor.oid, req.actor.upn, p.invitedBy, None)]
  {
    WriteKinds(s, req);
    InvitedComplete(s, req.actor.upn);
    LogTruth.ClaimWrites(s, req);
    assert s.t.stewardSeq + 1 !in s.t.stewards;
    StepChange(s, req);
    hide Decide, ExecAll, Step, Sound, Lower, Invited, ActiveOid;
  }

  lemma ClaimIdentities(s: State, req: Request)
    requires Guarded(s) && req.op.ClaimInvite? && Admitted(s, req)
    ensures var s' := Step(s, req).st; Identities(s'.t.tenant, s'.t.stewards, s'.pending)
  {
    if TakesStaleBranch(s, req) {
      StaleIdentities(s, req);
    } else if Decide(s, req).Change? {
      hide ExecAll, Decide, Step, Identities, Sound;
      ClaimEffect(s, req);
      var p := Invited(s, req.actor.upn).value;
      var id := s.t.stewardSeq + 1;
      EnrolKeepsIdentities(s.t.tenant, s.t.stewards, s.pending, id,
                           Steward(id, req.actor.oid, req.actor.upn, p.invitedBy, None), p.id);
    }
  }

  /** A call from the bound tenant keeps the identity invariant, steward or not. */
  lemma StepGuarded(s: State, req: Request)
    requires Guarded(s) && Admitted(s, req)
    ensures Guarded(Step(s, req).st)
  {
    hide Step, Sound, Identities, Admitted;
    StepSound(s, req);
    match req.op
    case Bootstrap(_) => BootstrapIdentities(s, req);
    case PromoteSteward(_) => PromoteIdentities(s, req);
    case DemoteSteward(_) => DemoteIdentities(s, req);
    case CancelInvite(_) => CancelIdentities(s, req);
    case ClaimInvite => ClaimIdentities(s, req);
    case _ => OtherCallsKeepStewards(s, req);
  }

  /** In every run of calls from the bound tenant: active OIDs and UPNs are pairwise distinct,
      UPNs under folding, as are pending UPNs; no active UPN is pending; and an unbound
      registry has no stewards and no invitations. */
  lemma {:induction false} RunGuarded(reqs: seq<Request>)
    requires AdmittedRun(reqs)
    ensures Guarded(Run(reqs))
  {
    if reqs != [] {
      hide Guarded, Step, Admitted;
      var n := |reqs| - 1;
      assert forall k | 0 <= k < n :: reqs[..n][..k] == reqs[..k];
      RunGuarded(reqs[..n]);
      assert Admitted(Run(reqs[..n]), reqs[n]);
      StepGuarded(Run(reqs[..n]), reqs[n]);
    }
  }

  lemma PromoteKeepsStewards(s: State, req: Request)
    requires req.op.PromoteSteward? || req.op.CancelInvite? || TakesStaleBranch(s, req)
    requires Sound(s)
    ensures Step(s, req).st.t == s.t
  {
    if Decide(s, req).Change? {
      StepChange(s, req);
      hide ExecAll, Step;
      if req.op.PromoteSteward? {
        PromoteEffect(s, req);
      } else if req.op.CancelInvite? {
        CancelDrops(s, req);
      } else {
        StaleEffect(s, req);
      }
      hide Decide;
    }
  }

  /** A gated call keeps an active steward: whoever demotes has a row of their own left. */
  lemma StepManned(s: State, req: Request)
    requires Guarded(s) && Manned(s) && Gated(s, req)
    ensures Manned(Step(s, req).st)
  {
    GatedIsAdmitted(s, req);
    if Demotes(s, req) {
      DemotionLeaves(s, req);
    } else {
      OthersKeepManned(s, req);
    }
    hide Step, Decide, Sound, Identities;
  }

  lemma GatedRunSnoc(reqs: seq<Request>, req: Request)
    requires GatedRun(reqs + [req])
    ensures GatedRun(reqs) && Gated(Run(reqs), req)
  {
    hide Run, Gated;
    var n, all := |reqs|, reqs + [req];
    assert forall k | 0 <= k <= n :: all[..k] == reqs[..k];
    assert reqs[..n] == reqs;
    assert forall k | 0 <= k < n :: Gated(Run(all[..k]), all[k]);
    assert Gated(Run(all[..n]), all[n]);
  }

  lemma GatedRunIsAdmitted(reqs: seq<Request>)
    requires GatedRun(reqs)
    ensures AdmittedRun(reqs)
  {
    hide Run, Gated, Admitted;
    forall i | 0 <= i < |reqs|
      ensures Admitted(Run(reqs[..i]), reqs[i])
    {
      GatedIsAdmitted(Run(reqs[..i]), reqs[i]);
    }
  }

  /** In every run with gate and transaction as one step, a bound registry has an active
      steward. */
  lemma {:induction false} RunManned(reqs: seq<Request>)
    requires GatedRun(reqs)
    ensures AdmittedRun(reqs) && Guarded(Run(reqs)) && Manned(Run(reqs))
  {
    GatedRunIsAdmitted(reqs);
    RunGuarded(reqs);
    if reqs != [] {
      hide Guarded, Manned, Step, Gated, GatedRun, AdmittedRun, Admitted;
      var before, req := reqs[..|reqs| - 1], reqs[|reqs| - 1];
      assert reqs == before + [req];
      GatedRunSnoc(before, req);
      RunManned(before);
      RunSnoc(before, req);
      StepManned(Run(before), req);
    }
  }

  // ---- the guards are enough ----

  /** Every statement finds its row: the rows-affected counts core discards are all 1. */
  ghost predicate AllHit(ws: seq<Write>, s: State) {
    forall k | 0 <= k < |ws| :: ExecAll(ws[..k], s).Some? && Hits(ws[k], ExecAll(ws[..k], s).value)
  }

  lemma SingleHits(s: State, w: Write)
    requires Hits(w, s)
    ensures AllHit([w], s)
  {
    assert [w][..0] == [];
  }

  lemma PairHits(s: State, a: Write, b: Write)
    requires Permitted(a, s) && Hits(a, s) && Hits(b, Effect(a, s))
    ensures AllHit([a, b], s)
  {
    assert [a, b][..0] == [];
    assert [a, b][..1] == [a];
    SingleWrite(s, a);
  }

  lemma StewardCallsHit(s: State, req: Request)
    requires Guarded(s) && Admitted(s, req) && Decide(s, req).Change? && StewardOp(req.op)
    ensures AllHit(Decide(s, req).writes, s)
  {
    hide ExecAll, AllHit;
    var ws := Decide(s, req).writes;
    if req.op.Bootstrap? {
      BootstrapIdentities(s, req);
      PairHits(s, ws[0], ws[1]);
    } else if req.op.ClaimInvite? && !TakesStaleBranch(s, req) {
      InvitedComplete(s, req.actor.upn);
      PairHits(s, ws[0], ws[1]);
    } else {
      InvitedComplete(s, req.actor.upn);
      SingleHits(s, ws[0]);
    }
  }

  lemma OtherCallsHit(s: State, req: Request)
    requires Decide(s, req).Change? && !StewardOp(req.op)
    ensures AllHit(Decide(s, req).writes, s)
  {
    hide ExecAll, AllHit;
    var ws := Decide(s, req).writes;
    SingleHits(s, ws[0]);
  }

  /** In a run of such calls without store failures the guards of core suffice: no UNIQUE index and
      no foreign key ever rejects a write, every update and delete hits exactly its row, and
      a change always succeeds. */
  lemma GuardsSuffice(reqs: seq<Request>, req: Request)
    requires AdmittedRun(reqs) && Admitted(Run(reqs), req)
    ensures var s, d := Run(reqs), Decide(Run(reqs), req);
            Step(s, req).result != Err(Constraint) &&
            (d.Change? ==> Step(s, req).result == Ok(d.reply) && AllHit(d.writes, s))
  {
    RunGuarded(reqs);
    LogRebuildsTables(reqs);
    GuardsSufficeAt(Run(reqs), req);
  }

  lemma GuardsSufficeAt(s: State, req: Request)
    requires Guarded(s) && Truthful(s) && Admitted(s, req)
    ensures var d := Decide(s, req);
            Step(s, req).result != Err(Constraint) &&
            (d.Change? ==> Step(s, req).result == Ok(d.reply) && AllHit(d.writes, s))
  {
    var d := Decide(s, req);
    NeverRejectsWithConstraint(s, req);
    hide Decide, ExecAll, Guarded, Admitted;
    if d.Change? {
      StepChange(s, req);
      if req.op.Bootstrap? {
        assert Guarded(s) && Admitted(s, req);
        BootstrapFree(s, req);
      }
      BookAgrees(s, req);
      ConstraintsHold(s, Replay.Replayed(s.log), req);
      if StewardOp(req.op) {
        StewardCallsHit(s, req);
      } else {
        OtherCallsHit(s, req);
      }
    }
  }

  lemma NeverRejectsWithConstraint(s: State, req: Request)
    ensures Decide(s, req) != Reject(Constraint)
  {
  }

  lemma BookAgrees(s: State, req: Request)
    requires Guarded(s) && Truthful(s) && Decide(s, req).Change?
    ensures Ready(s, Replay.Replayed(s.log), req)
  {
    hide Decide;
  }

  lemma BootstrapFree(s: State, req: Request)
    requires Guarded(s) && req.op.Bootstrap? && Decide(s, req).Change?
    ensures !ActiveOid(s.t, req.actor.oid)
  {
    BootstrapIdentities(s, req);
  }

  // ---- keeping one steward ----

  /** The active stewards, by row. */
  function ActiveRows(m: map<int, Steward>): set<int> {
    set i | i in m && !m[i].Removed()
  }

  /** One active row less: some row stays active exactly if there were two. */
  lemma OneRowLess(m: map<int, Steward>, id: int, who: string)
    requires id in m && !m[id].Removed()
    ensures var m' := m[id := m[id].(removedBy := Some(who))];
            && ActiveRows(m') == ActiveRows(m) - {id} && id in ActiveRows(m)
            && (SomeActive(m') <==> |ActiveRows(m)| >= 2)
  {
    var m' := m[id := m[id].(removedBy := Some(who))];
    assert ActiveRows(m') == ActiveRows(m) - {id};
    assert |ActiveRows(m)| == |ActiveRows(m')| + 1;
    if SomeActive(m') {
      var i :| i in m' && !m'[i].Removed();
      assert i in ActiveRows(m');
    } else {
      assert forall i :: i !in ActiveRows(m');
      assert ActiveRows(m') == {};
    }
  }

  /** What a demotion leaves, whoever calls it: a steward remains exactly if there were two. */
  lemma DemotionLeaves(s: State, req: Request)
    requires req.op.DemoteSteward? && Decide(s, req).Change?
    ensures SomeActive(Step(s, req).st.t.stewards) <==> |ActiveRows(s.t.stewards)| >= 2
    ensures ActiveOid(s.t, req.actor.oid) ==> SomeActive(Step(s, req).st.t.stewards)
  {
    DemoteSucceeds(s, req);
    hide Decide, Step;
    var m, m' := s.t.stewards, Step(s, req).st.t.stewards;
    OneRowLess(m, req.op.id, req.actor.upn);
    if ActiveOid(s.t, req.actor.oid) {
      var own :| own in m && !m[own].Removed() && m[own].oid == req.actor.oid;
      assert own in m' && !m'[own].Removed();
    }
  }

  /** A call that may change whether some steward is active: a demotion that goes through. */
  predicate Demotes(s: State, req: Request) {
    req.op.DemoteSteward? && Decide(s, req).Change?
  }

  /** Any other call from the bound tenant keeps an active steward, whoever makes it. */
  lemma OthersKeepManned(s: State, req: Request)
    requires Guarded(s) && Manned(s) && Admitted(s, req) && !Demotes(s, req)
    ensures Manned(Step(s, req).st)
  {
    var s' := Step(s, req).st;
    if !StewardOp(req.op) {
      OtherCallsKeepStewards(s, req);
    } else if req.op.PromoteSteward? || req.op.CancelInvite? || TakesStaleBranch(s, req) {
      PromoteKeepsStewards(s, req);
    } else if req.op.Bootstrap? && Decide(s, req).Change? {
      BootstrapFree(s, req);
      BootstrapEffect(s, req);
      assert !s'.t.stewards[s.t.stewardSeq + 1].Removed();
    } else if req.op.ClaimInvite? && Decide(s, req).Change? {
      ClaimEffect(s, req);
      assert !s'.t.stewards[s.t.stewardSeq + 1].Removed();
    }
    hide Step, Decide, Sound, Identities;
  }

  /** One call from the bound tenant leaves the registry manned exactly if it does not demote
      its one active steward. */
  lemma StepMannedExactly(s: State, req: Request)
    requires Guarded(s) && Manned(s) && Admitted(s, req)
    ensures Manned(Step(s, req).st) <==> !(Demotes(s, req) && |ActiveRows(s.t.stewards)| == 1)
  {
    if Demotes(s, req) {
      DemotionLeaves(s, req);
      DemotionEffect(s, req);
      hide Decide, Step, Sound, Identities;
      assert req.op.id in ActiveRows(s.t.stewards);
    } else {
      OthersKeepManned(s, req);
    }
  }

  lemma DemotionEffect(s: State, req: Request)
    requires Demotes(s, req)
    ensures req.op.id in s.t.stewards && !s.t.stewards[req.op.id].Removed()
    ensures Step(s, req).st.t.tenant == s.t.tenant
  {
    DemoteSucceeds(s, req);
  }

  ghost predicate AlwaysManned(reqs: seq<Request>) {
    forall k | 0 <= k <= |reqs| :: Manned(Run(reqs[..k]))
  }

  /** No call of the run demotes the only active steward. */
  ghost predicate LastNeverDemoted(reqs: seq<Request>) {
    forall k | 0 <= k < |reqs| :: !DemotesLast(Run(reqs[..k]), reqs[k])
  }

  predicate DemotesLast(s: State, req: Request) {
    Demotes(s, req) && |ActiveRows(s.t.stewards)| == 1
  }

  lemma RunWideSnoc(reqs: seq<Request>, req: Request)
    ensures AlwaysManned(reqs + [req]) <==> AlwaysManned(reqs) && Manned(Run(reqs + [req]))
    ensures LastNeverDemoted(reqs + [req]) <==> LastNeverDemoted(reqs) && !DemotesLast(Run(reqs), req)
    ensures AdmittedRun(reqs + [req]) <==> AdmittedRun(reqs) && Admitted(Run(reqs), req)
    ensures AlwaysManned(reqs) ==> Manned(Run(reqs))
  {
    hide Run, Manned, DemotesLast, Admitted;
    var n, all := |reqs|, reqs + [req];
    assert forall k | 0 <= k <= n :: all[..k] == reqs[..k];
    assert reqs[..n] == reqs && all[..n + 1] == all;
    if AlwaysManned(all) {
      assert forall k | 0 <= k <= n :: Manned(Run(all[..k]));
      assert Manned(Run(all[..n + 1]));
    }
    if LastNeverDemoted(all) {
      assert forall k | 0 <= k < n :: !DemotesLast(Run(all[..k]), all[k]);
      assert !DemotesLast(Run(all[..n]), all[n]);
    }
    if AdmittedRun(all) {
      assert forall k | 0 <= k < n :: Admitted(Run(all[..k]), all[k]);
      assert Admitted(Run(all[..n]), all[n]);
    }
  }

  /** Over any run of calls from the bound tenant, whatever the steward gate had seen: the
      registry stays manned throughout exactly if no demotion that goes through finds a
      single active steward. */
  lemma {:induction false} MannedExactly(reqs: seq<Request>)
    requires AdmittedRun(reqs)
    ensures AlwaysManned(reqs) <==> LastNeverDemoted(reqs)
  {
    if reqs == [] {
      assert reqs[..0] == [];
    } else {
      hide AlwaysManned, LastNeverDemoted, AdmittedRun, Guarded, Manned, Step, Admitted, Demotes;
      var n := |reqs| - 1;
      var before, req := reqs[..n], reqs[n];
      assert reqs == before + [req];
      RunWideSnoc(before, req);
      MannedExactly(before);
      RunGuarded(before);
      RunSnoc(before, req);
      if Manned(Run(before)) {
        StepMannedExactly(Run(before), req);
      }
    }
  }

  /** The gate is read before the transaction begins. Two stewards who are the only active
      ones both pass it and then demote each other: both calls succeed, and none is left. */
  lemma MutualDemotion(s: State, a: int, b: int, ta: string, tb: string)
    requires Guarded(s) && a != b && ActiveRows(s.t.stewards) == {a, b}
    ensures var x, y := s.t.stewards[a], s.t.stewards[b];
            var byA := Request(Actor(x.oid, x.upn), ta, Op.DemoteSteward(b));
            var byB := Request(Actor(y.oid, y.upn), tb, Op.DemoteSteward(a));
            && Gated(s, byA) && Gated(s, byB)
            && Step(s, byA).result.Ok? && Step(Step(s, byA).st, byB).result.Ok?
            && !SomeActive(Step(Step(s, byA).st, byB).st.t.stewards)
  {
    assert a in ActiveRows(s.t.stewards) && b in ActiveRows(s.t.stewards);
    var x, y := s.t.stewards[a], s.t.stewards[b];
    var byA := Request(Actor(x.oid, x.upn), ta, Op.DemoteSteward(b));
    var byB := Request(Actor(y.oid, y.upn), tb, Op.DemoteSteward(a));
    DemoteSucceeds(s, byA);
    var s1 := Step(s, byA).st;
    DemoteSucceeds(s1, byB);
    var s2 := Step(s1, byB).st;
    forall i | i in s2.t.stewards
      ensures s2.t.stewards[i].Removed()
    {
      assert i !in {a, b} ==> i !in ActiveRows(s.t.stewards);
    }
    hide Step, Decide, Identities, Sound;
  }

  lemma DemoteSucceeds(s: State, req: Request)
    requires req.op.DemoteSteward? && req.actor.oid != ""
    requires req.op.id in s.t.stewards && !s.t.stewards[req.op.id].Removed()
    requires s.t.stewards[req.op.id].oid != req.actor.oid
    ensures Step(s, req).result.Ok?
    ensures var s' := Step(s, req).st;
            && s'.t.tenant == s.t.tenant && s'.pending == s.pending
            && s'.t.stewards ==
               s.t.stewards[req.op.id := s.t.stewards[req.op.id].(removedBy := Some(req.actor.upn))]
  {
    StepChange(s, req);
    SingleWrite(s, Write.DemoteSteward(req.op.id, req.actor.upn));
  }
}
