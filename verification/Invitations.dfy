/** What the log knows about invitations on every run, the stale-invitation branch included:
    the invitations open in it are the pending ones and those that branch has orphaned. */
module Invitations {
  import opened Text
  import opened Schema
  import opened Registry
  import opened Invariants
  import opened LogTruth
  import opened Replay
  import opened Gates

  /** The folded UPNs of the pending invitations. */
  function PendingKeys(m: map<int, Pending>): set<string> {
    set i | i in m :: Lower(m[i].upn)
  }

  /** A stale claim deletes its invitation without an entry, and so orphans it in the log; a
      later invitation of the same UPN takes the orphan's place. */
  function OrphansAfter(s: State, req: Request, orphans: set<string>): set<string> {
    if TakesStaleBranch(s, req) then orphans + {Lower(req.actor.upn)}
    else if req.op.PromoteSteward? && Decide(s, req).Change? then orphans - {Lower(Trim(req.op.upn))}
    else orphans
  }

  function Orphans(reqs: seq<Request>): set<string> {
    if reqs == [] then {}
    else
      var before := reqs[..|reqs| - 1];
      OrphansAfter(Run(before), reqs[|reqs| - 1], Orphans(before))
  }

  ghost predicate Accounted(s: State, orphans: set<string>) {
    && Replayed(s.log).invites.Keys == PendingKeys(s.pending) + orphans
    && PendingKeys(s.pending) !! orphans
  }

  // ---- how the pending keys move ----

  lemma KeyAdded(m: map<int, Pending>, id: int, p: Pending)
    requires id !in m
    ensures PendingKeys(m[id := p]) == PendingKeys(m) + {Lower(p.upn)}
  {
    var m' := m[id := p];
    assert m'[id] == p;
    forall key | key in PendingKeys(m) + {Lower(p.upn)}
      ensures key in PendingKeys(m')
    {
      if key != Lower(p.upn) {
        var i :| i in m && Lower(m[i].upn) == key;
        assert i in m' && m'[i] == m[i];
      }
    }
  }

  lemma KeyDropped(m: map<int, Pending>, id: int)
    requires id in m && InvitesDistinct(m)
    ensures Lower(m[id].upn) in PendingKeys(m)
    ensures PendingKeys(m - {id}) == PendingKeys(m) - {Lower(m[id].upn)}
  {
    var m' := m - {id};
    forall key | key in PendingKeys(m) && key != Lower(m[id].upn)
      ensures key in PendingKeys(m')
    {
      var i :| i in m && Lower(m[i].upn) == key;
      assert i in m' && m'[i] == m[i];
    }
  }

  /** What an entry says about invitations, and what its call did to the pending ones. */
  ghost predicate Moves(s: State, e: Event, m': map<int, Pending>, id: int) {
    if e.StewardInvite? then
      id !in s.pending && Invited(s, e.upn).None? && id in m' && m'[id].upn == e.upn && m' == s.pending[id := m'[id]]
    else if e.StewardUninvite? || e.StewardPromote? then
      id in s.pending && Lower(s.pending[id].upn) == Lower(e.upn) && m' == s.pending - {id}
    else m' == s.pending
  }

  lemma EventKind(s: State, req: Request)
    requires Decide(s, req).Change? && Decide(s, req).event.Some?
    ensures var e, op := Decide(s, req).event.value, req.op;
            && (e.StewardInvite? <==> op.PromoteSteward?)
            && (e.StewardUninvite? <==> op.CancelInvite?)
            && (e.StewardPromote? <==> op.ClaimInvite?)
            && (op.CancelInvite? ==> op.id in s.pending && e.upn == s.pending[op.id].upn)
            && (op.ClaimInvite? ==> e.upn == req.actor.upn)
  {
  }

  lemma BootstrapOrDemoteKeeps(s: State, req: Request)
    requires req.op.Bootstrap? || req.op.DemoteSteward?
    ensures Step(s, req).st.pending == s.pending
  {
    if Decide(s, req).Change? {
      assert forall w | w in Decide(s, req).writes :: w.BindTenant? || w.InsertSteward? || w.DemoteSteward?;
      hide Decide, ExecAll;
      StepChange(s, req);
      StewardWritesKeepPending(Decide(s, req).writes, s);
    }
  }

  lemma {:induction false} StewardWritesKeepPending(ws: seq<Write>, s: State)
    requires forall w | w in ws :: w.BindTenant? || w.InsertSteward? || w.DemoteSteward?
    ensures ExecAll(ws, s).Some? ==> ExecAll(ws, s).value.pending == s.pending
  {
    if ws != [] {
      StewardWritesKeepPending(ws[..|ws| - 1], s);
      assert ws[|ws| - 1] in ws;
    }
  }

  lemma PendingMoves(s: State, req: Request) returns (id: int)
    requires Sound(s) && Decide(s, req).Change? && Decide(s, req).event.Some?
    requires ExecAll(Decide(s, req).writes, s).Some?
    ensures Moves(s, Decide(s, req).event.value, Step(s, req).st.pending, id)
  {
    EventKind(s, req);
    WriteKinds(s, req);
    StepChange(s, req);
    id := s.pendingSeq + 1;
    if req.op.PromoteSteward? {
      PromoteEffect(s, req);
      assert id !in s.pending;
    } else if req.op.CancelInvite? {
      id := req.op.id;
      CancelDrops(s, req);
    } else if req.op.ClaimInvite? {
      ClaimEffect(s, req);
      id := Invited(s, req.actor.upn).value.id;
    } else if req.op.Bootstrap? || req.op.DemoteSteward? {
      BootstrapOrDemoteKeeps(s, req);
    } else {
      OtherCallsKeepStewards(s, req);
    }
    hide Step, Decide, ExecAll, Invited;
  }

  // ---- every run accounts for its invitations ----

  lemma EditInvites(b: Book, row: AuditRow)
    ensures var e, after := row.event, Edit(b, row).invites.Keys;
            after == if e.StewardInvite? then b.invites.Keys + {Lower(e.upn)}
                     else if e.StewardUninvite? || e.StewardPromote? then b.invites.Keys - {Lower(e.upn)}
                     else b.invites.Keys
  {
  }

  lemma MoveAccounted(s: State, e: Event, m': map<int, Pending>, id: int, orphans: set<string>, keys: set<string>)
    requires PendingNumbered(s) && InvitesDistinct(s.pending) && Moves(s, e, m', id)
    requires keys == PendingKeys(s.pending) + orphans && PendingKeys(s.pending) !! orphans
    ensures var orphans' := if e.StewardInvite? then orphans - {Lower(e.upn)} else orphans;
            var keys' := if e.StewardInvite? then keys + {Lower(e.upn)}
                         else if e.StewardUninvite? || e.StewardPromote? then keys - {Lower(e.upn)}
                         else keys;
            keys' == PendingKeys(m') + orphans' && PendingKeys(m') !! orphans'
  {
    if e.StewardInvite? {
      InvitedComplete(s, e.upn);
      KeyAdded(s.pending, id, m'[id]);
    } else if e.StewardUninvite? || e.StewardPromote? {
      KeyDropped(s.pending, id);
    }
  }

  lemma StaleStep(s: State, req: Request)
    requires Sound(s) && TakesStaleBranch(s, req)
    ensures Step(s, req).st == s.(pending := s.pending - {Invited(s, req.actor.upn).value.id})
  {
    StaleEffect(s, req);
    hide Decide, ExecAll, Sound, Invited;
    StepChange(s, req);
  }

  lemma StaleAccounted(s: State, req: Request, orphans: set<string>)
    requires Sound(s) && Accounted(s, orphans) && TakesStaleBranch(s, req)
    ensures Accounted(Step(s, req).st, OrphansAfter(s, req, orphans))
  {
    StaleStep(s, req);
    KeyDroppedStale(s, req);
    hide Step, Sound, TakesStaleBranch, Replayed, PendingKeys;
  }

  lemma KeyDroppedStale(s: State, req: Request)
    requires Sound(s) && TakesStaleBranch(s, req)
    ensures var m, key := s.pending, Lower(req.actor.upn);
            key in PendingKeys(m) &&
            PendingKeys(m - {Invited(s, req.actor.upn).value.id}) == PendingKeys(m) - {key}
  {
    StaleEffect(s, req);
    hide Decide, ExecAll, TakesStaleBranch, Invited;
    KeyDropped(s.pending, Invited(s, req.actor.upn).value.id);
  }

  lemma FiledLog(s: State, req: Request)
    requires Decide(s, req).Change? && Decide(s, req).event.Some? && ExecAll(Decide(s, req).writes, s).Some?
    ensures Step(s, req).st.log == s.log + [Entry(s, req)]
  {
    hide Decide, ExecAll;
    StepChange(s, req);
    WriteKinds(s, req);
    WritesKeepLog(Decide(s, req).writes, s);
  }

  lemma FiledAccounted(s: State, req: Request, orphans: set<string>)
    requires Sound(s) && Accounted(s, orphans) && !TakesStaleBranch(s, req)
    requires Decide(s, req).Change? && ExecAll(Decide(s, req).writes, s).Some?
    ensures Accounted(Step(s, req).st, OrphansAfter(s, req, orphans))
  {
    AlsoNumbered(s);
    WriteKinds(s, req);
    EventKind(s, req);
    FiledLog(s, req);
    hide Decide, ExecAll, Sound, Step, TakesStaleBranch, PendingKeys, Replayed, Edit, Invited, Moves, Trim, Lower;
    var e, st := Decide(s, req).event.value, Step(s, req).st;
    assert InvitesDistinct(s.pending) by { AlsoDistinct(s); }
    var id := PendingMoves(s, req);
    ReplayedSnoc(s.log, Entry(s, req));
    EditInvites(Replayed(s.log), Entry(s, req));
    MoveAccounted(s, e, st.pending, id, orphans, Replayed(s.log).invites.Keys);
    if req.op.PromoteSteward? {
      PromoteEffect(s, req);
    }
  }

  lemma StepAccounted(s: State, req: Request, orphans: set<string>)
    requires Sound(s) && Accounted(s, orphans)
    ensures Accounted(Step(s, req).st, OrphansAfter(s, req, orphans))
  {
    hide Decide, ExecAll, Step, Sound, Accounted, TakesStaleBranch;
    if TakesStaleBranch(s, req) {
      StaleAccounted(s, req, orphans);
    } else if Decide(s, req).Change? && ExecAll(Decide(s, req).writes, s).Some? {
      FiledAccounted(s, req, orphans);
    } else {
      NoChange(s, req);
      if Decide(s, req).Change? && req.op.PromoteSteward? {
        PromoteSucceeds(s, req);
      }
    }
  }

  lemma PromoteSucceeds(s: State, req: Request)
    requires Sound(s) && req.op.PromoteSteward? && Decide(s, req).Change?
    ensures ExecAll(Decide(s, req).writes, s).Some?
  {
    AlsoNumbered(s);
    PromoteEffect(s, req);
    InvitedComplete(s, Trim(req.op.upn));
    hide Decide, ExecAll, Invited;
  }

  /** On every run, the UPNs open in the log are the pending ones together with the orphaned
      ones, and no UPN is both. */
  lemma {:induction false} InvitationsAccounted(reqs: seq<Request>)
    ensures Accounted(Run(reqs), Orphans(reqs))
  {
    if reqs != [] {
      var before := reqs[..|reqs| - 1];
      InvitationsAccounted(before);
      RunSound(before);
      hide Step, Sound, Accounted, OrphansAfter;
      StepAccounted(Run(before), reqs[|reqs| - 1], Orphans(before));
    }
  }

  /** The log rebuilds the pending invitations exactly when the run left none orphaned. */
  lemma LogRebuildsInvitesExactly(reqs: seq<Request>)
    ensures var invites := Replayed(Run(reqs).log).invites;
            && InvitesLogged(Run(reqs), invites)
            && (InvitesPending(Run(reqs), invites) <==> Orphans(reqs) == {})
  {
    InvitationsAccounted(reqs);
    LogRebuildsTables(reqs);
    hide Run, Orphans;
    var m, invites := Run(reqs).pending, Replayed(Run(reqs).log).invites;
    assert InvitesPending(Run(reqs), invites) <==> invites.Keys <= PendingKeys(m);
  }

  // ---- the branch is reached ----

  /** Bootstrapping a fresh registry. */
  lemma FoundedRegistry(req: Request)
    requires req.op.Bootstrap? && req.op.tid != "" && req.actor.oid != "" && req.actor.upn != ""
    ensures Gated(EMPTY, req) && Decide(EMPTY, req).Change?
    ensures var s := Step(EMPTY, req).st;
            && s.t.tenant == req.op.tid && s.pending == map[]
            && s.t.stewards == map[1 := Steward(1, req.actor.oid, req.actor.upn, "bootstrap", None)]
  {
    BootstrapEffect(EMPTY, req);
    hide Step, Decide;
    assert EMPTY.t.stewards == map[];
  }

  /** A first invitation on a registry with one steward. */
  lemma FirstInvitation(s: State, req: Request, founder: Steward)
    requires Sound(s) && req.op.PromoteSteward? && s.pending == map[] && s.t.tenant != ""
    requires s.t.stewards == map[1 := founder] && !founder.Removed() && founder.oid == req.actor.oid != ""
    requires Trim(req.op.upn) != "" && Lower(founder.upn) != Lower(Trim(req.op.upn))
    ensures Gated(s, req) && Decide(s, req).Change?
    ensures var s', id := Step(s, req).st, s.pendingSeq + 1;
            && s'.t == s.t && s'.pendingSeq == id
            && s'.pending == map[id := Pending(id, Trim(req.op.upn), req.actor.upn)]
  {
    AlsoNumbered(s);
    InvitedComplete(s, Trim(req.op.upn));
    assert s.t.stewards[1] == founder;
    assert !ActiveUpn(s.t, Trim(req.op.upn));
    assert Decide(s, req).Change?;
    hide Decide, ExecAll, Invited, ActiveUpn, Sound;
    PromoteEffect(s, req);
    StepChange(s, req);
    hide Step;
    var id := s.pendingSeq + 1;
    var p := Pending(id, Trim(req.op.upn), req.actor.upn);
    assert map[][id := p] == map[id := p];
  }

  /** The founder invites upn, and signs in again once their own UPN has become that. */
  function StaleRun(oid: string, was: string, upn: string, tid: string): seq<Request> {
    var founder := Actor(oid, was);
    [Request(founder, "", Bootstrap(tid)), Request(founder, "", PromoteSteward(upn)),
     Request(Actor(oid, upn), "", ClaimInvite)]
  }

  lemma StaleRunPrefixes(oid: string, was: string, upn: string, tid: string)
    ensures var reqs := StaleRun(oid, was, upn, tid);
            && Run(reqs[..0]) == EMPTY && Orphans(reqs[..0]) == {}
            && Run(reqs[..1]) == Step(Run(reqs[..0]), reqs[0]).st
            && Run(reqs[..2]) == Step(Run(reqs[..1]), reqs[1]).st
            && Run(reqs) == Step(Run(reqs[..2]), reqs[2]).st
            && Orphans(reqs[..1]) == OrphansAfter(Run(reqs[..0]), reqs[0], {})
            && Orphans(reqs[..2]) == OrphansAfter(Run(reqs[..1]), reqs[1], Orphans(reqs[..1]))
            && Orphans(reqs) == OrphansAfter(Run(reqs[..2]), reqs[2], Orphans(reqs[..2]))
  {
    var reqs := StaleRun(oid, was, upn, tid);
    assert reqs[..2][..1] == reqs[..1] && reqs[..1][..0] == reqs[..0];
    hide Step, OrphansAfter;
  }

  lemma StaleRunMiddle(oid: string, was: string, upn: string, tid: string) returns (invite: int)
    requires oid != "" && was != "" && tid != "" && upn != "" && Trim(upn) == upn && Lower(was) != Lower(upn)
    ensures var reqs := StaleRun(oid, was, upn, tid);
            var s := Run(reqs[..2]);
            && Gated(Run(reqs[..0]), reqs[0]) && Gated(Run(reqs[..1]), reqs[1])
            && !TakesStaleBranch(Run(reqs[..0]), reqs[0]) && !TakesStaleBranch(Run(reqs[..1]), reqs[1])
            && s.t.tenant == tid && s.t.stewards == map[1 := Steward(1, oid, was, "bootstrap", None)]
            && s.pending == map[invite := Pending(invite, upn, was)]
            && Orphans(reqs[..2]) == {}
  {
    hide Run, Step, Decide, Orphans, Trim, Lower, Sound, Invited;
    var reqs := StaleRun(oid, was, upn, tid);
    StaleRunPrefixes(oid, was, upn, tid);
    FoundedRegistry(reqs[0]);
    RunSound(reqs[..1]);
    FirstInvitation(Run(reqs[..1]), reqs[1], Steward(1, oid, was, "bootstrap", None));
    invite := Run(reqs[..1]).pendingSeq + 1;
  }

  /** A gated run reaches the stale branch: a steward whose UPN has changed to one that has an
      invitation. It is orphaned, and the log no longer rebuilds the invitations. */
  lemma StaleBranchReached(oid: string, was: string, upn: string, tid: string)
    requires oid != "" && was != "" && tid != "" && upn != "" && Trim(upn) == upn && Lower(was) != Lower(upn)
    ensures var reqs := StaleRun(oid, was, upn, tid);
            && GatedRun(reqs) && TakesStaleBranch(Run(reqs[..2]), reqs[2])
            && Orphans(reqs) == {Lower(upn)}
            && !InvitesPending(Run(reqs), Replayed(Run(reqs).log).invites)
  {
    hide Run, Step, Decide, Orphans, InvitesPending, Trim, Lower, Sound, Invited;
    var reqs := StaleRun(oid, was, upn, tid);
    StaleRunPrefixes(oid, was, upn, tid);
    var invite := StaleRunMiddle(oid, was, upn, tid);
    RunSound(reqs[..2]);
    assert invite in Run(reqs[..2]).pending;
    StaleHere(Run(reqs[..2]), reqs[2], Steward(1, oid, was, "bootstrap", None));
    LogRebuildsInvitesExactly(reqs);
    forall i | 0 <= i < 3
      ensures Gated(Run(reqs[..i]), reqs[i])
    {
    }
  }

  lemma StaleHere(s: State, req: Request, founder: Steward)
    requires Sound(s) && s.t.stewards == map[1 := founder] && !founder.Removed()
    requires req.op.ClaimInvite? && req.actor.oid == founder.oid != "" && req.actor.upn != ""
    requires exists i | i in s.pending :: Lower(s.pending[i].upn) == Lower(req.actor.upn)
    ensures TakesStaleBranch(s, req) && Invited(s, req.actor.upn).Some?
  {
    AlsoNumbered(s);
    InvitedComplete(s, req.actor.upn);
    assert s.t.stewards[1] == founder;
    hide Invited;
  }

  /** Inviting the same UPN again heals it: a run may take the branch and still rebuild. */
  lemma StaleBranchHealed(oid: string, was: string, upn: string, tid: string)
    requires oid != "" && was != "" && tid != "" && upn != "" && Trim(upn) == upn && Lower(was) != Lower(upn)
    ensures var reqs := StaleRun(oid, was, upn, tid);
            var again := Request(Actor(oid, was), "", PromoteSteward(upn));
            && GatedRun(reqs + [again]) && !NeverStale(reqs + [again])
            && Orphans(reqs + [again]) == {}
            && InvitesPending(Run(reqs + [again]), Replayed(Run(reqs + [again]).log).invites)
  {
    var reqs := StaleRun(oid, was, upn, tid);
    var again := Request(Actor(oid, was), "", PromoteSteward(upn));
    var all := reqs + [again];
    StaleBranchReached(oid, was, upn, tid);
    StaleRunEnd(oid, was, upn, tid);
    RunSound(reqs);
    hide Step, Decide, InvitesPending, Trim, Lower, Sound, Invited, StaleRun;
    FirstInvitation(Run(reqs), again, Steward(1, oid, was, "bootstrap", None));
    assert all[..3] == reqs && all[..2] == reqs[..2] && all[2] == reqs[2];
    LogRebuildsInvitesExactly(all);
    forall i | 0 <= i < 4
      ensures Gated(Run(all[..i]), all[i])
    {
      assert i < 3 ==> all[..i] == reqs[..i];
    }
  }

  lemma StaleRunEnd(oid: string, was: string, upn: string, tid: string)
    requires oid != "" && was != "" && tid != "" && upn != "" && Trim(upn) == upn && Lower(was) != Lower(upn)
    ensures var s := Run(StaleRun(oid, was, upn, tid));
            && s.t.tenant == tid && s.pending == map[]
            && s.t.stewards == map[1 := Steward(1, oid, was, "bootstrap", None)]
  {
    hide Run, Step, Decide, Trim, Lower, Sound, Invited, Orphans;
    var reqs := StaleRun(oid, was, upn, tid);
    StaleRunPrefixes(oid, was, upn, tid);
    var invite := StaleRunMiddle(oid, was, upn, tid);
    var s := Run(reqs[..2]);
    RunSound(reqs[..2]);
    assert invite in s.pending;
    StaleHere(s, reqs[2], Steward(1, oid, was, "bootstrap", None));
    hide OrphansAfter, TakesStaleBranch;
    StaleStep(s, reqs[2]);
    StaleEffect(s, reqs[2]);
    OnlyInvite(s.pending, invite, Invited(s, upn).value.id);
  }

  lemma OnlyInvite(m: map<int, Pending>, invite: int, id: int)
    requires id in m && forall i | i in m :: i == invite
    ensures m - {id} == map[]
  {
    assert id == invite;
    assert forall i :: i !in m - {id};
  }
}
