/** The last steward and the gate read before the transaction: how interleaved calls lose the
    last steward, and exactly when they do. */
module LastSteward {
  import opened Text
  import opened Schema
  import opened Registry
  import opened Gates
  import opened Interleavings
  import S = Serializable
  import opened ConcurrentGates
  import opened Invariants
  import Invitations

  /** In any interleaving with gates read before the transactions, the committed databases are
      manned one after the other exactly if no commit demotes the only active steward. */
  lemma ConcurrentMannedExactly(actions: seq<S.Action>)
    requires AllLetIn(actions)
    ensures var w := S.Reached(actions);
            w.db == Run(w.committed) && (AlwaysManned(w.committed) <==> LastNeverDemoted(w.committed))
  {
    ReachedAdmitted(actions);
    S.InterleavingIsSerial(actions);
    hide S.Reached;
    MannedExactly(S.Reached(actions).committed);
  }

  // ---- losing the last steward ----

  lemma DemotionDecided(s: State, req: Request)
    requires req.op.DemoteSteward? && Step(s, req).result.Ok?
    ensures Decide(s, req).Change? && |Statements(req, Decide(s, req))| == 2
  {
    hide ExecAll;
    assert Decide(s, req).Change?;
    hide Step;
    assert |Decide(s, req).writes| == 1 && Decide(s, req).event.Some?;
    hide Decide;
  }

  /** Two calls that have both begun, run through one after the other. */
  lemma BothRun(w: S.World, a: Request, b: Request)
    requires Idle(w) && a.op.DemoteSteward? && b.op.DemoteSteward?
    requires Step(w.db, a).result.Ok? && Step(Step(w.db, a).st, b).result.Ok?
    ensures var begun := Taken(w, [S.Begin(1, a), S.Begin(2, b)]);
            Taken(Taken(begun, Solo(1, 2)), Solo(2, 2)).db == Step(Step(w.db, a).st, b).st
  {
    var n := |w.committed|;
    var w1, w2 := S.Next(w, S.Begin(1, a)), S.Next(S.Next(w, S.Begin(1, a)), S.Begin(2, b));
    assert w2.txns == map[1 := S.Txn(a, n, None, 0, EMPTY), 2 := S.Txn(b, n, None, 0, EMPTY)];
    TakenAppend(w, [S.Begin(1, a)], [S.Begin(2, b)]);
    assert [S.Begin(1, a)] + [S.Begin(2, b)] == [S.Begin(1, a), S.Begin(2, b)];
    TakenOne(w, S.Begin(1, a));
    TakenOne(w1, S.Begin(2, b));
    hide Step, Decide, Taken, S.Next;
    DemotionDecided(w.db, a);
    SoloCommits(w2, 1, a, n);
    var w3 := Taken(w2, Solo(1, 2));
    DemotionDecided(w3.db, b);
    SoloCommits(w3, 2, b, n);
  }

  /** The demotion of each of two stewards by the other. */
  function ByOther(s: State, i: int, other: int, at: string): Request
    requires i in s.t.stewards
  {
    Request(Actor(s.t.stewards[i].oid, s.t.stewards[i].upn), at, Op.DemoteSteward(other))
  }

  /** The gap the steward gate leaves: with a and b the only active stewards, both pass the
      gate and begin, each demotes the other, both transactions commit, and the registry is
      left bound with nobody to maintain it. */
  lemma GateGap(w: S.World, a: int, b: int, ta: string, tb: string)
    requires Guarded(w.db) && Idle(w) && a != b && ActiveRows(w.db.t.stewards) == {a, b}
    ensures a in w.db.t.stewards && b in w.db.t.stewards
    ensures var byA, byB := ByOther(w.db, a, b, ta), ByOther(w.db, b, a, tb);
            var begun := Taken(w, [S.Begin(1, byA), S.Begin(2, byB)]);
            var w' := Taken(Taken(begun, Solo(1, 2)), Solo(2, 2));
            && Gated(w.db, byA) && Gated(w.db, byB)
            && w'.db.t.tenant != "" && !Manned(w'.db)
  {
    assert a in ActiveRows(w.db.t.stewards) && b in ActiveRows(w.db.t.stewards);
    var byA, byB := ByOther(w.db, a, b, ta), ByOther(w.db, b, a, tb);
    MutualDemotion(w.db, a, b, ta, tb);
    BothRun(w, byA, byB);
    TenantStays(w.db, byA);
    TenantStays(Step(w.db, byA).st, byB);
    hide Step, Decide, Taken, Guarded, SomeActive;
  }

  // ---- and it is reached ----

  /** The founder invites a colleague, who signs in. */
  function PairRun(founder: Actor, second: Actor, tid: string): seq<Request> {
    [Request(founder, "", Bootstrap(tid)), Request(founder, "", PromoteSteward(second.upn)),
     Request(second, "", ClaimInvite)]
  }

  predicate Pairable(founder: Actor, second: Actor, tid: string) {
    && tid != "" && founder.oid != "" && founder.upn != "" && second.oid != "" && second.upn != ""
    && second.oid != founder.oid && Lower(second.upn) != Lower(founder.upn) && Trim(second.upn) == second.upn
  }

  lemma PairPrefixes(founder: Actor, second: Actor, tid: string)
    ensures var reqs := PairRun(founder, second, tid);
            && Run(reqs[..0]) == EMPTY
            && Run(reqs[..1]) == Step(EMPTY, reqs[0]).st
            && Run(reqs[..2]) == Step(Run(reqs[..1]), reqs[1]).st
            && Run(reqs) == Step(Run(reqs[..2]), reqs[2]).st
  {
    var reqs := PairRun(founder, second, tid);
    assert reqs[..2][..1] == reqs[..1] && reqs[..1][..0] == reqs[..0];
    hide Step;
  }

  lemma ClaimDecided(s: State, req: Request)
    requires req.op.ClaimInvite? && req.actor.oid != "" && req.actor.upn != ""
    requires Invited(s, req.actor.upn).Some? && !ActiveOid(s.t, req.actor.oid)
    ensures Decide(s, req).Change? && !TakesStaleBranch(s, req)
  {
    hide Invited, ActiveOid;
  }

  lemma PairReached(founder: Actor, second: Actor, tid: string) returns (id: int)
    requires Pairable(founder, second, tid)
    ensures var reqs := PairRun(founder, second, tid);
            GatedRun(reqs) && id != 1 && ActiveRows(Run(reqs).t.stewards) == {1, id}
  {
    var reqs := PairRun(founder, second, tid);
    hide Run, Step, Decide, Trim, Lower, Sound, Invited;
    PairPrefixes(founder, second, tid);
    Invitations.FoundedRegistry(reqs[0]);
    var s1, s2 := Run(reqs[..1]), Run(reqs[..2]);
    RunSound(reqs[..1]);
    var first := Steward(1, founder.oid, founder.upn, "bootstrap", None);
    Invitations.FirstInvitation(s1, reqs[1], first);
    RunSound(reqs[..2]);
    var invite := s1.pendingSeq + 1;
    assert invite in s2.pending && s2.pending[invite].upn == second.upn;
    id := s2.t.stewardSeq + 1;
    SecondJoins(s2, reqs[2], first);
    forall i | 0 <= i < 3
      ensures Gated(Run(reqs[..i]), reqs[i])
    {
    }
  }

  lemma SecondJoins(s: State, req: Request, first: Steward)
    requires Sound(s) && s.t.tenant != "" && s.t.stewards == map[1 := first] && !first.Removed()
    requires req.op.ClaimInvite? && req.actor.oid != "" && req.actor.upn != "" && req.actor.oid != first.oid
    requires exists i | i in s.pending :: Lower(s.pending[i].upn) == Lower(req.actor.upn)
    ensures Gated(s, req)
    ensures var id := s.t.stewardSeq + 1; id != 1 && ActiveRows(Step(s, req).st.t.stewards) == {1, id}
  {
    AlsoNumbered(s);
    InvitedComplete(s, req.actor.upn);
    assert !ActiveOid(s.t, req.actor.oid);
    hide Step, Decide, Invited, ActiveOid, Sound;
    ClaimDecided(s, req);
    ClaimEffect(s, req);
    var id, m := s.t.stewardSeq + 1, Step(s, req).st.t.stewards;
    assert m[id].removedBy.None? && m.Keys == {1, id};
    assert id != 1;
    assert m[1] == first;
  }

  const GATE := (s: State, req: Request) => Gated(s, req)

  lemma ThenEachBegin(actions: seq<S.Action>, a: Request, b: Request)
    requires EachBegin(actions, GATE) && Idle(S.Reached(actions))
    requires Gated(S.Reached(actions).db, a) && Gated(S.Reached(actions).db, b)
    ensures EachBegin(actions + [S.Begin(1, a), S.Begin(2, b)] + Solo(1, 2) + Solo(2, 2), GATE)
  {
    hide Gated, EachBegin;
    var w := S.Reached(actions);
    assert S.Reached(actions + [S.Begin(1, a)]).db == w.db by {
      ReachedTaken(actions, [S.Begin(1, a)]);
      TakenOne(w, S.Begin(1, a));
    }
    hide S.Reached;
    EachBeginThen(actions, S.Begin(1, a), GATE);
    EachBeginThen(actions + [S.Begin(1, a)], S.Begin(2, b), GATE);
    var begun := actions + [S.Begin(1, a), S.Begin(2, b)];
    assert actions + [S.Begin(1, a)] + [S.Begin(2, b)] == begun;
    EachBeginSolo(begun, Solo(1, 2), GATE);
    EachBeginSolo(begun + Solo(1, 2), Solo(2, 2), GATE);
  }

  /** Steps of the service from a new data directory, every call beginning behind its gate,
      that leave a bound registry without a steward. */
  lemma LastStewardLost(founder: Actor, second: Actor, tid: string) returns (actions: seq<S.Action>)
    requires Pairable(founder, second, tid)
    ensures EachBegin(actions, GATE)
    ensures S.Reached(actions).db.t.tenant != "" && !Manned(S.Reached(actions).db)
  {
    var reqs := PairRun(founder, second, tid);
    var id := PairReached(founder, second, tid);
    RunManned(reqs);
    hide Run, PairRun, Gated, Guarded, Manned, ActiveRows, EachBegin, S.Reached, Taken, Step;
    actions := SerialRunIsReached(reqs, GATE);
    var w := S.Reached(actions);
    GateGap(w, 1, id, "", "");
    var byA, byB := ByOther(w.db, 1, id, ""), ByOther(w.db, id, 1, "");
    var begins := [S.Begin(1, byA), S.Begin(2, byB)];
    ThenEachBegin(actions, byA, byB);
    ReachedTaken(actions, begins);
    ReachedTaken(actions + begins, Solo(1, 2));
    ReachedTaken(actions + begins + Solo(1, 2), Solo(2, 2));
    actions := actions + begins + Solo(1, 2) + Solo(2, 2);
  }
}
