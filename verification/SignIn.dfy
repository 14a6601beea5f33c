/** The first sign-in race: any number of sign-ins running completeSignIn step by step
    against one database and one cached tenant, with restarts of the process and other calls
    in between. Each core call is one step; SignInTransactions justifies that. */
module SignIn {
  import opened Text
  import opened Schema
  import opened Registry
  import opened Invariants
  import opened LogTruth
  import opened Gates

  /** The verified claims of an ID token; the verifier refuses an empty oid or tid. */
  datatype Claims = Claims(oid: string, upn: string, tid: string)

  datatype Session = Session(oid: string, upn: string, tid: string)

  /** Where a sign-in stands in completeSignIn, after its nonce check. */
  datatype Stage =
    | Starting    // about to read the cached tenant
    | Binding     // saw none: about to call Bootstrap
    | Bound       // Bootstrap succeeded: about to cache its own tenant
    | Beaten      // ErrAlreadyBound: about to re-read the tenant
    | Learnt      // re-read it: about to cache it
    | Comparing   // about to compare its tid with the bound tenant
    | Claiming    // admitted: about to claim a standing invitation
    | Issuing     // about to write the session

  datatype Thread = Thread(claims: Claims, stage: Stage, bound: string)

  /** The service: the database, the cached tenant, the sign-ins under way, the sessions
      issued, and for each steward row the tid of the sign-in that created it. */
  datatype Service = Service(
    db: State, cache: string, threads: map<int, Thread>, sessions: seq<Session>, origins: map<int, string>)

  const FRESH := Service(EMPTY, "", map[], [], map[])

  datatype Action =
    | Arrive(id: int, claims: Claims)
    | Advance(id: int, at: string)
    | Fail(id: int)             // a store or cookie failure, or a lost connection
    | SkipClaim(id: int)        // the claim failed; sign-in goes on without it
    | Restart                   // the process stops and New reads the tenant afresh
    | Other(req: Request)       // any other core call

  function AsActor(c: Claims): Actor {
    Actor(c.oid, c.upn)
  }

  function Put(v: Service, id: int, x: Thread): Service {
    v.(threads := v.threads[id := x])
  }

  function Drop(v: Service, id: int): Service {
    v.(threads := v.threads - {id})
  }

  /** The steward rows a call creates, marked with the tid it came from. */
  function Mark(origins: map<int, string>, before: State, after: State, tid: string): map<int, string> {
    if before.t.stewardSeq == after.t.stewardSeq then origins else origins[after.t.stewardSeq := tid]
  }

  /** A core call made by a sign-in. */
  function Call(v: Service, req: Request, tid: string): Service {
    var after := Step(v.db, req).st;
    v.(db := after, origins := Mark(v.origins, v.db, after, tid))
  }

  function BootRequest(x: Thread, at: string): Request {
    Request(AsActor(x.claims), at, Bootstrap(x.claims.tid))
  }

  function ClaimRequest(x: Thread, at: string): Request {
    Request(AsActor(x.claims), at, ClaimInvite)
  }

  /** The next step of one sign-in. */
  function Proceed(v: Service, id: int, x: Thread, at: string): Service {
    match x.stage
    case Starting =>
      Put(v, id, x.(stage := if v.cache == "" then Binding else Comparing, bound := v.cache))
    case Binding =>
      var outcome := Step(v.db, BootRequest(x, at));
      var v' := Call(v, BootRequest(x, at), x.claims.tid);
      if outcome.result.Ok? then Put(v', id, x.(stage := Bound))
      else if outcome.result == Err(AlreadyBound) then Put(v', id, x.(stage := Beaten))
      else Drop(v', id)
    case Bound =>
      Put(v.(cache := x.claims.tid), id, x.(stage := Comparing, bound := x.claims.tid))
    case Beaten =>
      if v.db.t.tenant == "" then Drop(v, id) else Put(v, id, x.(stage := Learnt, bound := v.db.t.tenant))
    case Learnt =>
      Put(v.(cache := x.bound), id, x.(stage := Comparing))
    case Comparing =>
      if x.claims.tid != x.bound then Drop(v, id) else Put(v, id, x.(stage := Claiming))
    case Claiming =>
      Put(Call(v, ClaimRequest(x, at), x.claims.tid), id, x.(stage := Issuing))
    case Issuing =>
      Drop(v, id).(sessions := v.sessions + [Session(x.claims.oid, x.claims.upn, x.claims.tid)])
  }

  function Next(v: Service, a: Action): Service {
    match a
    case Arrive(id, c) =>
      if id in v.threads || c.oid == "" || c.tid == "" then v else Put(v, id, Thread(c, Starting, ""))
    case Advance(id, at) => if id in v.threads then Proceed(v, id, v.threads[id], at) else v
    case Fail(id) => Drop(v, id)
    case SkipClaim(id) =>
      if id in v.threads && v.threads[id].stage.Claiming? then Put(v, id, v.threads[id].(stage := Issuing)) else v
    case Restart => v.(threads := map[], cache := v.db.t.tenant)
    case Other(req) =>
      if req.op.Bootstrap? || req.op.ClaimInvite? then v else v.(db := Step(v.db, req).st)
  }

  function Rank(stage: Stage): nat {
    match stage
    case Starting => 7
    case Binding => 6
    case Bound => 5
    case Beaten => 5
    case Learnt => 4
    case Comparing => 3
    case Claiming => 2
    case Issuing => 1
  }

  /** One sign-in run to its end with nothing in between, the clock reading bootAt at a
      bootstrap and claimAt at a claim. */
  function Alone(v: Service, id: int, bootAt: string, claimAt: string): Service
    decreases if id in v.threads then Rank(v.threads[id].stage) else 0
  {
    if id !in v.threads then v
    else
      var x := v.threads[id];
      Alone(Proceed(v, id, x, if x.stage.Binding? then bootAt else claimAt), id, bootAt, claimAt)
  }

  /** The service once the bootstrap half of a sign-in is over: its cache still empty exactly
      when the sign-in ended there. */
  function Settled(v: Service, c: Claims, bootAt: string): Service {
    var req := Request(AsActor(c), bootAt, Bootstrap(c.tid));
    var outcome := Step(v.db, req);
    if v.cache != "" then v
    else if outcome.result.Ok? then Call(v, req, c.tid).(cache := c.tid)
    else if outcome.result == Err(AlreadyBound) then v.(cache := v.db.t.tenant)
    else v
  }

  /** The service after a whole sign-in that nothing disturbs. */
  function SignedIn(v: Service, c: Claims, bootAt: string, claimAt: string): Service {
    var mid := Settled(v, c, bootAt);
    if mid.cache != c.tid then mid
    else
      var done := Call(mid, Request(AsActor(c), claimAt, ClaimInvite), c.tid);
      done.(sessions := done.sessions + [Session(c.oid, c.upn, c.tid)])
  }

  function With(v: Service, x: Thread): Service {
    v.(threads := map[0 := x])
  }

  lemma AloneStep(v: Service, x: Thread, y: Thread, w: Service, bootAt: string, claimAt: string)
    requires Proceed(With(v, x), 0, x, if x.stage.Binding? then bootAt else claimAt) == With(w, y)
    requires Rank(y.stage) < Rank(x.stage)
    ensures Alone(With(v, x), 0, bootAt, claimAt) == Alone(With(w, y), 0, bootAt, claimAt)
  {
  }

  lemma AloneEnds(v: Service, x: Thread, w: Service, bootAt: string, claimAt: string)
    requires Proceed(With(v, x), 0, x, if x.stage.Binding? then bootAt else claimAt) == w.(threads := map[])
    ensures Alone(With(v, x), 0, bootAt, claimAt) == w.(threads := map[])
  {
  }

  lemma PutWith(v: Service, x: Thread, y: Thread)
    ensures Put(With(v, x), 0, y) == With(v, y)
    ensures Drop(With(v, x), 0) == v.(threads := map[])
  {
    assert map[0 := x][0 := y] == map[0 := y];
    assert map[0 := x] - {0} == map[];
  }

  lemma AloneFromComparing(v: Service, c: Claims, bootAt: string, claimAt: string)
    requires v.cache != "" && v.cache == Settled(v, c, bootAt).cache
    ensures Alone(With(v, Thread(c, Comparing, v.cache)), 0, bootAt, claimAt) ==
            SignedIn(v, c, bootAt, claimAt).(threads := map[])
  {
    hide Step, Alone;
    var x := Thread(c, Comparing, v.cache);
    PutWith(v, x, x.(stage := Claiming));
    if c.tid != v.cache {
      AloneEnds(v, x, v, bootAt, claimAt);
    } else {
      AloneStep(v, x, x.(stage := Claiming), v, bootAt, claimAt);
      var w := Call(v, Request(AsActor(c), claimAt, ClaimInvite), c.tid);
      PutWith(w, x.(stage := Claiming), x.(stage := Issuing));
      AloneStep(v, x.(stage := Claiming), x.(stage := Issuing), w, bootAt, claimAt);
      PutWith(w, x.(stage := Issuing), x);
      AloneEnds(w, x.(stage := Issuing), w.(sessions := w.sessions + [Session(c.oid, c.upn, c.tid)]), bootAt, claimAt);
    }
  }

  /** Stepping one undisturbed sign-in through the protocol has that net effect. */
  lemma AloneIsSignedIn(v: Service, c: Claims, bootAt: string, claimAt: string)
    requires c.tid != ""
    ensures Alone(With(v, Thread(c, Starting, "")), 0, bootAt, claimAt) ==
            SignedIn(v, c, bootAt, claimAt).(threads := map[])
  {
    hide Step, Alone;
    var x := Thread(c, Starting, "");
    if v.cache != "" {
      PutWith(v, x, Thread(c, Comparing, v.cache));
      AloneStep(v, x, Thread(c, Comparing, v.cache), v, bootAt, claimAt);
      AloneFromComparing(v, c, bootAt, claimAt);
    } else {
      var y := Thread(c, Binding, "");
      PutWith(v, x, y);
      AloneStep(v, x, y, v, bootAt, claimAt);
      AloneFromBinding(v, c, bootAt, claimAt);
    }
  }

  lemma AloneFromBinding(v: Service, c: Claims, bootAt: string, claimAt: string)
    requires v.cache == "" && c.tid != ""
    ensures Alone(With(v, Thread(c, Binding, "")), 0, bootAt, claimAt) ==
            SignedIn(v, c, bootAt, claimAt).(threads := map[])
  {
    var x := Thread(c, Binding, "");
    var req := BootRequest(x, bootAt);
    BootstrapCall(v.db, req);
    hide Step, Alone, Bootstraps;
    var w := Call(v, req, c.tid);
    var mid := Settled(v, c, bootAt);
    if Step(v.db, req).result.Ok? {
      PutWith(w, x, x.(stage := Bound));
      AloneStep(v, x, x.(stage := Bound), w, bootAt, claimAt);
      PutWith(mid, x.(stage := Bound), Thread(c, Comparing, c.tid));
      AloneStep(w, x.(stage := Bound), Thread(c, Comparing, c.tid), mid, bootAt, claimAt);
      AloneFromComparing(mid, c, bootAt, claimAt);
    } else if Step(v.db, req).result == Err(AlreadyBound) {
      PutWith(v, x, x.(stage := Beaten));
      AloneStep(v, x, x.(stage := Beaten), v, bootAt, claimAt);
      var y := Thread(c, Learnt, v.db.t.tenant);
      PutWith(v, x.(stage := Beaten), y);
      AloneStep(v, x.(stage := Beaten), y, v, bootAt, claimAt);
      PutWith(mid, y, y.(stage := Comparing));
      AloneStep(v, y, y.(stage := Comparing), mid, bootAt, claimAt);
      AloneFromComparing(mid, c, bootAt, claimAt);
    } else {
      PutWith(v, x, x);
      AloneEnds(v, x, v, bootAt, claimAt);
    }
  }

  function After(actions: seq<Action>): Service {
    if actions == [] then FRESH else Next(After(actions[..|actions| - 1]), actions[|actions| - 1])
  }

  // ---- the invariant ----

  function Bootstraps(log: seq<AuditRow>): nat {
    if log == [] then 0
    else Bootstraps(log[..|log| - 1]) + if log[|log| - 1].event.TenantBootstrap? then 1 else 0
  }

  ghost predicate ThreadTrue(tenant: string, x: Thread) {
    && x.claims.oid != "" && x.claims.tid != ""
    && (x.bound == "" || x.bound == tenant)
    && (x.stage.Starting? || x.stage.Binding? ==> x.bound == "")
    && (x.stage.Bound? ==> tenant == x.claims.tid)
    && (x.stage.Beaten? ==> tenant != "")
    && (x.stage.Learnt? || x.stage.Comparing? ==> x.bound != "")
    && (x.stage.Claiming? || x.stage.Issuing? ==> tenant == x.claims.tid)
  }

  ghost predicate OriginsTrue(t: Tables, origins: map<int, string>) {
    && (forall i | i in t.stewards :: i in origins)
    && (forall i | i in origins :: origins[i] == t.tenant)
    && (origins != map[] ==> t.tenant != "")
  }

  ghost predicate ServiceTrue(v: Service) {
    var tenant := v.db.t.tenant;
    && (v.cache == "" || v.cache == tenant)
    && (forall id | id in v.threads :: ThreadTrue(tenant, v.threads[id]))
    && (forall k | 0 <= k < |v.sessions| :: v.sessions[k].tid == tenant && v.sessions[k].oid != "")
    && (v.sessions != [] ==> tenant != "")
    && OriginsTrue(v.db.t, v.origins)
    && Bootstraps(v.db.log) == (if tenant == "" then 0 else 1)
  }

  lemma BootstrapsSnoc(log: seq<AuditRow>, row: AuditRow)
    ensures Bootstraps(log + [row]) == Bootstraps(log) + if row.event.TenantBootstrap? then 1 else 0
  {
    assert (log + [row])[..|log|] == log;
  }

  // ---- how core calls touch the tenant and the steward rows ----

  lemma BootstrapCall(s: State, req: Request)
    requires req.op.Bootstrap?
    ensures var o := Step(s, req);
            && (o.result.Ok? ==>
                  && s.t.tenant == "" && o.st.t.tenant == req.op.tid
                  && o.st.t.stewardSeq == s.t.stewardSeq + 1
                  && o.st.t.stewards.Keys == s.t.stewards.Keys + {s.t.stewardSeq + 1}
                  && Bootstraps(o.st.log) == Bootstraps(s.log) + 1)
            && (!o.result.Ok? ==> o.st == s)
            && (o.result == Err(AlreadyBound) ==> s.t.tenant != "")
  {
    if Decide(s, req).Change? {
      BootstrapDecision(s, req);
      BindAndEnrol(s, req.op.tid, req.actor.oid, req.actor.upn);
      StepChange(s, req);
      BootstrapsSnoc(s.log, AuditRow(|s.log| + 1, req.at, req.actor, Decide(s, req).event.value));
      hide Decide, ExecAll, Step, ActiveOid, Bootstraps;
    }
  }

  lemma EntryKinds(s: State, req: Request)
    requires Decide(s, req).Change? && Decide(s, req).event.Some?
    ensures Decide(s, req).event.value.TenantBootstrap? <==> req.op.Bootstrap?
  {
  }

  lemma BootstrapsKept(s: State, req: Request)
    requires !req.op.Bootstrap?
    ensures Bootstraps(Step(s, req).st.log) == Bootstraps(s.log)
  {
    hide Decide, ExecAll, Bootstraps;
    var d := Decide(s, req);
    if d.Change? {
      StepChange(s, req);
      WriteKinds(s, req);
      WritesKeepLog(d.writes, s);
      if d.event.Some? {
        EntryKinds(s, req);
        BootstrapsSnoc(s.log, AuditRow(|s.log| + 1, req.at, req.actor, d.event.value));
      }
    }
  }

  lemma ClaimCall(s: State, req: Request)
    requires req.op.ClaimInvite?
    ensures var t, t' := s.t, Step(s, req).st.t;
            && t'.tenant == t.tenant
            && (t'.stewardSeq == t.stewardSeq ==> t'.stewards == t.stewards)
            && (t'.stewardSeq != t.stewardSeq ==>
                  t'.stewardSeq == t.stewardSeq + 1 && t'.stewards.Keys == t.stewards.Keys + {t'.stewardSeq})
  {
    if Decide(s, req).Change? {
      StepChange(s, req);
      if ExecAll(Decide(s, req).writes, s).Some? {
        ClaimTouches(s, req);
      }
      hide Decide, ExecAll, Step;
    }
  }

  lemma ClaimTouches(s: State, req: Request)
    requires req.op.ClaimInvite? && Decide(s, req).Change? && ExecAll(Decide(s, req).writes, s).Some?
    ensures var t, t' := s.t, ExecAll(Decide(s, req).writes, s).value.t;
            && t'.tenant == t.tenant
            && (t'.stewardSeq == t.stewardSeq ==> t'.stewards == t.stewards)
            && (t'.stewardSeq != t.stewardSeq ==>
                  t'.stewardSeq == t.stewardSeq + 1 && t'.stewards.Keys == t.stewards.Keys + {t'.stewardSeq})
  {
    var p := Invited(s, req.actor.upn).value;
    var drop := DeletePendingSteward(p.id);
    if ActiveOid(s.t, req.actor.oid) {
      SingleWrite(s, drop);
    } else {
      ExecAllShort(s, InsertSteward(req.actor.oid, req.actor.upn, p.invitedBy), drop, drop);
    }
    hide ExecAll, Invited, ActiveOid;
  }

  lemma OtherCall(s: State, req: Request)
    requires !req.op.Bootstrap? && !req.op.ClaimInvite?
    ensures var t, t' := s.t, Step(s, req).st.t;
            t'.tenant == t.tenant && t'.stewards.Keys == t.stewards.Keys
  {
    if !StewardOp(req.op) {
      OtherCallsKeepStewards(s, req);
      hide Step;
    } else if Decide(s, req).Change? {
      StewardWrite(s, req);
      hide Decide, ExecAll;
      StepChange(s, req);
      SingleWrite(s, Decide(s, req).writes[0]);
    }
  }

  lemma StewardWrite(s: State, req: Request)
    requires (req.op.PromoteSteward? || req.op.DemoteSteward? || req.op.CancelInvite?) && Decide(s, req).Change?
    ensures |Decide(s, req).writes| == 1 && Decide(s, req).writes == [Decide(s, req).writes[0]]
    ensures var w := Decide(s, req).writes[0];
            w.InsertPendingSteward? || w.DemoteSteward? || w.DeletePendingSteward?
  {
  }

  lemma BindingTrue(v: Service, id: int, at: string)
    requires ServiceTrue(v) && id in v.threads && v.threads[id].stage.Binding?
    ensures var v' := Proceed(v, id, v.threads[id], at);
            ServiceTrue(v') && (v.db.t.tenant != "" ==> v'.db.t.tenant == v.db.t.tenant)
  {
    var x := v.threads[id];
    hide Step, Bootstraps;
    assert ThreadTrue(v.db.t.tenant, x);
    BootstrapCall(v.db, BootRequest(x, at));
    if Step(v.db, BootRequest(x, at)).result.Ok? {
      assert v.origins == map[] && v.sessions == [];
      assert forall k | k in v.threads :: v.threads[k].bound == "";
    }
  }

  lemma ClaimingTrue(v: Service, id: int, at: string)
    requires ServiceTrue(v) && id in v.threads && v.threads[id].stage.Claiming?
    ensures var v' := Proceed(v, id, v.threads[id], at);
            ServiceTrue(v') && v'.db.t.tenant == v.db.t.tenant
  {
    var x := v.threads[id];
    hide Step, Bootstraps;
    assert ThreadTrue(v.db.t.tenant, x);
    ClaimCall(v.db, ClaimRequest(x, at));
    BootstrapsKept(v.db, ClaimRequest(x, at));
    var after := Step(v.db, ClaimRequest(x, at)).st;
    MarkTrue(v.origins, v.db, after, x.claims.tid);
    hide OriginsTrue, Mark, ThreadTrue;
    var v' := Call(v, ClaimRequest(x, at), x.claims.tid);
    assert ServiceTrue(v');
    assert ThreadTrue(v'.db.t.tenant, x.(stage := Issuing)) by { IssuingTrue(v.db.t.tenant, x); }
    hide ServiceTrue;
    PutTrue(v', id, x.(stage := Issuing));
  }

  lemma IssuingTrue(tenant: string, x: Thread)
    requires ThreadTrue(tenant, x) && x.stage.Claiming?
    ensures ThreadTrue(tenant, x.(stage := Issuing))
  {
  }

  /** A claim to the bound tenant marks the steward row it creates with that tenant. */
  lemma MarkTrue(origins: map<int, string>, before: State, after: State, tid: string)
    requires OriginsTrue(before.t, origins) && tid == before.t.tenant == after.t.tenant && tid != ""
    requires after.t.stewardSeq == before.t.stewardSeq ==> after.t.stewards == before.t.stewards
    requires after.t.stewardSeq != before.t.stewardSeq ==>
               after.t.stewards.Keys == before.t.stewards.Keys + {after.t.stewardSeq}
    ensures OriginsTrue(after.t, Mark(origins, before, after, tid))
  {
  }

  lemma ProceedTrue(v: Service, id: int, at: string)
    requires ServiceTrue(v) && id in v.threads
    ensures var v' := Proceed(v, id, v.threads[id], at);
            ServiceTrue(v') && (v.db.t.tenant != "" ==> v'.db.t.tenant == v.db.t.tenant)
  {
    var x := v.threads[id];
    assert ThreadTrue(v.db.t.tenant, x);
    if x.stage.Binding? {
      hide ServiceTrue, Proceed;
      BindingTrue(v, id, at);
    } else if x.stage.Claiming? {
      hide ServiceTrue, Proceed;
      ClaimingTrue(v, id, at);
    } else {
      hide ServiceTrue, Proceed;
      LocalTrue(v, id, at);
    }
  }

  lemma PutTrue(v: Service, id: int, x: Thread)
    requires ServiceTrue(v) && ThreadTrue(v.db.t.tenant, x)
    ensures ServiceTrue(Put(v, id, x))
  {
    hide Bootstraps, OriginsTrue, ThreadTrue;
  }

  lemma DropTrue(v: Service, id: int)
    requires ServiceTrue(v)
    ensures ServiceTrue(Drop(v, id))
  {
    hide Bootstraps, OriginsTrue, ThreadTrue;
  }

  lemma IssueTrue(v: Service, session: Session)
    requires ServiceTrue(v) && session.tid == v.db.t.tenant != "" && session.oid != ""
    ensures ServiceTrue(v.(sessions := v.sessions + [session]))
  {
    hide Bootstraps, OriginsTrue, ThreadTrue;
  }

  lemma LocalTrue(v: Service, id: int, at: string)
    requires ServiceTrue(v) && id in v.threads
    requires !v.threads[id].stage.Binding? && !v.threads[id].stage.Claiming?
    ensures var v' := Proceed(v, id, v.threads[id], at);
            ServiceTrue(v') && v'.db == v.db
  {
    var x, v' := v.threads[id], Proceed(v, id, v.threads[id], at);
    assert ThreadTrue(v.db.t.tenant, x) && (v.cache == "" || v.cache == v.db.t.tenant);
    assert v.db.t.tenant != "" ==> ServiceTrue(v.(cache := v.db.t.tenant));
    hide Step, ServiceTrue;
    DropTrue(v, id);
    if x.stage.Issuing? {
      IssueTrue(Drop(v, id), Session(x.claims.oid, x.claims.upn, x.claims.tid));
    } else if id in v'.threads {
      PutTrue(v.(cache := v'.cache), id, v'.threads[id]);
    }
  }

  lemma NextTrue(v: Service, a: Action)
    requires ServiceTrue(v)
    ensures ServiceTrue(Next(v, a))
    ensures v.db.t.tenant != "" ==> Next(v, a).db.t.tenant == v.db.t.tenant
  {
    hide Step, Bootstraps, Proceed;
    match a
    case Advance(id, at) =>
      if id in v.threads {
        ProceedTrue(v, id, at);
      }
    case Other(req) =>
      if !req.op.Bootstrap? && !req.op.ClaimInvite? {
        OtherCall(v.db, req);
        BootstrapsKept(v.db, req);
      }
    case Arrive(_, _) =>
    case Fail(_) =>
    case SkipClaim(_) =>
    case Restart =>
  }

  /** For every interleaving of any number of sign-ins, restarts, failures and other calls:
      the cache and every thread's view of the tenant are empty or right; every session issued
      and every steward row came from a sign-in of the bound tenant, and there is none of
      either before it is bound; and the log has exactly one tenant.bootstrap row once it is
      bound, and none before. */
  lemma {:induction false} EveryInterleavingTrue(actions: seq<Action>)
    ensures ServiceTrue(After(actions))
  {
    if actions != [] {
      EveryInterleavingTrue(actions[..|actions| - 1]);
      hide ServiceTrue, Next;
      NextTrue(After(actions[..|actions| - 1]), actions[|actions| - 1]);
    }
  }

  /** Once set, the tenant never changes. */
  lemma {:induction false} TenantIsForever(actions: seq<Action>, k: nat)
    requires k <= |actions| && After(actions[..k]).db.t.tenant != ""
    ensures After(actions).db.t.tenant == After(actions[..k]).db.t.tenant
    decreases |actions|
  {
    if k == |actions| {
      assert actions[..k] == actions;
    } else {
      hide ServiceTrue, Next;
      var n := |actions| - 1;
      assert actions[..n][..k] == actions[..k];
      TenantIsForever(actions[..n], k);
      EveryInterleavingTrue(actions[..n]);
      NextTrue(After(actions[..n]), actions[n]);
    }
  }

  // ---- from a session to the gate ----

  /** auth.tryAuthenticate and RequireSteward, on the oid and tid of a session cookie or of a
      verified bearer token. */
  predicate AdmitsSteward(v: Service, oid: string, tid: string) {
    v.cache != "" && tid == v.cache && ActiveOid(v.db.t, oid)
  }

  /** A request that the steward gate lets through, in the state the gate read, is one the
      serial results call gated: the tenant is bound, the caller's tid is its tid, and the
      caller is an active steward. The caller's oid is never empty: the token verifier
      refuses that, and no session was issued with it. */
  lemma GateImpliesGated(actions: seq<Action>, oid: string, tid: string, req: Request)
    requires oid != "" || exists session | session in After(actions).sessions :: session.oid == oid
    requires AdmitsSteward(After(actions), oid, tid) && req.actor.oid == oid
    requires !req.op.Bootstrap? && !req.op.ClaimInvite?
    ensures Gated(After(actions).db, req) && tid == After(actions).db.t.tenant
  {
    EveryInterleavingTrue(actions);
    hide After;
  }

  /** The gate lets through exactly the callers it should: those of the bound tenant with a
      steward row that was never removed, once the service knows the tenant. */
  lemma GateExactly(actions: seq<Action>, oid: string, tid: string)
    ensures var v := After(actions);
            AdmitsSteward(v, oid, tid) <==>
            v.cache != "" && tid == v.db.t.tenant &&
            exists i | i in v.db.t.stewards :: v.db.t.stewards[i].oid == oid && v.db.t.stewards[i].removedBy.None?
  {
    EveryInterleavingTrue(actions);
    hide After;
  }

  /** After a restart the service knows the tenant that is bound. */
  lemma GateOpens(actions: seq<Action>)
    ensures After(actions + [Restart]).cache == After(actions).db.t.tenant
  {
    assert (actions + [Restart])[..|actions|] == actions;
    hide Step;
  }
}
