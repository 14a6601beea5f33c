/** Sign-ins whose core calls are transactions, statement by statement: the machine of SignIn
    composed with that of Serializable, and the proof that it does nothing SignIn does not. */
module SignInTransactions {
  import opened Text
  import opened Schema
  import opened Registry
  import opened Gates
  import opened ConcurrentGates
  import opened SignIn
  import S = Serializable

  /** The service with its open transactions. That of a sign-in has the sign-in's number. */
  datatype Site = Site(
    world: S.World, cache: string, threads: map<int, Thread>, sessions: seq<Session>, origins: map<int, string>)

  const NEW_SITE := Site(S.START, "", map[], [], map[])

  datatype Move =
    | Appear(id: int, claims: Claims)
    | Local(id: int)                   // a step of a sign-in outside its core calls
    | Call(id: int, at: string)        // a sign-in begins its next core call
    | Open(id: int, req: Request)      // any other core call begins
    | Db(step: S.Action)               // a statement, commit, early exit or failure of an open call
    | Vanish(id: int)                  // a sign-in ends with its connection
    | Reboot

  function InCore(stage: Stage): bool {
    stage.Binding? || stage.Claiming?
  }

  function CallRequest(x: Thread, at: string): Request {
    if x.stage.Binding? then BootRequest(x, at) else ClaimRequest(x, at)
  }

  /** The reply of the transaction that the step ended, or None when it failed. */
  function Reply(w: S.World, w': S.World): Option<Result<Registry.Reply>> {
    if |w'.answers| > |w.answers| then Some(w'.answers[|w'.answers| - 1].result) else None
  }

  /** A sign-in once its call has been answered: a claim never stops it. */
  function Resume(v: Site, id: int, reply: Option<Result<Registry.Reply>>): Site
    requires id in v.threads
  {
    var x := v.threads[id];
    if x.stage.Claiming? then v.(threads := v.threads[id := x.(stage := Issuing)])
    else if reply.Some? && reply.value.Ok? then v.(threads := v.threads[id := x.(stage := Bound)])
    else if reply == Some(Err(AlreadyBound)) then v.(threads := v.threads[id := x.(stage := Beaten)])
    else v.(threads := v.threads - {id})
  }

  function DbStep(v: Site, step: S.Action): Site {
    var w, w' := v.world, S.Next(v.world, step);
    if step.Begin? || step.id !in w.txns then v
    else if step.id in w'.txns || step.id !in v.threads then v.(world := w')
    else
      var tid := v.threads[step.id].claims.tid;
      Resume(v.(world := w', origins := Mark(v.origins, w.db, w'.db, tid)), step.id, Reply(w, w'))
  }

  function Shown(v: Site): Service {
    Service(v.world.db, v.cache, v.threads, v.sessions, v.origins)
  }

  /** The site in which a step of SignIn has been taken. */
  function Showing(v: Site, shown: Service): Site {
    v.(cache := shown.cache, threads := shown.threads, sessions := shown.sessions, origins := shown.origins)
  }

  function Advanced(v: Site, m: Move): Site {
    match m
    case Appear(id, c) => if id in v.world.txns then v else Showing(v, Next(Shown(v), Arrive(id, c)))
    case Local(id) =>
      if id in v.threads && !InCore(v.threads[id].stage) then Showing(v, Next(Shown(v), Advance(id, ""))) else v
    case Call(id, at) =>
      if id in v.threads && InCore(v.threads[id].stage)
      then v.(world := S.Next(v.world, S.Begin(id, CallRequest(v.threads[id], at)))) else v
    case Open(id, req) =>
      if id in v.threads || req.op.Bootstrap? || req.op.ClaimInvite? then v
      else v.(world := S.Next(v.world, S.Begin(id, req)))
    case Db(step) => DbStep(v, step)
    case Vanish(id) => if id in v.threads then v.(world := S.Close(v.world, id), threads := v.threads - {id}) else v
    case Reboot => v.(world := v.world.(txns := map[], lock := None), threads := map[], cache := v.world.db.t.tenant)
  }

  function Reached(moves: seq<Move>): Site {
    if moves == [] then NEW_SITE else Advanced(Reached(moves[..|moves| - 1]), moves[|moves| - 1])
  }

  // ---- the invariant ----

  /** An open transaction is its sign-in's current call, or another kind of call. */
  ghost predicate TxnLinked(v: Site, id: int, req: Request) {
    if id in v.threads then InCore(v.threads[id].stage) && req == CallRequest(v.threads[id], req.at)
    else !req.op.Bootstrap? && !req.op.ClaimInvite?
  }

  ghost predicate Linked(v: Site) {
    S.Serial(v.world) && forall id | id in v.world.txns :: TxnLinked(v, id, v.world.txns[id].req)
  }

  /** One step of SignIn, or none. */
  ghost predicate Simulates(v: Service, v': Service) {
    v' == v || exists a :: v' == Next(v, a)
  }

  // ---- what a step of a transaction does to the database ----

  /** A step either leaves the committed database alone or commits, and only the transaction
      of the step is touched. */
  lemma StepShape(w: S.World, a: S.Action)
    requires S.Serial(w) && !a.Begin? && a.id in w.txns
    ensures var x, w' := w.txns[a.id], S.Next(w, a);
            && (forall id | id in w'.txns :: id in w.txns && w'.txns[id].req == w.txns[id].req)
            && (w'.db == w.db || (w'.db == Step(w.db, x.req).st && a.id !in w'.txns))
  {
    if a.Commit? {
      CommitShape(w, a.id);
      hide S.Next, Step, S.Serial;
    } else {
      hide S.Serial, Decide, Exec, S.Plan;
    }
  }

  /** What the last reply of a step tells about its call, run alone on its snapshot. */
  lemma ReplyShape(w: S.World, a: S.Action)
    requires S.Serial(w) && !a.Begin? && a.id in w.txns && |S.Next(w, a).answers| > |w.answers|
    ensures var x, w' := S.Pinned(w, w.txns[a.id]), S.Next(w, a);
            && x.snap.Some? && S.SnapshotTrue(w.committed, x.snap.value)
            && Reply(w, w') == Some(Step(x.snap.value.state, x.req).result)
            && a.id !in w'.txns
  {
    S.PinTrue(w, a.id);
    AnswerShape(w, a);
    S.NextSerial(w, a);
    S.NextExtends(w, a);
    var x, w' := S.Pinned(w, w.txns[a.id]), S.Next(w, a);
    var k := |w'.answers| - 1;
    assert S.AnswerTrue(w'.committed, w'.answers[k]);
    assert w'.committed[..x.snap.value.version] == w.committed[..x.snap.value.version];
    hide S.Next, S.Serial, Step, Run, Decide, S.TxnTrue;
  }

  lemma AnswerShape(w: S.World, a: S.Action)
    requires !a.Begin? && a.id in w.txns && |S.Next(w, a).answers| > |w.answers|
    ensures var x, w' := S.Pinned(w, w.txns[a.id]), S.Next(w, a);
            && x.snap.Some? && |w'.answers| == |w.answers| + 1 && a.id !in w'.txns
            && w'.answers[|w.answers|].req == x.req && w'.answers[|w.answers|].version == x.snap.value.version
  {
    hide Decide, Exec, S.Plan;
  }

  /** Without a commit the database stays, and a call that replies changed nothing. */
  lemma NoCommitShape(w: S.World, a: S.Action)
    requires !a.Begin? && !a.Commit? && a.id in w.txns
    ensures var w' := S.Next(w, a);
            && w'.db == w.db && |w'.answers| >= |w.answers|
            && (|w'.answers| > |w.answers| && Reply(w, w').value.Ok? ==>
                  !Decide(S.Pinned(w, w.txns[a.id]).snap.value.state, w.txns[a.id].req).Change?)
  {
    hide Decide, Exec, S.Plan;
    if |S.Next(w, a).answers| > |w.answers| {
      AnswerShape(w, a);
    }
  }

  /** A commit that takes place is the call's step on the committed database. */
  lemma CommitReply(w: S.World, id: int)
    requires S.Serial(w) && id in w.txns && id !in S.Next(w, S.Commit(id)).txns
    ensures var x, w' := w.txns[id], S.Next(w, S.Commit(id));
            && w'.db == Step(w.db, x.req).st
            && Reply(w, w') == Some(Step(w.db, x.req).result) && Step(w.db, x.req).result.Ok?
  {
    CommitShape(w, id);
    ReplyShape(w, S.Commit(id));
    CommitsOnCurrent(w, id);
    hide S.Next, S.Serial, Step, Decide;
  }

  lemma CommitsOnCurrent(w: S.World, id: int)
    requires S.Serial(w) && id in w.txns && id !in S.Next(w, S.Commit(id)).txns
    ensures S.Pinned(w, w.txns[id]).snap.value.state == w.db
    ensures Reply(w, S.Next(w, S.Commit(id))).value.Ok?
  {
    var x := w.txns[id];
    assert S.TxnTrue(w, id, x) && S.LockTrue(w);
    assert w.committed[..|w.committed|] == w.committed;
    hide Run, Decide, Exec, S.Plan, S.AnswerTrue;
  }

  // ---- answers on a snapshot against answers now ----

  lemma {:induction false} RunTenantStays(reqs: seq<Request>, k: nat)
    requires k <= |reqs| && Run(reqs[..k]).t.tenant != ""
    ensures Run(reqs).t.tenant == Run(reqs[..k]).t.tenant
    decreases |reqs|
  {
    if k == |reqs| {
      assert reqs[..k] == reqs;
    } else {
      var n := |reqs| - 1;
      assert reqs[..n][..k] == reqs[..k];
      RunTenantStays(reqs[..n], k);
      TenantStays(Run(reqs[..n]), reqs[n]);
      hide Step;
    }
  }

  /** A bootstrap never succeeds without a change, and refuses a bound registry for good. */
  lemma BootstrapRefused(s: State, req: Request, later: State)
    requires req.op.Bootstrap?
    ensures !Decide(s, req).Change? ==> Step(s, req).result.Err?
    ensures Step(s, req).result == Err(AlreadyBound) && later.t.tenant != "" ==>
            Step(later, req) == Outcome(later, Err(AlreadyBound))
  {
    hide ExecAll;
  }

  lemma SnapshotEarlier(w: S.World, snap: S.Snapshot)
    requires S.Serial(w) && S.SnapshotTrue(w.committed, snap) && snap.state.t.tenant != ""
    ensures w.db.t.tenant != ""
  {
    RunTenantStays(w.committed, snap.version);
    hide Run;
  }

  // ---- the simulation ----

  lemma BootCommits(v: Site, id: int)
    requires Linked(v) && id in v.world.txns && id !in S.Next(v.world, S.Commit(id)).txns
    requires id in v.threads && v.threads[id].stage.Binding?
    ensures Shown(DbStep(v, S.Commit(id))) == Next(Shown(v), Advance(id, v.world.txns[id].req.at))
  {
    var w := v.world;
    assert S.Serial(w) && TxnLinked(v, id, w.txns[id].req);
    hide S.Next, S.Serial, Step, Decide, Linked, Mark;
    CommitReply(w, id);
  }

  lemma BootEnds(v: Site, step: S.Action)
    requires Linked(v) && !step.Begin? && step.id in v.world.txns && step.id !in S.Next(v.world, step).txns
    requires step.id in v.threads && v.threads[step.id].stage.Binding?
    ensures Simulates(Shown(v), Shown(DbStep(v, step)))
  {
    var w, w', id := v.world, S.Next(v.world, step), step.id;
    var x, req := v.threads[id], w.txns[id].req;
    assert S.Serial(w) && TxnLinked(v, id, req) && req == BootRequest(x, req.at);
    hide S.Next, S.Serial, Step, Decide, Linked, CallRequest;
    if step.Commit? {
      BootCommits(v, id);
    } else {
      NoCommitShape(w, step);
      BootEndsUnchanged(v, step);
      if Reply(w, w') == Some(Err(AlreadyBound)) {
        BootStaysRefused(v, step);
        assert Shown(DbStep(v, step)) == Next(Shown(v), Advance(id, req.at));
      } else {
        assert Shown(DbStep(v, step)) == Next(Shown(v), Fail(id));
      }
    }
  }

  /** Without a commit, a bootstrap call ends in an error. */
  lemma BootEndsUnchanged(v: Site, step: S.Action)
    requires Linked(v) && !step.Begin? && !step.Commit? && step.id in v.world.txns
    requires v.world.txns[step.id].req.op.Bootstrap?
    ensures var reply := Reply(v.world, S.Next(v.world, step)); reply.Some? ==> reply.value.Err?
  {
    var w := v.world;
    NoCommitShape(w, step);
    hide S.Next, S.Serial, Step, Decide;
    if |S.Next(w, step).answers| > |w.answers| {
      ReplyShape(w, step);
      BootstrapRefused(S.Pinned(w, w.txns[step.id]).snap.value.state, w.txns[step.id].req, w.db);
    }
  }

  /** A bootstrap refused on its snapshot is refused on the database of now. */
  lemma BootStaysRefused(v: Site, step: S.Action)
    requires Linked(v) && !step.Begin? && step.id in v.world.txns && v.world.txns[step.id].req.op.Bootstrap?
    requires Reply(v.world, S.Next(v.world, step)) == Some(Err(AlreadyBound))
    ensures Step(v.world.db, v.world.txns[step.id].req) == Outcome(v.world.db, Err(AlreadyBound))
  {
    var w, req := v.world, v.world.txns[step.id].req;
    hide S.Next, S.Serial, Step, Decide;
    ReplyShape(w, step);
    var snap := S.Pinned(w, w.txns[step.id]).snap.value;
    BootstrapCall(snap.state, req);
    SnapshotEarlier(w, snap);
    BootstrapRefused(snap.state, req, w.db);
  }

  lemma ClaimCommits(v: Site, id: int)
    requires Linked(v) && id in v.world.txns && id !in S.Next(v.world, S.Commit(id)).txns
    requires id in v.threads && v.threads[id].stage.Claiming?
    ensures Shown(DbStep(v, S.Commit(id))) == Next(Shown(v), Advance(id, v.world.txns[id].req.at))
  {
    var w := v.world;
    assert S.Serial(w) && TxnLinked(v, id, w.txns[id].req);
    hide S.Next, S.Serial, Step, Decide, Linked, Mark;
    CommitReply(w, id);
  }

  lemma ClaimEnds(v: Site, step: S.Action)
    requires Linked(v) && !step.Begin? && step.id in v.world.txns && step.id !in S.Next(v.world, step).txns
    requires step.id in v.threads && v.threads[step.id].stage.Claiming?
    ensures Simulates(Shown(v), Shown(DbStep(v, step)))
  {
    hide S.Next, Linked, Step;
    if step.Commit? {
      ClaimCommits(v, step.id);
    } else {
      NoCommitShape(v.world, step);
      assert Shown(DbStep(v, step)) == Next(Shown(v), SkipClaim(step.id));
    }
  }

  lemma DbElsewhere(v: Site, step: S.Action)
    requires !step.Begin? && step.id in v.world.txns
    requires step.id in S.Next(v.world, step).txns || step.id !in v.threads
    ensures DbStep(v, step) == v.(world := S.Next(v.world, step))
  {
    hide S.Next, Resume, Mark, Reply;
  }

  lemma OtherSimulates(v: Site, step: S.Action)
    requires Linked(v) && !step.Begin? && step.id in v.world.txns
    requires step.id in S.Next(v.world, step).txns || step.id !in v.threads
    ensures Simulates(Shown(v), Shown(DbStep(v, step)))
  {
    var w := v.world;
    StepShape(w, step);
    DbElsewhere(v, step);
    var req := w.txns[step.id].req;
    assert TxnLinked(v, step.id, req);
    hide S.Next, Linked, Step, DbStep, CallRequest;
    if S.Next(w, step).db != w.db {
      assert Shown(v.(world := S.Next(w, step))) == Next(Shown(v), Other(req));
    }
  }

  lemma DbSimulates(v: Site, step: S.Action)
    requires Linked(v)
    ensures Simulates(Shown(v), Shown(DbStep(v, step)))
  {
    if !step.Begin? && step.id in v.world.txns {
      assert TxnLinked(v, step.id, v.world.txns[step.id].req);
      hide S.Next, Linked, Simulates, DbStep;
      if step.id in S.Next(v.world, step).txns || step.id !in v.threads {
        OtherSimulates(v, step);
      } else if v.threads[step.id].stage.Binding? {
        BootEnds(v, step);
      } else {
        ClaimEnds(v, step);
      }
    }
  }

  lemma DbThreads(v: Site, step: S.Action, id: int)
    requires !step.Begin? && step.id in v.world.txns && id in S.Next(v.world, step).txns
    ensures var v' := DbStep(v, step);
            && v'.world == S.Next(v.world, step)
            && (id in v'.threads <==> id in v.threads)
            && (id in v.threads ==> v'.threads[id] == v.threads[id])
  {
    hide S.Next, Mark, Reply;
  }

  lemma DbWorld(v: Site, step: S.Action)
    requires !step.Begin? && step.id in v.world.txns
    ensures DbStep(v, step).world == S.Next(v.world, step)
  {
    hide S.Next, Mark, Reply;
  }

  lemma DbLinked(v: Site, step: S.Action)
    requires Linked(v)
    ensures Linked(DbStep(v, step))
  {
    var w := v.world;
    if !step.Begin? && step.id in w.txns {
      StepShape(w, step);
      S.NextSerial(w, step);
      DbWorld(v, step);
      hide S.Next, S.Serial, Step, DbStep, CallRequest;
      var v' := DbStep(v, step);
      forall id | id in v'.world.txns
        ensures TxnLinked(v', id, v'.world.txns[id].req)
      {
        assert TxnLinked(v, id, w.txns[id].req);
        DbThreads(v, step, id);
      }
    }
  }

  /** A step of a sign-in outside its core calls leaves the database and the others alone. */
  lemma LocalShape(v: Service, id: int)
    requires id in v.threads && !InCore(v.threads[id].stage)
    ensures var v' := Next(v, Advance(id, ""));
            && v'.db == v.db
            && (forall other | other != id :: other in v'.threads <==> other in v.threads)
            && (forall other | other != id && other in v.threads :: v'.threads[other] == v.threads[other])
  {
  }

  lemma BeginShape(w: S.World, id: int, req: Request)
    requires S.Serial(w)
    ensures var w' := S.Next(w, S.Begin(id, req));
            && S.Serial(w') && w'.db == w.db
            && (forall other | other in w'.txns ::
                  (other in w.txns && w'.txns[other].req == w.txns[other].req) ||
                  (other == id && w'.txns[other].req == req))
  {
    S.NextSerial(w, S.Begin(id, req));
    hide S.Serial;
  }

  lemma EmptySerial(w: S.World)
    requires S.Serial(w)
    ensures S.Serial(w.(txns := map[], lock := None))
  {
    hide S.AnswerTrue, S.SnapshotTrue, S.WorkTrue;
  }

  lemma MoveLinked(v: Site, m: Move)
    requires Linked(v)
    ensures Linked(Advanced(v, m))
  {
    hide S.Next, S.Serial, Step;
    assert forall id | id in v.world.txns :: TxnLinked(v, id, v.world.txns[id].req);
    match m
    case Appear(id, c) =>
    case Local(id) =>
      if id in v.threads && !InCore(v.threads[id].stage) {
        LocalShape(Shown(v), id);
        hide Next;
      }
    case Call(id, at) =>
      if id in v.threads {
        BeginShape(v.world, id, CallRequest(v.threads[id], at));
      }
    case Open(id, req) => BeginShape(v.world, id, req);
    case Db(step) =>
      DbLinked(v, step);
      hide Linked, DbStep;
    case Vanish(id) => S.CloseSerial(v.world, id);
    case Reboot => EmptySerial(v.world);
  }

  lemma MoveSimulates(v: Site, m: Move)
    requires Linked(v)
    ensures Simulates(Shown(v), Shown(Advanced(v, m)))
  {
    hide S.Next, S.Serial, Step;
    match m
    case Appear(id, c) => assert id !in v.world.txns ==> Shown(Advanced(v, m)) == Next(Shown(v), Arrive(id, c));
    case Local(id) =>
      if id in v.threads && !InCore(v.threads[id].stage) {
        LocalShape(Shown(v), id);
        assert Shown(Advanced(v, m)) == Next(Shown(v), Advance(id, ""));
      }
    case Call(id, at) =>
      if id in v.threads {
        BeginShape(v.world, id, CallRequest(v.threads[id], at));
      }
    case Open(id, req) => BeginShape(v.world, id, req);
    case Db(step) =>
      DbSimulates(v, step);
      hide Simulates, DbStep;
    case Vanish(id) => assert id in v.threads ==> Shown(Advanced(v, m)) == Next(Shown(v), Fail(id));
    case Reboot => assert Shown(Advanced(v, m)) == Next(Shown(v), Restart);
  }

  /** Whatever sign-ins made of transactions do, sign-ins whose core calls are single steps
      can do: the service they show is one that SignIn reaches. */
  lemma {:induction false} TransactionsAreSteps(moves: seq<Move>) returns (actions: seq<Action>)
    ensures Linked(Reached(moves))
    ensures Shown(Reached(moves)) == After(actions)
  {
    actions := [];
    if moves != [] {
      var n := |moves| - 1;
      actions := TransactionsAreSteps(moves[..n]);
      var v, m := Reached(moves[..n]), moves[n];
      MoveLinked(v, m);
      MoveSimulates(v, m);
      hide Advanced, Linked, Next;
      if Shown(Advanced(v, m)) != Shown(v) {
        var a :| Shown(Advanced(v, m)) == Next(Shown(v), a);
        assert (actions + [a])[..|actions|] == actions;
        actions := actions + [a];
      }
    } else {
      assert S.Reached([]) == S.START;
      S.InterleavingIsSerial([]);
    }
  }

  /** So the theorem of SignIn holds of sign-ins racing statement by statement. */
  lemma EveryTransactionRaceTrue(moves: seq<Move>)
    ensures ServiceTrue(Shown(Reached(moves)))
  {
    var actions := TransactionsAreSteps(moves);
    EveryInterleavingTrue(actions);
    hide Reached, After, ServiceTrue;
  }

  // ---- the identity invariant of the composed service ----

  /** Every other call begins behind a gate that saw the bound tenant; sign-ins need none. */
  ghost predicate OpensAdmitted(moves: seq<Move>) {
    forall k | 0 <= k < |moves| && moves[k].Open? :: Admitted(Reached(moves[..k]).world.db, moves[k].req)
  }

  lemma CloseAdmitted(w: S.World, id: int)
    requires AllAdmitted(w)
    ensures AllAdmitted(S.Close(w, id)) && AllAdmitted(w.(txns := map[], lock := None))
  {
    hide Admitted, AdmittedRun, AnswerAdmitted;
  }

  /** The sign-in invariant is what admits a sign-in's own calls. */
  lemma CallAdmitted(v: Site, id: int, at: string)
    requires ServiceTrue(Shown(v)) && id in v.threads && InCore(v.threads[id].stage)
    ensures Admitted(v.world.db, CallRequest(v.threads[id], at))
  {
    assert ThreadTrue(v.world.db.t.tenant, Shown(v).threads[id]);
  }

  lemma MoveAdmitted(v: Site, m: Move)
    requires Linked(v) && ServiceTrue(Shown(v)) && AllAdmitted(v.world)
    requires m.Open? ==> Admitted(v.world.db, m.req)
    ensures AllAdmitted(Advanced(v, m).world)
  {
    hide ServiceTrue, S.Next, S.Serial, Admitted, AllAdmitted, Next;
    match m
    case Appear(_, _) =>
    case Local(_) =>
    case Call(id, at) =>
      if id in v.threads && InCore(v.threads[id].stage) {
        CallAdmitted(v, id, at);
        NextAdmitted(v.world, S.Begin(id, CallRequest(v.threads[id], at)));
      }
    case Open(id, req) => NextAdmitted(v.world, S.Begin(id, req));
    case Db(step) =>
      if !step.Begin? && step.id in v.world.txns {
        DbWorld(v, step);
        NextAdmitted(v.world, step);
      }
    case Vanish(id) => CloseAdmitted(v.world, id);
    case Reboot => CloseAdmitted(v.world, 0);
  }

  lemma {:induction false} ReachedAllAdmitted(moves: seq<Move>)
    requires OpensAdmitted(moves)
    ensures AllAdmitted(Reached(moves).world)
  {
    if moves != [] {
      hide Linked, ServiceTrue, AllAdmitted, Admitted, Advanced;
      var n := |moves| - 1;
      assert forall k | 0 <= k < n :: moves[..n][..k] == moves[..k];
      ReachedAllAdmitted(moves[..n]);
      EveryTransactionRaceTrue(moves[..n]);
      var actions := TransactionsAreSteps(moves[..n]);
      MoveAdmitted(Reached(moves[..n]), moves[n]);
    }
  }

  /** The whole service, sign-ins and other calls racing statement by statement with failures
      and restarts, and gates read only when the other calls begin: identities stay distinct
      and disjoint, and no caller is ever refused by a constraint. */
  lemma ServiceKeepsIdentities(moves: seq<Move>)
    requires OpensAdmitted(moves)
    ensures Guarded(Reached(moves).world.db)
    ensures forall a | a in Reached(moves).world.answers :: a.result != Err(Constraint)
  {
    ReachedAllAdmitted(moves);
    var actions := TransactionsAreSteps(moves);
    AdmittedWorld(Reached(moves).world);
    hide Reached;
  }
}
