/** What the gates guarantee when they are read before the transaction, as the service does:
    the interleavings of Serializable, with a tenant check at the start of each call. */
module ConcurrentGates {
  import opened Text
  import opened Schema
  import opened Registry
  import opened Gates
  import S = Serializable
  import SignIn

  /** A call is let in by a gate that saw the state w then had, or an earlier one: the gate of
      a bound tenant stays passed. */
  ghost predicate LetIn(w: S.World, a: S.Action) {
    a.Begin? ==> Admitted(w.db, a.req)
  }

  ghost predicate AllLetIn(actions: seq<S.Action>) {
    forall k | 0 <= k < |actions| :: LetIn(S.Reached(actions[..k]), actions[k])
  }

  ghost predicate TxnAdmitted(w: S.World, x: S.Txn) {
    Admitted(w.db, x.req) && (x.snap.Some? ==> Admitted(x.snap.value.state, x.req))
  }

  ghost predicate AnswerAdmitted(committed: seq<Request>, a: S.Answer) {
    a.version <= |committed| && Admitted(Run(committed[..a.version]), a.req)
  }

  ghost predicate AllAdmitted(w: S.World) {
    && AdmittedRun(w.committed)
    && (forall id | id in w.txns :: TxnAdmitted(w, w.txns[id]))
    && (forall k | 0 <= k < |w.answers| :: AnswerAdmitted(w.committed, w.answers[k]))
  }

  /** No call unbinds or rebinds a bound tenant. */
  lemma TenantStays(s: State, req: Request)
    requires s.t.tenant != ""
    ensures Step(s, req).st.t.tenant == s.t.tenant
  {
    if req.op.Bootstrap? {
      SignIn.BootstrapCall(s, req);
    } else if req.op.ClaimInvite? {
      SignIn.ClaimCall(s, req);
    } else {
      SignIn.OtherCall(s, req);
    }
    hide Step;
  }

  lemma StaysAdmitted(s: State, req: Request, other: Request)
    requires Admitted(s, other)
    ensures Admitted(Step(s, req).st, other)
  {
    if s.t.tenant != "" {
      TenantStays(s, req);
    }
    hide Step;
  }

  /** A reply given by transaction x, which then ends. */
  lemma ReplyAdmitted(w: S.World, id: int, x: S.Txn, result: Result<Reply>)
    requires S.Serial(w) && AllAdmitted(w) && x.snap.Some?
    requires S.SnapshotTrue(w.committed, x.snap.value) && Admitted(x.snap.value.state, x.req)
    ensures AllAdmitted(S.Reply(S.Close(w, id), x, result, false))
  {
    hide Run, Admitted, AdmittedRun, S.Serial;
  }

  lemma WriteAdmitted(w: S.World, id: int, x: S.Txn)
    requires S.Serial(w) && AllAdmitted(w) && id in w.txns && x == S.Pinned(w, w.txns[id])
    requires S.MayWrite(w, id, x)
    ensures AllAdmitted(S.WriteStep(w, id, x))
  {
    S.PinTrue(w, id);
    assert TxnAdmitted(w, w.txns[id]);
    hide Run, Admitted, AdmittedRun, S.Serial, S.MayWrite, S.Plan, Exec;
    if Exec(S.Plan(x)[x.written], x.work).None? {
      ReplyAdmitted(w, id, x, Err(Constraint));
    }
  }

  /** What a commit step does, when it is enabled. */
  lemma CommitShape(w: S.World, id: int)
    requires S.Serial(w) && id in w.txns
    ensures var x, w' := w.txns[id], S.Next(w, S.Commit(id));
            w' == w ||
            (&& w'.committed == w.committed + [x.req] && w'.db == Step(w.db, x.req).st
             && w'.txns == w.txns - {id} && |w'.answers| == |w.answers| + 1
             && w'.answers[..|w.answers|] == w.answers && w'.answers[|w.answers|].req == x.req
             && w'.answers[|w.answers|].version == |w.committed|)
  {
    var x, w' := w.txns[id], S.Next(w, S.Commit(id));
    S.NextSerial(w, S.Commit(id));
    if w' != w {
      assert S.TxnTrue(w, id, x);
      RunSnoc(w.committed, x.req);
      hide Run, Step, Decide, S.Plan, S.AnswerTrue, S.TxnTrue;
      assert w'.answers[..|w.answers|] == w.answers;
    }
  }

  lemma AnswersStay(committed: seq<Request>, req: Request, answers: seq<S.Answer>)
    requires forall k | 0 <= k < |answers| :: AnswerAdmitted(committed, answers[k])
    ensures forall k | 0 <= k < |answers| :: AnswerAdmitted(committed + [req], answers[k])
  {
    hide Run, Admitted;
    forall k | 0 <= k < |answers|
      ensures AnswerAdmitted(committed + [req], answers[k])
    {
      var v := answers[k].version;
      assert AnswerAdmitted(committed, answers[k]);
      assert (committed + [req])[..v] == committed[..v];
    }
  }

  lemma NewAnswer(committed: seq<Request>, req: Request, a: S.Answer)
    requires Admitted(Run(committed), req) && a.req == req && a.version == |committed|
    ensures AnswerAdmitted(committed + [req], a)
  {
    hide Run, Admitted;
    assert (committed + [req])[..|committed|] == committed;
  }

  lemma CommitKeepsAdmitted(w: S.World, w': S.World, id: int, req: Request)
    requires AllAdmitted(w) && Admitted(w.db, req) && w.db == Run(w.committed)
    requires w'.db == Step(w.db, req).st && w'.committed == w.committed + [req] && w'.txns == w.txns - {id}
    requires |w'.answers| == |w.answers| + 1 && w'.answers[..|w.answers|] == w.answers
    requires w'.answers[|w.answers|].req == req && w'.answers[|w.answers|].version == |w.committed|
    ensures AllAdmitted(w')
  {
    hide Run, Step, Admitted, AnswerAdmitted, AdmittedRun;
    forall other | other in w'.txns
      ensures TxnAdmitted(w', w'.txns[other])
    {
      assert TxnAdmitted(w, w.txns[other]);
      StaysAdmitted(w.db, req, w.txns[other].req);
    }
    AnswersStay(w.committed, req, w.answers);
    NewAnswer(w.committed, req, w'.answers[|w.answers|]);
    RunWideSnoc(w.committed, req);
    assert forall k | 0 <= k < |w.answers| :: w'.answers[k] == w'.answers[..|w.answers|][k];
  }

  lemma CommitAdmitted(w: S.World, id: int)
    requires S.Serial(w) && AllAdmitted(w) && id in w.txns
    ensures AllAdmitted(S.Next(w, S.Commit(id)))
  {
    CommitShape(w, id);
    var w' := S.Next(w, S.Commit(id));
    assert TxnAdmitted(w, w.txns[id]) && w.db == Run(w.committed);
    hide S.Next, S.Serial, Run, Step, Admitted, AllAdmitted;
    if w' != w {
      CommitKeepsAdmitted(w, w', id, w.txns[id].req);
    }
  }

  lemma NextAdmitted(w: S.World, a: S.Action)
    requires S.Serial(w) && AllAdmitted(w) && LetIn(w, a)
    ensures AllAdmitted(S.Next(w, a))
  {
    match a
    case Begin(_, _) => hide Run, Decide, Admitted, AdmittedRun, S.Serial;
    case Read(id) => hide Run, Decide, Admitted, AdmittedRun, S.Serial;
    case WriteNext(id) =>
      hide Run, Decide, Admitted, AdmittedRun, S.Serial, AllAdmitted, S.MayWrite, S.WriteStep;
      if id in w.txns && S.MayWrite(w, id, S.Pinned(w, w.txns[id])) {
        WriteAdmitted(w, id, S.Pinned(w, w.txns[id]));
      }
    case Commit(id) =>
      if id in w.txns {
        CommitAdmitted(w, id);
      }
      hide S.Serial, AllAdmitted, Decide;
    case Finish(id) =>
      if id in w.txns && w.txns[id].snap.Some? {
        var x := w.txns[id];
        assert TxnAdmitted(w, x) && S.TxnTrue(w, id, x);
        var result := Step(x.snap.value.state, x.req).result;
        ReplyAdmitted(w, id, x, result);
      }
      hide Run, Admitted, AdmittedRun, S.Serial, AllAdmitted, Decide;
    case Abort(_) => hide Run, Decide, Admitted, AdmittedRun, S.Serial;
  }

  lemma {:induction false} ReachedAdmitted(actions: seq<S.Action>)
    requires AllLetIn(actions)
    ensures AllAdmitted(S.Reached(actions))
  {
    if actions != [] {
      var n := |actions| - 1;
      assert forall k | 0 <= k < n :: actions[..n][..k] == actions[..k];
      ReachedAdmitted(actions[..n]);
      S.InterleavingIsSerial(actions[..n]);
      assert LetIn(S.Reached(actions[..n]), actions[n]);
      hide S.Serial, AllAdmitted, S.Next;
      NextAdmitted(S.Reached(actions[..n]), actions[n]);
    }
  }

  lemma AdmittedWorld(w: S.World)
    requires S.Serial(w) && AllAdmitted(w)
    ensures Guarded(w.db)
    ensures forall a | a in w.answers :: a.result != Err(Constraint)
  {
    hide Step, Run, Admitted;
    RunGuarded(w.committed);
    forall a | a in w.answers
      ensures a.result != Err(Constraint)
    {
      var k :| 0 <= k < |w.answers| && w.answers[k] == a;
      assert AnswerAdmitted(w.committed, a) && S.AnswerTrue(w.committed, a);
      var before := w.committed[..a.version];
      assert forall i | 0 <= i < |before| :: before[..i] == w.committed[..i];
      GuardsSuffice(before, a.req);
    }
  }

  /** With every gate read before its transaction, in any interleaving: active OIDs, active
      UPNs and invitations stay distinct and disjoint, and no caller is ever refused by a
      constraint of the schema. Only the last steward is not protected; see LastSteward. */
  lemma ConcurrentIdentities(actions: seq<S.Action>)
    requires AllLetIn(actions)
    ensures Guarded(S.Reached(actions).db)
    ensures forall a | a in S.Reached(actions).answers :: a.result != Err(Constraint)
  {
    ReachedAdmitted(actions);
    S.InterleavingIsSerial(actions);
    hide S.Reached, S.Serial, AllAdmitted, Guarded;
    AdmittedWorld(S.Reached(actions));
  }
}
