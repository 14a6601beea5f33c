/** The other half of serializability: every serial run is an interleaving. */
module Interleavings {
  import opened Text
  import opened Schema
  import opened Registry
  import opened Serializable

  /** Steps taken one after the other. */
  function Taken(w: World, actions: seq<Action>): World
    decreases |actions|
  {
    if actions == [] then w else Taken(Next(w, actions[0]), actions[1..])
  }

  lemma {:induction false} TakenAppend(w: World, a: seq<Action>, b: seq<Action>)
    ensures Taken(w, a + b) == Taken(Taken(w, a), b)
    decreases |a|
  {
    if a == [] {
      assert a + b == b;
    } else {
      hide Next;
      assert (a + b)[1..] == a[1..] + b;
      TakenAppend(Next(w, a[0]), a[1..], b);
    }
  }

  lemma TakenOne(w: World, a: Action)
    ensures Taken(w, [a]) == Next(w, a)
  {
    hide Next;
    assert [a][1..] == [];
    assert Taken(Next(w, a), []) == Next(w, a);
  }

  lemma {:induction false} ReachedTaken(actions: seq<Action>, more: seq<Action>)
    ensures Reached(actions + more) == Taken(Reached(actions), more)
    decreases |more|
  {
    if more == [] {
      assert actions + more == actions;
    } else {
      hide Next;
      assert actions + more == (actions + [more[0]]) + more[1..];
      assert (actions + [more[0]])[..|actions|] == actions;
      ReachedTaken(actions + [more[0]], more[1..]);
    }
  }

  // ---- one call on its own ----

  function Writes(id: int, n: nat): seq<Action> {
    seq(n, i => WriteNext(id))
  }

  /** A call with n statements, run while no other transaction writes. */
  function Solo(id: int, n: nat): seq<Action> {
    [Read(id)] + Writes(id, n) + [Commit(id)]
  }

  /** The world w with its call under way: k statements written on w.db. */
  function Midway(w: World, id: int, req: Request, began: nat, k: nat, work: State): World {
    w.(txns := w.txns[id := Txn(req, began, Some(Snapshot(w.db, |w.committed|)), k, work)],
       lock := if k == 0 then w.lock else Some(id))
  }

  function Stmts(w: World, req: Request): seq<Write>
    requires Decide(w.db, req).Change?
  {
    Statements(req, Decide(w.db, req))
  }

  lemma OneStatement(w: World, id: int, req: Request, began: nat, k: nat, work: State, after: State)
    requires w.lock.None? && Decide(w.db, req).Change? && k < |Stmts(w, req)|
    requires Exec(Stmts(w, req)[k], work) == Some(after)
    ensures Next(Midway(w, id, req, began, k, work), WriteNext(id)) == Midway(w, id, req, began, k + 1, after)
  {
    hide Decide, Exec;
  }

  /** The reply a call adds, and an otherwise idle world. */
  ghost predicate Replied(w: World, w': World, id: int, req: Request, result: Result<Registry.Reply>) {
    && |w'.answers| == |w.answers| + 1 && w'.answers[..|w.answers|] == w.answers
    && w'.answers[|w.answers|].req == req && w'.answers[|w.answers|].result == result
    && w'.lock.None? && w'.txns == w.txns - {id}
  }

  lemma LastStep(w: World, id: int, req: Request, began: nat, done: State)
    requires Decide(w.db, req).Change? && Stmts(w, req) != []
    ensures var w' := Next(Midway(w, id, req, began, |Stmts(w, req)|, done), Commit(id));
            w'.db == done && Replied(w, w', id, req, Ok(Decide(w.db, req).reply))
  {
    hide Decide, Exec;
    var before := Midway(w, id, req, began, |Stmts(w, req)|, done);
    var w' := Next(before, Commit(id));
    assert w'.txns == before.txns - {id};
    assert w'.answers[..|w.answers|] == w.answers;
  }

  /** A statement that a constraint rejects ends the call. */
  lemma RejectedStep(w: World, id: int, req: Request, began: nat, k: nat, work: State)
    requires w.lock.None? && Decide(w.db, req).Change? && k < |Stmts(w, req)|
    requires Exec(Stmts(w, req)[k], work).None?
    ensures var w' := Next(Midway(w, id, req, began, k, work), WriteNext(id));
            w'.db == w.db && Replied(w, w', id, req, Err(Constraint))
  {
    hide Decide, Exec;
    var before := Midway(w, id, req, began, k, work);
    var w' := Next(before, WriteNext(id));
    assert w'.txns == before.txns - {id};
    assert w'.answers[..|w.answers|] == w.answers;
  }

  /** A call that decides to change nothing ends with its early exit. */
  lemma FinishStep(w: World, id: int, req: Request, began: nat)
    requires w.lock.None? && !Decide(w.db, req).Change?
    ensures var w' := Next(Midway(w, id, req, began, 0, w.db), Finish(id));
            w'.db == w.db && Replied(w, w', id, req, Step(w.db, req).result)
  {
    hide Exec;
    var before := Midway(w, id, req, began, 0, w.db);
    var w' := Next(before, Finish(id));
    assert w'.txns == before.txns - {id};
    assert w'.answers[..|w.answers|] == w.answers;
    hide Decide;
  }

  lemma {:induction false} PrefixRuns(ws: seq<Write>, s: State, k: nat, j: nat)
    requires k < j <= |ws| && ExecAll(ws[..j], s).Some?
    ensures ExecAll(ws[..k], s).Some?
    ensures ExecAll(ws[..k + 1], s) == Exec(ws[k], ExecAll(ws[..k], s).value)
    ensures ExecAll(ws[..k + 1], s).Some?
    decreases j - k
  {
    assert ws[..k + 1][..k] == ws[..k];
    hide Exec;
    if k + 1 < j {
      PrefixRuns(ws, s, k + 1, j);
    }
  }

  lemma {:induction false} FirstRejection(ws: seq<Write>, s: State) returns (k: nat)
    requires ExecAll(ws, s).None?
    ensures k < |ws| && ExecAll(ws[..k], s).Some? && Exec(ws[k], ExecAll(ws[..k], s).value).None?
  {
    hide Exec;
    var n := |ws| - 1;
    if ExecAll(ws[..n], s).Some? {
      k := n;
    } else {
      k := FirstRejection(ws[..n], s);
      assert ws[..n][..k] == ws[..k];
    }
  }

  /** Statements k to j - 1 of a call, one after the other. */
  lemma {:induction false} WritesRun(w: World, id: int, req: Request, began: nat, k: nat, j: nat)
    requires w.lock.None? && Decide(w.db, req).Change?
    requires k <= j <= |Stmts(w, req)| && ExecAll(Stmts(w, req)[..j], w.db).Some?
    requires ExecAll(Stmts(w, req)[..k], w.db).Some?
    ensures Taken(Midway(w, id, req, began, k, ExecAll(Stmts(w, req)[..k], w.db).value), Writes(id, j - k)) ==
            Midway(w, id, req, began, j, ExecAll(Stmts(w, req)[..j], w.db).value)
    decreases j - k
  {
    hide Decide, Exec, ExecAll, Next, Midway;
    var ws := Stmts(w, req);
    if k < j {
      PrefixRuns(ws, w.db, k, j);
      OneStatement(w, id, req, began, k, ExecAll(ws[..k], w.db).value, ExecAll(ws[..k + 1], w.db).value);
      assert Writes(id, j - k)[1..] == Writes(id, j - k - 1);
      WritesRun(w, id, req, began, k + 1, j);
    }
  }

  /** From the beginning of a call to the point where j of its statements have run. */
  lemma RunsTo(w: World, id: int, req: Request, began: nat, j: nat)
    requires id in w.txns && w.txns[id] == Txn(req, began, None, 0, EMPTY) && w.lock.None?
    requires Decide(w.db, req).Change? && j <= |Stmts(w, req)| && ExecAll(Stmts(w, req)[..j], w.db).Some?
    ensures Taken(w, [Read(id)] + Writes(id, j)) ==
            Midway(w, id, req, began, j, ExecAll(Stmts(w, req)[..j], w.db).value)
  {
    var ws := Stmts(w, req);
    assert Next(w, Read(id)) == Midway(w, id, req, began, 0, w.db);
    assert ws[..0] == [] && ExecAll(ws[..0], w.db) == Some(w.db);
    hide Decide, ExecAll, Next, Midway, Exec;
    WritesRun(w, id, req, began, 0, j);
    TakenOne(w, Read(id));
    TakenAppend(w, [Read(id)], Writes(id, j));
  }

  /** A call that changes something, run through while no other transaction writes, commits
      what it would do alone. */
  lemma SoloCommits(w: World, id: int, req: Request, began: nat)
    requires id in w.txns && w.txns[id] == Txn(req, began, None, 0, EMPTY) && w.lock.None?
    requires Decide(w.db, req).Change? && Step(w.db, req).result.Ok?
    ensures var w' := Taken(w, Solo(id, |Stmts(w, req)|));
            w'.db == Step(w.db, req).st && Replied(w, w', id, req, Step(w.db, req).result)
  {
    var ws := Stmts(w, req);
    NotEmpty(w, req);
    assert ws[..|ws|] == ws;
    var done := ExecAll(ws, w.db).value;
    assert Step(w.db, req) == Outcome(done, Ok(Decide(w.db, req).reply));
    hide Decide, ExecAll, Step, Next, Midway, Exec;
    RunsTo(w, id, req, began, |ws|);
    TakenAppend(w, [Read(id)] + Writes(id, |ws|), [Commit(id)]);
    LastStep(w, id, req, began, done);
    TakenOne(Midway(w, id, req, began, |ws|, done), Commit(id));
  }

  /** A call that a constraint rejects, likewise. */
  lemma SoloRejected(w: World, id: int, req: Request, began: nat) returns (k: nat)
    requires id in w.txns && w.txns[id] == Txn(req, began, None, 0, EMPTY) && w.lock.None?
    requires Decide(w.db, req).Change? && Step(w.db, req).result.Err?
    ensures var w' := Taken(w, [Read(id)] + Writes(id, k) + [WriteNext(id)]);
            w'.db == Step(w.db, req).st && Replied(w, w', id, req, Step(w.db, req).result)
  {
    var ws := Stmts(w, req);
    assert ExecAll(ws, w.db).None? && Step(w.db, req) == Outcome(w.db, Err(Constraint));
    hide Decide, ExecAll, Step, Next, Midway, Exec;
    k := FirstRejection(ws, w.db);
    var work := ExecAll(ws[..k], w.db).value;
    RunsTo(w, id, req, began, k);
    TakenAppend(w, [Read(id)] + Writes(id, k), [WriteNext(id)]);
    RejectedStep(w, id, req, began, k, work);
    TakenOne(Midway(w, id, req, began, k, work), WriteNext(id));
  }

  /** A call that decides to change nothing, likewise. */
  lemma SoloFinishes(w: World, id: int, req: Request, began: nat)
    requires id in w.txns && w.txns[id] == Txn(req, began, None, 0, EMPTY) && w.lock.None?
    requires !Decide(w.db, req).Change?
    ensures var w' := Taken(w, [Read(id), Finish(id)]);
            w'.db == Step(w.db, req).st && Replied(w, w', id, req, Step(w.db, req).result)
  {
    assert Next(w, Read(id)) == Midway(w, id, req, began, 0, w.db);
    assert Step(w.db, req).st == w.db;
    hide Decide, Step, Next, Midway;
    FinishStep(w, id, req, began);
    TakenAppend(w, [Read(id)], [Finish(id)]);
    assert [Read(id)] + [Finish(id)] == [Read(id), Finish(id)];
    TakenOne(w, Read(id));
    TakenOne(Next(w, Read(id)), Finish(id));
  }

  lemma NotEmpty(w: World, req: Request)
    requires Decide(w.db, req).Change?
    ensures Stmts(w, req) != []
  {
  }

  /** A call that fails, wherever it stands, leaves no trace and gives its lock back. */
  lemma FailureLeavesNothing(w: World, id: int)
    requires Serial(w) && id in w.txns
    ensures var w' := Next(w, Abort(id));
            && w'.db == w.db && w'.committed == w.committed && w'.answers == w.answers
            && w'.txns == w.txns - {id}
            && w'.lock == (if w.txns[id].written > 0 then None else w.lock)
  {
    assert TxnTrue(w, id, w.txns[id]) && LockTrue(w);
    hide Run, Step, Decide, Exec;
  }

  // ---- whole runs ----

  /** A world in which nothing is under way. */
  predicate Idle(w: World) {
    w.txns == map[] && w.lock.None?
  }

  /** Every Begin of the actions satisfies a gate on the committed database of its moment. */
  ghost predicate EachBegin(actions: seq<Action>, gate: (State, Request) -> bool) {
    forall k | 0 <= k < |actions| && actions[k].Begin? :: gate(Reached(actions[..k]).db, actions[k].req)
  }

  lemma EachBeginThen(actions: seq<Action>, a: Action, gate: (State, Request) -> bool)
    requires EachBegin(actions, gate) && (a.Begin? ==> gate(Reached(actions).db, a.req))
    ensures EachBegin(actions + [a], gate)
  {
    hide Reached;
    assert forall k | 0 <= k <= |actions| :: (actions + [a])[..k] == actions[..k];
    assert actions[..|actions|] == actions;
  }

  lemma {:induction false} EachBeginSolo(actions: seq<Action>, more: seq<Action>, gate: (State, Request) -> bool)
    requires EachBegin(actions, gate) && forall a | a in more :: !a.Begin?
    ensures EachBegin(actions + more, gate)
  {
    if more == [] {
      assert actions + more == actions;
    } else {
      var n := |more| - 1;
      hide EachBegin;
      EachBeginSolo(actions, more[..n], gate);
      assert more[n] in more;
      EachBeginThen(actions + more[..n], more[n], gate);
      assert actions + more[..n] + [more[n]] == actions + more;
    }
  }

  /** The replies of a run, in order. */
  ghost predicate Answers(reqs: seq<Request>, answers: seq<Answer>) {
    && |answers| == |reqs|
    && forall i | 0 <= i < |reqs| ::
         answers[i].req == reqs[i] && answers[i].result == Step(Run(reqs[..i]), reqs[i]).result
  }

  lemma AnswersSnoc(reqs: seq<Request>, req: Request, answers: seq<Answer>, more: seq<Answer>)
    requires Answers(reqs, answers) && |more| == |answers| + 1 && more[..|answers|] == answers
    requires more[|answers|].req == req && more[|answers|].result == Step(Run(reqs), req).result
    ensures Answers(reqs + [req], more)
  {
    hide Run, Step;
    var all := reqs + [req];
    assert forall i | 0 <= i <= |reqs| :: all[..i] == reqs[..i];
    assert reqs[..|reqs|] == reqs;
    assert forall i | 0 <= i < |reqs| :: more[i] == answers[i];
  }

  /** Every serial run is reached by an interleaving: each call begins on the database the run
      makes it on, and is given the reply the run gives it, no-ops and refusals included. */
  lemma {:induction false} SerialRunIsReached(reqs: seq<Request>, gate: (State, Request) -> bool)
      returns (actions: seq<Action>)
    requires forall i | 0 <= i < |reqs| :: gate(Run(reqs[..i]), reqs[i])
    ensures Reached(actions).db == Run(reqs) && Idle(Reached(actions))
    ensures Answers(reqs, Reached(actions).answers)
    ensures EachBegin(actions, gate)
  {
    actions := [];
    if reqs != [] {
      var before, req := reqs[..|reqs| - 1], reqs[|reqs| - 1];
      assert reqs == before + [req];
      assert forall i | 0 <= i < |before| :: before[..i] == reqs[..i];
      actions := SerialRunIsReached(before, gate);
      hide Decide, Step, Reached, EachBegin, Answers;
      var answers := Reached(actions).answers;
      actions := OneMoreCall(actions, req, gate);
      AnswersSnoc(before, req, answers, Reached(actions).answers);
    }
  }

  /** Any call that has begun, run to its reply while no other transaction writes. */
  lemma RunsAlone(w: World, id: int, req: Request, began: nat) returns (solo: seq<Action>)
    requires id in w.txns && w.txns[id] == Txn(req, began, None, 0, EMPTY) && w.lock.None?
    ensures var w' := Taken(w, solo);
            w'.db == Step(w.db, req).st && Replied(w, w', id, req, Step(w.db, req).result)
    ensures forall a | a in solo :: !a.Begin?
  {
    hide Decide, Step, Taken, ExecAll, Replied;
    if !Decide(w.db, req).Change? {
      solo := [Read(id), Finish(id)];
      SoloFinishes(w, id, req, began);
    } else if Step(w.db, req).result.Ok? {
      solo := Solo(id, |Stmts(w, req)|);
      SoloCommits(w, id, req, began);
    } else {
      var k := SoloRejected(w, id, req, began);
      solo := [Read(id)] + Writes(id, k) + [WriteNext(id)];
    }
  }

  lemma OneMoreCall(actions: seq<Action>, req: Request, gate: (State, Request) -> bool) returns (more: seq<Action>)
    requires Idle(Reached(actions)) && EachBegin(actions, gate) && gate(Reached(actions).db, req)
    ensures Idle(Reached(more)) && Reached(more).db == Step(Reached(actions).db, req).st
    ensures Replied(Reached(actions), Reached(more), 0, req, Step(Reached(actions).db, req).result)
    ensures EachBegin(more, gate)
  {
    var w := Reached(actions);
    var began := actions + [Begin(0, req)];
    var w1 := Next(w, Begin(0, req));
    assert w1 == w.(txns := map[0 := Txn(req, |w.committed|, None, 0, EMPTY)]);
    assert w1.txns - {0} == map[];
    hide Decide, Step, Next, EachBegin;
    var solo := RunsAlone(w1, 0, req, |w.committed|);
    more := began + solo;
    ReachedTaken(actions, [Begin(0, req)]);
    TakenOne(w, Begin(0, req));
    ReachedTaken(began, solo);
    hide Reached, Taken;
    EachBeginThen(actions, Begin(0, req), gate);
    EachBeginSolo(began, solo, gate);
  }
}
