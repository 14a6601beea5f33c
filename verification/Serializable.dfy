/** Core transactions interleaved statement by statement on SQLite in WAL mode with deferred
    transactions. The rule assumed of SQLite: a transaction reads from the snapshot its first
    statement pins; its first write needs the single writer lock and a snapshot that no
    commit has overtaken, and fails otherwise; commit is atomic and releases the lock. */
module Serializable {
  import opened Text
  import opened Schema
  import opened Registry
  import opened Invariants
  import opened LogTruth

  /** The committed database a transaction reads, and how many commits preceded it. */
  datatype Snapshot = Snapshot(state: State, version: nat)

  /** A call in progress: the number of commits when it began, its snapshot once pinned, the
      statements it has written so far, and the uncommitted tables they led to. */
  datatype Txn = Txn(req: Request, began: nat, snap: Option<Snapshot>, written: nat, work: State)

  /** A reply given to a caller: the commits when the call began, those it takes effect after,
      and whether it was a commit itself. */
  datatype Answer = Answer(req: Request, began: nat, result: Result<Reply>, version: nat, wrote: bool)

  datatype World = World(
    db: State, lock: Option<int>, txns: map<int, Txn>,
    committed: seq<Request>, answers: seq<Answer>)

  const START := World(EMPTY, None, map[], [], [])

  datatype Action =
    | Begin(id: int, req: Request)
    | Read(id: int)
    | WriteNext(id: int)
    | Commit(id: int)
    | Finish(id: int)   // an early exit: roll back and reply
    | Abort(id: int)    // any failure of a store call, a busy database included

  function Pinned(w: World, x: Txn): Txn {
    if x.snap.Some? then x else x.(snap := Some(Snapshot(w.db, |w.committed|)), work := w.db)
  }

  /** The statements of a transaction, as decided from its snapshot. */
  function Plan(x: Txn): seq<Write>
    requires x.snap.Some? && Decide(x.snap.value.state, x.req).Change?
  {
    Statements(x.req, Decide(x.snap.value.state, x.req))
  }

  function Close(w: World, id: int): World {
    w.(txns := w.txns - {id}, lock := if w.lock == Some(id) then None else w.lock)
  }

  function Reply(w: World, x: Txn, result: Result<Registry.Reply>, wrote: bool): World
    requires x.snap.Some?
  {
    w.(answers := w.answers + [Answer(x.req, x.began, result, x.snap.value.version, wrote)])
  }

  predicate MayWrite(w: World, id: int, x: Txn)
    requires x.snap.Some?
  {
    && Decide(x.snap.value.state, x.req).Change?
    && x.written < |Plan(x)|
    && if x.written == 0 then w.lock.None? && x.snap.value.version == |w.committed| else w.lock == Some(id)
  }

  function WriteStep(w: World, id: int, x: Txn): World
    requires x.snap.Some? && MayWrite(w, id, x)
  {
    match Exec(Plan(x)[x.written], x.work)
    case None => Reply(Close(w, id), x, Err(Constraint), false)
    case Some(work) => w.(txns := w.txns[id := x.(written := x.written + 1, work := work)], lock := Some(id))
  }

  /** One step of one transaction; a step that is not enabled leaves the world as it is. */
  function Next(w: World, a: Action): World {
    if a.Begin? then
      if a.id in w.txns then w else w.(txns := w.txns[a.id := Txn(a.req, |w.committed|, None, 0, EMPTY)])
    else if a.id !in w.txns then w
    else
      var x := w.txns[a.id];
      match a
      case Begin(_, _) => w
      case Read(id) => w.(txns := w.txns[id := Pinned(w, x)])
      case WriteNext(id) =>
        var y := Pinned(w, x);
        if MayWrite(w, id, y) then WriteStep(w, id, y) else w
      case Commit(id) =>
        if w.lock == Some(id) && x.snap.Some? && Decide(x.snap.value.state, x.req).Change? && x.written == |Plan(x)|
        then Reply(Close(w, id), x, Ok(Decide(x.snap.value.state, x.req).reply), true)
               .(db := x.work, committed := w.committed + [x.req])
        else w
      case Finish(id) =>
        if x.snap.None? then w
        else
          match Decide(x.snap.value.state, x.req) {
            case Reject(e) => Reply(Close(w, id), x, Err(e), false)
            case Keep(reply) => Reply(Close(w, id), x, Ok(reply), false)
            case Change(_, _, _) => w
          }
      case Abort(id) => Close(w, id)
  }

  function Reached(actions: seq<Action>): World {
    if actions == [] then START else Next(Reached(actions[..|actions| - 1]), actions[|actions| - 1])
  }

  // ---- the invariant ----

  /** A pinned snapshot is the state some prefix of the commits led to. */
  ghost predicate SnapshotTrue(committed: seq<Request>, snap: Snapshot) {
    snap.version <= |committed| && snap.state == Run(committed[..snap.version])
  }

  /** The uncommitted tables are what the statements written so far make of the snapshot. */
  ghost predicate WorkTrue(x: Txn) {
    x.snap.Some? && Decide(x.snap.value.state, x.req).Change? && x.written <= |Plan(x)| &&
    ExecAll(Plan(x)[..x.written], x.snap.value.state) == Some(x.work)
  }

  ghost predicate TxnTrue(w: World, id: int, x: Txn) {
    && (x.snap.Some? ==> SnapshotTrue(w.committed, x.snap.value))
    && (x.written == 0 && x.snap.Some? ==> x.work == x.snap.value.state)
    && (x.written > 0 ==> w.lock == Some(id) && WorkTrue(x))
  }

  /** Only an unovertaken transaction holds the lock. */
  ghost predicate LockTrue(w: World) {
    w.lock.Some? ==>
      w.lock.value in w.txns && w.txns[w.lock.value].written > 0 &&
      w.txns[w.lock.value].snap.Some? && w.txns[w.lock.value].snap.value.version == |w.committed|
  }

  /** A reply is what the call, run alone after the first version commits, would give; and it
      is a commit, then the next one, exactly if the call succeeds in changing something. */
  ghost predicate AnswerTrue(committed: seq<Request>, a: Answer) {
    && a.version <= |committed|
    && Step(Run(committed[..a.version]), a.req).result == a.result
    && (a.wrote <==> a.result.Ok? && Decide(Run(committed[..a.version]), a.req).Change?)
    && (a.wrote ==> a.version < |committed| && committed[a.version] == a.req)
  }

  ghost predicate Serial(w: World) {
    && w.db == Run(w.committed)
    && LockTrue(w)
    && (forall id | id in w.txns :: TxnTrue(w, id, w.txns[id]))
    && (forall k | 0 <= k < |w.answers| :: AnswerTrue(w.committed, w.answers[k]))
  }

  lemma CommitsOnlyGrow(committed: seq<Request>, req: Request)
    ensures forall v: nat | v <= |committed| :: (committed + [req])[..v] == committed[..v]
  {
  }

  lemma PinTrue(w: World, id: int)
    requires Serial(w) && id in w.txns
    ensures TxnTrue(w, id, Pinned(w, w.txns[id])) && Pinned(w, w.txns[id]).snap.Some?
  {
    assert w.committed[..|w.committed|] == w.committed;
  }

  lemma CloseSerial(w: World, id: int)
    requires Serial(w)
    ensures Serial(Close(w, id))
  {
    hide AnswerTrue, SnapshotTrue, WorkTrue;
  }

  lemma ReplySerial(w: World, x: Txn, result: Result<Registry.Reply>)
    requires Serial(w) && x.snap.Some?
    requires AnswerTrue(w.committed, Answer(x.req, x.began, result, x.snap.value.version, false))
    ensures Serial(Reply(w, x, result, false))
  {
    hide AnswerTrue, SnapshotTrue, WorkTrue, Run;
  }

  lemma StatementTrue(x: Txn)
    requires x.snap.Some? && Decide(x.snap.value.state, x.req).Change? && x.written < |Plan(x)|
    requires if x.written == 0 then x.work == x.snap.value.state else WorkTrue(x)
    ensures ExecAll(Plan(x)[..x.written + 1], x.snap.value.state) == Exec(Plan(x)[x.written], x.work)
  {
    var ws := Plan(x);
    assert ws[..x.written + 1][..x.written] == ws[..x.written];
    assert ws[..0] == [];
    hide Decide, Exec, Plan;
  }

  /** A statement that is rejected early is rejected by the whole call. */
  lemma {:induction false} RejectionStands(ws: seq<Write>, s: State, k: nat)
    requires k <= |ws| && ExecAll(ws[..k], s).None?
    ensures ExecAll(ws, s).None?
  {
    if k == |ws| {
      assert ws[..k] == ws;
    } else {
      assert ws[..|ws| - 1][..k] == ws[..k];
      RejectionStands(ws[..|ws| - 1], s, k);
    }
  }

  lemma WriteSerial(w: World, id: int)
    requires Serial(w) && id in w.txns && MayWrite(w, id, Pinned(w, w.txns[id]))
    ensures Serial(WriteStep(w, id, Pinned(w, w.txns[id])))
  {
    hide Decide, Exec, ExecAll, Run;
    PinTrue(w, id);
    var x := Pinned(w, w.txns[id]);
    StatementTrue(x);
    var s := x.snap.value.state;
    if Exec(Plan(x)[x.written], x.work).None? {
      RejectionStands(Plan(x), s, x.written + 1);
      assert Step(s, x.req).result == Err(Constraint);
      CloseSerial(w, id);
      hide Serial, Step;
      ReplySerial(Close(w, id), x, Err(Constraint));
    } else {
      hide Step, Plan;
      var w' := WriteStep(w, id, x);
      assert TxnTrue(w', id, w'.txns[id]);
      assert forall other | other in w.txns && other != id :: w.txns[other].written == 0;
    }
  }

  lemma CommitSerial(w: World, id: int)
    requires Serial(w) && id in w.txns && w.lock == Some(id)
    requires WorkTrue(w.txns[id]) && w.txns[id].written == |Plan(w.txns[id])|
    ensures Serial(Next(w, Commit(id)))
  {
    var x := w.txns[id];
    assert TxnTrue(w, id, x);
    var d := Decide(w.db, x.req);
    assert w.committed[..|w.committed|] == w.committed;
    assert Plan(x)[..|Plan(x)|] == Plan(x);
    assert Step(w.db, x.req) == Outcome(x.work, Ok(d.reply));
    RunSnoc(w.committed, x.req);
    CommitsOnlyGrow(w.committed, x.req);
    var w' := Next(w, Commit(id));
    hide Decide, Exec, ExecAll, Run, Step, Plan;
    assert AnswerTrue(w'.committed, Answer(x.req, x.began, Ok(d.reply), |w.committed|, true));
    forall k | 0 <= k < |w'.answers|
      ensures AnswerTrue(w'.committed, w'.answers[k])
    {
      assert k < |w.answers| ==> AnswerTrue(w.committed, w.answers[k]);
    }
  }

  lemma FinishSerial(w: World, id: int)
    requires Serial(w) && id in w.txns
    ensures Serial(Next(w, Finish(id)))
  {
    var x := w.txns[id];
    assert TxnTrue(w, id, x);
    if x.snap.Some? && !Decide(x.snap.value.state, x.req).Change? {
      CloseSerial(w, id);
      var result := Step(x.snap.value.state, x.req).result;
      assert AnswerTrue(w.committed, Answer(x.req, x.began, result, x.snap.value.version, false));
      ReplySerial(Close(w, id), x, result);
      hide Serial, Run, Decide;
    }
  }

  lemma NextSerial(w: World, a: Action)
    requires Serial(w)
    ensures Serial(Next(w, a))
  {
    match a
    case Begin(id, req) => hide Decide, Run, Step, ExecAll;
    case Read(id) =>
      if id in w.txns {
        PinTrue(w, id);
        hide Decide, Run, Step, ExecAll, SnapshotTrue;
      }
    case WriteNext(id) =>
      hide Serial, Decide, WriteStep;
      if id in w.txns && MayWrite(w, id, Pinned(w, w.txns[id])) {
        WriteSerial(w, id);
      }
    case Commit(id) =>
      if id in w.txns && w.lock == Some(id) {
        assert TxnTrue(w, id, w.txns[id]);
        hide Decide, Run, Step, ExecAll, Plan, Serial;
        if w.txns[id].written == |Plan(w.txns[id])| {
          CommitSerial(w, id);
        }
      }
    case Finish(id) =>
      hide Serial, Decide;
      if id in w.txns {
        FinishSerial(w, id);
      }
    case Abort(id) =>
      CloseSerial(w, id);
      hide Serial;
  }

  /** Every interleaving of the core transactions is serial: the committed database is the
      one that running the committed calls alone, in commit order, leaves; and every reply
      given, refusals and no-ops included, is the reply of that serial run at its place. */
  lemma {:induction false} InterleavingIsSerial(actions: seq<Action>)
    ensures Serial(Reached(actions))
  {
    if actions != [] {
      InterleavingIsSerial(actions[..|actions| - 1]);
      hide Serial, Next;
      NextSerial(Reached(actions[..|actions| - 1]), actions[|actions| - 1]);
    } else {
      assert START.committed[..0] == [];
    }
  }

  /** So what holds of every serial run holds of every database concurrent callers commit:
      the constraints, one invitation per folded UPN, and a log that rebuilds the tables. */
  lemma ConcurrentLogTruth(actions: seq<Action>)
    ensures Sound(Reached(actions).db) && Truthful(Reached(actions).db)
  {
    InterleavingIsSerial(actions);
    RunSound(Reached(actions).committed);
    LogRebuildsTables(Reached(actions).committed);
  }

  // ---- commits and replies, and real time ----

  /** The replies that are commits, in the order they were given. */
  function Commits(answers: seq<Answer>): seq<Answer> {
    if answers == [] then []
    else Commits(answers[..|answers| - 1]) + if answers[|answers| - 1].wrote then [answers[|answers| - 1]] else []
  }

  lemma CommitsSnoc(answers: seq<Answer>, a: Answer)
    ensures Commits(answers + [a]) == Commits(answers) + if a.wrote then [a] else []
  {
    assert (answers + [a])[..|answers|] == answers;
  }

  /** One reply per commit, in commit order; and no call takes effect before it began. */
  ghost predicate Timely(w: World) {
    && |Commits(w.answers)| == |w.committed|
    && (forall v | 0 <= v < |w.committed| :: Commits(w.answers)[v].version == v)
    && (forall id | id in w.txns :: TxnTimely(w, w.txns[id]))
    && (forall k | 0 <= k < |w.answers| :: w.answers[k].began <= w.answers[k].version)
  }

  ghost predicate TxnTimely(w: World, x: Txn) {
    x.began <= |w.committed| && (x.snap.Some? ==> x.began <= x.snap.value.version)
  }

  lemma ReplyTimely(w: World, id: int, x: Txn, result: Result<Registry.Reply>)
    requires Timely(w) && x.snap.Some? && x.began <= x.snap.value.version
    ensures Timely(Reply(Close(w, id), x, result, false))
  {
    CommitsSnoc(w.answers, Answer(x.req, x.began, result, x.snap.value.version, false));
    hide Commits;
  }

  lemma CommitTimely(w: World, id: int)
    requires Serial(w) && Timely(w) && id in w.txns
    ensures Timely(Next(w, Commit(id)))
  {
    var x := w.txns[id];
    assert LockTrue(w) && TxnTimely(w, x);
    hide Decide, Run, Plan, Commits, AnswerTrue, TxnTrue;
    if x.snap.Some? && Decide(x.snap.value.state, x.req).Change? {
      var reply := Ok(Decide(x.snap.value.state, x.req).reply);
      CommitsSnoc(w.answers, Answer(x.req, x.began, reply, x.snap.value.version, true));
    }
  }

  lemma NextTimely(w: World, a: Action)
    requires Serial(w) && Timely(w)
    ensures Timely(Next(w, a))
  {
    if a.id in w.txns {
      var x, y := w.txns[a.id], Pinned(w, w.txns[a.id]);
      assert TxnTimely(w, x);
      hide Decide, Run, Exec, Plan, Commits, Serial;
      match a
      case Begin(_, _) =>
      case Read(_) =>
      case WriteNext(id) =>
        if MayWrite(w, id, y) && Exec(Plan(y)[y.written], y.work).None? {
          ReplyTimely(w, id, y, Err(Constraint));
        }
      case Commit(id) =>
        CommitTimely(w, id);
        hide Timely, Next;
      case Finish(id) =>
        if x.snap.Some? && !Decide(x.snap.value.state, x.req).Change? {
          ReplyTimely(w, id, x, Step(x.snap.value.state, x.req).result);
        }
      case Abort(_) =>
    }
  }

  /** In every interleaving the replies that report a change and the commits correspond one to
      one and in order, and each call takes effect at a commit no earlier than its start. */
  lemma {:induction false} RepliesAreTimely(actions: seq<Action>)
    ensures Timely(Reached(actions))
  {
    if actions != [] {
      var before := actions[..|actions| - 1];
      RepliesAreTimely(before);
      InterleavingIsSerial(before);
      hide Serial, Timely, Next;
      NextTimely(Reached(before), actions[|actions| - 1]);
    }
  }

  lemma NextExtends(w: World, a: Action)
    ensures w.committed <= Next(w, a).committed && w.answers <= Next(w, a).answers
  {
    hide Decide, Exec, Plan;
  }

  lemma {:induction false} ReachedExtends(actions: seq<Action>, k: nat)
    requires k <= |actions|
    ensures Reached(actions[..k]).committed <= Reached(actions).committed
    ensures Reached(actions[..k]).answers <= Reached(actions).answers
    decreases |actions|
  {
    if k == |actions| {
      assert actions[..k] == actions;
    } else {
      hide Next;
      var n := |actions| - 1;
      assert actions[..n][..k] == actions[..k];
      ReachedExtends(actions[..n], k);
      NextExtends(Reached(actions[..n]), actions[n]);
    }
  }

  /** The serial order respects real time: a call that began when another had already been
      answered comes after it, and after its commit if it was one. */
  lemma RealTimeOrder(actions: seq<Action>, k: nat, i: nat, j: nat)
    requires k <= |actions| && i < |Reached(actions[..k]).answers| && j < |Reached(actions).answers|
    requires Reached(actions).answers[j].began >= |Reached(actions[..k]).committed|
    ensures var a, b := Reached(actions[..k]).answers[i], Reached(actions).answers[j];
            a.version + (if a.wrote then 1 else 0) <= b.version
  {
    ReachedExtends(actions, k);
    RepliesAreTimely(actions);
    InterleavingIsSerial(actions[..k]);
    hide Reached, Step, Decide;
    assert AnswerTrue(Reached(actions[..k]).committed, Reached(actions[..k]).answers[i]);
  }
}
