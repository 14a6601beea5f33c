/** What every mutating function of core promises, and the audit writer they share. */
module Core {
  import opened Text
  import opened Schema
  import opened Registry
  import opened Driver

  /** A call refines the registry step: whenever it does not report a store failure, the
      database and the reply are those of the step; a store failure leaves the database as
      it was; and without failures to come there is none to report. */
  ghost predicate Refines(pre: State, post: State, req: Request, r: Result<Reply>, quiet: bool) {
    && (r != Err(StoreFault) ==> Step(pre, req) == Outcome(post, r))
    && (r == Err(StoreFault) ==> post == pre)
    && (quiet ==> r != Err(StoreFault))
  }

  /** The statements the interleavings schedule for a call decided on s. */
  function Plan(s: State, req: Request): seq<Write> {
    if Decide(s, req).Change? then Statements(req, Decide(s, req)) else []
  }

  /** A call issues those statements, in order: some first part of them, and all of them when
      it succeeds. */
  ghost predicate Issues(pre: State, req: Request, issued: seq<Write>, r: Result<Reply>) {
    issued <= Plan(pre, req) && (r.Ok? ==> issued == Plan(pre, req))
  }

  /** On s the call starts with w, which the schema permits. */
  ghost predicate Starts(s: State, req: Request, w: Write) {
    Exec(w, s).Some? && [w] <= Plan(s, req)
  }

  /** On s the call does nothing and gives the reply. */
  ghost predicate Keeps(s: State, req: Request, reply: Reply) {
    Step(s, req) == Outcome(s, Ok(reply)) && Plan(s, req) == []
  }

  /** Statements followed by the entry for event. */
  function Audited(req: Request, ws: seq<Write>, event: Event): seq<Write> {
    ws + [InsertAudit(req.at, req.actor, event)]
  }

  /** Two or three statements lead from s to done. */
  ghost predicate Leads(s: State, ws: seq<Write>, mid: State, done: State) {
    |ws| == 2 && Exec(ws[0], s) == Some(mid) && Exec(ws[1], mid) == Some(done)
  }

  ghost predicate LeadsTwice(s: State, ws: seq<Write>, first: State, mid: State, done: State) {
    |ws| == 3 && Exec(ws[0], s) == Some(first) && Exec(ws[1], first) == Some(mid) && Exec(ws[2], mid) == Some(done)
  }

  /** The call consists of the statements ws, and leaves done. */
  ghost predicate Completes(s: State, req: Request, ws: seq<Write>, done: State, reply: Reply) {
    Step(s, req) == Outcome(done, Ok(reply)) && Plan(s, req) == ws
  }

  /** core.WriteAudit. */
  method WriteAudit(tx: Tx, at: string, actor: Actor, event: Event) returns (r: Result<()>)
    requires tx.phase == Active
    modifies tx`work, tx.db`faults, tx.db`issued
    ensures r.Ok? ==> actor.oid != "" && Some(tx.work) == Exec(InsertAudit(at, actor, event), old(tx.work))
    ensures r.Ok? ==> tx.db.issued == old(tx.db.issued) + [InsertAudit(at, actor, event)]
    ensures r.Err? ==> tx.work == old(tx.work) && tx.db.issued == old(tx.db.issued)
    ensures r == Err(BadEntry) <==> actor.oid == ""
    ensures r.Err? ==> r.error == StoreFault || r.error == BadEntry
    ensures old(tx.db.Quiet()) ==> tx.db.Quiet() && r != Err(StoreFault)
  {
    if event.Action() == "" || event.EntityType() == "" || actor.oid == "" {
      return Err(BadEntry);
    }
    r := tx.Run(InsertAudit(at, actor, event));
  }

  /** ErrNoRows of a guard read becomes ErrNotFound. */
  function Missing(e: Error): Error {
    if e == NoRows then NotFound else e
  }

  /** One statement and its entry, as Step runs them. */
  lemma OneWriteStep(s: State, req: Request, ws: seq<Write>, mid: State, done: State)
    requires Decide(s, req).Change? && Decide(s, req).event.Some? && Plan(s, req) == ws
    requires Leads(s, ws, mid, done)
    ensures Completes(s, req, ws, done, Decide(s, req).reply)
  {
    assert ws == [ws[0], ws[1]];
    ExecAllShort(s, ws[0], ws[1], ws[1]);
  }

  lemma OneWriteRejected(s: State, req: Request, w: Write)
    requires Decide(s, req).Change? && Decide(s, req).writes == [w] && Exec(w, s).None?
    ensures Step(s, req) == Outcome(s, Err(Constraint))
  {
    StepChange(s, req);
    ExecAllShort(s, w, w, w);
  }

  lemma TwoWriteStep(s: State, req: Request, ws: seq<Write>, first: State, mid: State, done: State)
    requires Decide(s, req).Change? && Decide(s, req).event.Some? && Plan(s, req) == ws
    requires LeadsTwice(s, ws, first, mid, done)
    ensures Completes(s, req, ws, done, Decide(s, req).reply)
  {
    assert ws == [ws[0], ws[1], ws[2]];
    ExecAllShort(s, ws[0], ws[1], ws[2]);
  }

  lemma TwoWriteRejected(s: State, req: Request, a: Write, b: Write)
    requires Decide(s, req).Change? && Decide(s, req).writes == [a, b] && Then(b, Exec(a, s)).None?
    ensures Step(s, req) == Outcome(s, Err(Constraint))
  {
    StepChange(s, req);
    ExecAllShort(s, a, b, b);
  }
}
