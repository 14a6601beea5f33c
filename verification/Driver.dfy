/** The database handle and its transactions, with a script of store failures. */
module Driver {
  import opened Text
  import opened Schema

  datatype Phase = Active | Committed | RolledBack

  /** A database: its committed tables, the number of transactions left open on it, and for
      each coming call into the driver whether it fails; past the script none does. What the
      last transaction has issued is kept for the contracts. */
  class Database {
    var state: State
    var openTxs: nat
    var faults: seq<bool>
    ghost var issued: seq<Write>

    constructor (state: State, faults: seq<bool>)
      ensures this.state == state && openTxs == 0 && this.faults == faults
    {
      this.state, this.openTxs, this.faults, this.issued := state, 0, faults, [];
    }

    /** No store failure is to come. */
    ghost predicate Quiet()
      reads this`faults
    {
      forall k | 0 <= k < |faults| :: !faults[k]
    }

    method Trip() returns (failed: bool)
      modifies this`faults
      ensures failed == (old(faults) != [] && old(faults)[0])
      ensures faults == if old(faults) == [] then [] else old(faults)[1..]
      ensures old(Quiet()) ==> Quiet() && !failed
    {
      failed := faults != [] && faults[0];
      if faults != [] {
        faults := faults[1..];
      }
    }

    /** store.BoundTenantID, a read outside any transaction. */
    method BoundTenantID() returns (r: Result<string>)
      modifies this`faults
      ensures r == Ok(state.t.tenant) || r == Err(StoreFault)
      ensures old(Quiet()) ==> Quiet() && r.Ok?
    {
      var failed := Trip();
      r := if failed then Err(StoreFault) else Ok(state.t.tenant);
    }

    /** db.BeginTx: a transaction over the committed tables. */
    method BeginTx() returns (tx: Tx, ok: bool)
      modifies this`faults, this`openTxs, this`issued
      ensures fresh(tx) && tx.db == this && tx.work == state && issued == []
      ensures if ok then tx.phase == Active && openTxs == old(openTxs) + 1
              else tx.phase == RolledBack && openTxs == old(openTxs)
      ensures old(Quiet()) ==> Quiet() && ok
    {
      var failed := Trip();
      issued := [];
      tx := new Tx(this, !failed);
      ok := !failed;
      if ok {
        openTxs := openTxs + 1;
      }
    }
  }

  class Tx {
    const db: Database
    var work: State
    var phase: Phase

    constructor (db: Database, active: bool)
      ensures this.db == db && work == db.state && phase == if active then Active else RolledBack
    {
      this.db, this.work, this.phase := db, db.state, if active then Active else RolledBack;
    }

    /** QueryRowContext and Scan of a read that finds at most the given row. */
    method QueryRow<T>(row: Option<T>) returns (r: Result<T>)
      requires phase == Active
      modifies db`faults
      ensures r == Err(StoreFault) || r == (if row.Some? then Ok(row.value) else Err(NoRows))
      ensures old(db.Quiet()) ==> db.Quiet() && r != Err(StoreFault)
    {
      var failed := db.Trip();
      r := if failed then Err(StoreFault) else if row.Some? then Ok(row.value) else Err(NoRows);
    }

    /** ExecContext: the statement takes effect in the transaction, or fails and does not. */
    method Run(w: Write) returns (r: Result<()>)
      requires phase == Active
      modifies this`work, db`faults, db`issued
      ensures r.Ok? ==> Some(work) == Exec(w, old(work)) && db.issued == old(db.issued) + [w]
      ensures r.Err? ==> work == old(work) && db.issued == old(db.issued)
      ensures r == Err(Constraint) ==> Exec(w, old(work)).None?
      ensures r.Err? ==> r.error == StoreFault || r.error == Constraint
      ensures old(db.Quiet()) ==> db.Quiet() && r != Err(StoreFault)
    {
      var failed := db.Trip();
      if failed {
        return Err(StoreFault);
      }
      var after := Exec(w, work);
      if after.None? {
        return Err(Constraint);
      }
      work := after.value;
      db.issued := db.issued + [w];
      r := Ok(());
    }

    /** Commit publishes the tables at once or, failing, publishes nothing; either way the
        transaction is over. */
    method Commit() returns (r: Result<()>)
      requires phase == Active && db.openTxs > 0
      modifies this`phase, db`state, db`openTxs, db`faults
      ensures phase != Active && db.openTxs == old(db.openTxs) - 1
      ensures r == Ok(()) || r == Err(StoreFault)
      ensures db.state == if r.Ok? then work else old(db.state)
      ensures old(db.Quiet()) ==> db.Quiet() && r.Ok?
    {
      var failed := db.Trip();
      db.openTxs := db.openTxs - 1;
      if failed {
        phase := RolledBack;
        return Err(StoreFault);
      }
      phase := Committed;
      db.state := work;
      r := Ok(());
    }

    /** Rollback; on a finished transaction it does nothing (sql.ErrTxDone, ignored). */
    method Rollback()
      requires phase == Active ==> db.openTxs > 0
      modifies this`phase, db`openTxs, db`faults
      ensures phase == if old(phase) == Active then RolledBack else old(phase)
      ensures db.openTxs == old(db.openTxs) - if old(phase) == Active then 1 else 0
      ensures old(db.Quiet()) ==> db.Quiet()
    {
      var failed := db.Trip();
      if phase == Active {
        phase := RolledBack;
        db.openTxs := db.openTxs - 1;
      }
    }
  }
}
