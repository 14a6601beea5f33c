/** The migration runner of the store, over any number of program starts. */
module Migrations {
  import opened Text
  import opened Decimal
  import opened Tabular

  /** What a statement of a migration does to the schema. An object is anything that cannot be
      created while it exists, nor dropped or used while it does not: a table, an index, a
      column, a keyed row. Ensure and Clear are the creations and drops that check first. One
      SQL statement may be several of these: creating an index needs its table. */
  datatype Statement =
    | CreateConfig
    | InsertConfigRow
    | Create(name: string)
    | Drop(name: string)
    | Need(name: string)
    | Ensure(name: string)
    | Clear(name: string)
    | Other

  datatype File = File(name: string, script: seq<Statement>)
  datatype Migration = Migration(version: nat, script: seq<Statement>)

  /** The config table: not created yet, without its row, or with its schema_version. */
  datatype Config = Absent | Empty | Row(version: nat)

  /** One migration the runner started: whether its Exec succeeded, and whether the config
      row holds its version afterwards. */
  datatype Attempt = Attempt(version: nat, applied: bool, recorded: bool)

  /** The database: the config table, the objects beside it, and the attempts so far. */
  datatype Db = Db(config: Config, objects: set<string>, history: seq<Attempt>)

  const NEW_DB := Db(Absent, {}, [])

  /** None: the n-th call works. Some(k): it fails after its first k statements took effect. */
  type Faults = nat -> Option<nat>

  // ---- file names ----

  /** The version in a name that matches ^(\d{4})_[^.]+\.sql$. */
  function VersionOf(name: string): Option<nat> {
    if |name| > 9 && AllDigits(name[..4]) && name[4] == '_' && name[|name| - 4..] == ".sql"
       && '.' !in name[5..|name| - 4]
    then Some(ValueOf(name[..4])) else None
  }

  /** A file is a migration exactly when its name is a zero-padded number below 10000, an
      underscore, a title without dots, and ".sql". */
  lemma VersionOfExact(name: string, v: nat)
    ensures VersionOf(name) == Some(v) <==>
            v < 10000 && exists title: string ::
              title != "" && '.' !in title && name == ZeroPad(v, 4) + "_" + title + ".sql"
  {
    assert Pow10(4) == 10000 by {
      assert Pow10(1) == 10 * Pow10(0) && Pow10(2) == 10 * Pow10(1);
      assert Pow10(3) == 10 * Pow10(2) && Pow10(4) == 10 * Pow10(3);
    }
    if VersionOf(name) == Some(v) {
      ZeroPadRestores(name[..4]);
      var title := name[5..|name| - 4];
      assert title != "" && '.' !in title && name == ZeroPad(v, 4) + "_" + title + ".sql";
    }
    if title: string :| v < 10000 && title != "" && '.' !in title && name == ZeroPad(v, 4) + "_" + title + ".sql" {
      ZeroPadWidth(v, 4);
      ZeroPadReads(v, 4);
      assert name[..4] == ZeroPad(v, 4);
      assert name[5..|name| - 4] == title;
    }
  }

  function Collected(files: seq<File>): seq<Migration> {
    if files == [] then []
    else
      match VersionOf(files[0].name)
      case None => Collected(files[1..])
      case Some(v) => [Migration(v, files[0].script)] + Collected(files[1..])
  }

  predicate LowerVersion(a: Migration, b: Migration) {
    a.version < b.version
  }

  predicate NotAbove(a: Migration, b: Migration) {
    a.version <= b.version
  }

  const LOWER_VERSION := (a: Migration, b: Migration) => LowerVersion(a, b)
  const NOT_ABOVE := (a: Migration, b: Migration) => NotAbove(a, b)

  /** A result sort.Slice may give: it need not be stable. */
  ghost predicate SortedFrom(migs: seq<Migration>, files: seq<File>) {
    multiset(migs) == multiset(Collected(files)) && Ordered(NOT_ABOVE, migs)
  }

  // ---- the calls on the database ----

  /** What a script leaves, and whether all of it took effect. */
  datatype Ran = Ran(config: Config, objects: set<string>, ok: bool)

  function Execute(c: Config, o: set<string>, script: seq<Statement>): Ran
    decreases |script|
  {
    if script == [] then Ran(c, o, true)
    else
      match script[0]
      case Other => Execute(c, o, script[1..])
      case CreateConfig => if c.Absent? then Execute(Empty, o, script[1..]) else Ran(c, o, false)
      case InsertConfigRow => if c.Empty? then Execute(Row(0), o, script[1..]) else Ran(c, o, false)
      case Create(x) => if x !in o then Execute(c, o + {x}, script[1..]) else Ran(c, o, false)
      case Drop(x) => if x in o then Execute(c, o - {x}, script[1..]) else Ran(c, o, false)
      case Need(x) => if x in o then Execute(c, o, script[1..]) else Ran(c, o, false)
      case Ensure(x) => Execute(c, o + {x}, script[1..])
      case Clear(x) => Execute(c, o - {x}, script[1..])
  }

  /** Exec of a whole file: statements commit one by one. */
  function ExecFile(c: Config, o: set<string>, script: seq<Statement>, fault: Option<nat>): Ran {
    match fault
    case None => Execute(c, o, script)
    case Some(k) => Execute(c, o, if k < |script| then script[..k] else script).(ok := false)
  }

  /** UPDATE config SET schema_version: without the row it succeeds and changes nothing. */
  function Record(c: Config, v: nat, fault: Option<nat>): (Config, bool) {
    if fault.Some? || c.Absent? then (c, false)
    else if c.Row? then (Row(v), true) else (c, true)
  }

  /** currentSchemaVersion, as the calls n and n + 1. */
  function CurrentVersion(c: Config, faults: Faults, n: nat): Option<nat> {
    if faults(n).Some? then None
    else if c.Absent? then Some(0)
    else if faults(n + 1).Some? || c.Empty? then None else Some(c.version)
  }

  // ---- one run ----

  datatype Outcome = Outcome(db: Db, ok: bool)

  /** Apply one migration and record its version; the flag says whether the loop goes on. */
  function Start(db: Db, m: Migration, faults: Faults, n: nat): (Db, bool) {
    var ran := ExecFile(db.config, db.objects, m.script, faults(n));
    if !ran.ok then (Db(ran.config, ran.objects, db.history + [Attempt(m.version, false, false)]), false)
    else
      var (config, stored) := Record(ran.config, m.version, faults(n + 1));
      (Db(config, ran.objects, db.history + [Attempt(m.version, true, stored && config.Row?)]), stored)
  }

  function Apply(db: Db, migs: seq<Migration>, current: nat, faults: Faults, n: nat): Outcome
    decreases |migs|
  {
    if migs == [] then Outcome(db, true)
    else if migs[0].version <= current then Apply(db, migs[1..], current, faults, n)
    else
      var (after, going) := Start(db, migs[0], faults, n);
      if going then Apply(after, migs[1..], current, faults, n + 2) else Outcome(after, false)
  }

  /** ReadDir and every ReadFile succeed. */
  predicate FilesRead(count: nat, faults: Faults) {
    forall k: nat | k <= count :: faults(k).None?
  }

  function RunOnce(db: Db, migs: seq<Migration>, faults: Faults): Outcome {
    if !FilesRead(|migs|, faults) then Outcome(db, false)
    else
      match CurrentVersion(db.config, faults, |migs| + 1)
      case None => Outcome(db, false)
      case Some(current) => Apply(db, migs, current, faults, |migs| + 3)
  }

  class SchemaDb {
    var config: Config
    var objects: set<string>
    var history: seq<Attempt>

    constructor ()
      ensures Value() == NEW_DB
    {
      config, objects, history := Absent, {}, [];
    }

    function Value(): Db
      reads this
    {
      Db(config, objects, history)
    }

    /** Collect the files, sort them, read the version once, then apply and record each one
        above it; the order of equal versions is the sort's choice. */
    method RunMigrations(files: seq<File>, faults: Faults) returns (ok: bool, ghost migs: seq<Migration>)
      modifies this
      ensures SortedFrom(migs, files)
      ensures Outcome(Value(), ok) == RunOnce(old(Value()), migs, faults)
    {
      hide Apply, Collected, Ordered, OrderBy, ExecFile, Record, VersionOf, SortedFrom;
      migs := Sorted(files);
      CollectedSize(files);
      if faults(0).Some? {
        return false, migs;
      }
      var found: seq<Migration> := [];
      for i := 0 to |files|
        invariant found + Collected(files[i..]) == Collected(files)
        invariant FilesRead(|found|, faults) && Value() == old(Value())
      {
        CollectedStep(files, i);
        var v := VersionOf(files[i].name);
        if v.Some? {
          if faults(|found| + 1).Some? {
            var k: nat := |found| + 1;
            assert k <= |migs| && !FilesRead(|migs|, faults);
            return false, migs;
          }
          found := found + [Migration(v.value, files[i].script)];
        }
      }
      CollectedNone(files[|files|..]);
      assert found == Collected(files);
      var sorted := OrderBy(found, LOWER_VERSION);
      assert migs == sorted;
      var n: nat := |sorted| + 1;
      var current := CurrentVersion(config, faults, n);
      if current.None? {
        return false, migs;
      }
      n := n + 2;
      for i := 0 to |sorted|
        invariant Apply(Value(), sorted[i..], current.value, faults, n) ==
                  Apply(old(Value()), sorted, current.value, faults, |sorted| + 3)
      {
        ApplyStep(Value(), sorted, i, current.value, faults, n);
        var m := sorted[i];
        if m.version > current.value {
          var ran := ExecFile(config, objects, m.script, faults(n));
          config, objects := ran.config, ran.objects;
          if !ran.ok {
            history := history + [Attempt(m.version, false, false)];
            return false, migs;
          }
          var (updated, stored) := Record(config, m.version, faults(n + 1));
          config := updated;
          history := history + [Attempt(m.version, true, stored && updated.Row?)];
          if !stored {
            return false, migs;
          }
          n := n + 2;
        }
      }
      ApplyNone(Value(), sorted[|sorted|..], current.value, faults, n);
      return true, migs;
    }
  }

  ghost function Sorted(files: seq<File>): (migs: seq<Migration>)
    ensures SortedFrom(migs, files) && migs == OrderBy(Collected(files), LOWER_VERSION)
  {
    OrderByPermutes(Collected(files), LOWER_VERSION);
    SortedNotAbove(Collected(files));
    OrderBy(Collected(files), LOWER_VERSION)
  }

  lemma {:induction false} SortedNotAbove(rows: seq<Migration>)
    ensures Ordered(NOT_ABOVE, OrderBy(rows, LOWER_VERSION))
  {
    if rows != [] {
      SortedNotAbove(rows[1..]);
      InsertNotAbove(rows[0], OrderBy(rows[1..], LOWER_VERSION));
    }
  }

  lemma InFront(x: Migration, rows: seq<Migration>)
    requires Ordered(NOT_ABOVE, rows) && forall y | y in rows :: x.version <= y.version
    ensures Ordered(NOT_ABOVE, [x] + rows)
  {
  }

  lemma {:induction false} InsertNotAbove(x: Migration, rows: seq<Migration>)
    requires Ordered(NOT_ABOVE, rows)
    ensures Ordered(NOT_ABOVE, Insert(x, rows, LOWER_VERSION))
  {
    if rows != [] {
      var tail := rows[1..];
      forall y | y in tail
        ensures rows[0].version <= y.version
      {
        var i :| 0 <= i < |tail| && tail[i] == y;
        assert NOT_ABOVE(rows[0], rows[i + 1]);
      }
      assert rows == [rows[0]] + tail;
      if LowerVersion(x, rows[0]) {
        InFront(x, rows);
      } else {
        InsertNotAbove(x, tail);
        InsertKeepsRows(x, tail, LOWER_VERSION);
        forall y | y in Insert(x, tail, LOWER_VERSION)
          ensures rows[0].version <= y.version
        {
          SameElements(Insert(x, tail, LOWER_VERSION), [x] + tail, y);
        }
        InFront(rows[0], Insert(x, tail, LOWER_VERSION));
      }
    } else {
      InFront(x, rows);
    }
  }

  lemma CollectedSize(files: seq<File>)
    ensures |OrderBy(Collected(files), LOWER_VERSION)| == |Collected(files)|
  {
    OrderByPermutes(Collected(files), LOWER_VERSION);
  }

  lemma CollectedStep(files: seq<File>, i: nat)
    requires i < |files|
    ensures Collected(files[i..]) ==
            (match VersionOf(files[i].name)
             case None => []
             case Some(v) => [Migration(v, files[i].script)]) + Collected(files[i + 1..])
    ensures files[0..] == files
  {
    assert files[i..][1..] == files[i + 1..];
  }

  lemma CollectedNone(files: seq<File>)
    requires files == []
    ensures Collected(files) == []
  {
  }

  lemma ApplyStep(db: Db, migs: seq<Migration>, i: nat, current: nat, faults: Faults, n: nat)
    requires i < |migs|
    ensures var (after, going) := Start(db, migs[i], faults, n);
            Apply(db, migs[i..], current, faults, n) ==
            if migs[i].version <= current then Apply(db, migs[i + 1..], current, faults, n)
            else if going then Apply(after, migs[i + 1..], current, faults, n + 2)
            else Outcome(after, false)
    ensures migs[0..] == migs
  {
    assert migs[i..][1..] == migs[i + 1..];
  }

  lemma ApplyNone(db: Db, migs: seq<Migration>, current: nat, faults: Faults, n: nat)
    requires migs == []
    ensures Apply(db, migs, current, faults, n) == Outcome(db, true)
  {
  }

  // ---- what every run keeps ----

  ghost predicate Distinct(migs: seq<Migration>) {
    forall i, j | 0 <= i < j < |migs| :: migs[i].version != migs[j].version
  }

  ghost predicate Increasing(migs: seq<Migration>) {
    forall i, j | 0 <= i < j < |migs| :: migs[i].version < migs[j].version
  }

  /** A recorded migration is never started again, and the stored version covers it. */
  ghost predicate Kept(db: Db) {
    && (forall i | 0 <= i < |db.history| && db.history[i].recorded ::
          db.history[i].applied && db.config.Row? && db.history[i].version <= db.config.version)
    && (forall i, j | 0 <= i < j < |db.history| && db.history[i].recorded ::
          db.history[i].version < db.history[j].version)
  }

  /** The stored version never goes back and the config row never goes away. */
  predicate Advances(c: Config, c': Config) {
    (c.Row? ==> c'.Row? && c.version <= c'.version) && (c.Empty? ==> !c'.Absent?)
  }

  /** Every migration still to run is above the stored version. */
  ghost predicate Ahead(c: Config, migs: seq<Migration>, current: nat) {
    forall m | m in migs && m.version > current && c.Row? :: c.version < m.version
  }

  ghost predicate Applied(history: seq<Attempt>, v: nat) {
    exists i :: 0 <= i < |history| && history[i].version == v && history[i].applied
  }

  /** The history grows by attempts at the versions vs, in that order; all but perhaps the
      last were applied. */
  ghost predicate Attempts(before: seq<Attempt>, after: seq<Attempt>, vs: seq<nat>) {
    && before <= after
    && |after| - |before| == |vs|
    && (forall k | |before| <= k < |after| :: after[k].version == vs[k - |before|])
    && (forall k | |before| <= k < |after| - 1 :: after[k].applied)
  }

  /** The versions above current, in the order of migs. */
  function Pending(migs: seq<Migration>, current: nat): seq<nat> {
    if migs == [] then []
    else (if migs[0].version > current then [migs[0].version] else []) + Pending(migs[1..], current)
  }

  lemma {:induction false} ExecuteAdvances(c: Config, o: set<string>, script: seq<Statement>)
    ensures var c' := Execute(c, o, script).config;
            Advances(c, c') && (c'.Row? ==> c' == c || c'.version == 0)
    decreases |script|
  {
    if script != [] {
      var rest := script[1..];
      match script[0]
      case Other => ExecuteAdvances(c, o, rest);
      case CreateConfig => ExecuteAdvances(Empty, o, rest);
      case InsertConfigRow => ExecuteAdvances(Row(0), o, rest);
      case Create(x) => ExecuteAdvances(c, o + {x}, rest);
      case Drop(x) => ExecuteAdvances(c, o - {x}, rest);
      case Need(x) => ExecuteAdvances(c, o, rest);
      case Ensure(x) => ExecuteAdvances(c, o + {x}, rest);
      case Clear(x) => ExecuteAdvances(c, o - {x}, rest);
    }
  }

  lemma ExecFileAdvances(c: Config, o: set<string>, script: seq<Statement>, fault: Option<nat>)
    ensures var c' := ExecFile(c, o, script, fault).config;
            Advances(c, c') && (c'.Row? ==> c' == c || c'.version == 0)
  {
    ExecuteAdvances(c, o, script);
    if fault.Some? && fault.value < |script| {
      ExecuteAdvances(c, o, script[..fault.value]);
    }
  }

  /** What one started migration does, given that it is above the stored version. */
  lemma StartEffect(db: Db, m: Migration, faults: Faults, n: nat) returns (a: Attempt)
    requires 0 < m.version && (db.config.Row? ==> db.config.version < m.version)
    ensures var (after, going) := Start(db, m, faults, n);
            && a.version == m.version && after.history == db.history + [a]
            && (going ==> a.applied) && (a.recorded ==> going)
            && (a.recorded <==> after.config == Row(m.version))
            && (after.config.Row? ==> a.recorded || after.config == db.config || after.config.version == 0)
            && (going && after.config.Row? ==> a.recorded)
            && Advances(db.config, after.config)
            && (Kept(db) ==> Kept(after))
  {
    ExecFileAdvances(db.config, db.objects, m.script, faults(n));
    var (after, going) := Start(db, m, faults, n);
    a := after.history[|db.history|];
  }

  /** The migrations after the first, in a strictly increasing list. */
  lemma Rest(migs: seq<Migration>)
    requires Increasing(migs) && migs != []
    ensures Increasing(migs[1..])
    ensures forall x | x in migs[1..] :: migs[0].version < x.version
    ensures forall x :: x in migs <==> x == migs[0] || x in migs[1..]
  {
  }

  lemma {:induction false} ApplyKeeps(db: Db, migs: seq<Migration>, current: nat, faults: Faults, n: nat)
    requires Increasing(migs) && Ahead(db.config, migs, current)
    ensures var r := Apply(db, migs, current, faults, n);
            (Kept(db) ==> Kept(r.db)) && Advances(db.config, r.db.config) && db.history <= r.db.history
    decreases |migs|
  {
    if migs != [] {
      hide Start, Kept, Increasing;
      Rest(migs);
      if migs[0].version <= current {
        ApplyKeeps(db, migs[1..], current, faults, n);
      } else {
        var a := StartEffect(db, migs[0], faults, n);
        var (after, going) := Start(db, migs[0], faults, n);
        if going {
          ApplyKeeps(after, migs[1..], current, faults, n + 2);
        }
      }
    }
  }

  lemma StartAppends(db: Db, m: Migration, faults: Faults, n: nat) returns (a: Attempt)
    ensures var (after, going) := Start(db, m, faults, n);
            after.history == db.history + [a] && a.version == m.version && (going ==> a.applied)
  {
    a := Start(db, m, faults, n).0.history[|db.history|];
  }

  /** Which migrations a run starts, for any order of migs: those above the version it read,
      in order, up to the first failure; all of them when it succeeds. */
  lemma {:induction false} ApplyAttempts(db: Db, migs: seq<Migration>, current: nat, faults: Faults, n: nat)
    returns (k: nat)
    ensures k <= |Pending(migs, current)|
    ensures var r := Apply(db, migs, current, faults, n);
            && Attempts(db.history, r.db.history, Pending(migs, current)[..k])
            && (r.ok ==> k == |Pending(migs, current)| && AllApplied(db.history, r.db.history))
    decreases |migs|
  {
    hide Start, Attempts, AllApplied;
    k := 0;
    if migs == [] {
      NoAttempt(db.history);
      assert Pending(migs, current)[..0] == [];
    } else {
      var m, rest := migs[0], Pending(migs[1..], current);
      if m.version <= current {
        assert Pending(migs, current) == rest;
        k := ApplyAttempts(db, migs[1..], current, faults, n);
      } else {
        var a := StartAppends(db, m, faults, n);
        var (after, going) := Start(db, m, faults, n);
        assert Pending(migs, current) == [m.version] + rest;
        hide Pending;
        if going {
          var j := ApplyAttempts(after, migs[1..], current, faults, n + 2);
          var r := Apply(after, migs[1..], current, faults, n + 2);
          OneMoreAttempt(db.history, a, r.db.history, rest[..j]);
          k := j + 1;
          assert ([m.version] + rest)[..k] == [m.version] + rest[..j];
        } else {
          k := 1;
          OneAttempt(db.history, a);
          assert ([m.version] + rest)[..k] == [m.version];
        }
      }
    }
  }

  ghost predicate AllApplied(before: seq<Attempt>, after: seq<Attempt>) {
    forall j | |before| <= j < |after| :: after[j].applied
  }

  lemma NoAttempt(before: seq<Attempt>)
    ensures Attempts(before, before, []) && AllApplied(before, before)
  {
  }

  lemma OneAttempt(before: seq<Attempt>, a: Attempt)
    ensures Attempts(before, before + [a], [a.version])
  {
  }

  lemma OneMoreAttempt(before: seq<Attempt>, a: Attempt, after: seq<Attempt>, vs: seq<nat>)
    requires a.applied && Attempts(before + [a], after, vs)
    ensures Attempts(before, after, [a.version] + vs)
    ensures AllApplied(before + [a], after) ==> AllApplied(before, after)
  {
    assert (before + [a])[|before|] == a && after[|before|] == a;
    forall k | |before| < k < |after|
      ensures after[k].version == ([a.version] + vs)[k - |before|]
    {
    }
  }

  ghost predicate Covers(c: Config, history: seq<Attempt>, m: Migration) {
    c.Row? && m.version <= c.version ==> Applied(history, m.version)
  }

  /** After any run, every migration between the version it read and the stored version has
      been applied; after a successful one the stored version reaches them all. */
  lemma {:induction false} ApplyCovers(db: Db, migs: seq<Migration>, current: nat, faults: Faults, n: nat)
    requires Increasing(migs) && Ahead(db.config, migs, current)
    ensures var r := Apply(db, migs, current, faults, n);
            && (forall m | m in migs && m.version > current :: Covers(r.db.config, r.db.history, m))
            && (r.ok && r.db.config.Row? ==>
                  forall m | m in migs && m.version > current :: m.version <= r.db.config.version)
    decreases |migs|
  {
    if migs != [] {
      hide Start, Increasing;
      Rest(migs);
      var m := migs[0];
      if m.version <= current {
        ApplyCovers(db, migs[1..], current, faults, n);
      } else {
        var a := StartEffect(db, m, faults, n);
        var (after, going) := Start(db, m, faults, n);
        assert after.history[|db.history|] == a;
        if going {
          ApplyCovers(after, migs[1..], current, faults, n + 2);
          ApplyKeeps(after, migs[1..], current, faults, n + 2);
          var r := Apply(after, migs[1..], current, faults, n + 2);
          assert r.db.history[|db.history|] == a;
          assert Applied(r.db.history, m.version);
          if migs[1..] != [] {
            assert migs[1..][0] in migs[1..];
          }
        }
      }
    }
  }

  /** Where the stored version ends up. */
  lemma {:induction false} ApplyEnds(db: Db, migs: seq<Migration>, current: nat, faults: Faults, n: nat)
    requires Increasing(migs) && Ahead(db.config, migs, current)
    ensures var c := Apply(db, migs, current, faults, n).db.config;
            c.Row? ==> c == db.config || c.version == 0 || exists m :: m in migs && m.version == c.version
    decreases |migs|
  {
    if migs != [] {
      hide Start, Increasing;
      Rest(migs);
      if migs[0].version <= current {
        ApplyEnds(db, migs[1..], current, faults, n);
      } else {
        var a := StartEffect(db, migs[0], faults, n);
        var (after, going) := Start(db, migs[0], faults, n);
        if going {
          ApplyEnds(after, migs[1..], current, faults, n + 2);
        }
      }
    }
  }

  // ---- one run, from any database ----

  lemma SortedIsIncreasing(migs: seq<Migration>)
    requires Ordered(NOT_ABOVE, migs) && Distinct(migs)
    ensures Increasing(migs)
  {
    forall i, j | 0 <= i < j < |migs|
      ensures migs[i].version < migs[j].version
    {
      assert NOT_ABOVE(migs[i], migs[j]);
    }
  }

  /** A run either stops before the loop and changes nothing, or is the loop from the version
      it read, with every later migration ahead of the stored one. */
  lemma RunIsApply(db: Db, migs: seq<Migration>, faults: Faults) returns (current: nat)
    ensures var r := RunOnce(db, migs, faults);
            || r == Outcome(db, false)
            || (r == Apply(db, migs, current, faults, |migs| + 3)
                && db.config == (if db.config.Absent? then Absent else Row(current))
                && (db.config.Absent? ==> current == 0))
    ensures Ahead(db.config, migs, current) || RunOnce(db, migs, faults) == Outcome(db, false)
  {
    var read := CurrentVersion(db.config, faults, |migs| + 1);
    current := if read.Some? then read.value else 0;
  }

  lemma RunKeeps(db: Db, migs: seq<Migration>, faults: Faults)
    requires Kept(db) && Increasing(migs)
    ensures var r := RunOnce(db, migs, faults);
            Kept(r.db) && Advances(db.config, r.db.config) && db.history <= r.db.history
  {
    hide Apply, Kept, Increasing;
    var current := RunIsApply(db, migs, faults);
    if RunOnce(db, migs, faults) != Outcome(db, false) {
      ApplyKeeps(db, migs, current, faults, |migs| + 3);
    }
  }

  function StoredVersion(c: Config): nat {
    if c.Row? then c.version else 0
  }

  /** What any run starts, whatever fails and however equal versions were ordered: migrations
      above the stored version only, in order, none after one that failed; and a successful
      run has applied every one of them. */
  lemma RunStarts(db: Db, migs: seq<Migration>, faults: Faults) returns (k: nat)
    ensures k <= |Pending(migs, StoredVersion(db.config))|
    ensures var r, all := RunOnce(db, migs, faults), Pending(migs, StoredVersion(db.config));
            && Attempts(db.history, r.db.history, all[..k])
            && (r.ok ==> k == |all|)
            && (r.ok ==> forall j | |db.history| <= j < |r.db.history| :: r.db.history[j].applied)
  {
    k := 0;
    var current := RunIsApply(db, migs, faults);
    if RunOnce(db, migs, faults) != Outcome(db, false) {
      k := ApplyAttempts(db, migs, current, faults, |migs| + 3);
    }
  }

  /** The shipped first migration: it creates the config table and its row before all else. */
  ghost predicate InitialFirst(migs: seq<Migration>) {
    migs != [] && migs[0].version > 0 && [CreateConfig, InsertConfigRow] <= migs[0].script
  }

  lemma {:induction false} NoneAhead(db: Db, migs: seq<Migration>, current: nat, faults: Faults, n: nat)
    requires forall m | m in migs :: m.version <= current
    ensures Apply(db, migs, current, faults, n) == Outcome(db, true)
    decreases |migs|
  {
    if migs != [] {
      assert migs[0] in migs;
      NoneAhead(db, migs[1..], current, faults, n);
    }
  }

  /** A successful run leaves schema_version at the greater of what it was and the greatest
      file, and any later run of the same files starts nothing, whatever fails in it. */
  lemma CompletedRun(db: Db, migs: seq<Migration>, faults: Faults, later: seq<Migration>, faults': Faults)
    requires Increasing(migs) && InitialFirst(migs) && RunOnce(db, migs, faults).ok
    requires multiset(later) == multiset(migs)
    ensures var r := RunOnce(db, migs, faults);
            && r.db.config.Row?
            && StoredVersion(db.config) <= r.db.config.version
            && (forall m | m in migs :: m.version <= r.db.config.version)
            && (r.db.config.version == StoredVersion(db.config) ||
                exists m :: m in migs && m.version == r.db.config.version)
            && RunOnce(r.db, later, faults').db == r.db
  {
    var r := RunOnce(db, migs, faults);
    var n := |migs| + 3;
    hide Increasing;
    assert migs[0] in migs;
    var current := RunIsApply(db, migs, faults);
    RowAfterInitial(db, migs, current, faults, n);
    ApplyKeeps(db, migs, current, faults, n);
    ApplyCovers(db, migs, current, faults, n);
    ApplyEnds(db, migs, current, faults, n);
    if r.db.config.version == 0 {
      assert false;
    }
    forall m | m in later
      ensures m.version <= r.db.config.version
    {
      SameElements(later, migs, m);
    }
    if CurrentVersion(r.db.config, faults', |later| + 1).Some? {
      NoneAhead(r.db, later, r.db.config.version, faults', |later| + 3);
    }
  }

  lemma RowAfterInitial(db: Db, migs: seq<Migration>, current: nat, faults: Faults, n: nat)
    requires Increasing(migs) && InitialFirst(migs) && Ahead(db.config, migs, current)
    requires db.config.Row? || (db.config.Absent? && current == 0)
    requires Apply(db, migs, current, faults, n).ok
    ensures Apply(db, migs, current, faults, n).db.config.Row?
  {
    ApplyKeeps(db, migs, current, faults, n);
    if db.config.Absent? {
      var script := migs[0].script;
      hide Increasing;
      Rest(migs);
      InitialExec(db.objects, script);
      var a := StartEffect(db, migs[0], faults, n);
      var (after, going) := Start(db, migs[0], faults, n);
      assert Execute(Absent, db.objects, script).config.Row?;
      ApplyKeeps(after, migs[1..], current, faults, n + 2);
    }
  }

  lemma InitialExec(o: set<string>, script: seq<Statement>)
    requires [CreateConfig, InsertConfigRow] <= script
    ensures Execute(Absent, o, script) == Execute(Row(0), o, script[2..])
    ensures Execute(Absent, o, script).config.Row?
  {
    assert script[0] == CreateConfig && script[1..][0] == InsertConfigRow;
    assert script[1..][1..] == script[2..];
    ExecuteAdvances(Row(0), o, script[2..]);
  }

  // ---- any number of runs ----

  /** One program start: the embedded files, the order the sort gave them, and what fails. */
  datatype Launch = Launch(files: seq<File>, migs: seq<Migration>, faults: Faults)

  ghost predicate Valid(l: Launch) {
    SortedFrom(l.migs, l.files) && Distinct(l.migs)
  }

  /** The database after the starts ls, the first on a new data directory. */
  function After(ls: seq<Launch>): Db {
    if ls == [] then NEW_DB
    else RunOnce(After(ls[..|ls| - 1]), ls[|ls| - 1].migs, ls[|ls| - 1].faults).db
  }

  function Shipped(ls: seq<Launch>): seq<Migration> {
    if ls == [] then [] else ls[|ls| - 1].migs
  }

  /** Files are never deleted or edited, and a new one is numbered above all before it. */
  ghost predicate Appended(was: seq<Migration>, files: seq<Migration>) {
    && (forall m | m in was :: m in files)
    && (forall m, m' | m in files && m !in was && m' in was :: m'.version < m.version)
  }

  ghost predicate AppendOnly(ls: seq<Launch>) {
    forall k | 0 <= k < |ls| :: Appended(Shipped(ls[..k]), ls[k].migs)
  }

  lemma {:induction false} AfterKeeps(ls: seq<Launch>)
    requires forall k | 0 <= k < |ls| :: Valid(ls[k])
    ensures Kept(After(ls))
  {
    if ls != [] {
      hide RunOnce, Kept, Valid;
      assert Kept(NEW_DB);
      var l := ls[|ls| - 1];
      AfterKeeps(ls[..|ls| - 1]);
      LaunchIncreasing(l);
      RunKeeps(After(ls[..|ls| - 1]), l.migs, l.faults);
    } else {
      NothingKept();
    }
  }

  lemma NothingKept()
    ensures Kept(NEW_DB)
  {
  }

  lemma LaunchIncreasing(l: Launch)
    requires Valid(l)
    ensures Increasing(l.migs)
  {
    SortedIsIncreasing(l.migs);
  }

  /** Over any sequence of starts, failing anywhere: a migration is started again only if its
      Exec or its version update had failed, and the recorded versions strictly increase. */
  lemma RepeatsOnlyAfterFailure(ls: seq<Launch>, i: nat, j: nat)
    requires forall k | 0 <= k < |ls| :: Valid(ls[k])
    requires i < j < |After(ls).history| && After(ls).history[i].recorded
    ensures After(ls).history[i].version < After(ls).history[j].version
    ensures After(ls).history[i].version <= StoredVersion(After(ls).config)
  {
    AfterKeeps(ls);
  }

  lemma LaunchAdvances(ls: seq<Launch>, l: Launch)
    requires Valid(l) && Kept(After(ls))
    ensures After(ls).history <= After(ls + [l]).history
    ensures Advances(After(ls).config, After(ls + [l]).config)
  {
    hide RunOnce, Kept, Valid;
    assert (ls + [l])[..|ls|] == ls;
    LaunchIncreasing(l);
    RunKeeps(After(ls), l.migs, l.faults);
  }

  /** The history and the stored version only ever advance. */
  lemma {:induction false} VersionsAdvance(ls: seq<Launch>, k: nat)
    requires k <= |ls| && forall j | 0 <= j < |ls| :: Valid(ls[j])
    ensures After(ls[..k]).history <= After(ls).history
    ensures Advances(After(ls[..k]).config, After(ls).config)
  {
    hide RunOnce, Kept, Valid, After;
    if k == |ls| {
      assert ls[..k] == ls;
    } else {
      var n := |ls| - 1;
      assert ls[..n][..k] == ls[..k];
      VersionsAdvance(ls[..n], k);
      AfterKeeps(ls[..n]);
      LaunchAdvances(ls[..n], ls[n]);
      assert ls[..n] + [ls[n]] == ls;
    }
  }

  ghost predicate Covered(db: Db, migs: seq<Migration>) {
    && (forall m | m in migs && 0 < m.version :: Covers(db.config, db.history, m))
    && (StoredVersion(db.config) == 0 || exists m :: m in migs && m.version == db.config.version)
  }

  lemma AppliedStays(history: seq<Attempt>, more: seq<Attempt>, v: nat)
    requires Applied(history, v) && history <= more
    ensures Applied(more, v)
  {
    var i :| 0 <= i < |history| && history[i].version == v && history[i].applied;
    assert more[i] == history[i];
  }

  lemma RunCovers(db: Db, was: seq<Migration>, migs: seq<Migration>, faults: Faults)
    requires Covered(db, was) && Appended(was, migs) && Increasing(migs)
    ensures Covered(RunOnce(db, migs, faults).db, migs)
  {
    var r := RunOnce(db, migs, faults);
    var n := |migs| + 3;
    hide Increasing, Applied;
    var current := RunIsApply(db, migs, faults);
    hide RunOnce, Apply;
    if r != Outcome(db, false) {
      ApplyKeeps(db, migs, current, faults, n);
      ApplyCovers(db, migs, current, faults, n);
      ApplyEnds(db, migs, current, faults, n);
    }
    forall m | m in migs && 0 < m.version && r.db.config.Row? && m.version <= r.db.config.version
      ensures Applied(r.db.history, m.version)
    {
      if m.version <= StoredVersion(db.config) {
        var last :| last in was && last.version == db.config.version;
        assert m in was;
        assert Covers(db.config, db.history, m);
        AppliedStays(db.history, r.db.history, m.version);
      } else {
        assert Covers(r.db.config, r.db.history, m);
      }
    }
  }

  lemma AppendOnlyBefore(ls: seq<Launch>)
    requires AppendOnly(ls) && ls != []
    ensures AppendOnly(ls[..|ls| - 1])
    ensures Appended(Shipped(ls[..|ls| - 1]), ls[|ls| - 1].migs)
  {
    hide Appended, Shipped;
    var n := |ls| - 1;
    assert forall k | 0 <= k < n :: ls[..n][..k] == ls[..k];
  }

  /** With append-only files, no shipped migration at or below the stored version was skipped,
      whatever failed in whichever start. */
  lemma {:induction false} NoneSkipped(ls: seq<Launch>)
    requires AppendOnly(ls) && forall k | 0 <= k < |ls| :: Valid(ls[k])
    ensures Covered(After(ls), Shipped(ls))
  {
    if ls != [] {
      hide RunOnce, Valid, Covered, Increasing, Appended;
      var n := |ls| - 1;
      AppendOnlyBefore(ls);
      NoneSkipped(ls[..n]);
      LaunchIncreasing(ls[n]);
      RunCovers(After(ls[..n]), Shipped(ls[..n]), ls[n].migs, ls[n].faults);
    }
  }

  /** So once a start succeeds, every file numbered from 0001 on has been applied. */
  lemma SuccessAppliesEverything(ls: seq<Launch>, l: Launch)
    requires AppendOnly(ls + [l]) && Valid(l) && forall k | 0 <= k < |ls| :: Valid(ls[k])
    requires InitialFirst(l.migs) && RunOnce(After(ls), l.migs, l.faults).ok
    ensures forall m | m in l.migs :: Applied(After(ls + [l]).history, m.version)
  {
    hide RunOnce, Applied, Valid, AppendOnly, InitialFirst, Increasing;
    assert After(ls + [l]) == RunOnce(After(ls), l.migs, l.faults).db by {
      assert (ls + [l])[..|ls|] == ls;
    }
    NoneSkipped(ls + [l]);
    LaunchIncreasing(l);
    CompletedRun(After(ls), l.migs, l.faults, l.migs, l.faults);
    AllPositive(l.migs);
    forall m | m in l.migs
      ensures Applied(After(ls + [l]).history, m.version)
    {
      assert Covers(After(ls + [l]).config, After(ls + [l]).history, m);
    }
  }

  lemma AllPositive(migs: seq<Migration>)
    requires InitialFirst(migs) && Increasing(migs)
    ensures forall m | m in migs :: 0 < m.version
  {
    Rest(migs);
  }

  // ---- limits of the loop ----

  const NO_FAULTS: Faults := (n: nat) => None

  /** Whether x exists once the statements before have taken effect: the last of them to
      create or drop it decides, and without one it is as it was. */
  predicate Present(o: set<string>, before: seq<Statement>, x: string) {
    if before == [] then x in o
    else
      var n := |before| - 1;
      if before[n] == Create(x) || before[n] == Ensure(x) then true
      else if before[n] == Drop(x) || before[n] == Clear(x) then false
      else Present(o, before[..n], x)
  }

  /** A script fits a database with a config row: nothing is created that is there, nothing is
      dropped or used that is not, and config is left alone. */
  ghost predicate Fits(o: set<string>, script: seq<Statement>) {
    forall k | 0 <= k < |script| :: FitsAt(o, script, k)
  }

  predicate FitsAt(o: set<string>, script: seq<Statement>, k: int)
    requires 0 <= k < |script|
  {
    match script[k]
    case Create(x) => !Present(o, script[..k], x)
    case Drop(x) => Present(o, script[..k], x)
    case Need(x) => Present(o, script[..k], x)
    case Ensure(_) => true
    case Clear(_) => true
    case CreateConfig => false
    case InsertConfigRow => false
    case Other => true
  }

  /** The scripts above current, one after the other. */
  function PendingScript(migs: seq<Migration>, current: nat): seq<Statement> {
    if migs == [] then []
    else (if migs[0].version > current then migs[0].script else []) + PendingScript(migs[1..], current)
  }

  /** What a caller can check before a run: the config table has its row and the pending
      scripts fit the schema, or it is missing altogether and they fit from their third
      statement on, after creating the table and its row. */
  ghost predicate Recoverable(db: Db, migs: seq<Migration>)
    requires InitialFirst(migs)
  {
    match db.config
    case Row(v) => Fits(db.objects, PendingScript(migs, v))
    case Empty => false
    case Absent => Fits(db.objects, migs[0].script[2..] + PendingScript(migs[1..], 0))
  }

  lemma {:induction false} PresentAppend(o: set<string>, a: seq<Statement>,
                                         o': set<string>, b: seq<Statement>, x: string)
    requires x in o' <==> Present(o, a, x)
    ensures Present(o, a + b, x) <==> Present(o', b, x)
  {
    if b == [] {
      assert a + b == a;
    } else {
      var n := |b| - 1;
      assert (a + b)[..|a| + n] == a + b[..n];
      PresentAppend(o, a, o', b[..n], x);
    }
  }

  /** Fitting is fitting part by part. */
  lemma FitsAppend(o: set<string>, a: seq<Statement>, o': set<string>, b: seq<Statement>)
    requires forall x :: x in o' <==> Present(o, a, x)
    ensures Fits(o, a + b) <==> Fits(o, a) && Fits(o', b)
  {
    forall k | 0 <= k < |a|
      ensures FitsAt(o, a + b, k) == FitsAt(o, a, k)
    {
      assert (a + b)[..k] == a[..k];
    }
    forall k | 0 <= k < |b|
      ensures FitsAt(o, a + b, |a| + k) == FitsAt(o', b, k)
    {
      assert (a + b)[..|a| + k] == a + b[..k];
      assert (a + b)[|a| + k] == b[k];
      var s := b[k];
      if s.Create? || s.Drop? || s.Need? {
        PresentAppend(o, a, o', b[..k], s.name);
      }
    }
    if Fits(o, a + b) {
      forall k | 0 <= k < |a|
        ensures FitsAt(o, a, k)
      {
        assert FitsAt(o, a + b, k);
      }
      forall k | 0 <= k < |b|
        ensures FitsAt(o', b, k)
      {
        assert FitsAt(o, a + b, |a| + k);
      }
    }
    if Fits(o, a) && Fits(o', b) {
      forall k | 0 <= k < |a + b|
        ensures FitsAt(o, a + b, k)
      {
        if k >= |a| {
          assert FitsAt(o', b, k - |a|);
        }
      }
    }
  }

  /** On a database with its config row a script succeeds exactly if it fits, and then leaves
      the row alone and exactly the objects the script leaves present. */
  lemma {:induction false} ExecuteFits(v: nat, o: set<string>, script: seq<Statement>)
    ensures var ran := Execute(Row(v), o, script);
            && (ran.ok <==> Fits(o, script))
            && (ran.ok ==> ran.config == Row(v) && forall x :: x in ran.objects <==> Present(o, script, x))
    decreases |script|
  {
    if script != [] {
      var s, rest := script[0], script[1..];
      var o' := if s.Create? || s.Ensure? then o + {s.name} else if s.Drop? || s.Clear? then o - {s.name} else o;
      assert [s] + rest == script;
      assert [s][..0] == [];
      assert forall x :: x in o' <==> Present(o, [s], x);
      FitsAppend(o, [s], o', rest);
      assert Fits(o, [s]) <==> FitsAt(o, [s], 0);
      ExecuteFits(v, o', rest);
      forall x
        ensures Present(o, script, x) <==> Present(o', rest, x)
      {
        PresentAppend(o, [s], o', rest, x);
      }
    }
  }

  lemma {:induction false} ApplyFits(db: Db, migs: seq<Migration>, current: nat, n: nat)
    requires db.config.Row?
    ensures Apply(db, migs, current, NO_FAULTS, n).ok <==> Fits(db.objects, PendingScript(migs, current))
    decreases |migs|
  {
    if migs != [] {
      var m, rest := migs[0], PendingScript(migs[1..], current);
      if m.version <= current {
        assert PendingScript(migs, current) == rest;
        ApplyFits(db, migs[1..], current, n);
      } else {
        var ran := Execute(db.config, db.objects, m.script);
        var (after, going) := Start(db, m, NO_FAULTS, n);
        ExecuteFits(db.config.version, db.objects, m.script);
        if ran.ok {
          FitsAppend(db.objects, m.script, ran.objects, rest);
          ApplyFits(after, migs[1..], current, n + 2);
        } else {
          if Fits(db.objects, m.script + rest) {
            FitsHead(db.objects, m.script, rest);
          }
        }
      }
    }
  }

  lemma FitsHead(o: set<string>, a: seq<Statement>, b: seq<Statement>)
    requires Fits(o, a + b)
    ensures Fits(o, a)
  {
    forall k | 0 <= k < |a|
      ensures FitsAt(o, a, k)
    {
      assert FitsAt(o, a + b, k);
      assert (a + b)[..k] == a[..k];
    }
  }

  /** A run that succeeds met no failure: it is the run without any. */
  lemma {:induction false} ApplyQuiet(db: Db, migs: seq<Migration>, current: nat, faults: Faults, n: nat)
    requires Apply(db, migs, current, faults, n).ok
    ensures Apply(db, migs, current, faults, n) == Apply(db, migs, current, NO_FAULTS, n)
    decreases |migs|
  {
    if migs != [] {
      if migs[0].version <= current {
        ApplyQuiet(db, migs[1..], current, faults, n);
      } else {
        ApplyQuiet(Start(db, migs[0], faults, n).0, migs[1..], current, faults, n + 2);
      }
    }
  }

  lemma RecoversWithoutFaults(db: Db, migs: seq<Migration>)
    requires InitialFirst(migs)
    ensures RunOnce(db, migs, NO_FAULTS).ok <==> Recoverable(db, migs)
  {
    var m, n := migs[0], |migs| + 3;
    if db.config.Row? {
      ApplyFits(db, migs, db.config.version, n);
    } else if db.config.Absent? {
      var tail, rest := m.script[2..], PendingScript(migs[1..], 0);
      InitialExec(db.objects, m.script);
      ExecuteFits(0, db.objects, tail);
      var ran := Execute(Row(0), db.objects, tail);
      var (after, going) := Start(db, m, NO_FAULTS, n);
      if ran.ok {
        FitsAppend(db.objects, tail, ran.objects, rest);
        ApplyFits(after, migs[1..], 0, n + 2);
      } else if Fits(db.objects, tail + rest) {
        FitsHead(db.objects, tail, rest);
      }
    }
  }

  /** Whether restarting can still succeed, from any database: some run succeeds, and then the
      one without failures does, exactly if the config table and the objects are as the
      pending scripts need them. */
  lemma RecoversExactly(db: Db, migs: seq<Migration>)
    requires InitialFirst(migs)
    ensures (exists faults :: RunOnce(db, migs, faults).ok) <==> Recoverable(db, migs)
    ensures RunOnce(db, migs, NO_FAULTS).ok <==> Recoverable(db, migs)
  {
    RecoversWithoutFaults(db, migs);
    forall faults | RunOnce(db, migs, faults).ok
      ensures Recoverable(db, migs)
    {
      var current := CurrentVersion(db.config, faults, |migs| + 1).value;
      ApplyQuiet(db, migs, current, faults, |migs| + 3);
    }
  }

  /** An interrupted first migration never recovers: once the config table exists without
      recording it, no run succeeds. */
  lemma FirstMigrationSticks(db: Db, migs: seq<Migration>, faults: Faults)
    requires InitialFirst(migs) && !db.config.Absent? && StoredVersion(db.config) < migs[0].version
    ensures !RunOnce(db, migs, faults).ok
  {
    RecoversExactly(db, migs);
    if db.config.Row? {
      assert PendingScript(migs, db.config.version)[0] == CreateConfig;
      assert !FitsAt(db.objects, PendingScript(migs, db.config.version), 0);
    }
  }

  /** Nor does a later one whose first statement creates what is already there: every run
      fails, and changes neither the schema nor its version. */
  lemma {:induction false} CreationSticks(db: Db, before: seq<Migration>, m: Migration, more: seq<Migration>,
                                          x: string, current: nat, faults: Faults, n: nat)
    requires forall b | b in before :: b.version <= current
    requires current < m.version && [Create(x)] <= m.script && x in db.objects
    ensures var r := Apply(db, before + [m] + more, current, faults, n);
            !r.ok && r.db.config == db.config && r.db.objects == db.objects
    decreases |before|
  {
    var migs := before + [m] + more;
    if before == [] {
      assert migs[0] == m && m.script[0] == Create(x);
    } else {
      assert migs[0] == before[0] && before[0] in before;
      assert migs[1..] == before[1..] + [m] + more;
      CreationSticks(db, before[1..], m, more, x, current, faults, n);
    }
  }

  /** That is reached by one failed version update: the second migration creates an object,
      its update fails, and from then on no start with these files, whatever is appended to
      them, gets past it. */
  lemma UnrecordedCreationSticks(x: string, more: seq<Migration>, faults: Faults)
    ensures var first := Migration(1, [CreateConfig, InsertConfigRow]);
            var second := Migration(2, [Create(x)]);
            var updateFails := (n: nat) => if n == 8 then Some(0) else None;
            var db := RunOnce(NEW_DB, [first, second], updateFails).db;
            var r := RunOnce(db, [first, second] + more, faults);
            && db == Db(Row(1), {x}, [Attempt(1, true, true), Attempt(2, true, false)])
            && !r.ok && r.db.config == db.config && r.db.objects == db.objects
  {
    var first := Migration(1, [CreateConfig, InsertConfigRow]);
    var second := Migration(2, [Create(x)]);
    var fails := (n: nat) => if n == 8 then Some(0) else None;
    var migs := [first, second];
    InitialExec({}, first.script);
    assert first.script[2..] == [];
    var (db1, going1) := Start(NEW_DB, first, fails, 5);
    assert db1 == Db(Row(1), {}, [Attempt(1, true, true)]);
    assert second.script[1..] == [];
    assert Execute(Row(1), {x}, []) == Ran(Row(1), {x}, true);
    assert Execute(Row(1), {}, second.script) == Ran(Row(1), {} + {x}, true);
    var (db2, going2) := Start(db1, second, fails, 7);
    assert db2 == Db(Row(1), {x}, [Attempt(1, true, true), Attempt(2, true, false)]) && !going2;
    assert migs[1..] == [second] && migs[1..][0] == second;
    assert Apply(db1, [second], 0, fails, 7) == Outcome(db2, false);
    assert Apply(NEW_DB, migs, 0, fails, 5) == Outcome(db2, false);
    assert RunOnce(NEW_DB, migs, fails) == Outcome(db2, false);
    assert [first, second] + more == [first] + [second] + more;
    CreationSticks(db2, [first], second, more, x, 1, faults, |migs + more| + 3);
  }

  // ---- the config table comes first ----

  function FirstPending(migs: seq<Migration>, current: nat): Option<Migration> {
    if migs == [] then None
    else if migs[0].version > current then Some(migs[0])
    else FirstPending(migs[1..], current)
  }

  lemma {:induction false} StaysAbsent(o: set<string>, script: seq<Statement>)
    requires CreateConfig !in script
    ensures Execute(Absent, o, script).config == Absent
    decreases |script|
  {
    if script != [] {
      assert script[0] in script && forall s | s in script[1..] :: s in script;
      var o' := match script[0]
        case Create(x) => o + {x}
        case Ensure(x) => o + {x}
        case Drop(x) => o - {x}
        case Clear(x) => o - {x}
        case _ => o;
      StaysAbsent(o', script[1..]);
    }
  }

  /** Without the config table there is no version to update: the loop stops, unrecorded, at
      the first pending migration unless that one creates the table. */
  lemma {:induction false} StopsWithoutConfig(db: Db, migs: seq<Migration>, current: nat, faults: Faults, n: nat)
    requires db.config.Absent? && FirstPending(migs, current).Some?
    requires CreateConfig !in FirstPending(migs, current).value.script
    ensures var r, v := Apply(db, migs, current, faults, n), FirstPending(migs, current).value.version;
            && !r.ok && r.db.config.Absent?
            && (r.db.history == db.history + [Attempt(v, true, false)] ||
                r.db.history == db.history + [Attempt(v, false, false)])
    decreases |migs|
  {
    var m := migs[0];
    if m.version <= current {
      StopsWithoutConfig(db, migs[1..], current, faults, n);
    } else {
      StaysAbsent(db.objects, m.script);
      if faults(n).Some? && faults(n).value < |m.script| {
        var k := faults(n).value;
        assert forall s | s in m.script[..k] :: s in m.script;
        StaysAbsent(db.objects, m.script[..k]);
      }
    }
  }

  // ---- files that share a number ----

  /** A successful run starts every pending file once, and so a version twice exactly if two
      pending files share it: the version read before the loop is not read again. */
  lemma SharedVersionsRunTwice(db: Db, migs: seq<Migration>, faults: Faults, v: nat)
    requires RunOnce(db, migs, faults).ok
    ensures var h, n := RunOnce(db, migs, faults).db.history, |db.history|;
            var all := Pending(migs, StoredVersion(db.config));
            (exists i, j :: n <= i < j < |h| && h[i].version == h[j].version == v) <==>
            (exists i, j :: 0 <= i < j < |all| && all[i] == all[j] == v)
  {
    var k := RunStarts(db, migs, faults);
    hide RunOnce, Pending;
    var h, n, all := RunOnce(db, migs, faults).db.history, |db.history|, Pending(migs, StoredVersion(db.config));
    assert all[..k] == all;
    if i, j :| 0 <= i < j < |all| && all[i] == all[j] == v {
      assert h[n + i].version == h[n + j].version == v;
    }
    if i, j :| n <= i < j < |h| && h[i].version == h[j].version == v {
      assert all[i - n] == all[j - n] == v;
    }
  }
}
