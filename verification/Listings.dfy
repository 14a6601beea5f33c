/** Row identity over whole runs, and the association lists that rely on it. */
module Listings {
  import opened Text
  import opened Schema
  import opened Registry
  import opened Invariants
  import opened Tabular

  // ---- rows and ids over time ----

  /** Nothing of t is lost in t' but associations, and no id handed out by t comes back. */
  ghost predicate Grows(t: Tables, t': Tables) {
    && t.personSeq <= t'.personSeq && t.systemSeq <= t'.systemSeq && t.linkSeq <= t'.linkSeq
    && t.persons.Keys <= t'.persons.Keys && t.systems.Keys <= t'.systems.Keys
    && (forall id | id in t'.persons && id !in t.persons :: t.personSeq < id)
    && (forall id | id in t'.systems && id !in t.systems :: t.systemSeq < id)
    && (forall id | id in t'.links && id !in t.links :: t.linkSeq < id)
  }

  lemma EffectGrows(w: Write, s: State)
    requires Permitted(w, s) && Hits(w, s)
    ensures Grows(s.t, Effect(w, s).t)
  {
  }

  lemma GrowsTransitive(a: Tables, b: Tables, c: Tables)
    requires Grows(a, b) && Grows(b, c)
    ensures Grows(a, c)
  {
  }

  lemma {:induction false} ExecAllGrows(ws: seq<Write>, s: State)
    ensures ExecAll(ws, s).Some? ==> Grows(s.t, ExecAll(ws, s).value.t)
  {
    if ws != [] {
      var head := ws[..|ws| - 1];
      ExecAllGrows(head, s);
      if ExecAll(head, s).Some? {
        var mid := ExecAll(head, s).value;
        var w := ws[|ws| - 1];
        if Permitted(w, mid) && Hits(w, mid) {
          EffectGrows(w, mid);
          GrowsTransitive(s.t, mid.t, Effect(w, mid).t);
        }
      }
    }
  }

  lemma StepGrows(s: State, req: Request)
    ensures Grows(s.t, Step(s, req).st.t)
  {
    hide Decide, Grows;
    if Decide(s, req).Change? {
      ExecAllGrows(Statements(req, Decide(s, req)), s);
    }
    GrowsReflexive(s.t);
  }

  lemma GrowsReflexive(t: Tables)
    ensures Grows(t, t)
  {
  }

  /** Over any run, person and system rows never disappear, and the id of a person, a system
      or an association is never issued again once issued, even after the row is gone. */
  lemma {:induction false} IdsNeverReissued(reqs: seq<Request>, k: nat)
    requires k <= |reqs|
    ensures var t, t' := Run(reqs[..k]).t, Run(reqs).t;
            && t.persons.Keys <= t'.persons.Keys && t.systems.Keys <= t'.systems.Keys
            && (forall id | id <= t.personSeq && id !in t.persons :: id !in t'.persons)
            && (forall id | id <= t.systemSeq && id !in t.systems :: id !in t'.systems)
            && (forall id | id <= t.linkSeq && id !in t.links :: id !in t'.links)
    ensures Grows(Run(reqs[..k]).t, Run(reqs).t)
  {
    if k == |reqs| {
      assert reqs[..k] == reqs;
    } else {
      var n := |reqs| - 1;
      assert reqs[..n][..k] == reqs[..k];
      IdsNeverReissued(reqs[..n], k);
      hide Step;
      StepGrows(Run(reqs[..n]), reqs[n]);
    }
  }

  // ---- association lists ----

  function Joined(t: Tables, rows: seq<Link>): seq<Association> {
    if rows == [] then []
    else (if rows[0].systemId in t.systems
          then [Association(rows[0], t.systems[rows[0].systemId].name)] else []) + Joined(t, rows[1..])
  }

  /** FROM associations a JOIN systems s ON s.id = a.system_id. */
  function Join(t: Tables): seq<Association> {
    Joined(t, Scan(t.links, t.linkSeq))
  }

  predicate ByPerson(a: Association, b: Association) {
    a.link.personId < b.link.personId || (a.link.personId == b.link.personId && a.link.id < b.link.id)
  }

  /** ORDER BY s.name COLLATE NOCASE, a.id. */
  predicate BySystem(a: Association, b: Association) {
    NoCaseLess(a.systemName, b.systemName) ||
    (NoCaseSame(a.systemName, b.systemName) && a.link.id < b.link.id)
  }

  const BY_PERSON := (a: Association, b: Association) => ByPerson(a, b)
  const BY_SYSTEM := (a: Association, b: Association) => BySystem(a, b)

  function OfPerson(t: Tables, p: int): seq<Association> {
    Filter(Join(t), (a: Association) => a.link.personId == p)
  }

  function AllAssociations(t: Tables): seq<Association> {
    OrderBy(Join(t), BY_PERSON)
  }

  function AssociationsForPerson(t: Tables, p: int): seq<Association> {
    OrderBy(OfPerson(t, p), BY_SYSTEM)
  }

  /** The per-person lists one after the other, for persons 1..n. */
  function PerPerson(t: Tables, n: nat): seq<Association> {
    if n == 0 then [] else PerPerson(t, n - 1) + AssociationsForPerson(t, n)
  }

  lemma {:induction false} ScanHolds<T>(m: map<int, T>, n: nat)
    ensures forall i | 1 <= i <= n && i in m :: m[i] in Scan(m, n)
    ensures forall x | x in Scan(m, n) :: exists i | 1 <= i <= n :: i in m && m[i] == x
  {
    if n > 0 {
      ScanHolds(m, n - 1);
    }
  }

  ghost function UpToKeys<T>(m: map<int, T>, n: nat): set<int> {
    set i | i in m && 1 <= i <= n
  }

  lemma {:induction false} ScanCount<T>(m: map<int, T>, n: nat)
    ensures |Scan(m, n)| == |UpToKeys(m, n)|
  {
    if n == 0 {
      assert UpToKeys(m, 0) == {};
    } else {
      ScanCount(m, n - 1);
      assert UpToKeys(m, n) == UpToKeys(m, n - 1) + if n in m then {n} else {};
    }
  }

  lemma ScanSize<T>(m: map<int, T>, n: nat)
    requires forall i | i in m :: 1 <= i <= n
    ensures |Scan(m, n)| == |m|
  {
    ScanCount(m, n);
    assert UpToKeys(m, n) == m.Keys;
  }

  /** With every foreign key resolved the inner join drops nothing. */
  lemma {:induction false} JoinedKeepsAll(t: Tables, rows: seq<Link>)
    requires forall l | l in rows :: l.systemId in t.systems
    ensures |Joined(t, rows)| == |rows|
    ensures forall k | 0 <= k < |rows| ::
              Joined(t, rows)[k] == Association(rows[k], t.systems[rows[k].systemId].name)
  {
    if rows != [] {
      assert rows[0] in rows;
      JoinedKeepsAll(t, rows[1..]);
    }
  }

  lemma JoinIsComplete(t: Tables)
    requires RowsNumbered(t) && LinksResolve(t)
    ensures |Join(t)| == |t.links|
    ensures forall id | id in t.links :: Association(t.links[id], t.systems[t.links[id].systemId].name) in Join(t)
    ensures forall a | a in Join(t) ::
              a.link.id in t.links && t.links[a.link.id] == a.link && a.link.personId in t.persons
  {
    assert forall i | i in t.links :: 1 <= i <= t.linkSeq && t.links[i].id == i;
    hide RowsNumbered, Scan, Joined;
    var rows := Scan(t.links, t.linkSeq);
    ScanHolds(t.links, t.linkSeq);
    ScanSize(t.links, t.linkSeq);
    JoinedKeepsAll(t, rows);
    JoinHasAll(t, rows);
    forall a | a in Join(t)
      ensures a.link.id in t.links && t.links[a.link.id] == a.link && a.link.personId in t.persons
    {
      var k :| 0 <= k < |Join(t)| && Join(t)[k] == a;
      assert rows[k] in rows;
    }
  }

  lemma JoinHasAll(t: Tables, rows: seq<Link>)
    requires LinksResolve(t) && |Joined(t, rows)| == |rows|
    requires forall id | id in t.links :: t.links[id] in rows
    requires forall k | 0 <= k < |rows| ::
               rows[k].systemId in t.systems &&
               Joined(t, rows)[k] == Association(rows[k], t.systems[rows[k].systemId].name)
    ensures forall id | id in t.links ::
              Association(t.links[id], t.systems[t.links[id].systemId].name) in Joined(t, rows)
  {
    hide Joined;
    forall id | id in t.links
      ensures Association(t.links[id], t.systems[t.links[id].systemId].name) in Joined(t, rows)
    {
      var k :| 0 <= k < |rows| && rows[k] == t.links[id];
      assert Joined(t, rows)[k] in Joined(t, rows);
    }
  }

  /** The rows of persons 1..n, in table order. */
  function UpTo(rows: seq<Association>, n: nat): seq<Association> {
    Filter(rows, (a: Association) => 1 <= a.link.personId <= n)
  }

  lemma {:induction false} UpToSplits(rows: seq<Association>, n: nat)
    requires n > 0
    ensures multiset(UpTo(rows, n)) ==
            multiset(UpTo(rows, n - 1)) + multiset(Filter(rows, (a: Association) => a.link.personId == n))
  {
    if rows != [] {
      UpToSplits(rows[1..], n);
    }
  }

  lemma {:induction false} UpToNone(rows: seq<Association>)
    ensures UpTo(rows, 0) == []
  {
    if rows != [] {
      UpToNone(rows[1..]);
    }
  }

  lemma {:induction false} PerPersonRows(t: Tables, n: nat)
    ensures multiset(PerPerson(t, n)) == multiset(UpTo(Join(t), n))
  {
    hide Join, OrderBy, UpTo, Filter, ByPerson, BySystem;
    if n == 0 {
      UpToNone(Join(t));
    } else {
      PerPersonRows(t, n - 1);
      UpToSplits(Join(t), n);
      OrderByPermutes(OfPerson(t, n), BY_SYSTEM);
    }
  }

  lemma {:induction false} FilterAll<T>(rows: seq<T>, keep: T -> bool)
    requires forall x | x in rows :: keep(x)
    ensures Filter(rows, keep) == rows
  {
    if rows != [] {
      assert rows[0] in rows;
      FilterAll(rows[1..], keep);
    }
  }

  /** After any run the full list holds every association exactly once, and is a permutation
      of the per-person lists taken together: the inner join loses none. */
  lemma AssociationListsAgree(reqs: seq<Request>)
    ensures var t := Run(reqs).t;
            && |AllAssociations(t)| == |t.links|
            && LinksResolve(t)
            && (forall id | id in t.links ::
                  Association(t.links[id], t.systems[t.links[id].systemId].name) in AllAssociations(t))
            && multiset(AllAssociations(t)) == multiset(PerPerson(t, t.personSeq))
  {
    RunSound(reqs);
    var t := Run(reqs).t;
    hide Run, Join, OrderBy;
    assert RowsNumbered(t) && LinksResolve(t);
    JoinIsComplete(t);
    OrderByPermutes(Join(t), BY_PERSON);
    forall id | id in t.links
      ensures Association(t.links[id], t.systems[t.links[id].systemId].name) in AllAssociations(t)
    {
      SameElements(AllAssociations(t), Join(t), Association(t.links[id], t.systems[t.links[id].systemId].name));
    }
    FilterAll(Join(t), (a: Association) => 1 <= a.link.personId <= t.personSeq);
    PerPersonRows(t, t.personSeq);
  }

  /** Both lists come in the order they promise: ascending by person and then id, and by
      system name under NOCASE and then id. */
  lemma ListsAreOrdered(reqs: seq<Request>, p: int)
    ensures Ordered(BY_PERSON, AllAssociations(Run(reqs).t))
    ensures Ordered(BY_SYSTEM, AssociationsForPerson(Run(reqs).t, p))
    ensures var all := AllAssociations(Run(reqs).t);
            forall i, j | 0 <= i < j < |all| ::
              all[i].link.personId <= all[j].link.personId &&
              (all[i].link.personId == all[j].link.personId ==> all[i].link.id < all[j].link.id)
    ensures var mine := AssociationsForPerson(Run(reqs).t, p);
            forall i, j | 0 <= i < j < |mine| ::
              !NoCaseLess(mine[j].systemName, mine[i].systemName) &&
              (NoCaseSame(mine[i].systemName, mine[j].systemName) ==> mine[i].link.id < mine[j].link.id)
  {
    RunSound(reqs);
    var t := Run(reqs).t;
    hide Run, OrderBy;
    assert RowsNumbered(t) && LinksResolve(t);
    JoinDecides(t);
    OrdersAreTransitive();
    OrderByOrders(Join(t), BY_PERSON);
    FilterDecides(Join(t), (a: Association) => a.link.personId == p, BY_SYSTEM);
    OrderByOrders(OfPerson(t, p), BY_SYSTEM);
    var mine := AssociationsForPerson(t, p);
    forall i, j | 0 <= i < j < |mine|
      ensures !NoCaseLess(mine[j].systemName, mine[i].systemName)
      ensures NoCaseSame(mine[i].systemName, mine[j].systemName) ==> mine[i].link.id < mine[j].link.id
    {
      assert BY_SYSTEM(mine[i], mine[j]);
      NoCaseAntisymmetric(mine[i].systemName, mine[j].systemName);
    }
    var all := AllAssociations(t);
    forall i, j | 0 <= i < j < |all|
      ensures ByPerson(all[i], all[j])
    {
      assert BY_PERSON(all[i], all[j]);
    }
  }

  lemma JoinDecides(t: Tables)
    requires RowsNumbered(t) && LinksResolve(t)
    ensures Decides(BY_PERSON, Join(t)) && Decides(BY_SYSTEM, Join(t))
  {
    JoinIdsDistinct(t);
    hide Join;
    forall i, j | 0 <= i < j < |Join(t)|
      ensures ByPerson(Join(t)[i], Join(t)[j]) || ByPerson(Join(t)[j], Join(t)[i])
      ensures BySystem(Join(t)[i], Join(t)[j]) || BySystem(Join(t)[j], Join(t)[i])
    {
      NoCaseTotal(Join(t)[i].systemName, Join(t)[j].systemName);
    }
  }

  lemma OrdersAreTransitive()
    ensures Transitive(BY_PERSON) && Transitive(BY_SYSTEM)
  {
    forall a, b, c | BySystem(a, b) && BySystem(b, c)
      ensures BySystem(a, c)
    {
      hide NoCaseLess, NoCaseSame;
      NoCaseTransitive(a.systemName, b.systemName, c.systemName);
    }
  }

  lemma JoinIdsDistinct(t: Tables)
    requires RowsNumbered(t) && LinksResolve(t)
    ensures forall i, j | 0 <= i < j < |Join(t)| :: Join(t)[i].link.id != Join(t)[j].link.id
  {
    ScanHolds(t.links, t.linkSeq);
    ScanIncreasing(t.links, t.linkSeq);
    JoinedKeepsAll(t, Scan(t.links, t.linkSeq));
  }

  lemma {:induction false} ScanIncreasing(m: map<int, Link>, n: nat)
    requires forall i | i in m :: m[i].id == i
    ensures forall i | 0 <= i < |Scan(m, n)| :: Scan(m, n)[i].id <= n
    ensures forall i, j | 0 <= i < j < |Scan(m, n)| :: Scan(m, n)[i].id < Scan(m, n)[j].id
  {
    if n > 0 {
      ScanIncreasing(m, n - 1);
    }
  }

  // ---- the two listing methods ----

  /** The rows are the associations of the table that keep selects, each exactly once and
      joined to its system's current name, in the given order. */
  ghost predicate Lists(t: Tables, rows: seq<Association>, keep: Association -> bool,
                        before: (Association, Association) -> bool) {
    && (forall a :: a in rows <==> Joins(t, a) && keep(a))
    && (forall i, j | 0 <= i < j < |rows| :: rows[i].link.id != rows[j].link.id)
    && Ordered(before, rows)
  }

  predicate Joins(t: Tables, a: Association) {
    var id := a.link.id;
    && id in t.links && t.links[id] == a.link
    && a.link.systemId in t.systems && t.systems[a.link.systemId].name == a.systemName
  }

  const ANY := (a: Association) => true

  lemma JoinHolds(t: Tables, a: Association)
    requires RowsNumbered(t) && LinksResolve(t)
    ensures a in Join(t) <==> Joins(t, a)
  {
    JoinIsComplete(t);
    JoinSystemNames(t);
    hide Join;
    if Joins(t, a) {
      assert a == Association(t.links[a.link.id], t.systems[t.links[a.link.id].systemId].name);
    }
  }

  lemma JoinSystemNames(t: Tables)
    requires RowsNumbered(t) && LinksResolve(t)
    ensures forall a | a in Join(t) :: a.link.systemId in t.systems && a.systemName == t.systems[a.link.systemId].name
  {
    ScanHolds(t.links, t.linkSeq);
    JoinedKeepsAll(t, Scan(t.links, t.linkSeq));
  }

  /** Any part of the join, ordered, lists that part. */
  lemma OrderedPartLists(t: Tables, keep: Association -> bool, before: (Association, Association) -> bool)
    requires RowsNumbered(t) && LinksResolve(t) && (before == BY_PERSON || before == BY_SYSTEM)
    ensures Lists(t, OrderBy(Filter(Join(t), keep), before), keep, before)
  {
    var part := Filter(Join(t), keep);
    var rows := OrderBy(part, before);
    JoinDecides(t);
    OrdersAreTransitive();
    FilterDecides(Join(t), keep, before);
    FilterKeeps(Join(t), keep);
    hide Join, OrderBy, Filter, Joins, RowsNumbered, LinksResolve, Less, Lower;
    OrderByOrders(part, before);
    OrderByPermutes(part, before);
    forall a
      ensures a in rows <==> Joins(t, a) && keep(a)
    {
      SameElements(rows, part, a);
      JoinHolds(t, a);
    }
    forall i, j | 0 <= i < j < |rows|
      ensures rows[i].link.id != rows[j].link.id
    {
      assert before(rows[i], rows[j]);
      assert rows[i] in rows && rows[j] in rows;
      if rows[i].link.id == rows[j].link.id {
        SameLink(t, rows[i], rows[j]);
        NotBeforeItself(rows[i]);
        assert false;
      }
    }
  }

  lemma SameLink(t: Tables, a: Association, b: Association)
    requires Joins(t, a) && Joins(t, b) && a.link.id == b.link.id
    ensures a == b
  {
  }

  lemma NotBeforeItself(a: Association)
    ensures !ByPerson(a, a) && !BySystem(a, a)
  {
    NoCaseTotal(a.systemName, a.systemName);
  }

  lemma JoinedRow(t: Tables, rows: seq<Link>, k: nat)
    requires k < |rows|
    ensures Joined(t, rows[k..]) ==
            (if rows[k].systemId in t.systems then [Association(rows[k], t.systems[rows[k].systemId].name)] else []) +
            Joined(t, rows[k + 1..])
  {
    assert rows[k..][1..] == rows[k + 1..];
  }

  /** One more link in front of the rows so far, joined, filtered and ordered. */
  lemma OneMoreRow(t: Tables, l: Link, rest: seq<Association>, keep: Association -> bool,
                   before: (Association, Association) -> bool)
    ensures l.systemId in t.systems ==>
              var a := Association(l, t.systems[l.systemId].name);
              && OrderBy([a] + rest, before) == Insert(a, OrderBy(rest, before), before)
              && OrderBy(Filter([a] + rest, keep), before) ==
                 if keep(a) then Insert(a, OrderBy(Filter(rest, keep), before), before)
                 else OrderBy(Filter(rest, keep), before)
    ensures [] + rest == rest
  {
    if l.systemId in t.systems {
      var a := Association(l, t.systems[l.systemId].name);
      assert ([a] + rest)[1..] == rest;
      assert ([a] + Filter(rest, keep))[1..] == Filter(rest, keep);
      assert [] + Filter(rest, keep) == Filter(rest, keep);
    }
  }

  /** Each link joined to its system and put in its place: on the tables of any run, every
      association exactly once, by person and id. */
  method ListAllAssociations(t: Tables) returns (out: seq<Association>)
    ensures out == AllAssociations(t)
    ensures RowsNumbered(t) && LinksResolve(t) ==> Lists(t, out, ANY, BY_PERSON)
  {
    hide RowsNumbered, LinksResolve, Lists;
    var rows := Scan(t.links, t.linkSeq);
    out := [];
    for k := |rows| downto 0
      invariant out == OrderBy(Joined(t, rows[k..]), BY_PERSON)
    {
      JoinedRow(t, rows, k);
      OneMoreRow(t, rows[k], Joined(t, rows[k + 1..]), ANY, BY_PERSON);
      if rows[k].systemId in t.systems {
        out := Insert(Association(rows[k], t.systems[rows[k].systemId].name), out, BY_PERSON);
      }
    }
    assert rows[0..] == rows;
    if RowsNumbered(t) && LinksResolve(t) {
      FilterAll(Join(t), ANY);
      OrderedPartLists(t, ANY, BY_PERSON);
    }
  }

  /** The same for one person's links: on the tables of any run, each of them exactly once, by
      folded system name and id. */
  method ListAssociationsForPerson(t: Tables, p: int) returns (out: seq<Association>)
    ensures out == AssociationsForPerson(t, p)
    ensures RowsNumbered(t) && LinksResolve(t) ==>
              Lists(t, out, (a: Association) => a.link.personId == p, BY_SYSTEM)
  {
    hide RowsNumbered, LinksResolve, Lists;
    var rows := Scan(t.links, t.linkSeq);
    var mine := (a: Association) => a.link.personId == p;
    out := [];
    for k := |rows| downto 0
      invariant out == OrderBy(Filter(Joined(t, rows[k..]), mine), BY_SYSTEM)
    {
      JoinedRow(t, rows, k);
      OneMoreRow(t, rows[k], Joined(t, rows[k + 1..]), mine, BY_SYSTEM);
      if rows[k].systemId in t.systems && rows[k].personId == p {
        out := Insert(Association(rows[k], t.systems[rows[k].systemId].name), out, BY_SYSTEM);
      }
    }
    assert rows[0..] == rows;
    if RowsNumbered(t) && LinksResolve(t) {
      OrderedPartLists(t, mine, BY_SYSTEM);
    }
  }
}
