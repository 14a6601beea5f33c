/** The tables of the registry, the statements that write them with the constraints of the
    schema, and the single-row reads. Row timestamps other than audit_log.occurred_at are
    not modelled; a nullable (at, by) pair of columns is one optional "by". */
module Schema {
  import opened Text

  datatype Error =
    | ActorRequired | NameRequired | UpnRequired | ClaimIncomplete
    | NotFound | AlreadyBound | AlreadySteward | AlreadyInvited | SelfRemoval
    | NoRows       // sql.ErrNoRows
    | Constraint   // a UNIQUE index or FOREIGN KEY rejected the statement
    | StoreFault   // any other failure of a call into the store
    | BadEntry     // WriteAudit refused an incomplete entry

  datatype Result<+T> = Ok(value: T) | Err(error: Error)

  datatype Person = Person(id: int, name: string, createdBy: string, updatedBy: string)

  datatype System = System(id: int, name: string, createdBy: string, updatedBy: string,
                           disabledBy: Option<string>)
  {
    predicate Disabled() { disabledBy.Some? }
  }

  datatype Link = Link(id: int, personId: int, systemId: int, foreignId: string, createdBy: string)

  /** An association as it is read: joined to the current name of its system. */
  datatype Association = Association(link: Link, systemName: string)

  datatype Steward = Steward(id: int, oid: string, upn: string, promotedBy: string,
                             removedBy: Option<string>)
  {
    predicate Removed() { removedBy.Some? }
  }

  datatype Pending = Pending(id: int, upn: string, invitedBy: string)

  datatype Actor = Actor(oid: string, upn: string)

  /** An audit entry: each action with the entity and the details core files under it. */
  datatype Event =
    | TenantBootstrap(tenantId: string, stewardId: int, oid: string, upn: string)
    | PersonCreate(personId: int, name: string)
    | PersonRename(personId: int, oldName: string, newName: string)
    | SystemCreate(systemId: int, name: string)
    | SystemRename(systemId: int, oldName: string, newName: string)
    | SystemDisable(systemId: int, name: string)
    | SystemEnable(systemId: int, name: string)
    | AssociationCreate(personId: int, associationId: int, systemId: int, systemName: string, foreignId: string)
    | AssociationRemove(personId: int, associationId: int, systemId: int, systemName: string, foreignId: string)
    | StewardInvite(upn: string)
    | StewardUninvite(upn: string)
    | StewardPromote(stewardId: int, oid: string, upn: string, invitedBy: string)
    | StewardDemote(stewardId: int, oid: string, upn: string)
  {
    function Action(): string {
      match this
      case TenantBootstrap(_, _, _, _) => "tenant.bootstrap"
      case PersonCreate(_, _) => "person.create"
      case PersonRename(_, _, _) => "person.rename"
      case SystemCreate(_, _) => "system.create"
      case SystemRename(_, _, _) => "system.rename"
      case SystemDisable(_, _) => "system.disable"
      case SystemEnable(_, _) => "system.enable"
      case AssociationCreate(_, _, _, _, _) => "association.create"
      case AssociationRemove(_, _, _, _, _) => "association.remove"
      case StewardInvite(_) => "steward.invite"
      case StewardUninvite(_) => "steward.uninvite"
      case StewardPromote(_, _, _, _) => "steward.promote"
      case StewardDemote(_, _, _) => "steward.demote"
    }

    /** Association entries are filed under their person. */
    function EntityType(): string {
      if TenantBootstrap? then "tenant"
      else if PersonCreate? || PersonRename? || AssociationCreate? || AssociationRemove? then "person"
      else if SystemCreate? || SystemRename? || SystemDisable? || SystemEnable? then "system"
      else "steward"
    }

    /** The entity_id column: NULL when the entry names no row. */
    function EntityId(): Option<int> {
      var id :=
        if PersonCreate? || PersonRename? || AssociationCreate? || AssociationRemove? then personId
        else if SystemCreate? || SystemRename? || SystemDisable? || SystemEnable? then systemId
        else if StewardPromote? || StewardDemote? then stewardId
        else 0;
      if id == 0 then None else Some(id)
    }
  }

  datatype AuditRow = AuditRow(id: int, at: string, actor: Actor, event: Event)

  /** The tables every change of which is audited, each with the id AUTOINCREMENT assigned
      last. An unbound tenant (NULL) is the empty string. */
  datatype Tables = Tables(
    tenant: string,
    persons: map<int, Person>, personSeq: nat,
    systems: map<int, System>, systemSeq: nat,
    links: map<int, Link>, linkSeq: nat,
    stewards: map<int, Steward>, stewardSeq: nat)

  /** A database: the audited tables, the pending invitations, and the audit log. */
  datatype State = State(t: Tables, pending: map<int, Pending>, pendingSeq: nat, log: seq<AuditRow>)

  const NO_TABLES := Tables("", map[], 0, map[], 0, map[], 0, map[], 0)

  /** The database after the first migration. */
  const EMPTY := State(NO_TABLES, map[], 0, [])

  // ---- reads ----

  function Row<T>(m: map<int, T>, id: int): Option<T> {
    if id in m then Some(m[id]) else None
  }

  /** Deleting a row leaves one row less. */
  lemma SizeWithout<T>(m: map<int, T>, i: int)
    requires i in m
    ensures |m| == |m - {i}| + 1
  {
    assert m.Keys == (m - {i}).Keys + {i};
  }

  /** GetAssociation: an inner join, so a link without its system is not found. */
  function GetAssociation(t: Tables, id: int): Option<Association> {
    if id in t.links && t.links[id].systemId in t.systems
    then Some(Association(t.links[id], t.systems[t.links[id].systemId].name))
    else None
  }

  predicate ActiveOid(t: Tables, oid: string) {
    exists i | i in t.stewards :: !t.stewards[i].Removed() && t.stewards[i].oid == oid
  }

  predicate ActiveUpn(t: Tables, upn: string) {
    exists i | i in t.stewards :: !t.stewards[i].Removed() && Lower(t.stewards[i].upn) == Lower(upn)
  }

  /** The first of the rows 1..n whose UPN folds to key, in row order. */
  function FirstInvited(m: map<int, Pending>, n: nat, key: string): (r: Option<Pending>)
    ensures r.Some? ==> exists i | 1 <= i <= n :: i in m && m[i] == r.value && Lower(m[i].upn) == key
    ensures r.None? ==> forall i | 1 <= i <= n && i in m :: Lower(m[i].upn) != key
  {
    if n == 0 then None
    else
      var earlier := FirstInvited(m, n - 1, key);
      if earlier.Some? then earlier
      else if n in m && Lower(m[n].upn) == key then Some(m[n])
      else None
  }

  /** GetPendingStewardByUPN. */
  function Invited(s: State, upn: string): Option<Pending> {
    FirstInvited(s.pending, s.pendingSeq, Lower(upn))
  }

  // ---- writes ----

  datatype Write =
    | BindTenant(tid: string)
    | InsertPerson(name: string, who: string)
    | UpdatePersonName(id: int, name: string, who: string)
    | InsertSystem(name: string, who: string)
    | UpdateSystemName(id: int, name: string, who: string)
    | DisableSystem(id: int, who: string)
    | EnableSystem(id: int)
    | InsertAssociation(personId: int, systemId: int, foreignId: string, who: string)
    | DeleteAssociation(id: int)
    | InsertSteward(oid: string, upn: string, who: string)
    | DemoteSteward(id: int, who: string)
    | InsertPendingSteward(upn: string, who: string)
    | DeletePendingSteward(id: int)
    | InsertAudit(at: string, actor: Actor, event: Event)

  /** The constraints of the schema on one statement: the foreign keys of associations, the
      partial unique index on active stewards, and the UNIQUE on pending UPNs. */
  predicate Permitted(w: Write, s: State) {
    match w
    case InsertAssociation(p, y, _, _) => p in s.t.persons && y in s.t.systems
    case InsertSteward(oid, _, _) => !ActiveOid(s.t, oid)
    case InsertPendingSteward(upn, _) => forall i | i in s.pending :: s.pending[i].upn != upn
    case _ => true
  }

  /** Whether an UPDATE or DELETE finds its row; an INSERT always adds one. */
  predicate Hits(w: Write, s: State) {
    match w
    case UpdatePersonName(id, _, _) => id in s.t.persons
    case UpdateSystemName(id, _, _) => id in s.t.systems && !s.t.systems[id].Disabled()
    case DisableSystem(id, _) => id in s.t.systems && !s.t.systems[id].Disabled()
    case EnableSystem(id) => id in s.t.systems && s.t.systems[id].Disabled()
    case DeleteAssociation(id) => id in s.t.links
    case DemoteSteward(id, _) => id in s.t.stewards && !s.t.stewards[id].Removed()
    case DeletePendingSteward(id) => id in s.pending
    case _ => true
  }

  /** The tables after a permitted statement that finds its row. */
  function Effect(w: Write, s: State): State
    requires Permitted(w, s) && Hits(w, s)
  {
    var t := s.t;
    match w
    case BindTenant(tid) => s.(t := t.(tenant := tid))
    case InsertPerson(name, who) =>
      var id := t.personSeq + 1;
      s.(t := t.(persons := t.persons[id := Person(id, name, who, who)], personSeq := id))
    case UpdatePersonName(id, name, who) =>
      s.(t := t.(persons := t.persons[id := t.persons[id].(name := name, updatedBy := who)]))
    case InsertSystem(name, who) =>
      var id := t.systemSeq + 1;
      s.(t := t.(systems := t.systems[id := System(id, name, who, who, None)], systemSeq := id))
    case UpdateSystemName(id, name, who) =>
      s.(t := t.(systems := t.systems[id := t.systems[id].(name := name, updatedBy := who)]))
    case DisableSystem(id, who) =>
      s.(t := t.(systems := t.systems[id := t.systems[id].(disabledBy := Some(who))]))
    case EnableSystem(id) =>
      s.(t := t.(systems := t.systems[id := t.systems[id].(disabledBy := None)]))
    case InsertAssociation(p, y, fid, who) =>
      var id := t.linkSeq + 1;
      s.(t := t.(links := t.links[id := Link(id, p, y, fid, who)], linkSeq := id))
    case DeleteAssociation(id) => s.(t := t.(links := t.links - {id}))
    case InsertSteward(oid, upn, who) =>
      var id := t.stewardSeq + 1;
      s.(t := t.(stewards := t.stewards[id := Steward(id, oid, upn, who, None)], stewardSeq := id))
    case DemoteSteward(id, who) =>
      s.(t := t.(stewards := t.stewards[id := t.stewards[id].(removedBy := Some(who))]))
    case InsertPendingSteward(upn, who) =>
      var id := s.pendingSeq + 1;
      s.(pending := s.pending[id := Pending(id, upn, who)], pendingSeq := id)
    case DeletePendingSteward(id) => s.(pending := s.pending - {id})
    case InsertAudit(at, actor, event) =>
      s.(log := s.log + [AuditRow(|s.log| + 1, at, actor, event)])
  }

  /** One statement: None when a constraint rejects it, no change when it finds no row. */
  function Exec(w: Write, s: State): Option<State> {
    if !Permitted(w, s) then None
    else if !Hits(w, s) then Some(s)
    else Some(Effect(w, s))
  }

  /** Statements in sequence, stopping at the first rejection. */
  function ExecAll(ws: seq<Write>, s: State): Option<State> {
    if ws == [] then Some(s)
    else
      match ExecAll(ws[..|ws| - 1], s)
      case None => None
      case Some(mid) => Exec(ws[|ws| - 1], mid)
  }

  function Then(w: Write, s: Option<State>): Option<State> {
    if s.None? then None else Exec(w, s.value)
  }

  lemma ExecAllShort(s: State, a: Write, b: Write, c: Write)
    ensures ExecAll([a], s) == Exec(a, s)
    ensures ExecAll([a, b], s) == Then(b, Exec(a, s))
    ensures ExecAll([a, b, c], s) == Then(c, Then(b, Exec(a, s)))
  {
    assert [a][..0] == [];
    assert [a, b][..1] == [a];
    assert [a, b, c][..2] == [a, b];
  }
}
