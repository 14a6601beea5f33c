/** Reading the audit log on its own: rebuilding the tables from it, and the grammar its
    rows obey. Nothing here looks at the database; the theorems connect the two. */
module Replay {
  import opened Text
  import opened Schema

  datatype Invite = Invite(upn: string, invitedBy: string)

  /** What the log says: the audited tables, and the open invitations by folded UPN. */
  datatype Book = Book(t: Tables, invites: map<string, Invite>)

  const BLANK := Book(NO_TABLES, map[])

  /** A row read as an edit of the tables so far; a row that names a missing entity edits
      nothing. The columns created_by, updated_by, disabled_by and removed_by hold the UPN
      of the row's actor. */
  function Edit(b: Book, row: AuditRow): Book {
    var t, who := b.t, row.actor.upn;
    match row.event
    case TenantBootstrap(tid, id, oid, upn) =>
      b.(t := t.(tenant := tid, stewards := t.stewards[id := Steward(id, oid, upn, "bootstrap", None)],
                 stewardSeq := Last(id)))
    case PersonCreate(id, name) =>
      b.(t := t.(persons := t.persons[id := Person(id, name, who, who)], personSeq := Last(id)))
    case PersonRename(id, _, name) =>
      if id !in t.persons then b
      else b.(t := t.(persons := t.persons[id := t.persons[id].(name := name, updatedBy := who)]))
    case SystemCreate(id, name) =>
      b.(t := t.(systems := t.systems[id := System(id, name, who, who, None)], systemSeq := Last(id)))
    case SystemRename(id, _, name) =>
      if id !in t.systems then b
      else b.(t := t.(systems := t.systems[id := t.systems[id].(name := name, updatedBy := who)]))
    case SystemDisable(id, _) =>
      if id !in t.systems then b
      else b.(t := t.(systems := t.systems[id := t.systems[id].(disabledBy := Some(who))]))
    case SystemEnable(id, _) =>
      if id !in t.systems then b
      else b.(t := t.(systems := t.systems[id := t.systems[id].(disabledBy := None)]))
    case AssociationCreate(p, id, y, _, fid) =>
      b.(t := t.(links := t.links[id := Link(id, p, y, fid, who)], linkSeq := Last(id)))
    case AssociationRemove(_, id, _, _, _) => b.(t := t.(links := t.links - {id}))
    case StewardInvite(upn) => b.(invites := b.invites[Lower(upn) := Invite(upn, who)])
    case StewardUninvite(upn) => b.(invites := b.invites - {Lower(upn)})
    case StewardPromote(id, oid, upn, inviter) =>
      Book(t.(stewards := t.stewards[id := Steward(id, oid, upn, inviter, None)], stewardSeq := Last(id)),
           b.invites - {Lower(upn)})
    case StewardDemote(id, _, _) =>
      if id !in t.stewards then b
      else b.(t := t.(stewards := t.stewards[id := t.stewards[id].(removedBy := Some(who))]))
  }

  /** The AUTOINCREMENT counter after assigning id. */
  function Last(id: int): nat {
    if id < 0 then 0 else id
  }

  function Replayed(log: seq<AuditRow>): Book {
    if log == [] then BLANK else Edit(Replayed(log[..|log| - 1]), log[|log| - 1])
  }

  lemma ReplayedSnoc(log: seq<AuditRow>, row: AuditRow)
    ensures Replayed(log + [row]) == Edit(Replayed(log), row)
  {
    assert (log + [row])[..|log|] == log;
  }

  /** The grammar of the log: what may follow the rows that led to b. Creations take the next
      id of their table; edits name an existing row in the right state, and quote it
      truthfully; the tenant is bound once. */
  predicate Follows(b: Book, row: AuditRow) {
    var t := b.t;
    row.actor.oid != "" &&
    match row.event
    case TenantBootstrap(tid, id, oid, upn) =>
      t.tenant == "" && tid != "" && id == t.stewardSeq + 1 && row.actor == Actor(oid, upn)
    case PersonCreate(id, name) => id == t.personSeq + 1
    case PersonRename(id, from, to) =>
      id in t.persons && t.persons[id].name == from && from != to
    case SystemCreate(id, name) => id == t.systemSeq + 1 && name != ""
    case SystemRename(id, from, to) =>
      id in t.systems && !t.systems[id].Disabled() && t.systems[id].name == from && from != to && to != ""
    case SystemDisable(id, name) =>
      id in t.systems && !t.systems[id].Disabled() && t.systems[id].name == name
    case SystemEnable(id, name) =>
      id in t.systems && t.systems[id].Disabled() && t.systems[id].name == name
    case AssociationCreate(p, id, y, name, fid) =>
      id == t.linkSeq + 1 && p in t.persons && y in t.systems && t.systems[y].name == name
    case AssociationRemove(p, id, y, name, fid) =>
      id in t.links && t.links[id].personId == p && t.links[id].systemId == y &&
      t.links[id].foreignId == fid && y in t.systems && t.systems[y].name == name
    case StewardInvite(upn) => upn != "" && !ActiveUpn(t, upn)
    case StewardUninvite(upn) => Lower(upn) in b.invites && b.invites[Lower(upn)].upn == upn
    case StewardPromote(id, oid, upn, inviter) =>
      id == t.stewardSeq + 1 && row.actor == Actor(oid, upn) && !ActiveOid(t, oid) &&
      Lower(upn) in b.invites && b.invites[Lower(upn)].invitedBy == inviter
    case StewardDemote(id, oid, upn) =>
      id in t.stewards && !t.stewards[id].Removed() && t.stewards[id].oid == oid &&
      t.stewards[id].upn == upn && row.actor.oid != oid
  }

  ghost predicate Grammatical(log: seq<AuditRow>) {
    forall k | 0 <= k < |log| :: Follows(Replayed(log[..k]), log[k])
  }

  lemma GrammaticalSnoc(log: seq<AuditRow>, row: AuditRow)
    requires Grammatical(log) && Follows(Replayed(log), row)
    ensures Grammatical(log + [row])
  {
    var longer := log + [row];
    forall k | 0 <= k < |longer|
      ensures Follows(Replayed(longer[..k]), longer[k])
    {
      assert longer[..k] == if k < |log| then log[..k] else log;
    }
  }
}
