/** What the grammar means for the history of one entity, read off the log alone. Together
    with LogTruth these hold of the log of every run. */
module LogGrammar {
  import opened Text
  import opened Schema
  import opened Replay

  /** The book after the first k rows. */
  function After(log: seq<AuditRow>, k: nat): Book
    requires k <= |log|
  {
    Replayed(log[..k])
  }

  lemma AfterNext(log: seq<AuditRow>, k: nat)
    requires k < |log|
    ensures After(log, k + 1) == Edit(After(log, k), log[k])
  {
    assert log[..k + 1] == log[..k] + [log[k]];
    ReplayedSnoc(log[..k], log[k]);
  }

  predicate Disables(row: AuditRow, id: int) {
    row.event.SystemDisable? && row.event.systemId == id
  }

  predicate Enables(row: AuditRow, id: int) {
    row.event.SystemEnable? && row.event.systemId == id
  }

  /** A row that is not about a kind of entity leaves that table alone. */
  lemma Untouched(b: Book, row: AuditRow)
    ensures var e, t, t' := row.event, b.t, Edit(b, row).t;
            && (!e.SystemCreate? && !e.SystemRename? && !e.SystemDisable? && !e.SystemEnable? ==>
                  t'.systems == t.systems && t'.systemSeq == t.systemSeq)
            && (!e.PersonCreate? && !e.PersonRename? ==> t'.persons == t.persons)
            && (!e.AssociationCreate? && !e.AssociationRemove? ==>
                  t'.links == t.links && t'.linkSeq == t.linkSeq)
            && (!e.TenantBootstrap? && !e.StewardPromote? && !e.StewardDemote? ==>
                  t'.stewards == t.stewards && t'.stewardSeq == t.stewardSeq)
  {
  }

  /** How one row moves one system between active and disabled. */
  lemma SystemEdit(b: Book, row: AuditRow, id: int)
    requires Follows(b, row)
    ensures var t, t' := b.t, Edit(b, row).t;
            && (id in t.systems && id <= t.systemSeq ==>
                  && id in t'.systems && id <= t'.systemSeq
                  && (!Disables(row, id) && !Enables(row, id) ==>
                        t'.systems[id].Disabled() == t.systems[id].Disabled()))
            && (id in t'.systems && id !in t.systems ==> id <= t'.systemSeq && !t'.systems[id].Disabled())
            && (Disables(row, id) ==> id in t.systems && !t.systems[id].Disabled() && t'.systems[id].Disabled())
            && (Enables(row, id) ==> id in t.systems && t.systems[id].Disabled() && !t'.systems[id].Disabled())
            && (Rename(row, OneSystem(id)) ==> id in t.systems && !t.systems[id].Disabled())
  {
    hide ActiveOid, ActiveUpn;
    Untouched(b, row);
    if !(row.event.SystemCreate? || row.event.SystemRename? || row.event.SystemDisable? || row.event.SystemEnable?) {
      hide Follows, Edit;
    }
  }

  lemma RowAt(log: seq<AuditRow>, k: nat)
    requires Grammatical(log) && k < |log|
    ensures Follows(After(log, k), log[k]) && After(log, k + 1) == Edit(After(log, k), log[k])
  {
    AfterNext(log, k);
  }

  lemma {:induction false} SystemsCounted(log: seq<AuditRow>, id: int, k: nat)
    requires Grammatical(log) && k <= |log|
    ensures id in After(log, k).t.systems ==> id <= After(log, k).t.systemSeq
  {
    if k > 0 {
      hide After, Follows, Edit, Grammatical;
      SystemsCounted(log, id, k - 1);
      RowAt(log, k - 1);
      SystemEdit(After(log, k - 1), log[k - 1], id);
    }
  }

  /** After a switch, a row that presupposes the opposite state has a switch back before it. */
  lemma FirstSwitch(log: seq<AuditRow>, id: int, i: nat, j: nat)
    requires Grammatical(log) && i < j < |log|
    requires id in After(log, i + 1).t.systems && id in After(log, j).t.systems
    requires After(log, i + 1).t.systems[id].Disabled() != After(log, j).t.systems[id].Disabled()
    ensures exists k | i < k < j ::
              if After(log, i + 1).t.systems[id].Disabled() then Enables(log[k], id) else Disables(log[k], id)
  {
    hide After, Follows, Edit, Grammatical;
    var off := After(log, i + 1).t.systems[id].Disabled();
    SystemsCounted(log, id, i + 1);
    var k := i + 1;
    while !Disables(log[k], id) && !Enables(log[k], id)
      invariant i < k < j
      invariant id in After(log, k).t.systems && id <= After(log, k).t.systemSeq
      invariant After(log, k).t.systems[id].Disabled() == off
      decreases j - k
    {
      RowAt(log, k);
      SystemEdit(After(log, k), log[k], id);
      k := k + 1;
    }
    RowAt(log, k);
    SystemEdit(After(log, k), log[k], id);
  }

  /** Disable and enable rows of a system alternate: between two of the same kind there is
      one of the other. And no rename falls between a disable and the next enable. */
  lemma DisableEnableAlternate(log: seq<AuditRow>, id: int, i: nat, j: nat)
    requires Grammatical(log) && i < j < |log|
    ensures Disables(log[i], id) && (Disables(log[j], id) || Rename(log[j], OneSystem(id))) ==>
            exists k | i < k < j :: Enables(log[k], id)
    ensures Enables(log[i], id) && Enables(log[j], id) ==>
            exists k | i < k < j :: Disables(log[k], id)
  {
    hide After, Follows, Edit, Grammatical;
    RowAt(log, i);
    SystemEdit(After(log, i), log[i], id);
    RowAt(log, j);
    SystemEdit(After(log, j), log[j], id);
    if Disables(log[i], id) && (Disables(log[j], id) || Rename(log[j], OneSystem(id))) {
      SwitchedRowsExist(log, id, i);
      FirstSwitch(log, id, i, j);
    }
    if Enables(log[i], id) && Enables(log[j], id) {
      SwitchedRowsExist(log, id, i);
      FirstSwitch(log, id, i, j);
    }
  }

  lemma SwitchedRowsExist(log: seq<AuditRow>, id: int, i: nat)
    requires Grammatical(log) && i < |log| && id in After(log, i).t.systems
    ensures id in After(log, i + 1).t.systems
  {
    hide After, Follows, Edit, Grammatical;
    SystemsCounted(log, id, i);
    RowAt(log, i);
    SystemEdit(After(log, i), log[i], id);
  }

  /** The first switch of a system is a disable: before every enable row there is one. */
  lemma EnableHasDisable(log: seq<AuditRow>, id: int, j: nat)
    requires Grammatical(log) && j < |log| && Enables(log[j], id)
    ensures exists m | 0 <= m < j :: Disables(log[m], id)
  {
    hide After, Follows, Edit, Grammatical;
    RowAt(log, j);
    SystemEdit(After(log, j), log[j], id);
    DisabledHasRow(log, id, j);
  }

  lemma {:induction false} DisabledHasRow(log: seq<AuditRow>, id: int, k: nat)
    requires Grammatical(log) && k <= |log|
    requires id in After(log, k).t.systems && After(log, k).t.systems[id].Disabled()
    ensures exists m | 0 <= m < k :: Disables(log[m], id)
  {
    if k > 0 {
      hide After, Follows, Edit, Grammatical;
      SystemsCounted(log, id, k - 1);
      RowAt(log, k - 1);
      SystemEdit(After(log, k - 1), log[k - 1], id);
      if !Disables(log[k - 1], id) {
        DisabledHasRow(log, id, k - 1);
      }
    }
  }

  // ---- names ----

  /** An entity that has a name. */
  datatype Named = OnePerson(id: int) | OneSystem(id: int)

  function NameOf(b: Book, who: Named): Option<string> {
    match who
    case OnePerson(id) => if id in b.t.persons then Some(b.t.persons[id].name) else None
    case OneSystem(id) => if id in b.t.systems then Some(b.t.systems[id].name) else None
  }

  predicate Rename(row: AuditRow, who: Named) {
    match who
    case OnePerson(id) => row.event.PersonRename? && row.event.personId == id
    case OneSystem(id) => row.event.SystemRename? && row.event.systemId == id
  }

  predicate Creation(row: AuditRow, who: Named) {
    match who
    case OnePerson(id) => row.event.PersonCreate? && row.event.personId == id
    case OneSystem(id) => row.event.SystemCreate? && row.event.systemId == id
  }

  /** The name a row gives: the created name, or the one a rename changes to. */
  function NameGiven(row: AuditRow, who: Named): Option<string> {
    if Creation(row, who) then Some(row.event.name)
    else if Rename(row, who) then Some(row.event.newName)
    else None
  }

  /** Row m names the entity, and is the last to do so before j. */
  ghost predicate LastNaming(log: seq<AuditRow>, who: Named, m: int, j: int)
    requires j <= |log|
  {
    0 <= m < j && NameGiven(log[m], who).Some? && forall k | m < k < j :: NameGiven(log[k], who).None?
  }

  /** How one row names one entity. */
  lemma Naming(b: Book, row: AuditRow, who: Named)
    requires Follows(b, row)
    ensures NameOf(Edit(b, row), who) ==
            if NameGiven(row, who).Some? then NameGiven(row, who) else NameOf(b, who)
    ensures Rename(row, who) ==> NameOf(b, who) == Some(row.event.oldName)
  {
    hide ActiveOid, ActiveUpn;
    Untouched(b, row);
    var e := row.event;
    var aboutPerson := e.PersonCreate? || e.PersonRename?;
    if !aboutPerson && !(e.SystemCreate? || e.SystemRename? || e.SystemDisable? || e.SystemEnable?) {
      hide Follows, Edit;
    }
  }

  lemma LastNamingNext(log: seq<AuditRow>, who: Named, k: nat)
    requires k < |log|
    ensures NameGiven(log[k], who).Some? ==> LastNaming(log, who, k, k + 1)
    ensures NameGiven(log[k], who).None? ==>
              forall m | LastNaming(log, who, m, k) :: LastNaming(log, who, m, k + 1)
  {
    hide NameGiven;
  }

  /** A name in the book was given by the last row naming its entity. */
  lemma {:induction false} NameHasRow(log: seq<AuditRow>, who: Named, k: nat)
    requires Grammatical(log) && k <= |log| && NameOf(After(log, k), who).Some?
    ensures exists m :: LastNaming(log, who, m, k) && NameGiven(log[m], who) == NameOf(After(log, k), who)
  {
    if k > 0 {
      hide After, Follows, Edit, Grammatical, NameOf, NameGiven, LastNaming;
      RowAt(log, k - 1);
      Naming(After(log, k - 1), log[k - 1], who);
      LastNamingNext(log, who, k - 1);
      if NameGiven(log[k - 1], who).None? {
        NameHasRow(log, who, k - 1);
      }
    }
  }

  /** Every rename of a person or a system has a row naming that entity before it, and starts
      from the name the last such row gave: its `to`, or the created name. */
  lemma RenamesChain(log: seq<AuditRow>, who: Named, j: nat)
    requires Grammatical(log) && j < |log| && Rename(log[j], who)
    ensures exists m :: LastNaming(log, who, m, j) && NameGiven(log[m], who) == Some(log[j].event.oldName)
  {
    hide After, Follows, Edit, Grammatical, NameOf, NameGiven, LastNaming;
    RowAt(log, j);
    Naming(After(log, j), log[j], who);
    NameHasRow(log, who, j);
  }

  /** So the chain of names starts at a creation: every rename has one before it. */
  lemma {:induction false} RenameHasCreation(log: seq<AuditRow>, who: Named, j: nat)
    requires Grammatical(log) && j < |log| && Rename(log[j], who)
    ensures exists m | 0 <= m < j :: Creation(log[m], who)
    decreases j
  {
    RenamesChain(log, who, j);
    var m :| LastNaming(log, who, m, j);
    if !Creation(log[m], who) {
      hide Grammatical;
      RenameHasCreation(log, who, m);
    }
  }

  // ---- creations, removals and demotions happen once ----

  predicate Creates(row: AuditRow, id: int) {
    row.event.AssociationCreate? && row.event.associationId == id
  }

  predicate Removes(row: AuditRow, id: int) {
    row.event.AssociationRemove? && row.event.associationId == id
  }

  /** What one row does to one link. */
  lemma LinkEdit(b: Book, row: AuditRow, id: int)
    requires Follows(b, row)
    ensures var t, t' := b.t, Edit(b, row).t;
            && t.linkSeq <= t'.linkSeq
            && (id <= t.linkSeq && id !in t.links ==> id !in t'.links)
            && (id in t'.links && !Creates(row, id) ==> id in t.links && t'.links[id] == t.links[id])
            && (Creates(row, id) ==>
                  id == t.linkSeq + 1 == t'.linkSeq && id in t'.links &&
                  t'.links[id] == Link(id, row.event.personId, row.event.systemId, row.event.foreignId, row.actor.upn))
            && (Removes(row, id) ==>
                  id in t.links && id !in t'.links && t.links[id].personId == row.event.personId &&
                  t.links[id].systemId == row.event.systemId && t.links[id].foreignId == row.event.foreignId)
  {
    hide ActiveOid, ActiveUpn;
    Untouched(b, row);
    if !(row.event.AssociationCreate? || row.event.AssociationRemove?) {
      hide Follows, Edit;
    }
  }

  /** The row's creation gave the link its fields. */
  predicate GaveLink(row: AuditRow, id: int, link: Link) {
    Creates(row, id) &&
    link == Link(id, row.event.personId, row.event.systemId, row.event.foreignId, row.actor.upn)
  }

  lemma LinkCarried(b: Book, row: AuditRow, id: int)
    requires Follows(b, row) && id in Edit(b, row).t.links
    ensures GaveLink(row, id, Edit(b, row).t.links[id]) ||
            (id in b.t.links && Edit(b, row).t.links[id] == b.t.links[id])
  {
    hide Follows, Edit;
    LinkEdit(b, row, id);
  }

  /** A link in the book was created by an earlier row with the same fields. */
  lemma {:induction false} LinkHasCreation(log: seq<AuditRow>, id: int, k: nat)
    requires Grammatical(log) && k <= |log| && id in After(log, k).t.links
    ensures exists m | 0 <= m < k :: GaveLink(log[m], id, After(log, k).t.links[id])
  {
    if k > 0 {
      hide After, Follows, Edit, Grammatical, GaveLink;
      RowAt(log, k - 1);
      LinkCarried(After(log, k - 1), log[k - 1], id);
      if !GaveLink(log[k - 1], id, After(log, k).t.links[id]) {
        LinkHasCreation(log, id, k - 1);
      }
    }
  }

  predicate Used(b: Book, id: int) {
    id <= b.t.linkSeq
  }

  predicate Gone(b: Book, id: int) {
    Used(b, id) && id !in b.t.links
  }

  lemma LinkUse(b: Book, row: AuditRow, id: int)
    requires Follows(b, row)
    ensures Used(b, id) ==> Used(Edit(b, row), id)
    ensures Gone(b, id) ==> Gone(Edit(b, row), id)
  {
    hide Follows, Edit;
    LinkEdit(b, row, id);
  }

  /** Once used, an association id stays used, and once removed it stays removed. */
  lemma {:induction false} LinkStaysGone(log: seq<AuditRow>, id: int, i: nat, j: nat)
    requires Grammatical(log) && i <= j <= |log|
    ensures Used(After(log, i), id) ==> Used(After(log, j), id)
    ensures Gone(After(log, i), id) ==> Gone(After(log, j), id)
    decreases j
  {
    if i < j {
      hide After, Follows, Edit, Grammatical, Used, Gone;
      RowAt(log, j - 1);
      LinkUse(After(log, j - 1), log[j - 1], id);
      LinkStaysGone(log, id, i, j - 1);
    }
  }

  /** Each association id is created at most once and removed at most once, and no creation
      follows a removal; a removal quotes the person, the system and the foreign id of a
      creation before it. */
  lemma AssociationLifetime(log: seq<AuditRow>, id: int, i: nat, j: nat)
    requires Grammatical(log) && i < j < |log|
    ensures !(Creates(log[i], id) && Creates(log[j], id))
    ensures !(Removes(log[i], id) && Removes(log[j], id))
    ensures !(Removes(log[i], id) && Creates(log[j], id))
    ensures Removes(log[j], id) ==>
            exists m | 0 <= m < j :: Creates(log[m], id) &&
              log[m].event.personId == log[j].event.personId &&
              log[m].event.systemId == log[j].event.systemId &&
              log[m].event.foreignId == log[j].event.foreignId
  {
    hide After, Follows, Edit, Grammatical;
    RowAt(log, i);
    LinkEdit(After(log, i), log[i], id);
    RowAt(log, j);
    LinkEdit(After(log, j), log[j], id);
    if Removes(log[i], id) {
      RemovedWasUsed(log, id, i);
    }
    LinkStaysGone(log, id, i + 1, j);
    if Removes(log[j], id) {
      LinkHasCreation(log, id, j);
    }
  }

  lemma {:induction false} LinksCounted(log: seq<AuditRow>, id: int, k: nat)
    requires Grammatical(log) && k <= |log| && id in After(log, k).t.links
    ensures Used(After(log, k), id)
  {
    if k > 0 {
      hide After, Follows, Edit, Grammatical;
      RowAt(log, k - 1);
      LinkEdit(After(log, k - 1), log[k - 1], id);
      if !Creates(log[k - 1], id) {
        LinksCounted(log, id, k - 1);
      }
    }
  }

  lemma RemovedWasUsed(log: seq<AuditRow>, id: int, i: nat)
    requires Grammatical(log) && i < |log| && Removes(log[i], id)
    ensures Gone(After(log, i + 1), id)
  {
    hide After, Follows, Edit, Grammatical;
    RowAt(log, i);
    LinkEdit(After(log, i), log[i], id);
    LinksCounted(log, id, i);
  }

  predicate Promotes(row: AuditRow, id: int) {
    (row.event.StewardPromote? || row.event.TenantBootstrap?) && row.event.stewardId == id
  }

  predicate Demotes(row: AuditRow, id: int) {
    row.event.StewardDemote? && row.event.stewardId == id
  }

  /** What one row does to one steward. */
  lemma StewardEdit(b: Book, row: AuditRow, id: int)
    requires Follows(b, row)
    ensures var t, t' := b.t, Edit(b, row).t;
            && (id in t.stewards && id <= t.stewardSeq ==>
                  && id in t'.stewards && id <= t'.stewardSeq
                  && t'.stewards[id].oid == t.stewards[id].oid && t'.stewards[id].upn == t.stewards[id].upn
                  && (t.stewards[id].Removed() ==> t'.stewards[id].Removed()))
            && (id in t'.stewards && id !in t.stewards ==> Promotes(row, id))
            && (Promotes(row, id) ==>
                  id == t.stewardSeq + 1 == t'.stewardSeq && id in t'.stewards &&
                  t'.stewards[id].oid == row.event.oid && t'.stewards[id].upn == row.event.upn)
            && (Demotes(row, id) ==>
                  id in t.stewards && !t.stewards[id].Removed() && t'.stewards[id].Removed() &&
                  t.stewards[id].oid == row.event.oid && t.stewards[id].upn == row.event.upn)
  {
    hide ActiveOid, ActiveUpn;
    Untouched(b, row);
    if !(row.event.TenantBootstrap? || row.event.StewardPromote? || row.event.StewardDemote?) {
      hide Follows, Edit;
    }
  }

  lemma {:induction false} StewardHasPromotion(log: seq<AuditRow>, id: int, k: nat)
    requires Grammatical(log) && k <= |log| && id in After(log, k).t.stewards
    ensures id <= After(log, k).t.stewardSeq
    ensures exists m | 0 <= m < k :: Promotes(log[m], id) &&
              After(log, k).t.stewards[id].oid == log[m].event.oid &&
              After(log, k).t.stewards[id].upn == log[m].event.upn
  {
    if k > 0 {
      hide After, Follows, Edit, Grammatical;
      RowAt(log, k - 1);
      StewardEdit(After(log, k - 1), log[k - 1], id);
      if id in After(log, k - 1).t.stewards {
        StewardHasPromotion(log, id, k - 1);
      }
    }
  }

  predicate Enrolled(b: Book, id: int) {
    id in b.t.stewards && id <= b.t.stewardSeq
  }

  predicate Demoted(b: Book, id: int) {
    Enrolled(b, id) && b.t.stewards[id].Removed()
  }

  lemma StewardUse(b: Book, row: AuditRow, id: int)
    requires Follows(b, row)
    ensures Enrolled(b, id) ==> Enrolled(Edit(b, row), id)
    ensures Demoted(b, id) ==> Demoted(Edit(b, row), id)
  {
    hide Follows, Edit;
    StewardEdit(b, row, id);
  }

  /** Once enrolled, a steward id stays enrolled, and once demoted it stays demoted. */
  lemma {:induction false} DemotionStands(log: seq<AuditRow>, id: int, i: nat, j: nat)
    requires Grammatical(log) && i <= j <= |log|
    ensures Enrolled(After(log, i), id) ==> Enrolled(After(log, j), id)
    ensures Demoted(After(log, i), id) ==> Demoted(After(log, j), id)
    decreases j
  {
    if i < j {
      hide After, Follows, Edit, Grammatical, Enrolled, Demoted;
      RowAt(log, j - 1);
      StewardUse(After(log, j - 1), log[j - 1], id);
      DemotionStands(log, id, i, j - 1);
    }
  }

  /** Each steward id is created once, and demoted at most once, only after its creation,
      under the identity it was created with. */
  lemma StewardLifetime(log: seq<AuditRow>, id: int, i: nat, j: nat)
    requires Grammatical(log) && i < j < |log|
    ensures !(Promotes(log[i], id) && Promotes(log[j], id))
    ensures !(Demotes(log[i], id) && Demotes(log[j], id))
    ensures Demotes(log[j], id) ==>
            exists m | 0 <= m < j :: Promotes(log[m], id) &&
              log[m].event.oid == log[j].event.oid && log[m].event.upn == log[j].event.upn
  {
    hide After, Follows, Edit, Grammatical;
    RowAt(log, i);
    StewardEdit(After(log, i), log[i], id);
    RowAt(log, j);
    StewardEdit(After(log, j), log[j], id);
    if Demotes(log[i], id) {
      StewardHasPromotion(log, id, i);
    }
    if Promotes(log[i], id) || Demotes(log[i], id) {
      DemotionStands(log, id, i + 1, j);
    }
    if Demotes(log[j], id) {
      StewardHasPromotion(log, id, j);
    }
  }
}
