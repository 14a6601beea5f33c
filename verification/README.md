# Verified model of the Xensus registry

Xensus is an identity registry for one Microsoft 365 tenant: stewards assert persons, systems
and the links between them, and every change is filed in an append-only audit log. These
modules model its core in Dafny and prove what its documentation promises of it.

`dafny verify dfyconfig.toml` checks everything.

## What is modelled

**The registry.** `Schema` holds the tables, the constraints of the first migration and the
SQL statements; `Registry` says, for each of the thirteen mutating calls, what it decides from
the rows it reads (`Decide`), the statements it issues, and the whole call (`Step`, `Run`).
`Driver` is the database handle with a script of store failures; `Persons`, `Systems`,
`Associations` and `Stewards` are the functions of `core` themselves, store call by store call,
with their early exits, explicit and deferred rollbacks. Each is proved to refine its step
under every placement of failures (`Core.Refines`): it does what the step does or, on a store
failure, nothing; it always closes its transaction; and the statements it issues are a first
part of those that `Serializable` schedules for it, and all of them when it succeeds
(`Core.Issues`).

What a call does is also stated on its own: `Outcomes` gives, for each of the thirteen, every
refusal with its condition and otherwise every column written, the entry filed and the reply,
in terms of rows and columns alone; `Journal` says how the entries read in the audit viewer.

**Whole runs.** `Invariants` (constraints, one invitation per UPN, one entry per change),
`Replay` and `LogTruth` (replaying the log rebuilds the tables), `Invitations` (and exactly
which invitations), `LogGrammar` (the history of each entity), `Gates` (identities,
sufficiency of the guards, the last steward) and `Listings` (ids, association lists) hold over
every sequence of calls. `Serializable` interleaves the transactions statement by statement
under SQLite's snapshot rule and reduces them to serial runs, `Interleavings` is the converse,
`ConcurrentGates` adds gates that are read before the transaction begins, and `LastSteward`
says what they leave open.

**Sign-in.** `SignIn` is the first sign-in race as a step protocol with any number of threads,
failures, restarts and other calls in between, each core call one step; `SignInTransactions`
splits the calls into the statements of their transactions and proves that this adds nothing.
`Authenticator` is the class with its cached tenant, proved to be that protocol run by one
thread.

**Algorithms.** `Like` (search escaping against LIKE), `Calendar` (timestamps and day windows
compared as strings), `AuditQuery` (the audit viewer), `PersonId` (printing and parsing IDs)
and `Migrations` (the migration runner over any number of starts, class `SchemaDb`). `Text`,
`Decimal`, `Utf8` and `Tabular` (scan, filter, order) serve them. Their ground terms are pinned
from outside: calendar days by a closed-form day number, folding by "equal up to the case of
ASCII letters", trimming by the list of white-space code points, text order by the order of
UTF-8 bytes.

Clock readings are parameters (`at`). The store's failures are a script, so a theorem over all
scripts covers a failure at every call.

## Where the code and its documentation disagree

- The repository's README.md:32 says nothing mutates the registry without leaving a record. One
  branch does: a sign-in that finds an invitation for someone who already is an active steward
  deletes it and files no entry (core/stewards.go:216-226). `Invariants.AuditedOnce` has it as
  the sole exception. The log then still shows the invitation as open: on every run the
  invitations open in it are the pending ones and those orphaned this way
  (`Invitations.InvitationsAccounted`), so the log rebuilds the pending invitations exactly if
  none is orphaned at the end (`Invitations.LogRebuildsInvitesExactly`). A gated run gets there
  (`Invitations.StaleBranchReached`), and inviting the same UPN again heals it
  (`Invitations.StaleBranchHealed`).
- README.md:44 there says a deployment can never be left with no one able to maintain it. The
  gate is read before the transaction (auth/middleware.go:68), and from a new data directory the
  last two stewards can demote each other: `LastSteward.LastStewardLost`. Over any run the
  registry stays manned exactly if no demotion that goes through finds a single active steward
  (`Gates.MannedExactly`), as is always so with gate and transaction as one step
  (`Gates.RunManned`).
- store/audit.go:188-190 takes stored timestamps to sort lexically. `Calendar.StampOrderIsTimeOrder`
  says exactly when they do: fractions have their trailing zeros trimmed, so within one second
  a fraction whose digits continue another's sorts the wrong way (section 5.1 of RFC 3339 asks
  for equal lengths): `Calendar.HalfSecondSortsFirst`.
- store/audit.go:199-201 takes the To day to be inclusive. It is, except for 9999-12-31, whose
  following day has a five-digit year: `Calendar.DayWindow`, `Calendar.LastDayMissed`.
- store/persons.go:87-89 promises a substring search. SQLite's LIKE reads the name, and the
  pattern, up to the first NUL character only (`Like.NameFilterMeaning`). On names free of NUL
  the search is that promised exactly for the queries free of it (`Like.PlainQueryExactly`);
  which names the others get wrong says `Like.PlainNameExactly`, and `Like.NulBreaksSearch`
  gives one. A query free of NUL misses a name exactly if it occurs there, but only across or
  after the name's first NUL (`Like.NulNameExactly`, `Like.NulHidesName`).
- migrations/README.md describes reruns after a failure. They succeed exactly if the config
  table and the schema are as the pending scripts need them (`Migrations.RecoversExactly`): not
  after a failure inside the first migration or before its version is recorded
  (`Migrations.FirstMigrationSticks`), nor after one failed version update of a migration that
  creates something (`Migrations.UnrecordedCreationSticks`). Files that share a number all run:
  `Migrations.SharedVersionsRunTwice`.

## Assumptions about SQLite and Go

Commit is atomic and ends the transaction either way; AUTOINCREMENT ids grow by one over
committed inserts; constraints are checked per statement; in WAL mode a transaction's first
write fails unless its snapshot is current and no other transaction holds the write lock.
`lower()`, NOCASE and LIKE fold ASCII only; LIKE stops at a
NUL, and NOCASE does too before it compares lengths. fmt, strconv, strings and time behave as documented.

## Model

| member | source | states |
|---|---|---|
| LogTruth.LogRebuildsTables | core/audit.go:36-80 | After any run, replaying the log from empty rebuilds tenant, persons, systems, associations and steward rows (all columns but timestamps) and the id counters; every pending invitation is open in the log; every row follows the grammar |
| LogTruth.LogRebuildsInvites | core/stewards.go:216-226 | On a run that never takes the stale-invitation branch, the invitations open in the log are exactly the pending ones, up to ASCII case |
| Invitations.InvitationsAccounted | core/stewards.go:216-226 | On every run the UPNs open in the log are those of the pending invitations together with those a stale claim orphaned and no later invitation took over, and none is both |
| Invitations.LogRebuildsInvitesExactly | core/stewards.go:228-241 | After any run the log rebuilds the pending invitations exactly if none is orphaned; every pending one is in it with its UPN and inviter either way |
| Invitations.StepAccounted | core/stewards.go:159-167 | Each call of any kind moves the open, pending and orphaned UPNs together |
| Invitations.StaleBranchReached | core/stewards.go:212-226 | A gated run that takes the stale branch, a steward whose UPN changed to an invited one, after which the log no longer rebuilds the invitations |
| Invitations.StaleBranchHealed | core/stewards.go:39-60 | That run followed by a new invitation of the same UPN: the log rebuilds them again |
| LogTruth.StepTruthful | core/stewards.go:228-241 | One call of any kind keeps the log truthful, and exact about invitations unless it takes the stale branch |
| LogTruth.ConstraintsHold | migrations/0001_initial.sql:39-69 | A change decided on a sound database is never rejected by a constraint (a bootstrap: when its OID is not active yet) |
| LogTruth.ClaimMirrors | core/stewards.go:228-241 | A claim's entry edits the replayed tables as its two statements edit the real ones, and closes the invitation it consumed |
| LogTruth.BootstrapMirrors | core/bootstrap.go:50-75 | The bootstrap entry carries all that binding and the first steward row wrote |
| LogTruth.AssociationMirrors | core/associations.go:53-68 | Creating or removing a link is mirrored by its entry, including the details of a hard delete |
| LogTruth.PromoteMirrors | core/stewards.go:39-60 | An invitation's entry opens exactly the invitation inserted |
| LogTruth.CancelMirrors | core/stewards.go:153-167 | A cancellation's entry closes exactly the invitation deleted, whatever its case |
| Invariants.RunSound | migrations/0001_initial.sql:16-82 | Every run, gated or not, keeps keys, foreign keys, the partial unique index, one invitation per folded UPN, and an actor OID on every log row |
| Invariants.AuditedOnce | core/audit.go:36-48 | A call that fails or is a no-op changes nothing; a change appends exactly one row with its actor, the old log a prefix; the stale branch drops exactly one pending row and appends none |
| Invariants.EffectConstrained | migrations/0001_initial.sql:43-69 | A statement the schema permits keeps all constraints |
| Invariants.StepInvitesDistinct | store/pending_stewards.go:56-60 | No call ever creates a second invitation for a UPN that differs only in case |
| Invariants.InvitedComplete | store/pending_stewards.go:56-63 | The lookup by UPN finds an invitation exactly if some pending UPN equals the one asked for up to ASCII case, and returns such a one |
| Invariants.StaleEffect | core/stewards.go:216-226 | The stale branch deletes exactly the invitation found, with no entry, and reports not claimed |
| Registry.StepChange | core/audit.go:36-39 | A whole change is its statements and then its entry, or nothing at all when a constraint rejects one |
| Outcomes.CreatePersonExactly | core/persons.go:18-56 | Refused only without an actor; otherwise one row with the next id, the trimmed name and the actor, and one entry |
| Outcomes.RenamePersonExactly | core/persons.go:63-114 | Not found, unchanged, or renamed with old and new name in the entry |
| Outcomes.CreateSystemExactly | core/systems.go:17-58 | A blank name is refused; otherwise one active row with the next id |
| Outcomes.RenameSystemExactly | core/systems.go:65-122 | Missing and disabled systems are not found; an equal name is a no-op |
| Outcomes.DisableSystemExactly | core/systems.go:130-180 | Missing is not found, disabled is a no-op; otherwise only the disabling actor is written |
| Outcomes.EnableSystemExactly | core/systems.go:186-236 | Missing is not found, active is a no-op; otherwise only the disabling is cleared |
| Outcomes.CreateAssociationExactly | core/associations.go:23-80 | Needs both rows, disabled or not; otherwise the link as given under the next id |
| Outcomes.RemoveAssociationExactly | core/associations.go:90-138 | Needs the link, its system and its own person; deletes it and files all it held |
| Outcomes.PromoteExactly | core/stewards.go:20-72 | An invitation is taken exactly if an actor is named, the UPN is not blank, no steward never removed has it and no pending invitation has it, up to ASCII case; each refusal by its own condition |
| Outcomes.DemoteExactly | core/stewards.go:79-129 | Missing and removed rows are not found, one's own row is refused; otherwise only the removal is written |
| Outcomes.CancelExactly | core/stewards.go:136-174 | Deletes the invitation and files its UPN, or it is not found |
| Outcomes.ClaimExactly | core/stewards.go:185-248 | Enrols the caller exactly if an invitation has their UPN up to ASCII case and they hold no active row; holding one, they only use it up; without one nothing happens |
| Outcomes.BootstrapExactly | core/bootstrap.go:27-81 | Refused for an incomplete claim, a bound tenant, or an OID already active; otherwise binds the tid and enrols the caller |
| Outcomes.InviteAfterDemotion | store/stewards.go:61-71 | A demoted steward can be invited again at once |
| Outcomes.InvitationFound | store/pending_stewards.go:56-63 | The lookup returns the one invitation whose UPN is the same up to ASCII case |
| Outcomes.SystemStatementsExactly | store/systems.go:69-123 | The three updates of systems change a row in the state their WHERE asks for and nothing otherwise |
| Outcomes.RowStatementsExactly | store/stewards.go:132-146 | The updates of persons and stewards likewise: an already removed steward is left alone |
| Outcomes.DeletesExactly | store/pending_stewards.go:93-103 | The deletes remove the row there is and only that |
| Outcomes.RejectsExactly | migrations/0001_initial.sql:39-69 | A statement is rejected exactly for a missing person or system, an OID active already, or a pending UPN spelled the same |
| Journal.EntryReads | core/audit.go:28-80 | A call that files an entry files one, at the end, and it reads in the viewer with the call's clock, actor, action and entity |
| Journal.EventReads | core/associations.go:57-61 | Action, kind and id of each entry: associations under their person, invitations under no row |
| Journal.HistoryGains | store/audit.go:25-53 | An entity's history gains the entry of exactly the calls about it |
| LogGrammar.DisableEnableAlternate | core/systems.go:152-168 | In the log, between two disables of a system lies an enable and between two enables a disable; no rename falls between a disable and the next enable |
| LogGrammar.EnableHasDisable | core/systems.go:208-224 | Before every enable row of a system there is a disable row |
| LogGrammar.RenamesChain | core/persons.go:86-102 | Every rename of a person or a system has a row naming that entity before it, and starts from the name the last such row gave |
| LogGrammar.NameHasRow | core/systems.go:91-110 | The name a person or system has at any point of the log was given by the last row naming it |
| LogGrammar.RenameHasCreation | core/persons.go:34-44 | Every rename of a person or a system has its creation row before it |
| LogGrammar.AssociationLifetime | core/associations.go:105-130 | An association id is created at most once and removed at most once, never created after its removal, and a removal quotes the person, system and foreign id of its creation |
| LogGrammar.StewardLifetime | core/stewards.go:101-117 | A steward id is created once, demoted at most once, only after its creation and under the identity it was created with |
| LogGrammar.LinkHasCreation | core/associations.go:53-68 | Every link alive in the log was created by an earlier row with the same fields |
| LogGrammar.LinkStaysGone | store/associations.go:71-85 | A used association id stays used and a removed one stays removed |
| Gates.RunGuarded | core/stewards.go:39-52 | In every run of calls from the bound tenant, active OIDs, active UPNs (folded) and pending UPNs (folded) are pairwise distinct, active and pending UPNs disjoint, and an unbound registry has neither stewards nor invitations |
| Outcomes.IdentitiesUpToCase | migrations/0001_initial.sql:64-68 | That invariant on the columns themselves: OIDs distinct, UPNs of stewards and invitations different up to ASCII case |
| Gates.StepGuarded | core/stewards.go:200-234 | Each such call keeps that identity invariant |
| Gates.RunManned | auth/middleware.go:93-105 | With gate and transaction as one step, a bound registry always has an active steward |
| Gates.StepManned | core/stewards.go:94-108 | A gated call keeps an active steward, the actor's own row surviving each demotion |
| Gates.DemotionLeaves | core/stewards.go:94-108 | A successful demotion leaves an active steward exactly if there were two, and always if its actor was active |
| Gates.StepMannedExactly | core/stewards.go:94-108 | One call from the bound tenant leaves a manned registry manned exactly if it does not demote its only active steward |
| Gates.MannedExactly | auth/middleware.go:93-105 | Over any run of calls from the bound tenant, whatever the gate saw, the registry is manned throughout exactly if no demotion that goes through finds a single active steward |
| Gates.MutualDemotion | auth/middleware.go:68-73 | The last two stewards, both past the gate, demote each other and leave none |
| Gates.GuardsSuffice | core/stewards.go:159-232 | In such runs without failures no UNIQUE index and no foreign key rejects a write, every discarded rows-affected count is 1, and a change always succeeds |
| Gates.ClaimEffect | core/stewards.go:228-234 | A successful claim adds one active row under the caller's identity and the inviter's name and removes the matching invitation |
| Gates.OtherCallsKeepStewards | core/persons.go:18-114 | Calls about persons, systems and associations touch neither tenant, stewards nor invitations |
| Serializable.InterleavingIsSerial | store/store.go:38-44 | In every interleaving the committed database is that of the committed calls run alone in commit order, and every reply given is the reply of that serial run at its place |
| Serializable.NextSerial | core/stewards.go:29-71 | Each statement, commit, early exit or abort of one transaction keeps the world serial |
| Serializable.CommitSerial | core/bootstrap.go:32-80 | A commit publishes exactly what the call would do run alone on the current database |
| Serializable.RejectionStands | core/stewards.go:190-248 | A statement a constraint rejects early is rejected by the whole call |
| Serializable.ConcurrentLogTruth | core/audit.go:36-80 | Soundness and the truthfulness of the log hold of every database concurrent callers commit |
| Serializable.RepliesAreTimely | core/stewards.go:65-71 | Replies that report a change and commits correspond one to one and in order, and no call takes effect before it began |
| Serializable.RealTimeOrder | store/store.go:38-44 | A call that began after another was answered comes after it in the serial order, and after its commit |
| Interleavings.SoloCommits | core/audit.go:36-39 | A call that changes something, run through its statements while no other writes, commits exactly its step |
| Interleavings.SerialRunIsReached | store/store.go:38-44 | Every serial run is reached by an interleaving: each call begins, behind the same gate, on the database the run makes it on, and gets the reply the run gives it, no-ops and refusals included |
| Interleavings.SoloRejected | migrations/0001_initial.sql:64-68 | A call that a constraint rejects, run through on its own, is refused at the statement and changes nothing |
| Interleavings.FailureLeavesNothing | core/stewards.go:33-37 | A call that fails, wherever it stands, changes nothing, is not answered as a commit, and frees the writer's lock |
| ConcurrentGates.ConcurrentIdentities | auth/middleware.go:48-75 | With gates read before the transactions, every interleaving keeps the identity invariant and refuses no caller by a constraint |
| LastSteward.GateGap | auth/middleware.go:93-105 | From any idle database with two active stewards: both pass the gate and begin, demote each other, commit, and leave a bound registry without a steward |
| LastSteward.LastStewardLost | auth/middleware.go:68-75 | Steps from a new data directory, every call beginning behind its gate, that end in that state |
| LastSteward.PairReached | core/stewards.go:185-248 | Bootstrap, invitation and claim, each gated, give a registry with two active stewards |
| LastSteward.ConcurrentMannedExactly | core/stewards.go:79-129 | In any interleaving with gates read before the transactions, the committed databases stay manned exactly if no commit demotes the only active steward |
| ConcurrentGates.TenantStays | core/bootstrap.go:42-48 | No call unbinds or rebinds a bound tenant |
| SignIn.EveryInterleavingTrue | auth/handlers.go:121-188 | For any interleaving of sign-ins, failures, restarts and other calls: cache and every thread's view are empty or the bound tenant; every session and every steward row came from a sign-in of it; exactly one tenant.bootstrap row if bound, none if not |
| SignIn.TenantIsForever | core/bootstrap.go:42-56 | The tenant never changes once set |
| SignIn.NextTrue | auth/authenticator.go:90-102 | Each step of the protocol, restarts included, keeps that invariant and the tenant |
| SignIn.BootstrapCall | core/bootstrap.go:42-77 | Bootstrap succeeds only on an unbound registry, binds the caller's tid, adds one steward and one bootstrap row; failing, it changes nothing, and ErrAlreadyBound means it is bound |
| SignIn.ClaimCall | core/stewards.go:185-248 | A claim keeps the tenant and adds at most one steward row, under the next id |
| SignIn.AloneIsSignedIn | auth/handlers.go:128-187 | A sign-in stepped through the protocol undisturbed has exactly the net effect: bind or adopt the tenant, refuse another tid, claim, issue one session |
| SignIn.GateImpliesGated | auth/middleware.go:48-75 | Whoever the steward gate lets through, by cookie or bearer token, is an active steward of the bound tenant, with its tid |
| SignIn.GateExactly | auth/middleware.go:93-105 | The gate lets a caller through exactly if the service knows the tenant, the tid is its tid, and a steward row with the oid was never removed |
| SignIn.GateOpens | auth/authenticator.go:48-51 | A restart makes the gate know the tenant the database is bound to |
| SignInTransactions.TransactionsAreSteps | auth/handlers.go:128-174 | Whatever sign-ins, other calls, failures and restarts do with every core call split into the statements of its transaction, some run of SignIn does: same database, cache, threads and sessions |
| SignInTransactions.EveryTransactionRaceTrue | auth/handlers.go:121-188 | So the sign-in invariant holds of races statement by statement |
| SignInTransactions.ServiceKeepsIdentities | auth/middleware.go:48-75 | The whole service, sign-ins and gated calls racing statement by statement: the identity invariant holds and no caller is refused by a constraint |
| SignInTransactions.CallAdmitted | auth/handlers.go:156-170 | The sign-in invariant alone admits a sign-in's own bootstrap and claim calls |
| SignInTransactions.BootStaysRefused | core/bootstrap.go:42-48 | ErrAlreadyBound answered on a snapshot is still the answer on the current database |
| Authenticator.New | auth/authenticator.go:43-86 | Reads the tenant and starts with it cached, or fails with the read and builds nothing |
| Authenticator.Authenticator.GetTenant | auth/authenticator.go:90-94 | Returns the cached tenant |
| Authenticator.Authenticator.SetTenant | auth/authenticator.go:98-102 | Replaces the cached tenant |
| Authenticator.Authenticator.Settle | auth/handlers.go:128-154 | The bootstrap half: afterwards the cache is right, or an error was shown and nothing changed; a bound tenant is untouched |
| Authenticator.Authenticator.CompleteSignIn | auth/handlers.go:121-188 | Each answer exactly by its cause: 401 for a foreign nonce, 403 for a settled tenant other than the token's, 500 if no tenant settled or the cookie could not be sealed, redirect otherwise, even when the claim failed; sessions exactly on redirect; another tenant's sign-in changes nothing; without failures it is the protocol run by one thread; no transaction is left open |
| Authenticator.SettledExactly | auth/handlers.go:128-154 | Without failures a tenant fails to settle exactly if the token has no UPN, or the registry is unbound and has its OID as an active steward |
| Core.WriteAudit | core/audit.go:39-80 | Issues one insertion inside the transaction, or issues nothing; refuses exactly an empty actor OID |
| Core.OneWriteStep | core/persons.go:34-50 | One statement and its entry, committed, are the registry step |
| Core.TwoWriteStep | core/bootstrap.go:50-77 | Two statements and their entry, committed, are the registry step |
| Driver.Database.BeginTx | core/stewards.go:29-32 | Opens a transaction on the committed tables, or fails and leaves none open |
| Driver.Database.BoundTenantID | store/tenant.go:13-26 | Returns the bound tenant or a store failure, changing nothing |
| Driver.Tx.Run | store/stewards.go:132-146 | A statement is issued and takes its effect in the transaction only, or fails without any |
| Driver.Tx.Commit | core/stewards.go:65-71 | Publishes the transaction's tables at once, or publishes nothing; over either way |
| Driver.Tx.Rollback | core/stewards.go:33-37 | Closes an open transaction and publishes nothing |
| Persons.CreatePerson | core/persons.go:18-56 | Refines its step under any failures: step and reply, or a store failure with everything unchanged; transaction always closed; the statements issued are a first part of the step's, in order, and all of them on success |
| Persons.RenamePerson | core/persons.go:63-114 | The same, with the missing person and the unchanged name as exits |
| Systems.CreateSystem | core/systems.go:17-58 | The same, with the empty name refused |
| Systems.RenameSystem | core/systems.go:65-122 | The same, with missing, disabled and unchanged systems as exits |
| Systems.DisableSystem | core/systems.go:130-180 | The same; disabling a disabled system is a no-op |
| Systems.EnableSystem | core/systems.go:186-236 | The same; enabling an active system is a no-op |
| Associations.CreateAssociation | core/associations.go:23-80 | The same, with missing persons and missing systems refused; a disabled system is accepted |
| Associations.LinkTakenExactly | core/associations.go:37-56 | Without failures a link is added, as given and with the next id, exactly if an actor is named and both rows exist, disabled or not, linked already or not |
| Associations.RemoveAssociation | core/associations.go:90-138 | The same, with a missing link or another person's link refused |
| Stewards.PromoteSteward | core/stewards.go:20-72 | The same, with empty UPN, active steward and standing invitation refused |
| Stewards.DemoteSteward | core/stewards.go:79-129 | The same, with missing or removed stewards and self-removal refused |
| Stewards.CancelStewardInvite | core/stewards.go:136-174 | The same, with a missing invitation refused |
| Stewards.ClaimPendingSteward | core/stewards.go:185-248 | The same, with no invitation as a no-op and the stale invitation consumed |
| Stewards.Bootstrap | core/bootstrap.go:27-81 | The same, with an incomplete claim and a bound tenant refused |
| Stewards.InviteReadBack | store/pending_stewards.go:56-63 | The invitation just inserted is the one its UPN finds |
| Listings.IdsNeverReissued | migrations/0001_initial.sql:16-46 | Over any run persons and systems never disappear, and no person, system or association id is issued again, not even after a delete |
| Listings.AssociationListsAgree | store/associations.go:91-138 | After any run the full list holds every association exactly once and is a permutation of the per-person lists together: the inner join loses none |
| Listings.JoinIsComplete | store/associations.go:25-30 | With foreign keys resolved the join has one row per link, and none that is not a link |
| Listings.ListsAreOrdered | store/associations.go:87-119 | Both lists come in their documented order, NOCASE with its treatment of NUL and length |
| Text.NoCasePlain | store/associations.go:118-118 | On names without NUL the collation is the order of the folded names |
| Text.NoCaseTie | store/associations.go:118-118 | Two names that differ after a NUL and tie, so that the id decides |
| Listings.ListAllAssociations | store/associations.go:91-111 | Joining and placing the links one by one yields, with keys and foreign keys intact, each link of the table exactly once with its system's current name, by person and id |
| Listings.ListAssociationsForPerson | store/associations.go:116-138 | The same for one person: each of their links exactly once and no other, by folded system name and id |
| Listings.OrderedPartLists | store/associations.go:117-119 | Any selection of the join, ordered, has exactly the selected links, each once, in strict order |
| AuditQuery.ListAudit | store/audit.go:95-152 | Building conditions one by one and collecting rows yields exactly the page of the query |
| AuditQuery.PageIsNewestMatches | store/audit.go:112-126 | On any log the page has only matching rows, descending by stored time and then id, at most the limit (200 if none is given, 5000 at most); all of them if they fit, else exactly the limit, each later than every match left out |
| AuditQuery.PageProjectsToEntity | store/audit.go:25-53 | With the entity filter alone, and no more matches than the limit, the page is that entity's whole history |
| AuditQuery.HistoryIsOrdered | store/audit.go:25-31 | An entity's history is every row about it, each once, descending by stored time and then id |
| AuditQuery.PageFollowsTime | store/audit.go:125-125 | The page is newest-first in time wherever two rows fall in different seconds |
| AuditQuery.BoundsParse | store/audit.go:191-209 | A day filter applies exactly when its text parses as a day |
| Calendar.DayWindow | store/audit.go:112-119 | For every valid From and To and every stored instant, the string tests hold exactly on the instants whose day number lies in the window, unless To is 9999-12-31 and the instant is in the window after year 1000 |
| Calendar.LowerBoundExact | store/audit.go:188-197 | The lower test admits exactly the instants whose day number is at least From's |
| Calendar.UpperBoundExact | store/audit.go:199-209 | The upper test admits exactly the instants whose day number is at most To's; with To 9999-12-31, exactly the years up to 1000 |
| Calendar.NextDayIsSuccessor | store/audit.go:208-208 | Adding a day gives the least later day, across months and leap years, and leaves four-digit years only after the last day |
| Calendar.NextDayNumber | store/audit.go:208-208 | Adding a day adds one to the closed-form day number of the Gregorian calendar, from every valid day |
| Calendar.OrderIsNumber | store/audit.go:112-119 | Days are ordered as their numbers are |
| Calendar.EveryNumberIsADay | store/audit.go:193-193 | No day from 0000-01-01 to 9999-12-31 is missing |
| Calendar.KnownDays | store/audit.go:208-208 | The day number agrees with known spans, across a leap and a common century year |
| Calendar.ParseDayExact | store/audit.go:193-195 | A day parses from one string only, the one it prints as |
| Calendar.StampReads | core/audit.go:68-68 | The stored text has the form of section 5.6 of RFC 3339 and reads back, field by field, as the instant written |
| Calendar.StampTextOrder | core/audit.go:68-68 | Stored timestamps compare as strings by second, then by printed fraction |
| Calendar.StampOrderIsTimeOrder | store/audit.go:188-190 | For two different instants string order is time order exactly unless they share a second and one fraction's digits continue the other's |
| Calendar.ContinuingFraction | core/audit.go:68-68 | A fraction whose digits continue another's is later but sorts first |
| Calendar.HalfSecondSortsFirst | core/audit.go:68-68 | A whole second sorts after its own half, in every second |
| Calendar.LastDayMissed | store/audit.go:199-209 | With To 9999-12-31 that day, and every day after the year 1000, fails the upper test |
| Like.NameFilterMeaning | store/persons.go:97-101 | For every query and name, the name read up to its first NUL: a trimmed query without NUL finds it exactly if that part contains the query up to ASCII case; a query with NUL exactly if that part ends in what precedes the query's NUL |
| Like.SearchExactly | store/persons.go:87-101 | On text without NUL a name is found exactly if some slice of it is the trimmed query, up to the case of ASCII letters |
| Like.NameFilterIsSubstring | store/systems.go:148-152 | On text without NUL it is the plain case-insensitive substring search, backslashes and wildcards included |
| Like.PlainQueryExactly | store/persons.go:87-89 | A query gives the substring search on all names without NUL exactly if it has none itself |
| Like.PlainNameExactly | store/persons.go:97-101 | On a name without NUL the search differs from the substring search exactly if the query has a NUL and the name ends in the part before it |
| Like.NulNameExactly | store/persons.go:97-101 | For a query without NUL the search differs from the substring search exactly on the names where the query occurs, but not before the first NUL |
| Like.EscapedPrefix | store/persons.go:124-129 | An escaped query at the head of a pattern matches exactly its own text, whatever follows: no trailing backslash swallows the next wildcard |
| Like.UnderscoreMatchesOne | store/persons.go:124-129 | Left unescaped the underscore would match any one character |
| Like.SearchIsSubstring | store/persons.go:98-101 | The escaped query between wildcards matches exactly the texts containing it |
| Like.NulBreaksSearch | store/persons.go:97-101 | A query with NUL that finds a name not containing it |
| Like.NulHidesName | store/persons.go:97-101 | A name with NUL that contains the query, has no NUL in it, and is not found |
| Like.ContainsFolds | store/persons.go:88-88 | Queries equal up to ASCII case find the same names |
| PersonId.RoundTrip | id/id.go:16-40 | Parsing the printed form of any ID from 1 to 2^63-1 gives it back, padded or not |
| PersonId.FormatExactly | id/id.go:13-18 | A capital X, a dash and the decimal digits, with zeros in front up to six digits and none beyond |
| PersonId.ParseAcceptsSpellings | id/id.go:24-40 | Parse accepts exactly the spellings of those IDs: optional X or x, optional dash after it, optional plus, digits with any leading zeros, trimmed |
| PersonId.CanonicalReprint | id/id.go:16-18 | Every accepted spelling reprints to one canonical string, shared by exactly the spellings of the same ID |
| PersonId.DigitLoopExact | id/id.go:32-35 | The 64-bit digit loop accepts exactly the numerals below 2^64 and computes their value |
| Migrations.SchemaDb.RunMigrations | store/store.go:90-129 | Collecting, sorting (equal versions in any order), reading the version once and applying, under any failures, is one run of the specification |
| Migrations.VersionOfExact | store/store.go:82-82 | A file is a migration exactly when its name is a four-digit number, an underscore, a title without dots, and .sql |
| Migrations.RunStarts | store/store.go:114-127 | A run starts only migrations above the stored version, in order, none after a failed one; a successful run applied all of them |
| Migrations.RunKeeps | store/store.go:110-127 | A run keeps recorded versions strictly below all later attempts, extends the history, and never moves the stored version back |
| Migrations.CompletedRun | store/store.go:114-129 | After success the stored version is the greater of the old one and the greatest file, and a second run starts nothing, whatever fails |
| Migrations.RepeatsOnlyAfterFailure | store/store.go:118-123 | Over any sequence of starts a migration is started again only if its Exec or its version update failed; recorded versions strictly increase |
| Migrations.VersionsAdvance | store/store.go:134-149 | Over any sequence of starts the history and the stored version only advance |
| Migrations.NoneSkipped | migrations/README.md:3-5 | With append-only files no shipped migration at or below the stored version was skipped, whatever failed |
| Migrations.SuccessAppliesEverything | migrations/README.md:3-5 | After a successful start every shipped file has been applied |
| Migrations.RecoversExactly | store/store.go:114-149 | From any database, some run can succeed, and the one without failures does, exactly if the config row is there and the pending scripts create nothing that exists and drop or use nothing that does not, or the config table is missing and they fit after creating it |
| Migrations.FirstMigrationSticks | store/store.go:131-149 | With the config table there but the first migration not recorded, no run succeeds |
| Migrations.StopsWithoutConfig | store/store.go:118-126 | Without the config table the loop stops, unrecorded, at the first pending migration that does not create it |
| Migrations.UnrecordedCreationSticks | store/store.go:118-123 | One failed version update after a migration that creates an object: from then on no start, whatever is appended, gets past it |
| Migrations.ExecuteFits | migrations/README.md:7-7 | A script succeeds on a bound schema exactly if it fits, and leaves exactly the objects whose last mention creates them or that were there unmentioned |
| Migrations.SharedVersionsRunTwice | store/store.go:110-117 | A successful run starts a version twice exactly if two pending files share it |
| Text.TrimIsBare | id/id.go:25-25 | Trimming leaves no outer white space and is idempotent |
| Text.TrimExactly | core/persons.go:22-22 | Trimming cuts exactly the white space off both ends, by the list of its code points |
| Text.FoldsCase | store/stewards.go:65-65 | Folding identifies exactly the texts that are equal up to the case of ASCII letters |
| Text.LowerExactly | store/pending_stewards.go:58-58 | The folded text is the one without ASCII capitals |
| Utf8.OrderIsBytes | store/audit.go:125-125 | Comparing text by code point is comparing its UTF-8 bytes |
| Utf8.SizeIsBytes | store/associations.go:118-118 | The length NOCASE compares is the number of bytes |

## Left out

- HTTP handlers of api/ and web/, routing, templates, CSV, JSON and zip encoding: plumbing over the modelled calls. Audit details are structured values instead of JSON text.
- OIDC discovery, token verification, OAuth exchange, cookie encryption: a sign-in is an arbitrary claim with non-empty oid and tid.
- Row timestamps other than audit_log.occurred_at (created_at, updated_at, disabled_at and the like): the pairs of columns "at, by" are one optional "by".
- The export is not claimed to hold the full log: it is limited to 5000 rows (api/export.go:46) and is several reads.
- Order of ListDisabledSystems: the code does not determine it (store/systems.go:169).
- Ordering of ListPersons, ListSystems and ListActiveStewards: the lemmas on ordering in Tabular would repeat; only their filter is modelled.
- ListAuditForEntity is the function AuditQuery.ForEntity, without a method: its loop only collects.
- AUTOINCREMENT overflow, SQLite's limit on LIKE pattern length and its runtime internals.
- Invalid UTF-8: text is a sequence of code points, compared in code-point order as UTF-8 bytes are.
- The text of migrations beyond the config table and the objects they create, drop and use (tables, indexes, columns, keyed rows), unconditionally or only where missing or present; other statements are taken as repeatable, and none drops or rewrites config.
- The mutex of Authenticator: a read or write of the cached tenant is one step of SignIn.
- Migrations.RecoversExactly: requires the first file to begin, as 0001_initial.sql does, by creating the config table and its row; that file must never be edited.
- config/config.go, version.go, middleware.go, install scripts: no state worth modelling.
