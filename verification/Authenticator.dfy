/** auth.Authenticator: the cached tenant and the sign-in that may bind it, on one thread.
    SignIn covers the interleavings. */
module Authenticator {
  import opened Text
  import opened Schema
  import opened Registry
  import opened Driver
  import opened Stewards
  import opened SignIn
  import opened Outcomes

  datatype Response = Redirected | Unauthorized | Forbidden | ServerError

  /** A first sign-in that cannot settle the tenant: its token has no UPN, or the registry is
      unbound and yet has its OID as an active steward. */
  ghost predicate Unsettled(t: Tables, c: Claims) {
    c.upn == "" || (t.tenant == "" && HasOid(t, c.oid))
  }

  lemma SettledExactly(v: Service, c: Claims, at: string)
    requires v.cache == "" && c.oid != "" && c.tid != ""
    ensures Settled(v, c, at).cache == "" <==> Unsettled(v.db.t, c)
  {
    BootstrapExactly(v.db, Request(AsActor(c), at, Op.Bootstrap(c.tid)));
    hide Step, HasOid;
  }

  class Authenticator {
    const db: Database
    var tenantID: string
    var issued: seq<Session>

    /** The cache is empty or right. */
    ghost predicate Valid()
      reads this, db
    {
      tenantID == "" || tenantID == db.state.t.tenant
    }

    /** The fields auth.New fills in, given the tenant it read. */
    constructor (db: Database, tenant: string)
      requires tenant == db.state.t.tenant
      ensures Valid() && this.db == db && tenantID == tenant && issued == []
    {
      this.db, tenantID, issued := db, tenant, [];
    }

    method GetTenant() returns (tenant: string)
      ensures tenant == tenantID
    {
      tenant := tenantID;
    }

    method SetTenant(tenant: string)
      modifies this`tenantID
      ensures tenantID == tenant
    {
      tenantID := tenant;
    }

    /** The service as SignIn sees it, when no sign-in is under way. */
    ghost function Seen(): Service
      reads this, db
    {
      Service(db.state, tenantID, map[], issued, map[])
    }

    /** The bootstrap half of completeSignIn. On an error page the cache stays empty. */
    method Settle(c: Claims, at: string) returns (ok: bool)
      requires Valid() && c.oid != "" && c.tid != ""
      modifies this`tenantID, db
      ensures Valid() && db.openTxs == old(db.openTxs)
      ensures ok <==> tenantID != ""
      ensures old(tenantID) != "" ==> tenantID == old(tenantID)
      ensures old(db.state.t.tenant) != "" ==> db.state == old(db.state)
      ensures old(db.state.t.tenant) == "" && ok ==> tenantID == c.tid
      ensures !ok ==> db.state == old(db.state)
      ensures old(db.Quiet()) ==> db.Quiet()
      ensures old(db.Quiet()) ==>
                var mid := Settled(old(Seen()), c, at);
                db.state == mid.db && tenantID == mid.cache && issued == mid.sessions
    {
      hide Step, Database.Quiet, Bootstraps;
      var bound := GetTenant();
      if bound != "" {
        return true;
      }
      BootstrapCall(db.state, Request(AsActor(c), at, Op.Bootstrap(c.tid)));
      var booted := Stewards.Bootstrap(db, AsActor(c), at, c.tid);
      if booted.Ok? {
        SetTenant(c.tid);
        return true;
      }
      if booted.error != AlreadyBound {
        return false;
      }
      var actual := db.BoundTenantID();
      if actual.Err? || actual.value == "" {
        return false;
      }
      SetTenant(actual.value);
      ok := true;
    }

    /** completeSignIn, for a verified token: nonce is the token's, expected the one in the
        login cookie, and sealed says whether the session cookie can be written. */
    method CompleteSignIn(c: Claims, nonce: string, expected: string, bootAt: string, claimAt: string, sealed: bool)
      returns (response: Response)
      requires Valid() && c.oid != "" && c.tid != ""
      modifies this`tenantID, this`issued, db
      ensures Valid() && db.openTxs == old(db.openTxs)
      // a session is issued exactly on success, and only to the bound tenant
      ensures response == Redirected ==>
                nonce == expected && c.tid == db.state.t.tenant == tenantID &&
                issued == old(issued) + [Session(c.oid, c.upn, c.tid)]
      ensures response != Redirected ==> issued == old(issued)
      // a bound tenant stays, and a sign-in from any other changes nothing
      ensures old(db.state.t.tenant) != "" ==> db.state.t.tenant == old(db.state.t.tenant)
      ensures old(db.state.t.tenant) != "" && c.tid != old(db.state.t.tenant) ==>
                response != Redirected && db.state == old(db.state)
      // each answer has its one cause: a foreign nonce; a settled tenant other than the
      // token's; a tenant that could not be settled, or a cookie that could not be sealed
      ensures response == Unauthorized <==> nonce != expected
      ensures response == Forbidden <==> nonce == expected && tenantID != "" && tenantID != c.tid
      ensures response == ServerError <==> nonce == expected && (tenantID == "" || (tenantID == c.tid && !sealed))
      ensures response == Redirected <==> nonce == expected && tenantID == c.tid && sealed
      ensures nonce != expected ==> db.state == old(db.state) && tenantID == old(tenantID)
      // a cached tenant stays; otherwise, without failures, one settles as Unsettled says
      ensures old(tenantID) != "" ==> tenantID == old(tenantID)
      ensures old(db.Quiet()) && nonce == expected && old(tenantID) == "" ==>
                (tenantID == "" <==> Unsettled(old(db.state).t, c))
      // without failures it is the protocol of SignIn run by one thread alone
      ensures old(db.Quiet()) && nonce == expected ==>
                var alone := Alone(With(old(Seen()), Thread(c, Starting, "")), 0, bootAt, claimAt);
                db.state == alone.db && tenantID == alone.cache && (sealed ==> issued == alone.sessions)
    {
      hide Step, Database.Quiet, Alone, Settled, Unsettled;
      if nonce != expected {
        return Unauthorized;
      }
      ghost var seen := Seen();
      AloneIsSignedIn(seen, c, bootAt, claimAt);
      if tenantID == "" {
        SettledExactly(seen, c, bootAt);
      }
      var ok := Settle(c, bootAt);
      if !ok {
        return ServerError;
      }
      var bound := GetTenant();
      if c.tid != bound {
        return Forbidden;
      }
      ClaimCall(db.state, Request(AsActor(c), claimAt, ClaimInvite));
      var claimed := ClaimPendingSteward(db, AsActor(c), claimAt);
      if !sealed {
        return ServerError;
      }
      issued := issued + [Session(c.oid, c.upn, c.tid)];
      response := Redirected;
    }
  }

  /** auth.New: read the tenant, then build the authenticator; a failed read builds none. */
  method New(db: Database) returns (r: Result<Authenticator>)
    modifies db`faults
    ensures r.Ok? ==> fresh(r.value) && r.value.Valid() && r.value.db == db && r.value.issued == []
    ensures r.Ok? ==> r.value.tenantID == db.state.t.tenant
    ensures r.Err? ==> r == Err(StoreFault)
    ensures old(db.Quiet()) ==> db.Quiet() && r.Ok?
  {
    var tid := db.BoundTenantID();
    if tid.Err? {
      return Err(StoreFault);
    }
    var a := new Authenticator(db, tid.value);
    r := Ok(a);
  }
}
