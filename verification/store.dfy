// The Postgres-backed GetOrCreateUser, statement by statement, with other sessions running
// between the statements.
module Store {
  import opened Wrappers
  import opened Users

  datatype Failure = NotFound | Database

  // How a statement that changes rows ends: it answers, or it reports an error, without or after
  // having taken effect.
  datatype Report = Answers | FailsUndone | FailsDone

  // Which statements of one call fail, should they be reached. insertUser stands for the INSERT
  // itself: an empty result of ON CONFLICT DO NOTHING is no failure.
  datatype Faults = Faults(
    read: bool, update: Report, begin: bool, insertTenant: bool, insertUser: bool, commit: Report, reread: bool)
  {
    predicate None() {
      !read && update.Answers? && !begin && !insertTenant && !insertUser && commit.Answers? && !reread
    }
  }

  // Rows are never deleted and never change identity or tenant.
  predicate Grows(before: Rows, after: Rows) {
    forall i <- before :: i in after && after[i].key == before[i].key && after[i].tenant == before[i].tenant
  }

  class Store {
    var tenants: map<nat, string>
    var users: Rows

    ghost predicate Valid()
      reads this
    {
      Unique(users) && OnePerTenant(tenants, users)
    }

    constructor ()
      ensures Valid() && users == map[]
    {
      tenants, users := map[], map[];
    }

    // What other sessions may have committed between two statements of this one: anything that
    // keeps the tables valid, except using an id issued to this session, or committing the
    // identity whose uncommitted row this session holds (they wait for its transaction). The
    // body is the case where they do nothing; callers know only the contract.
    method OtherSessions(tid: nat, uid: nat, held: Option<Key>)
      requires Valid() && tid !in tenants && uid !in users
      requires held.Some? ==> !Present(users, held.value)
      modifies this
      ensures Valid() && Grows(old(users), users) && tid !in tenants && uid !in users
      ensures held.Some? ==> !Present(users, held.value)
    {
    }

    method GetUser(fails: bool, key: Key) returns (r: Result<(nat, User), Failure>)
      ensures r == Err(Database) <==> fails
      ensures r.Ok? ==> r.value.0 in users && users[r.value.0] == r.value.1 && r.value.1.key == key
      ensures r == Err(NotFound) ==> !Present(users, key)
    {
      if fails {
        return Err(Database);
      }
      var rest := users.Keys;
      while rest != {}
        invariant rest <= users.Keys
        invariant forall i :: i in users.Keys - rest ==> users[i].key != key
      {
        var i :| i in rest;
        if users[i].key == key {
          return Ok((i, users[i]));
        }
        rest := rest - {i};
      }
      r := Err(NotFound);
    }

    // UPDATE users SET email = ... WHERE id = ...
    method UpdateEmail(report: Report, i: nat, email: string) returns (ok: bool)
      requires Valid() && i in users
      modifies this`users
      ensures Valid() && Grows(old(users), users)
      ensures ok <==> report.Answers?
      ensures users == if report.FailsUndone? then old(users) else WithEmail(old(users), i, email)
    {
      if report != FailsUndone {
        EmailKeeps(tenants, users, i, email);
        users := WithEmail(users, i, email);
      }
      ok := report.Answers?;
    }

    // Tenant and user of one transaction: both there as asked for, or neither.
    ghost predicate AllOrNothing(uid: nat, u: User)
      reads this
    {
      && (uid in users <==> u.tenant in tenants)
      && (uid in users ==> users[uid] == u && tenants[u.tenant] == TenantName(u.key, u.email))
    }

    // Both rows of the transaction become visible.
    method MakeVisible(uid: nat, u: User)
      requires Valid() && u.tenant !in tenants && uid !in users && !Present(users, u.key)
      modifies this
      ensures Valid() && Grows(old(users), users)
      ensures AllOrNothing(uid, u) && uid in users
    {
      InsertKeeps(tenants, users, uid, u, TenantName(u.key, u.email));
      tenants := tenants[u.tenant := TenantName(u.key, u.email)];
      users := users[uid := u];
    }

    // The insert into users has succeeded, so other sessions with the same identity wait.
    // COMMIT makes the tenant row and the user row visible together, or neither. It may do so
    // although an error is reported.
    method Commit(report: Report, uid: nat, u: User) returns (ok: bool)
      requires Valid() && u.tenant !in tenants && uid !in users && !Present(users, u.key)
      modifies this
      ensures Valid() && Grows(old(users), users)
      ensures AllOrNothing(uid, u)
      ensures uid in users <==> !report.FailsUndone?
      ensures ok <==> report.Answers?
    {
      OtherSessions(u.tenant, uid, Some(u.key));
      if report != FailsUndone {
        MakeVisible(uid, u);
      }
      ok := report.Answers?;
    }

    // BEGIN and the insert into tenants, which nobody else sees.
    method OpenTransaction(faults: Faults, tid: nat, uid: nat) returns (ok: bool)
      requires Valid() && tid !in tenants && uid !in users
      modifies this
      ensures Valid() && Grows(old(users), users) && tid !in tenants && uid !in users
      ensures ok <==> !faults.begin && !faults.insertTenant
    {
      if faults.begin {
        return false;
      }
      OtherSessions(tid, uid, None);
      if faults.insertTenant {
        return false;
      }
      OtherSessions(tid, uid, None);
      ok := true;
    }

    // The transaction. Its rows stay private until the commit; None is the empty result of
    // ON CONFLICT DO NOTHING, after which the transaction has been rolled back.
    method Create(faults: Faults, key: Key, email: string, tid: nat, uid: nat)
      returns (r: Result<Option<User>, Failure>)
      requires Valid() && tid !in tenants && uid !in users
      modifies this
      ensures Valid() && Grows(old(users), users)
      ensures r.Err? ==> r.error == Database
      ensures AllOrNothing(uid, User(key, tid, email))
      ensures faults.begin || faults.insertTenant || faults.insertUser ==> r.Err? && uid !in users
      ensures !faults.begin && !faults.insertTenant && !faults.insertUser && r.Err? ==> !faults.commit.Answers?
      ensures uid in users ==> !faults.commit.FailsUndone? && (r.Ok? <==> faults.commit.Answers?)
      ensures r.Ok? && r.value.Some? ==> r.value.value == User(key, tid, email) && uid in users
      ensures r.Ok? && r.value.None? ==> Present(users, key) && uid !in users
    {
      var begun := OpenTransaction(faults, tid, uid);
      if !begun {
        return Err(Database);
      }
      var existing := GetUser(faults.insertUser, key);
      if existing.Ok? {
        return Ok(None);
      }
      if existing.error != NotFound {
        return Err(Database);
      }
      var u := User(key, tid, email);
      var committed := Commit(faults.commit, uid, u);
      r := if committed then Ok(Some(u)) else Err(Database);
    }

    // What GetOrCreateUser does for a user who is there already: it answers with the stored row,
    // having stored a non-empty email, and fails only if one of its two statements does.
    method Refresh(faults: Faults, i: nat, u: User, email: string, tid: nat, uid: nat)
      returns (r: Result<(nat, User), Failure>)
      requires Valid() && tid !in tenants && uid !in users && i in users && users[i] == u
      modifies this
      ensures Valid() && Grows(old(users), users) && tid !in tenants && uid !in users
      ensures r.Ok? ==> r.value.0 == i && i in users && users[i] == r.value.1
      ensures r.Ok? && email != "" ==> r.value.1.email == email
      ensures email == "" || email == u.email ==> r == Ok((i, u)) && users == old(users) && tenants == old(tenants)
      ensures email != "" && email != u.email ==> (r.Ok? <==> faults.update.Answers?)
      ensures email != "" && email != u.email && faults.update.FailsDone? ==> i in users && users[i].email == email
      ensures r.Err? ==> r.error == Database
    {
      if email != "" && u.email != email {
        OtherSessions(tid, uid, None);
        var updated := UpdateEmail(faults.update, i, email);
        return if updated then Ok((i, u.(email := email))) else Err(Database);
      }
      r := Ok((i, u));
    }

    // tid and uid are the ids the two inserts will be given. A failing statement, wherever it is
    // reached, makes the call return Database, and nothing else does; NotFound is never returned.
    method GetOrCreateUser(faults: Faults, key: Key, email: string, tid: nat, uid: nat)
      returns (r: Result<(nat, User), Failure>)
      requires Valid() && tid !in tenants && uid !in users
      modifies this
      ensures Valid() && Grows(old(users), users)
      ensures r.Err? ==> r.error == Database
      ensures r.Ok? ==>
                var (i, u) := r.value;
                i in users && users[i] == u && u.key == key && u.tenant in tenants
      ensures AllOrNothing(uid, User(key, tid, email))
      ensures faults.None() ==> r.Ok?
      ensures faults.read ==> r.Err? && users == old(users) && tenants == old(tenants)
      ensures uid in users ==> (r.Ok? <==> faults.commit.Answers?) && (r.Ok? ==> r.value.0 == uid)
      ensures !Present(old(users), key) && (faults.begin || faults.insertTenant || faults.insertUser) ==>
                r.Err? && uid !in users
      ensures Present(old(users), key) ==> uid !in users && tid !in tenants
      ensures Present(old(users), key) && r.Ok? && email != "" ==> r.value.1.email == email
      ensures Present(old(users), key) && email == "" ==>
                users == old(users) && tenants == old(tenants) && (r.Ok? <==> !faults.read)
      ensures forall i <- old(users) :: old(users)[i].key == key && email != "" ==>
                if old(users)[i].email == email then users == old(users) && (r.Ok? <==> !faults.read)
                else (r.Ok? <==> !faults.read && faults.update.Answers?)
    {
      r := GetUser(faults.read, key);
      if r.Ok? {
        r := Refresh(faults, r.value.0, r.value.1, email, tid, uid);
        return;
      }
      if r.error != NotFound {
        return;
      }
      OtherSessions(tid, uid, None);
      var created := Create(faults, key, email, tid, uid);
      if created.Err? {
        return Err(created.error);
      }
      if created.value.Some? {
        return Ok((uid, created.value.value));
      }
      label beforeReread:
      OtherSessions(tid, uid, None);
      assert Present(users, key) by {
        var i :| i in old@beforeReread(users) && old@beforeReread(users)[i].key == key;
        assert users[i].key == key;
      }
      r := GetUser(faults.reread, key);
    }
  }
}
