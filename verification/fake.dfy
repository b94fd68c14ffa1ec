// The in-memory store: the same operations by linear scans over maps, in whatever order the
// map is walked. uuid.New is an id parameter that must not be in use.
module Fake {
  import opened Wrappers
  import Users
  import opened Machines

  datatype ApiKey = ApiKey(user: nat, revokedAt: Option<nat>)

  // From before to after is one atomic get-or-create with this result, whatever the index.
  ghost predicate IsGetOrCreate(
    before: Users.Rows, after: Users.Rows, key: Users.Key, uid: nat, tid: nat, result: (nat, nat))
  {
    forall index: Users.Index :: Users.Indexes(index, before) ==>
      && Users.Indexes(Users.GetOrCreate(index, key, uid, tid).0, after)
      && Users.GetOrCreate(index, key, uid, tid).1 == result
  }

  lemma CreatedIsGetOrCreate(users: Users.Rows, uid: nat, u: Users.User)
    requires uid !in users && !Users.Present(users, u.key)
    ensures IsGetOrCreate(users, users[uid := u], u.key, uid, u.tenant, (uid, u.tenant))
  {
  }

  lemma FoundIsGetOrCreate(users: Users.Rows, id: nat, email: string, uid: nat, tid: nat)
    requires id in users
    ensures IsGetOrCreate(users, users, users[id].key, uid, tid, (id, users[id].tenant))
    ensures IsGetOrCreate(users, Users.WithEmail(users, id, email), users[id].key, uid, tid, (id, users[id].tenant))
  {
  }

  class Fake {
    var tenants: map<nat, string>
    var users: Users.Rows
    var machines: Rows
    var apiKeys: map<string, ApiKey>

    ghost predicate Valid()
      reads this
    {
      Users.Unique(users) && Users.OnePerTenant(tenants, users) && Unique(machines)
    }

    constructor ()
      ensures Valid()
      ensures tenants == map[] && users == map[] && machines == map[] && apiKeys == map[]
    {
      tenants, users, machines, apiKeys := map[], map[], map[], map[];
    }

    method FindUser(key: Users.Key) returns (found: Option<nat>)
      requires Valid()
      ensures forall i :: found == Some(i) <==> i in users && users[i].key == key
    {
      var rest := users.Keys;
      while rest != {}
        invariant rest <= users.Keys
        invariant forall i :: i in users.Keys - rest ==> users[i].key != key
      {
        var i :| i in rest;
        if users[i].key == key {
          return Some(i);
        }
        rest := rest - {i};
      }
      found := None;
    }

    method RefreshEmail(id: nat, email: string)
      requires Valid() && id in users
      modifies this`users
      ensures Valid() && users == Users.WithEmail(old(users), id, email)
    {
      Users.EmailKeeps(tenants, users, id, email);
      users := Users.WithEmail(users, id, email);
    }

    method AddUser(uid: nat, u: Users.User)
      requires Valid() && uid !in users && u.tenant !in tenants && !Users.Present(users, u.key)
      modifies this`users, this`tenants
      ensures Valid() && users == old(users)[uid := u]
      ensures tenants == old(tenants)[u.tenant := Users.TenantName(u.key, u.email)]
    {
      Users.InsertKeeps(tenants, users, uid, u, Users.TenantName(u.key, u.email));
      tenants := tenants[u.tenant := Users.TenantName(u.key, u.email)];
      users := users[uid := u];
    }

    // The atomic get-or-create on ids. It refreshes the email of a row it finds, and creates a
    // tenant only together with its user.
    method GetOrCreateUser(key: Users.Key, email: string, uid: nat, tid: nat) returns (id: nat, u: Users.User)
      requires Valid() && uid !in users && tid !in tenants
      modifies this`users, this`tenants
      ensures Valid()
      ensures IsGetOrCreate(old(users), users, key, uid, tid, (id, u.tenant))
      ensures id in users && users[id] == u && u.key == key
      ensures email != "" ==> u.email == email
      ensures email == "" && id in old(users) ==> users == old(users)
      ensures Users.Present(old(users), key) ==> tenants == old(tenants)
      ensures !Users.Present(old(users), key) ==>
                && id == uid && u == Users.User(key, tid, email)
                && tenants == old(tenants)[tid := Users.TenantName(key, email)]
      ensures old(users).Keys <= users.Keys <= old(users).Keys + {id}
      ensures forall i <- old(users) :: i != id ==> users[i] == old(users)[i]
    {
      var found := FindUser(key);
      if found.Some? {
        id := found.value;
        FoundIsGetOrCreate(users, id, email, uid, tid);
        if email != "" && users[id].email != email {
          RefreshEmail(id, email);
        }
        return id, users[id];
      }
      u := Users.User(key, tid, email);
      CreatedIsGetOrCreate(users, uid, u);
      AddUser(uid, u);
      id := uid;
    }

    // The scan stops at the first clash it meets, so which of two errors wins depends on the
    // order; whether there is an error does not.
    method CreateMachine(id: nat, tenant: nat, name: string, hostname: string, fingerprint: string)
      returns (o: Outcome)
      requires Valid() && id !in machines
      modifies this`machines
      ensures Valid()
      ensures MayInsert(old(machines), id, Machine(tenant, name, hostname, fingerprint, None), machines, o)
    {
      ghost var before := machines;
      var m := Machine(tenant, name, hostname, fingerprint, None);
      var rest := machines.Keys;
      while rest != {}
        invariant rest <= machines.Keys && machines == before
        invariant forall i :: i in machines.Keys - rest ==> !Clash(m, machines[i])
      {
        var i :| i in rest;
        if machines[i].fingerprint == fingerprint {
          return DuplicateFingerprint;
        }
        if machines[i].tenant == tenant && machines[i].name == name {
          return DuplicateName;
        }
        rest := rest - {i};
      }
      machines := machines[id := m];
      InsertKeepsUnique(before, id, m, machines, Done);
      o := Done;
    }

    method GetMachine(id: nat) returns (m: Option<Machine>)
      ensures m == if id in machines then Some(machines[id]) else None
    {
      m := if id in machines then Some(machines[id]) else None;
    }

    // Fingerprints are unique, so the answer is the same whatever the order of the scan.
    method GetMachineByFingerprint(fingerprint: string) returns (found: Option<nat>)
      requires Valid()
      ensures forall i :: found == Some(i) <==> i in machines && machines[i].fingerprint == fingerprint
    {
      var rest := machines.Keys;
      while rest != {}
        invariant rest <= machines.Keys
        invariant forall i :: i in machines.Keys - rest ==> machines[i].fingerprint != fingerprint
      {
        var i :| i in rest;
        if machines[i].fingerprint == fingerprint {
          assert forall j :: j in machines && j != i ==> !Clash(machines[i], machines[j]);
          return Some(i);
        }
        rest := rest - {i};
      }
      found := None;
    }

    // Every machine of the tenant exactly once; unlike the SQL query, in no particular order.
    method ListMachines(tenant: nat) returns (ids: seq<nat>)
      ensures forall i :: i in ids <==> i in machines && machines[i].tenant == tenant
      ensures forall j, k :: 0 <= j < k < |ids| ==> ids[j] != ids[k]
    {
      ids := [];
      var rest := machines.Keys;
      while rest != {}
        invariant rest <= machines.Keys
        invariant forall i :: i in ids <==> i in machines.Keys - rest && machines[i].tenant == tenant
        invariant forall j, k :: 0 <= j < k < |ids| ==> ids[j] != ids[k]
      {
        var i :| i in rest;
        if machines[i].tenant == tenant {
          ids := ids + [i];
        }
        rest := rest - {i};
      }
    }

    // Unlike the SQL statement, reports a missing machine.
    method TouchMachine(id: nat, now: nat) returns (o: Outcome)
      requires Valid()
      modifies this`machines
      ensures Valid() && machines == Touch(old(machines), id, now)
      ensures o == if id in old(machines) then Done else NotFound
    {
      if id !in machines {
        return NotFound;
      }
      machines := machines[id := machines[id].(lastSeen := Some(now))];
      o := Done;
    }

    method RenameMachine(id: nat, name: string) returns (o: Outcome)
      requires Valid()
      modifies this`machines
      ensures Valid() && (machines, o) == Rename(old(machines), id, name)
    {
      if id !in machines {
        return NotFound;
      }
      ghost var before := machines;
      var m := machines[id];
      var rest := machines.Keys;
      while rest != {}
        invariant rest <= machines.Keys && machines == before
        invariant forall i :: i in machines.Keys - rest && i != id ==>
                    !(machines[i].tenant == m.tenant && machines[i].name == name)
      {
        var i :| i in rest;
        if i != id && machines[i].tenant == m.tenant && machines[i].name == name {
          return DuplicateName;
        }
        rest := rest - {i};
      }
      RenameKeepsUnique(machines, id, name);
      machines := machines[id := m.(name := name)];
      o := Done;
    }

    method DeleteMachine(id: nat) returns (o: Outcome)
      requires Valid()
      modifies this`machines
      ensures Valid() && (machines, o) == Delete(old(machines), id)
    {
      if id !in machines {
        return NotFound;
      }
      machines := machines - {id};
      o := Done;
    }

    method RecordApiKey(keyId: string, user: nat)
      modifies this`apiKeys
      ensures apiKeys == old(apiKeys)[keyId := ApiKey(user, None)]
    {
      apiKeys := apiKeys[keyId := ApiKey(user, None)];
    }

    // A key that was never recorded counts as revoked.
    method IsApiKeyRevoked(keyId: string) returns (revoked: bool)
      ensures !revoked <==> keyId in apiKeys && apiKeys[keyId].revokedAt.None?
    {
      revoked := keyId !in apiKeys || apiKeys[keyId].revokedAt.Some?;
    }

    // Only the owner can revoke, and only once.
    method RevokeApiKey(keyId: string, user: nat, now: nat) returns (o: Outcome)
      modifies this`apiKeys
      ensures o == Done <==>
                keyId in old(apiKeys) && old(apiKeys)[keyId] == ApiKey(user, None)
      ensures o == Done ==> apiKeys == old(apiKeys)[keyId := ApiKey(user, Some(now))]
      ensures o != Done ==> o == NotFound && apiKeys == old(apiKeys)
    {
      if keyId !in apiKeys || apiKeys[keyId].user != user || apiKeys[keyId].revokedAt.Some? {
        return NotFound;
      }
      apiKeys := apiKeys[keyId := apiKeys[keyId].(revokedAt := Some(now))];
      o := Done;
    }
  }
}
