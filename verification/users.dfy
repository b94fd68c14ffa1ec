// The users table: rows with the schema's uniqueness constraint, and the identity index they
// amount to.
module Users {
  import opened Wrappers

  datatype Key = Key(provider: string, subject: string)

  datatype User = User(key: Key, tenant: nat, email: string)

  type Rows = map<nat, User>

  // UNIQUE (provider, subject)
  predicate Unique(users: Rows) {
    forall i, j :: i in users && j in users && users[i].key == users[j].key ==> i == j
  }

  predicate Present(users: Rows, key: Key) {
    exists i :: i in users && users[i].key == key
  }

  // SELECT ... WHERE provider = $1 AND subject = $2
  ghost function Select(users: Rows, key: Key): (r: Option<nat>)
    ensures r.Some? <==> Present(users, key)
    ensures r.Some? ==> r.value in users && users[r.value].key == key
  {
    if Present(users, key) then var i :| i in users && users[i].key == key; Some(i) else None
  }

  function TenantName(key: Key, email: string): string {
    if email == "" then key.provider + ":" + key.subject else email
  }

  // The user and tenant id every identity resolves to.
  type Index = map<Key, (nat, nat)>

  predicate Indexes(index: Index, users: Rows) {
    && (forall i <- users :: users[i].key in index && index[users[i].key] == (i, users[i].tenant))
    && (forall k <- index :: index[k].0 in users && users[index[k].0].key == k)
  }

  // Get-or-create as one atomic step. uid and tid are the ids to use if a row is created.
  function GetOrCreate(index: Index, key: Key, uid: nat, tid: nat): (Index, (nat, nat)) {
    if key in index then (index, index[key]) else (index[key := (uid, tid)], (uid, tid))
  }

  predicate HasUser(users: Rows, tenant: nat) {
    exists i :: i in users && users[i].tenant == tenant
  }

  // Tenants and users correspond one to one: every user's tenant exists, no two users share
  // one, and no tenant is left without its user.
  predicate OnePerTenant(tenants: map<nat, string>, users: Rows) {
    && (forall i <- users :: users[i].tenant in tenants)
    && (forall i, j :: i in users && j in users && users[i].tenant == users[j].tenant ==> i == j)
    && (forall t <- tenants :: HasUser(users, t))
  }

  function WithEmail(users: Rows, uid: nat, email: string): Rows
    requires uid in users
  {
    users[uid := users[uid].(email := email)]
  }

  lemma InsertKeeps(tenants: map<nat, string>, users: Rows, uid: nat, u: User, name: string)
    requires Unique(users) && uid !in users && !Present(users, u.key)
    requires OnePerTenant(tenants, users) && u.tenant !in tenants
    ensures Unique(users[uid := u])
    ensures OnePerTenant(tenants[u.tenant := name], users[uid := u])
    ensures forall key :: Present(users[uid := u], key) <==> Present(users, key) || key == u.key
  {
    var users' := users[uid := u];
    assert users'[uid] == u;
    forall i | i in users ensures i in users' && users'[i] == users[i] {}
  }

  lemma EmailKeeps(tenants: map<nat, string>, users: Rows, uid: nat, email: string)
    requires uid in users
    ensures Unique(users) ==> Unique(WithEmail(users, uid, email))
    ensures OnePerTenant(tenants, users) ==> OnePerTenant(tenants, WithEmail(users, uid, email))
    ensures forall key :: Present(WithEmail(users, uid, email), key) <==> Present(users, key)
  {
    var users' := WithEmail(users, uid, email);
    forall i | i in users
      ensures i in users' && users'[i].key == users[i].key && users'[i].tenant == users[i].tenant
    {}
  }

  lemma EmailIndexes(index: Index, users: Rows, uid: nat, email: string)
    requires uid in users
    ensures Indexes(index, users) <==> Indexes(index, WithEmail(users, uid, email))
  {
    var users' := WithEmail(users, uid, email);
    forall i | i in users
      ensures i in users' && users'[i].key == users[i].key && users'[i].tenant == users[i].tenant
    {}
  }

  // Creating a row is the creating branch of the atomic get-or-create.
  lemma InsertIndexes(index: Index, users: Rows, uid: nat, u: User)
    requires Indexes(index, users) && uid !in users && !Present(users, u.key)
    ensures GetOrCreate(index, u.key, uid, u.tenant).1 == (uid, u.tenant)
    ensures Indexes(GetOrCreate(index, u.key, uid, u.tenant).0, users[uid := u])
  {
  }

  // Finding a row is the finding branch.
  lemma FoundIndexes(index: Index, users: Rows, i: nat, uid: nat, tid: nat)
    requires Indexes(index, users) && i in users
    ensures GetOrCreate(index, users[i].key, uid, tid) == (index, (i, users[i].tenant))
  {
  }
}
