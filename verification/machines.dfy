// The machines table: what each SQL statement may answer and what it leaves behind, under
// UNIQUE (fingerprint) and UNIQUE (tenant_id, name).
module Machines {
  import opened Wrappers

  datatype Machine = Machine(
    tenant: nat, name: string, hostname: string, fingerprint: string, lastSeen: Option<nat>)

  type Rows = map<nat, Machine>

  datatype Outcome = Done | NotFound | DuplicateName | DuplicateFingerprint

  predicate Clash(m: Machine, other: Machine) {
    m.fingerprint == other.fingerprint || (m.tenant == other.tenant && m.name == other.name)
  }

  predicate Unique(rows: Rows) {
    forall i, j :: i in rows && j in rows && i != j ==> !Clash(rows[i], rows[j])
  }

  predicate FingerprintTaken(rows: Rows, fingerprint: string) {
    exists i :: i in rows && rows[i].fingerprint == fingerprint
  }

  // Some machine other than except has the name within the tenant.
  predicate NameTaken(rows: Rows, except: nat, tenant: nat, name: string) {
    exists i :: i in rows && i != except && rows[i].tenant == tenant && rows[i].name == name
  }

  // INSERT: when both constraints are violated the database may report either one.
  predicate MayInsert(rows: Rows, id: nat, m: Machine, rows': Rows, o: Outcome) {
    match o
    case Done =>
      && rows' == rows[id := m]
      && !FingerprintTaken(rows, m.fingerprint) && !NameTaken(rows, id, m.tenant, m.name)
    case DuplicateFingerprint => rows' == rows && FingerprintTaken(rows, m.fingerprint)
    case DuplicateName => rows' == rows && NameTaken(rows, id, m.tenant, m.name)
    case NotFound => false
  }

  // UPDATE ... SET name: no row touched means the machine does not exist.
  function Rename(rows: Rows, id: nat, name: string): (Rows, Outcome) {
    if id !in rows then (rows, NotFound)
    else if NameTaken(rows, id, rows[id].tenant, name) then (rows, DuplicateName)
    else (rows[id := rows[id].(name := name)], Done)
  }

  function Delete(rows: Rows, id: nat): (Rows, Outcome) {
    if id in rows then (rows - {id}, Done) else (rows, NotFound)
  }

  // UPDATE ... SET last_seen_at: touching a missing machine is not an error.
  function Touch(rows: Rows, id: nat, now: nat): Rows {
    if id in rows then rows[id := rows[id].(lastSeen := Some(now))] else rows
  }

  // An insert succeeds exactly when the key is new and the name is new in the tenant, which is
  // when the enlarged table meets the constraints.
  lemma InsertKeepsUnique(rows: Rows, id: nat, m: Machine, rows': Rows, o: Outcome)
    requires Unique(rows) && MayInsert(rows, id, m, rows', o) && id !in rows
    ensures Unique(rows')
    ensures o == Done <==> Unique(rows[id := m])
    ensures o == Done
       <==> forall i <- rows ::
              && rows[i].fingerprint != m.fingerprint
              && !(rows[i].tenant == m.tenant && rows[i].name == m.name)
  {
    var more := rows[id := m];
    forall i | i in rows ensures i in more && more[i] == rows[i] {}
    assert more[id] == m;
    if o == DuplicateFingerprint {
      var i :| i in rows && rows[i].fingerprint == m.fingerprint;
      assert Clash(more[id], more[i]);
    }
    if o == DuplicateName {
      var i :| i in rows && i != id && rows[i].tenant == m.tenant && rows[i].name == m.name;
      assert Clash(more[id], more[i]);
    }
  }

  // A rename succeeds exactly when the renamed table would still meet the constraints; then it
  // changes the one name and nothing else, and otherwise nothing at all.
  lemma RenameKeepsUnique(rows: Rows, id: nat, name: string)
    requires Unique(rows) && id in rows
    ensures Unique(Rename(rows, id, name).0)
    ensures Rename(rows, id, name)
         == var renamed := rows[id := rows[id].(name := name)];
            if Unique(renamed) then (renamed, Done) else (rows, DuplicateName)
    ensures Rename(rows, id, name).1 == Done
       <==> forall i <- rows :: i != id ==> !(rows[i].tenant == rows[id].tenant && rows[i].name == name)
  {
    var renamed := rows[id := rows[id].(name := name)];
    forall i | i in rows && i != id ensures renamed[i] == rows[i] && !Clash(rows[i], rows[id]) {}
    if NameTaken(rows, id, rows[id].tenant, name) {
      var i :| i in rows && i != id && rows[i].tenant == rows[id].tenant && rows[i].name == name;
      assert Clash(renamed[id], renamed[i]);
    }
  }

  // Of a missing machine, neither a rename nor a touch nor a delete changes anything.
  lemma MissingIsUntouched(rows: Rows, id: nat, name: string, now: nat)
    requires id !in rows
    ensures Rename(rows, id, name) == (rows, NotFound) && Delete(rows, id) == (rows, NotFound)
    ensures Touch(rows, id, now) == rows
  {
  }

  // A delete takes exactly the one row out, and makes room for its key and its name.
  lemma DeleteKeepsUnique(rows: Rows, id: nat)
    requires Unique(rows)
    ensures Unique(Delete(rows, id).0) && Delete(rows, id).0 == map i | i in rows && i != id :: rows[i]
    ensures Delete(rows, id).1 == Done <==> id in rows
    ensures id in rows ==> MayInsert(Delete(rows, id).0, id, rows[id], rows, Done)
  {
    if id in rows {
      assert Delete(rows, id).0[id := rows[id]] == rows;
      forall i | i in rows && i != id ensures !Clash(rows[i], rows[id]) {}
    }
  }
}
