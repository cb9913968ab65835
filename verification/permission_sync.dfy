/** Synchronising permissions, roles and role permissions with their definitions. */
module PermissionSync {
  import opened Text

  type Id = nat

  /** A permission or role row: its code, and the other columns that the sync writes. */
  datatype Row<T> = Row(code: string, data: T)

  type Table<T> = map<Id, Row<T>>

  /** displayName, description and category are texts computed from module and action. */
  datatype PermissionData = PermissionData(moduleKey: string, action: string)
  datatype RoleData = RoleData(displayName: string, description: string, isSystem: bool)

  datatype RoleDefinition = RoleDefinition(role: Row<RoleData>, permissions: seq<string>)

  /** `links` holds the (role id, permission id) rows; ids are drawn from `next`. */
  datatype Db = Db(permissions: Table<PermissionData>, roles: Table<RoleData>, links: set<(Id, Id)>, next: Id)

  /** The unique constraint on the code column. */
  ghost predicate UniqueCodes<T>(rows: Table<T>) {
    forall a, b | a in rows && b in rows && rows[a].code == rows[b].code :: a == b
  }

  ghost predicate DistinctCodes<T>(defs: seq<Row<T>>) {
    forall i, j | 0 <= i < j < |defs| :: defs[i].code != defs[j].code
  }

  function Codes<T>(defs: seq<Row<T>>): set<string> { set i | 0 <= i < |defs| :: defs[i].code }

  /** new Map(rows found by code: [row.code, row.id]). */
  function IdByCode<T>(rows: Table<T>, codes: set<string>): (m: map<string, Id>)
    requires UniqueCodes(rows)
    ensures forall id | id in rows && rows[id].code in codes :: rows[id].code in m && m[rows[id].code] == id
    ensures forall c | c in m :: c in codes && m[c] in rows && rows[m[c]].code == c
  {
    map id | id in rows && rows[id].code in codes :: rows[id].code := id
  }

  /** One pass over the definitions; `existing` is read before the pass and not refreshed inside it. */
  function Upsert<T>(existing: map<string, Id>, rows: Table<T>, next: Id, defs: seq<Row<T>>): (Table<T>, Id) {
    if defs == [] then (rows, next)
    else
      var (r, n) := Upsert(existing, rows, next, defs[..|defs| - 1]);
      var d := defs[|defs| - 1];
      if d.code in existing then (r[existing[d.code] := d], n) else (r[n := d], n + 1)
  }

  /** The ids that a pass gives to definitions whose code was not there. */
  function NewBefore<T>(existing: map<string, Id>, defs: seq<Row<T>>): nat {
    if defs == [] then 0
    else NewBefore(existing, defs[..|defs| - 1]) + if defs[|defs| - 1].code in existing then 0 else 1
  }

  lemma {:induction false} UpsertShape<T>(existing: map<string, Id>, rows: Table<T>, next: Id, defs: seq<Row<T>>)
    requires forall id | id in rows :: id < next
    requires forall c | c in existing :: existing[c] in rows
    ensures var (r, n) := Upsert(existing, rows, next, defs);
            && n == next + NewBefore(existing, defs)
            && (forall id :: id in r <==> id in rows || next <= id < n)
            && (forall id | id in rows :: (r[id] == rows[id] && (forall i | 0 <= i < |defs| && defs[i].code in existing :: existing[defs[i].code] != id))
                  || exists i :: 0 <= i < |defs| && defs[i].code in existing && existing[defs[i].code] == id && r[id] == defs[i])
  {
    if defs != [] {
      var front, d := defs[..|defs| - 1], defs[|defs| - 1];
      UpsertShape(existing, rows, next, front);
      var (r, n) := Upsert(existing, rows, next, front);
      var r' := Upsert(existing, rows, next, defs).0;
      forall id | id in rows
        ensures (r'[id] == rows[id] && (forall i | 0 <= i < |defs| && defs[i].code in existing :: existing[defs[i].code] != id))
          || exists i :: 0 <= i < |defs| && defs[i].code in existing && existing[defs[i].code] == id && r'[id] == defs[i]
      {
        if d.code in existing && existing[d.code] == id {
          assert defs[|defs| - 1].code in existing && r'[id] == defs[|defs| - 1];
        } else {
          assert r'[id] == r[id];
          if r[id] != rows[id] || exists i :: 0 <= i < |front| && front[i].code in existing && existing[front[i].code] == id {
            var i :| 0 <= i < |front| && front[i].code in existing && existing[front[i].code] == id && r[id] == front[i];
            assert defs[i] == front[i];
          }
        }
      }
    }
  }

  /** A definition whose code was not there gets the row at its own new id. */
  lemma {:induction false} UpsertInserts<T>(existing: map<string, Id>, rows: Table<T>, next: Id, defs: seq<Row<T>>, i: nat)
    requires forall id | id in rows :: id < next
    requires forall c | c in existing :: existing[c] in rows
    requires i < |defs| && defs[i].code !in existing
    ensures var (r, n) := Upsert(existing, rows, next, defs);
            var id := next + NewBefore(existing, defs[..i]);
            id < n && id in r && r[id] == defs[i]
  {
    var front := defs[..|defs| - 1];
    UpsertShape(existing, rows, next, front);
    if i < |front| {
      UpsertInserts(existing, rows, next, front, i);
      assert front[..i] == defs[..i];
    } else {
      assert front == defs[..i];
    }
  }

  lemma {:induction false} NewMonotone<T>(existing: map<string, Id>, defs: seq<Row<T>>, i: nat, j: nat)
    requires i < j <= |defs|
    ensures NewBefore(existing, defs[..i]) + (if defs[i].code in existing then 0 else 1) <= NewBefore(existing, defs[..j])
    decreases j
  {
    assert defs[..j][..j - 1] == defs[..j - 1];
    if i < j - 1 {
      NewMonotone(existing, defs, i, j - 1);
    }
  }

  /** Every new row is that of a definition whose code was not there. */
  lemma {:induction false} NewRowIsDefined<T>(existing: map<string, Id>, rows: Table<T>, next: Id, defs: seq<Row<T>>, id: Id)
    returns (i: nat)
    requires forall k | k in rows :: k < next
    requires forall c | c in existing :: existing[c] in rows
    requires next <= id < Upsert(existing, rows, next, defs).1
    ensures i < |defs| && defs[i].code !in existing && id == next + NewBefore(existing, defs[..i])
    ensures id in Upsert(existing, rows, next, defs).0 && Upsert(existing, rows, next, defs).0[id] == defs[i]
  {
    var front := defs[..|defs| - 1];
    UpsertShape(existing, rows, next, front);
    if id < Upsert(existing, rows, next, front).1 {
      i := NewRowIsDefined(existing, rows, next, front, id);
      assert front[..i] == defs[..i];
    } else {
      i := |front|;
      assert front == defs[..i];
    }
  }

  lemma OldRowKeepsCode<T>(rows: Table<T>, next: Id, defs: seq<Row<T>>, id: Id)
    requires UniqueCodes(rows) && (forall k | k in rows :: k < next) && id in rows
    ensures var r := Upsert(IdByCode(rows, Codes(defs)), rows, next, defs).0;
            id in r && r[id].code == rows[id].code && (rows[id].code !in Codes(defs) ==> r[id] == rows[id])
  {
    hide Upsert, NewBefore;
    UpsertShape(IdByCode(rows, Codes(defs)), rows, next, defs);
  }

  /** A pass keeps codes unique exactly when no two definitions share a code that was not there: the
   *  second of two such definitions is inserted again, because the map is not refreshed. */
  lemma UpsertUniqueExactly<T>(rows: Table<T>, next: Id, defs: seq<Row<T>>)
    requires UniqueCodes(rows) && forall id | id in rows :: id < next
    ensures UniqueCodes(Upsert(IdByCode(rows, Codes(defs)), rows, next, defs).0) <==>
            forall i, j | 0 <= i < j < |defs| && defs[i].code == defs[j].code :: defs[i].code in IdByCode(rows, Codes(defs))
  {
    hide Upsert, NewBefore;
    var existing := IdByCode(rows, Codes(defs));
    var r := Upsert(existing, rows, next, defs).0;
    if forall i, j | 0 <= i < j < |defs| && defs[i].code == defs[j].code :: defs[i].code in existing {
      forall a, b | a in r && b in r && r[a].code == r[b].code
        ensures a == b
      {
        NoDuplicate(rows, next, defs, a, b);
      }
    } else {
      var i, j :| 0 <= i < j < |defs| && defs[i].code == defs[j].code && defs[i].code !in existing;
      UpsertInserts(existing, rows, next, defs, i);
      UpsertInserts(existing, rows, next, defs, j);
      NewMonotone(existing, defs, i, j);
    }
  }

  lemma NoDuplicate<T>(rows: Table<T>, next: Id, defs: seq<Row<T>>, a: Id, b: Id)
    requires UniqueCodes(rows) && forall id | id in rows :: id < next
    requires forall i, j | 0 <= i < j < |defs| && defs[i].code == defs[j].code :: defs[i].code in IdByCode(rows, Codes(defs))
    requires var r := Upsert(IdByCode(rows, Codes(defs)), rows, next, defs).0; a in r && b in r && r[a].code == r[b].code
    ensures a == b
  {
    hide Upsert, NewBefore;
    var existing := IdByCode(rows, Codes(defs));
    UpsertShape(existing, rows, next, defs);
    if a in rows && b in rows {
      OldRowKeepsCode(rows, next, defs, a);
      OldRowKeepsCode(rows, next, defs, b);
    } else if a in rows {
      OldRowKeepsCode(rows, next, defs, a);
      var j := NewRowIsDefined(existing, rows, next, defs, b);
    } else if b in rows {
      OldRowKeepsCode(rows, next, defs, b);
      var i := NewRowIsDefined(existing, rows, next, defs, a);
    } else {
      var i := NewRowIsDefined(existing, rows, next, defs, a);
      var j := NewRowIsDefined(existing, rows, next, defs, b);
    }
  }

  /** What a pass over definitions with distinct codes leaves. */
  ghost predicate Upserted<T(!new)>(before: Table<T>, after: Table<T>, defs: seq<Row<T>>) {
    && (forall id | id in before :: id in after && after[id].code == before[id].code)
    && (forall id | id in before && before[id].code !in Codes(defs) :: after[id] == before[id])
    && (forall d | d in defs :: exists id :: id in after && after[id] == d)
    && (forall id | id in after && id !in before :: after[id] in defs)
  }

  lemma DefinedRowPresent<T(!new)>(rows: Table<T>, next: Id, defs: seq<Row<T>>, i: nat)
    requires UniqueCodes(rows) && (forall id | id in rows :: id < next) && DistinctCodes(defs) && i < |defs|
    ensures var r := Upsert(IdByCode(rows, Codes(defs)), rows, next, defs).0; exists id :: id in r && r[id] == defs[i]
  {
    hide Upsert, NewBefore;
    var existing := IdByCode(rows, Codes(defs));
    var r := Upsert(existing, rows, next, defs).0;
    UpsertShape(existing, rows, next, defs);
    if defs[i].code in existing {
      var id := existing[defs[i].code];
      assert !(forall k | 0 <= k < |defs| && defs[k].code in existing :: existing[defs[k].code] != id);
      var k :| 0 <= k < |defs| && defs[k].code in existing && existing[defs[k].code] == id && r[id] == defs[k];
      assert k == i;
    } else {
      UpsertInserts(existing, rows, next, defs, i);
    }
  }

  lemma UpsertBounds<T(!new)>(rows: Table<T>, next: Id, defs: seq<Row<T>>)
    requires UniqueCodes(rows) && forall id | id in rows :: id < next
    ensures var (r, n) := Upsert(IdByCode(rows, Codes(defs)), rows, next, defs);
            && next <= n && (forall id | id in r :: id < n)
            && forall id | id in r && id !in rows :: r[id] in defs
  {
    hide Upsert, NewBefore;
    var existing := IdByCode(rows, Codes(defs));
    var (r, n) := Upsert(existing, rows, next, defs);
    UpsertShape(existing, rows, next, defs);
    forall id | id in r && id !in rows
      ensures r[id] in defs
    {
      var i := NewRowIsDefined(existing, rows, next, defs, id);
    }
  }

  lemma UpsertConverges<T(!new)>(rows: Table<T>, next: Id, defs: seq<Row<T>>)
    requires UniqueCodes(rows) && (forall id | id in rows :: id < next) && DistinctCodes(defs)
    ensures var (r, n) := Upsert(IdByCode(rows, Codes(defs)), rows, next, defs);
            next <= n && UniqueCodes(r) && Upserted(rows, r, defs) && forall id | id in r :: id < n
  {
    hide Upsert, NewBefore, UniqueCodes, IdByCode, Codes;
    var (r, n) := Upsert(IdByCode(rows, Codes(defs)), rows, next, defs);
    UpsertBounds(rows, next, defs);
    UpsertUniqueExactly(rows, next, defs);
    forall id | id in rows
      ensures id in r && r[id].code == rows[id].code && (rows[id].code !in Codes(defs) ==> r[id] == rows[id])
    {
      OldRowKeepsCode(rows, next, defs, id);
    }
    forall d | d in defs
      ensures exists id :: id in r && r[id] == d
    {
      var i :| 0 <= i < |defs| && defs[i] == d;
      DefinedRowPresent(rows, next, defs, i);
    }
  }

  /** A pass over rows that already are as defined changes nothing. */
  lemma {:induction false} UpsertSettled<T>(existing: map<string, Id>, rows: Table<T>, next: Id, defs: seq<Row<T>>)
    requires forall d | d in defs :: d.code in existing && existing[d.code] in rows && rows[existing[d.code]] == d
    ensures Upsert(existing, rows, next, defs) == (rows, next)
  {
    if defs != [] {
      var front, d := defs[..|defs| - 1], defs[|defs| - 1];
      assert d in defs && forall x | x in front :: x in defs;
      UpsertSettled(existing, rows, next, front);
      assert rows[existing[d.code] := d] == rows;
    }
  }

  lemma UpsertAgain<T(!new)>(before: Table<T>, rows: Table<T>, next: Id, defs: seq<Row<T>>)
    requires UniqueCodes(rows) && Upserted(before, rows, defs)
    ensures Upsert(IdByCode(rows, Codes(defs)), rows, next, defs) == (rows, next)
  {
    var existing := IdByCode(rows, Codes(defs));
    forall d | d in defs
      ensures d.code in existing && existing[d.code] in rows && rows[existing[d.code]] == d
    {
      var id :| id in rows && rows[id] == d;
      var i :| 0 <= i < |defs| && defs[i] == d;
      assert d.code in Codes(defs);
    }
    UpsertSettled(existing, rows, next, defs);
  }

  // ------------------------------------------------------------------ role permissions

  /** The rows saved for one role: the listed codes that are defined permissions. */
  function LinksOf(roleId: Id, permissionIds: map<string, Id>, codes: seq<string>): set<(Id, Id)> {
    set c | c in codes && c in permissionIds :: (roleId, permissionIds[c])
  }

  /** The third loop: each defined role's rows are deleted and saved anew. */
  function Rewrite(links: set<(Id, Id)>, roleIds: map<string, Id>, permissionIds: map<string, Id>, defs: seq<RoleDefinition>): set<(Id, Id)> {
    if defs == [] then links
    else
      var l := Rewrite(links, roleIds, permissionIds, defs[..|defs| - 1]);
      var d := defs[|defs| - 1];
      if d.role.code in roleIds
      then (set p | p in l && p.0 != roleIds[d.role.code]) + LinksOf(roleIds[d.role.code], permissionIds, d.permissions)
      else l
  }

  ghost predicate Injective(m: map<string, Id>) { forall a, b | a in m && b in m && m[a] == m[b] :: a == b }

  lemma {:induction false} RewriteMeans(links: set<(Id, Id)>, roleIds: map<string, Id>, permissionIds: map<string, Id>,
                                        defs: seq<RoleDefinition>, i: nat, roleId: Id, permissionId: Id)
    requires Injective(roleIds) && forall j, k | 0 <= j < k < |defs| :: defs[j].role.code != defs[k].role.code
    requires forall d | d in defs :: d.role.code in roleIds
    ensures i < |defs| && roleId == roleIds[defs[i].role.code] ==>
              ((roleId, permissionId) in Rewrite(links, roleIds, permissionIds, defs) <==>
                 (roleId, permissionId) in LinksOf(roleId, permissionIds, defs[i].permissions))
    ensures (forall d | d in defs :: roleIds[d.role.code] != roleId) ==>
              ((roleId, permissionId) in Rewrite(links, roleIds, permissionIds, defs) <==> (roleId, permissionId) in links)
  {
    if defs != [] {
      var front, d := defs[..|defs| - 1], defs[|defs| - 1];
      assert defs == front + [d] && forall x | x in front :: x in defs;
      RewriteMeans(links, roleIds, permissionIds, front, i, roleId, permissionId);
      assert d in defs;
      if i < |front| {
        assert front[i] == defs[i];
        assert roleIds[defs[i].role.code] != roleIds[d.role.code];
      }
    }
  }

  // ------------------------------------------------------------------ the whole sync

  ghost predicate Valid(db: Db) {
    && UniqueCodes(db.permissions) && UniqueCodes(db.roles)
    && (forall id | id in db.permissions :: id < db.next) && (forall id | id in db.roles :: id < db.next)
  }

  function RoleRows(defs: seq<RoleDefinition>): seq<Row<RoleData>> {
    seq(|defs|, i requires 0 <= i < |defs| => defs[i].role)
  }

  ghost predicate DistinctDefinitions(defs: seq<Row<PermissionData>>, roleDefs: seq<RoleDefinition>) {
    DistinctCodes(defs) && DistinctCodes(RoleRows(roleDefs))
  }

  function Sync(db: Db, defs: seq<Row<PermissionData>>, roleDefs: seq<RoleDefinition>): Db
    requires Valid(db) && DistinctDefinitions(defs, roleDefs)
  {
    var codes, roleCodes := Codes(defs), Codes(RoleRows(roleDefs));
    var (ps, n) := Upsert(IdByCode(db.permissions, codes), db.permissions, db.next, defs);
    UpsertConverges(db.permissions, db.next, defs);
    var (rs, m) := Upsert(IdByCode(db.roles, roleCodes), db.roles, n, RoleRows(roleDefs));
    UpsertConverges(db.roles, n, RoleRows(roleDefs));
    Db(ps, rs, Rewrite(db.links, IdByCode(rs, roleCodes), IdByCode(ps, codes), roleDefs), m)
  }

  /** The sync makes permission and role rows as defined, under their old ids where they had one, and
   *  leaves rows of undefined codes alone. */
  lemma SyncConverges(db: Db, defs: seq<Row<PermissionData>>, roleDefs: seq<RoleDefinition>)
    requires Valid(db) && DistinctDefinitions(defs, roleDefs)
    ensures var r := Sync(db, defs, roleDefs);
            && Valid(r)
            && Upserted(db.permissions, r.permissions, defs)
            && Upserted(db.roles, r.roles, RoleRows(roleDefs))
  {
    hide Upsert, IdByCode, Codes, Upserted, UniqueCodes, Rewrite;
    UpsertConverges(db.permissions, db.next, defs);
    var n := Upsert(IdByCode(db.permissions, Codes(defs)), db.permissions, db.next, defs).1;
    UpsertConverges(db.roles, n, RoleRows(roleDefs));
  }

  lemma RoleIds(rows: Table<RoleData>, roleDefs: seq<RoleDefinition>)
    requires UniqueCodes(rows) && forall d | d in RoleRows(roleDefs) :: exists id :: id in rows && rows[id] == d
    ensures var ids := IdByCode(rows, Codes(RoleRows(roleDefs)));
            Injective(ids) && forall d | d in roleDefs :: d.role.code in ids
  {
    forall d | d in roleDefs
      ensures d.role.code in IdByCode(rows, Codes(RoleRows(roleDefs)))
    {
      var i :| 0 <= i < |roleDefs| && roleDefs[i] == d;
      assert RoleRows(roleDefs)[i] == d.role;
      assert d.role in RoleRows(roleDefs);
      var id :| id in rows && rows[id] == d.role;
      assert rows[id].code in Codes(RoleRows(roleDefs));
    }
  }

  lemma DistinctRoleCodes(roleDefs: seq<RoleDefinition>)
    requires DistinctCodes(RoleRows(roleDefs))
    ensures forall j, k | 0 <= j < k < |roleDefs| :: roleDefs[j].role.code != roleDefs[k].role.code
  {
    assert forall k | 0 <= k < |roleDefs| :: RoleRows(roleDefs)[k] == roleDefs[k].role;
  }

  /** After the sync every defined role has exactly its listed permissions, whatever it had before. */
  lemma DefinedRoleHasExactly(db: Db, defs: seq<Row<PermissionData>>, roleDefs: seq<RoleDefinition>, i: nat, roleId: Id, permissionId: Id)
    requires Valid(db) && DistinctDefinitions(defs, roleDefs) && i < |roleDefs|
    ensures var r := Sync(db, defs, roleDefs);
            roleId in r.roles && r.roles[roleId].code == roleDefs[i].role.code ==>
              ((roleId, permissionId) in r.links <==>
                && permissionId in r.permissions
                && r.permissions[permissionId].code in roleDefs[i].permissions
                && r.permissions[permissionId].code in Codes(defs))
  {
    hide Upsert, Rewrite, Codes;
    SyncConverges(db, defs, roleDefs);
    DistinctRoleCodes(roleDefs);
    var r := Sync(db, defs, roleDefs);
    RoleIds(r.roles, roleDefs);
    assert roleDefs[i] in roleDefs;
    var roleIds, permissionIds := IdByCode(r.roles, Codes(RoleRows(roleDefs))), IdByCode(r.permissions, Codes(defs));
    RewriteMeans(db.links, roleIds, permissionIds, roleDefs, i, roleId, permissionId);
  }

  /** The permissions of roles that are not defined are untouched. */
  lemma UndefinedRoleUntouched(db: Db, defs: seq<Row<PermissionData>>, roleDefs: seq<RoleDefinition>, roleId: Id, permissionId: Id)
    requires Valid(db) && DistinctDefinitions(defs, roleDefs)
    ensures var r := Sync(db, defs, roleDefs);
            (roleId in r.roles ==> r.roles[roleId].code !in Codes(RoleRows(roleDefs))) ==>
              ((roleId, permissionId) in r.links <==> (roleId, permissionId) in db.links)
  {
    hide Upsert, Rewrite;
    SyncConverges(db, defs, roleDefs);
    DistinctRoleCodes(roleDefs);
    var r := Sync(db, defs, roleDefs);
    RoleIds(r.roles, roleDefs);
    var roleIds := IdByCode(r.roles, Codes(RoleRows(roleDefs)));
    RewriteMeans(db.links, roleIds, IdByCode(r.permissions, Codes(defs)), roleDefs, |roleDefs|, roleId, permissionId);
  }

  /** A second sync changes nothing. */
  lemma SyncAgain(db: Db, defs: seq<Row<PermissionData>>, roleDefs: seq<RoleDefinition>)
    requires Valid(db) && DistinctDefinitions(defs, roleDefs)
    ensures Valid(Sync(db, defs, roleDefs))
    ensures Sync(Sync(db, defs, roleDefs), defs, roleDefs) == Sync(db, defs, roleDefs)
  {
    hide Upsert, Rewrite, Codes, IdByCode, UniqueCodes, Upserted;
    SyncConverges(db, defs, roleDefs);
    var r := Sync(db, defs, roleDefs);
    UpsertAgain(db.permissions, r.permissions, r.next, defs);
    UpsertAgain(db.roles, r.roles, r.next, RoleRows(roleDefs));
    RewriteAgain(db.links, r.roles, r.permissions, defs, roleDefs, db.roles);
  }

  lemma RewriteAgain(links: set<(Id, Id)>, roles: Table<RoleData>, permissions: Table<PermissionData>,
                     defs: seq<Row<PermissionData>>, roleDefs: seq<RoleDefinition>, before: Table<RoleData>)
    requires UniqueCodes(roles) && UniqueCodes(permissions) && DistinctCodes(RoleRows(roleDefs))
    requires Upserted(before, roles, RoleRows(roleDefs))
    ensures var roleIds, permissionIds := IdByCode(roles, Codes(RoleRows(roleDefs))), IdByCode(permissions, Codes(defs));
            var l := Rewrite(links, roleIds, permissionIds, roleDefs);
            Rewrite(l, roleIds, permissionIds, roleDefs) == l
  {
    hide Rewrite, Codes, IdByCode, UniqueCodes, LinksOf;
    DistinctRoleCodes(roleDefs);
    RoleIds(roles, roleDefs);
    var roleIds, permissionIds := IdByCode(roles, Codes(RoleRows(roleDefs))), IdByCode(permissions, Codes(defs));
    var l := Rewrite(links, roleIds, permissionIds, roleDefs);
    forall p: (Id, Id)
      ensures p in Rewrite(l, roleIds, permissionIds, roleDefs) <==> p in l
    {
      if i :| 0 <= i < |roleDefs| && roleIds[roleDefs[i].role.code] == p.0 {
        RewriteMeans(links, roleIds, permissionIds, roleDefs, i, p.0, p.1);
        RewriteMeans(l, roleIds, permissionIds, roleDefs, i, p.0, p.1);
      } else {
        RewriteMeans(l, roleIds, permissionIds, roleDefs, |roleDefs|, p.0, p.1);
      }
    }
  }

  // ------------------------------------------------------------------ syncPermissionsForDatabase

  class PermissionDatabase {
    var permissions: Table<PermissionData>
    var roles: Table<RoleData>
    var links: set<(Id, Id)>
    var next: Id

    ghost function Contents(): Db
      reads this
    {
      Db(permissions, roles, links, next)
    }

    constructor (db: Db)
      ensures Contents() == db
    {
      permissions, roles, links, next := db.permissions, db.roles, db.links, db.next;
    }

    method SyncPermissionRows(defs: seq<Row<PermissionData>>)
      requires UniqueCodes(permissions)
      modifies this`permissions, this`next
      ensures (permissions, next) == Upsert(IdByCode(old(permissions), Codes(defs)), old(permissions), old(next), defs)
    {
      hide IdByCode;
      var existing := IdByCode(permissions, Codes(defs));
      for i := 0 to |defs|
        invariant (permissions, next) == Upsert(existing, old(permissions), old(next), defs[..i])
      {
        var definition := defs[i];
        assert defs[..i + 1][..i] == defs[..i];
        if definition.code in existing {
          permissions := permissions[existing[definition.code] := definition];
        } else {
          permissions := permissions[next := definition];
          next := next + 1;
        }
      }
      assert defs[..|defs|] == defs;
    }

    method SyncRoleRows(defs: seq<RoleDefinition>)
      requires UniqueCodes(roles)
      modifies this`roles, this`next
      ensures (roles, next) == Upsert(IdByCode(old(roles), Codes(RoleRows(defs))), old(roles), old(next), RoleRows(defs))
    {
      hide IdByCode;
      var rows := RoleRows(defs);
      var existing := IdByCode(roles, Codes(rows));
      for i := 0 to |defs|
        invariant (roles, next) == Upsert(existing, old(roles), old(next), rows[..i])
      {
        var definition := defs[i];
        assert rows[..i + 1][..i] == rows[..i];
        if definition.role.code in existing {
          roles := roles[existing[definition.role.code] := definition.role];
        } else {
          roles := roles[next := definition.role];
          next := next + 1;
        }
      }
      assert rows[..|defs|] == rows;
    }

    method SyncRolePermissions(roleIds: map<string, Id>, permissionIds: map<string, Id>, defs: seq<RoleDefinition>)
      modifies this`links
      ensures links == Rewrite(old(links), roleIds, permissionIds, defs)
    {
      for i := 0 to |defs|
        invariant links == Rewrite(old(links), roleIds, permissionIds, defs[..i])
      {
        var definition := defs[i];
        assert defs[..i + 1][..i] == defs[..i];
        if definition.role.code !in roleIds {
          continue;
        }
        var roleId := roleIds[definition.role.code];
        links := set p | p in links && p.0 != roleId;
        var mappings := LinksOf(roleId, permissionIds, definition.permissions);
        if mappings != {} {
          links := links + mappings;
        }
      }
      assert defs[..|defs|] == defs;
    }

    method SyncPermissions(defs: seq<Row<PermissionData>>, roleDefs: seq<RoleDefinition>)
      requires Valid(Contents()) && DistinctDefinitions(defs, roleDefs)
      modifies this
      ensures Contents() == Sync(old(Contents()), defs, roleDefs)
    {
      hide Upsert, IdByCode, Codes, UniqueCodes, Upserted, Rewrite;
      UpsertConverges(permissions, next, defs);
      SyncPermissionRows(defs);
      UpsertConverges(roles, next, RoleRows(roleDefs));
      SyncRoleRows(roleDefs);
      SyncRolePermissions(IdByCode(roles, Codes(RoleRows(roleDefs))), IdByCode(permissions, Codes(defs)), roleDefs);
    }
  }

  // ------------------------------------------------------------------ the definitions

  /** A module and its actions. */
  type Module = (string, seq<string>)

  /** definePermission. */
  function DefinePermission(moduleKey: string, action: string): Row<PermissionData> {
    Row(moduleKey + "." + action, PermissionData(moduleKey, action))
  }

  /** APP_MODULES.flatMap over the module table. */
  function Definitions(modules: seq<Module>): seq<Row<PermissionData>> {
    if modules == [] then []
    else Definitions(modules[..|modules| - 1]) + OfModule(modules[|modules| - 1])
  }

  function OfModule(m: Module): seq<Row<PermissionData>> {
    seq(|m.1|, i requires 0 <= i < |m.1| => DefinePermission(m.0, m.1[i]))
  }

  ghost predicate Distinct(names: seq<string>) { forall i, j | 0 <= i < j < |names| :: names[i] != names[j] }

  /** Module names are distinct and hold no dot, and no module lists an action twice. */
  ghost predicate GoodModules(modules: seq<Module>) {
    && (forall i, j | 0 <= i < j < |modules| :: modules[i].0 != modules[j].0)
    && (forall i | 0 <= i < |modules| :: Without(modules[i].0, '.') && Distinct(modules[i].1))
  }

  lemma CodeInjective(m: string, a: string, m': string, a': string)
    requires Without(m, '.') && Without(m', '.') && DefinePermission(m, a).code == DefinePermission(m', a').code
    ensures m == m' && a == a'
  {
    SplitUnique('.', m, a, m', a');
  }

  lemma {:induction false} DefinitionsCome(modules: seq<Module>, d: Row<PermissionData>)
    ensures d in Definitions(modules) <==>
            exists i, k :: 0 <= i < |modules| && 0 <= k < |modules[i].1| && d == DefinePermission(modules[i].0, modules[i].1[k])
  {
    if modules != [] {
      var front, m := modules[..|modules| - 1], modules[|modules| - 1];
      DefinitionsCome(front, d);
      if d in Definitions(front) {
        var i, k :| 0 <= i < |front| && 0 <= k < |front[i].1| && d == DefinePermission(front[i].0, front[i].1[k]);
        assert modules[i] == front[i];
      }
      if d in OfModule(m) {
        var k :| 0 <= k < |m.1| && OfModule(m)[k] == d;
        assert modules[|modules| - 1].1[k] == m.1[k];
      }
      if i, k :| 0 <= i < |modules| && 0 <= k < |modules[i].1| && d == DefinePermission(modules[i].0, modules[i].1[k]) {
        if i < |front| {
          assert front[i] == modules[i];
        } else {
          assert OfModule(m)[k] == d;
        }
      }
    }
  }

  /** Codes of the form module.action are pairwise distinct. */
  lemma {:induction false} DefinitionsDistinct(modules: seq<Module>)
    requires GoodModules(modules)
    ensures DistinctCodes(Definitions(modules))
  {
    hide Without;
    if modules != [] {
      var front, m := modules[..|modules| - 1], modules[|modules| - 1];
      DefinitionsDistinct(front);
      var a, b := Definitions(front), OfModule(m);
      forall i, j | 0 <= i < |a| && 0 <= j < |b|
        ensures a[i].code != b[j].code
      {
        DefinitionsCome(front, a[i]);
        var k, l :| 0 <= k < |front| && 0 <= l < |front[k].1| && a[i] == DefinePermission(front[k].0, front[k].1[l]);
        assert front[k] == modules[k];
        if a[i].code == b[j].code {
          CodeInjective(front[k].0, front[k].1[l], m.0, m.1[j]);
        }
      }
      forall i, j | 0 <= i < j < |b|
        ensures b[i].code != b[j].code
      {
        if b[i].code == b[j].code {
          CodeInjective(m.0, m.1[i], m.0, m.1[j]);
        }
      }
    }
  }

  const BOTH := ["read", "manage"]
  const READ := ["read"]

  const MODULES: seq<Module> := [
    ("company", BOTH),
    ("organization", BOTH),
    ("brand", BOTH),
    ("role", BOTH),
    ("user", BOTH),
    ("call", BOTH),
    ("call_log", BOTH),
    ("lead_manual_update", BOTH),
    ("level2_update", BOTH),
    ("level2_history", BOTH),
    ("fixed_lead", BOTH),
    ("lead_stats", READ),
    ("sms", BOTH),
    ("email", BOTH),
    ("lead", BOTH),
    ("additional_contact", BOTH),
    ("currently_hot", BOTH),
    ("recent_interest", BOTH),
    ("ever_been_hot", BOTH),
    ("unassigned_hot", BOTH),
    ("closed_contact", BOTH),
    ("audit_log", READ),
    ("dashboard", READ),
    ("notification", BOTH),
    ("settings", BOTH),
    ("queue", BOTH)]

  /** Length and first letter tell the module names apart. */
  function Mark(name: string): int
    requires name != ""
  {
    1000 * |name| + name[0] as int
  }

  const MARKS := [7099, 12111, 5098, 4114, 4117, 4099, 8099, 18108, 13108, 14108, 10102, 10108, 3115, 5101, 4108, 18097, 13099, 15114, 13101, 14117, 14099, 9097, 9100, 12110, 8115, 5113]

  lemma MarksRight()
    ensures |MARKS| == |MODULES| && forall i | 0 <= i < |MODULES| :: MODULES[i].0 != "" && Mark(MODULES[i].0) == MARKS[i]
  {
  }

  lemma MarksDistinct()
    ensures forall i, j | 0 <= i < j < |MARKS| :: MARKS[i] != MARKS[j]
  {
  }

  lemma NoDots(i: nat)
    requires i < |MODULES|
    ensures Without(MODULES[i].0, '.')
  {
    if i < 9 {
      NoDotsBelow(i);
    } else if i < 18 {
      NoDotsMiddle(i);
    } else {
      NoDotsAbove(i);
    }
  }

  lemma NoDotsBelow(i: nat)
    requires i < 9
    ensures Without(MODULES[i].0, '.')
  {
  }

  lemma NoDotsMiddle(i: nat)
    requires 9 <= i < 18
    ensures Without(MODULES[i].0, '.')
  {
  }

  lemma NoDotsAbove(i: nat)
    requires 18 <= i < |MODULES|
    ensures Without(MODULES[i].0, '.')
  {
  }

  lemma ActionsDistinct(i: nat)
    requires i < |MODULES|
    ensures Distinct(MODULES[i].1)
  {
    assert MODULES[i].1 == BOTH || MODULES[i].1 == READ;
  }

  lemma NamesDistinct(i: nat, j: nat)
    requires i < j < |MODULES|
    ensures MODULES[i].0 != MODULES[j].0
  {
    hide Mark;
    MarksRight();
    MarksDistinct();
    assert MARKS[i] != MARKS[j];
  }

  lemma ModulesGood()
    ensures GoodModules(MODULES)
  {
    hide Without, Distinct;
    forall i, j | 0 <= i < j < |MODULES|
      ensures MODULES[i].0 != MODULES[j].0
    {
      NamesDistinct(i, j);
    }
    forall i | 0 <= i < |MODULES|
      ensures Without(MODULES[i].0, '.') && Distinct(MODULES[i].1)
    {
      NoDots(i);
      ActionsDistinct(i);
    }
  }

  const AGENT_MODULES := ["call", "call_log", "lead_manual_update"]

  /** definitions.filter(keep).map(code). */
  function CodesWhere(defs: seq<Row<PermissionData>>, keep: PermissionData -> bool): seq<string> {
    if defs == [] then []
    else CodesWhere(defs[..|defs| - 1], keep) + if keep(defs[|defs| - 1].data) then [defs[|defs| - 1].code] else []
  }

  /** Display name, description and system flag of each role. */
  function RoleTexts(i: nat): RoleData {
    if i == 0 then RoleData("Super Admin", "Full platform access across all modules and operations.", true)
    else if i == 1 then RoleData("Admin", "Administrative access across all CRM modules and operations.", true)
    else if i == 2 then RoleData("Manager", "All permissions except the agent-only call and lead manual update modules.", true)
    else if i == 3 then RoleData("Agent", "Access limited to call, call log, and lead manual update modules.", true)
    else RoleData("Auditor", "Read-only access for audits, compliance, and investigation.", true)
  }

  /** ROLE_DEFINITIONS, over the permission definitions. */
  function RoleDefinitions(defs: seq<Row<PermissionData>>): seq<RoleDefinition> {
    [ RoleDefinition(Row("super_admin", RoleTexts(0)), CodesWhere(defs, (d: PermissionData) => true)),
      RoleDefinition(Row("admin", RoleTexts(1)), CodesWhere(defs, (d: PermissionData) => true)),
      RoleDefinition(Row("manager", RoleTexts(2)), CodesWhere(defs, (d: PermissionData) => d.moduleKey !in AGENT_MODULES)),
      RoleDefinition(Row("agent", RoleTexts(3)), CodesWhere(defs, (d: PermissionData) => d.moduleKey in AGENT_MODULES)),
      RoleDefinition(Row("auditor", RoleTexts(4)), CodesWhere(defs, (d: PermissionData) => d.action == "read")) ]
  }

  /** What a role is for: everything, all but the agent modules, the agent modules, or reading. */
  predicate Allows(roleCode: string, d: PermissionData) {
    if roleCode == "manager" then d.moduleKey !in AGENT_MODULES
    else if roleCode == "agent" then d.moduleKey in AGENT_MODULES
    else if roleCode == "auditor" then d.action == "read"
    else true
  }

  lemma {:induction false} CodesWhereMeans(defs: seq<Row<PermissionData>>, keep: PermissionData -> bool, code: string)
    ensures code in CodesWhere(defs, keep) <==> exists d :: d in defs && keep(d.data) && d.code == code
  {
    if defs != [] {
      var front, last := defs[..|defs| - 1], defs[|defs| - 1];
      CodesWhereMeans(front, keep, code);
      assert defs == front + [last];
      if keep(last.data) && last.code == code {
        assert last in defs;
      }
    }
  }

  const ROLE_CODES := ["super_admin", "admin", "manager", "agent", "auditor"]

  lemma RoleCodesDiffer()
    ensures forall i, j | 0 <= i < j < |ROLE_CODES| :: ROLE_CODES[i] != ROLE_CODES[j]
  {
    var codes := ROLE_CODES;
    assert codes[0][0] == 's' && codes[1][1] == 'd' && codes[2][0] == 'm' && codes[3][1] == 'g' && codes[4][1] == 'u';
    assert codes[1][0] == 'a' && codes[3][0] == 'a' && codes[4][0] == 'a';
  }

  lemma RoleCodesDistinct(defs: seq<Row<PermissionData>>)
    ensures DistinctCodes(RoleRows(RoleDefinitions(defs)))
  {
    hide CodesWhere, RoleTexts;
    RoleCodesDiffer();
    var rows := RoleRows(RoleDefinitions(defs));
    assert forall i | 0 <= i < 5 :: rows[i].code == ROLE_CODES[i];
  }

  lemma AllowsByCode(d: PermissionData)
    ensures Allows("super_admin", d) && Allows("admin", d)
    ensures Allows("manager", d) <==> d.moduleKey !in AGENT_MODULES
    ensures Allows("agent", d) <==> d.moduleKey in AGENT_MODULES
    ensures Allows("auditor", d) <==> d.action == "read"
  {
    RoleCodesDiffer();
    assert ROLE_CODES[0] == "super_admin" && ROLE_CODES[1] == "admin";
    assert ROLE_CODES[2] == "manager" && ROLE_CODES[3] == "agent" && ROLE_CODES[4] == "auditor";
  }

  /** Each role definition lists exactly the permissions its role is for. */
  lemma RoleLists(defs: seq<Row<PermissionData>>, i: nat, d: Row<PermissionData>)
    requires DistinctCodes(defs) && d in defs && i < |RoleDefinitions(defs)|
    ensures var role := RoleDefinitions(defs)[i];
            d.code in role.permissions <==> Allows(role.role.code, d.data)
  {
    hide CodesWhere, Allows, RoleTexts;
    AllowsByCode(d.data);
    assert forall x | x in defs && x.code == d.code :: x == d;
    if i < 2 {
      CodesWhereMeans(defs, (d: PermissionData) => true, d.code);
    } else if i == 2 {
      CodesWhereMeans(defs, (d: PermissionData) => d.moduleKey !in AGENT_MODULES, d.code);
    } else if i == 3 {
      CodesWhereMeans(defs, (d: PermissionData) => d.moduleKey in AGENT_MODULES, d.code);
    } else {
      CodesWhereMeans(defs, (d: PermissionData) => d.action == "read", d.code);
    }
  }

  /** The configured definitions meet what the sync needs. */
  lemma ConfigurationDistinct()
    ensures DistinctDefinitions(Definitions(MODULES), RoleDefinitions(Definitions(MODULES)))
  {
    hide DistinctCodes, Definitions, RoleDefinitions, GoodModules;
    ModulesGood();
    DefinitionsDistinct(MODULES);
    RoleCodesDistinct(Definitions(MODULES));
  }

  /** The sync with the configured definitions. */
  ghost function ConfiguredSync(db: Db): Db
    requires Valid(db)
  {
    ConfigurationDistinct();
    Sync(db, Definitions(MODULES), RoleDefinitions(Definitions(MODULES)))
  }

  /** After a sync with the configured definitions, a configured role has a configured permission exactly
   *  when that is what the role is for. */
  lemma ConfiguredRoleHas(db: Db, i: nat, roleId: Id, permissionId: Id, d: Row<PermissionData>)
    requires Valid(db) && d in Definitions(MODULES) && i < |RoleDefinitions(Definitions(MODULES))|
    ensures var r := ConfiguredSync(db);
            && roleId in r.roles && r.roles[roleId].code == RoleDefinitions(Definitions(MODULES))[i].role.code
            && permissionId in r.permissions && r.permissions[permissionId] == d ==>
              ((roleId, permissionId) in r.links <==> Allows(r.roles[roleId].code, d.data))
  {
    hide Sync, Valid, DistinctCodes, Definitions, RoleDefinitions, Allows, Codes;
    var defs := Definitions(MODULES);
    ConfigurationDistinct();
    DefinedRoleHasExactly(db, defs, RoleDefinitions(defs), i, roleId, permissionId);
    RoleLists(defs, i, d);
    CodeDefined(defs, d);
  }

  lemma CodeDefined(defs: seq<Row<PermissionData>>, d: Row<PermissionData>)
    requires d in defs
    ensures d.code in Codes(defs)
  {
  }

  /** Some definition that the role is for has the code. */
  ghost predicate DefinedFor(roleCode: string, code: string) {
    exists d :: d in Definitions(MODULES) && d.code == code && Allows(roleCode, d.data)
  }

  lemma RoleCodeAt(defs: seq<Row<PermissionData>>, i: nat)
    requires i < |ROLE_CODES|
    ensures i < |RoleDefinitions(defs)| && RoleDefinitions(defs)[i].role.code == ROLE_CODES[i]
  {
    hide CodesWhere, RoleTexts;
  }

  /** A permission that a synchronised role has is that of a definition the role is for. */
  lemma HasDefined(db: Db, i: nat, roleId: Id, permissionId: Id)
    requires Valid(db) && i < |ROLE_CODES|
    ensures var r := ConfiguredSync(db);
            && roleId in r.roles && r.roles[roleId].code == ROLE_CODES[i]
            && (roleId, permissionId) in r.links ==>
              permissionId in r.permissions && DefinedFor(r.roles[roleId].code, r.permissions[permissionId].code)
  {
    hide Sync, Valid, DistinctCodes, Definitions, RoleDefinitions, Allows;
    var defs := Definitions(MODULES);
    ConfigurationDistinct();
    RoleCodeAt(defs, i);
    DefinedRoleHasExactly(db, defs, RoleDefinitions(defs), i, roleId, permissionId);
    var r := ConfiguredSync(db);
    if roleId in r.roles && r.roles[roleId].code == ROLE_CODES[i] && (roleId, permissionId) in r.links {
      var k :| 0 <= k < |defs| && defs[k].code == r.permissions[permissionId].code;
      RoleLists(defs, i, defs[k]);
    }
  }

  lemma ForOneOnly(code: string)
    ensures !(DefinedFor("agent", code) && DefinedFor("manager", code))
  {
    hide DistinctCodes, Definitions, Allows;
    ModulesGood();
    DefinitionsDistinct(MODULES);
    forall a, m | a in Definitions(MODULES) && m in Definitions(MODULES) && a.code == code && m.code == code
      ensures !(Allows("agent", a.data) && Allows("manager", m.data))
    {
      SameCodeSameDefinition(Definitions(MODULES), a, m);
      AllowsByCode(a.data);
    }
  }

  /** After a sync with the configured definitions, the agent and the manager role share no permission. */
  lemma AgentsAndManagersApart(db: Db, agent: Id, manager: Id, permissionId: Id)
    requires Valid(db)
    ensures var r := ConfiguredSync(db);
            && agent in r.roles && r.roles[agent].code == "agent"
            && manager in r.roles && r.roles[manager].code == "manager" ==>
              !((agent, permissionId) in r.links && (manager, permissionId) in r.links)
  {
    hide ConfiguredSync, Valid, Definitions, DefinedFor;
    assert ROLE_CODES[3] == "agent" && ROLE_CODES[2] == "manager";
    HasDefined(db, 3, agent, permissionId);
    HasDefined(db, 2, manager, permissionId);
    var r := ConfiguredSync(db);
    if permissionId in r.permissions {
      ForOneOnly(r.permissions[permissionId].code);
    }
  }

  lemma SameCodeSameDefinition(defs: seq<Row<PermissionData>>, a: Row<PermissionData>, b: Row<PermissionData>)
    requires DistinctCodes(defs) && a in defs && b in defs && a.code == b.code
    ensures a == b
  {
  }

  // ------------------------------------------------------------------ the configured roles in modules and actions

  /** The module table lists the action for the module. */
  ghost predicate Lists(m: string, a: string) {
    exists i, k :: 0 <= i < |MODULES| && 0 <= k < |MODULES[i].1| && MODULES[i].0 == m && MODULES[i].1[k] == a
  }

  ghost predicate HasCode<T>(rows: Table<T>, id: Id, code: string) { id in rows && rows[id].code == code }

  /** Which of the five roles may do the action in the module. */
  predicate MayDo(roleCode: string, m: string, a: string) {
    || roleCode == "super_admin" || roleCode == "admin"
    || (roleCode == "manager" && m != "call" && m != "call_log" && m != "lead_manual_update")
    || (roleCode == "agent" && (m == "call" || m == "call_log" || m == "lead_manual_update"))
    || (roleCode == "auditor" && a == "read")
  }

  lemma ListedDefined(m: string, a: string)
    requires Lists(m, a)
    ensures Row(m + "." + a, PermissionData(m, a)) in Definitions(MODULES)
  {
    hide Definitions;
    var i, k :| 0 <= i < |MODULES| && 0 <= k < |MODULES[i].1| && MODULES[i].0 == m && MODULES[i].1[k] == a;
    assert Row(m + "." + a, PermissionData(m, a)) == DefinePermission(MODULES[i].0, MODULES[i].1[k]);
    DefinitionsCome(MODULES, Row(m + "." + a, PermissionData(m, a)));
  }

  lemma DefinedListed(d: Row<PermissionData>)
    requires d in Definitions(MODULES)
    ensures Lists(d.data.moduleKey, d.data.action) && d.code == d.data.moduleKey + "." + d.data.action
  {
    hide Definitions;
    DefinitionsCome(MODULES, d);
  }

  lemma AllowsMeans(roleCode: string, d: PermissionData)
    requires roleCode in ROLE_CODES
    ensures Allows(roleCode, d) <==> MayDo(roleCode, d.moduleKey, d.action)
  {
    hide Allows;
    AllowsByCode(d);
    RoleCodesDiffer();
    var codes, agents := ROLE_CODES, AGENT_MODULES;
    assert codes[0] == "super_admin" && codes[1] == "admin" && codes[2] == "manager" && codes[3] == "agent" && codes[4] == "auditor";
    assert agents[0] == "call" && agents[1] == "call_log" && agents[2] == "lead_manual_update" && |agents| == 3;
  }

  lemma UpsertedHas<T(!new)>(before: Table<T>, after: Table<T>, defs: seq<Row<T>>, d: Row<T>)
    requires Upserted(before, after, defs) && UniqueCodes(after) && d in defs
    ensures exists id :: HasCode(after, id, d.code)
    ensures forall id | HasCode(after, id, d.code) :: after[id] == d
  {
    hide Codes;
    var id :| id in after && after[id] == d;
    assert HasCode(after, id, d.code);
  }

  /** After a sync with the configured definitions, every listed action of a module has its row, with that
   *  module and action, and each of the five roles has one. */
  lemma ConfiguredRowsThere(db: Db, m: string, a: string, roleCode: string)
    requires Valid(db) && Lists(m, a) && roleCode in ROLE_CODES
    ensures var r := ConfiguredSync(db);
            && (exists id :: HasCode(r.permissions, id, m + "." + a))
            && (exists id :: HasCode(r.roles, id, roleCode))
            && (forall id | HasCode(r.permissions, id, m + "." + a) :: r.permissions[id].data == PermissionData(m, a))
  {
    hide Sync, DistinctCodes, Definitions, RoleDefinitions, Upserted, UniqueCodes, HasCode, Lists;
    var defs, r := Definitions(MODULES), ConfiguredSync(db);
    ConfigurationDistinct();
    SyncConverges(db, defs, RoleDefinitions(defs));
    ListedDefined(m, a);
    UpsertedHas(db.permissions, r.permissions, defs, Row(m + "." + a, PermissionData(m, a)));
    var i :| 0 <= i < |ROLE_CODES| && ROLE_CODES[i] == roleCode;
    RoleCodeAt(defs, i);
    UpsertedHas(db.roles, r.roles, RoleRows(RoleDefinitions(defs)), RoleRows(RoleDefinitions(defs))[i]);
  }

  /** After such a sync, one of the five roles has a permission exactly when the permission's code is that of
   *  a listed module and action in which the role may act: auditors read, agents work in the three call
   *  modules, managers everywhere else, and both kinds of administrators everywhere. */
  lemma ConfiguredLinksExactly(db: Db, roleId: Id, permissionId: Id)
    requires Valid(db)
    ensures var r := ConfiguredSync(db);
            roleId in r.roles && r.roles[roleId].code in ROLE_CODES ==>
              ((roleId, permissionId) in r.links <==>
                 exists m, a :: Lists(m, a) && HasCode(r.permissions, permissionId, m + "." + a) && MayDo(r.roles[roleId].code, m, a))
  {
    hide ConfiguredSync, Valid, Definitions, Lists, MayDo;
    var r := ConfiguredSync(db);
    if !(roleId in r.roles && r.roles[roleId].code in ROLE_CODES) {
      return;
    }
    var roleCode := r.roles[roleId].code;
    var i :| 0 <= i < |ROLE_CODES| && ROLE_CODES[i] == roleCode;
    if m, a :| Lists(m, a) && HasCode(r.permissions, permissionId, m + "." + a) && MayDo(roleCode, m, a) {
      ListedLink(db, i, roleId, permissionId, m, a);
    }
    if (roleId, permissionId) in r.links {
      HasDefined(db, i, roleId, permissionId);
      var d :| d in Definitions(MODULES) && d.code == r.permissions[permissionId].code && Allows(roleCode, d.data);
      DefinedListed(d);
      AllowsMeans(roleCode, d.data);
      assert Lists(d.data.moduleKey, d.data.action) && MayDo(roleCode, d.data.moduleKey, d.data.action);
      assert HasCode(r.permissions, permissionId, d.data.moduleKey + "." + d.data.action);
    }
  }

  lemma ListedLink(db: Db, i: nat, roleId: Id, permissionId: Id, m: string, a: string)
    requires Valid(db) && i < |ROLE_CODES| && Lists(m, a)
    ensures var r := ConfiguredSync(db);
            HasCode(r.roles, roleId, ROLE_CODES[i]) && HasCode(r.permissions, permissionId, m + "." + a) ==>
              ((roleId, permissionId) in r.links <==> MayDo(ROLE_CODES[i], m, a))
  {
    hide ConfiguredSync, Valid, Definitions, Lists, MayDo, RoleDefinitions;
    var d := Row(m + "." + a, PermissionData(m, a));
    ListedDefined(m, a);
    RoleCodeAt(Definitions(MODULES), i);
    ConfiguredRowsThere(db, m, a, ROLE_CODES[i]);
    ConfiguredRoleHas(db, i, roleId, permissionId, d);
    AllowsMeans(ROLE_CODES[i], d.data);
  }

  /** The same, role by role: the row of a listed module and action is linked to both administrators, to the
   *  auditor for reading only, to the agent in the three call modules and to the manager outside them. */
  lemma ConfiguredLinks(db: Db, roleId: Id, permissionId: Id, m: string, a: string)
    requires Valid(db)
    ensures var (r, linked) := (ConfiguredSync(db), (roleId, permissionId) in ConfiguredSync(db).links);
            Lists(m, a) && HasCode(r.permissions, permissionId, m + "." + a) ==>
            && (HasCode(r.roles, roleId, "super_admin") || HasCode(r.roles, roleId, "admin") ==> linked)
            && (HasCode(r.roles, roleId, "auditor") ==> (linked <==> a == "read"))
            && (HasCode(r.roles, roleId, "agent") ==> (linked <==> m == "call" || m == "call_log" || m == "lead_manual_update"))
            && (HasCode(r.roles, roleId, "manager") ==> (linked <==> m != "call" && m != "call_log" && m != "lead_manual_update"))
  {
    hide ConfiguredSync, Valid, Lists;
    var r := ConfiguredSync(db);
    RoleCodesDiffer();
    var codes := ROLE_CODES;
    assert codes[0] == "super_admin" && codes[1] == "admin" && codes[2] == "manager" && codes[3] == "agent" && codes[4] == "auditor";
    if i :| 0 <= i < |ROLE_CODES| && HasCode(r.roles, roleId, ROLE_CODES[i]) && Lists(m, a) && HasCode(r.permissions, permissionId, m + "." + a) {
      ListedLink(db, i, roleId, permissionId, m, a);
    }
  }
}
