/** Roles, permissions and brands of a list of users: the batched join against the per-user definition. */
module UserJoin {
  import opened Text

  type Id = string

  datatype Assignment = Assignment(userId: Id, roleId: Id)
  datatype UserBrand = UserBrand(userId: Id, brandId: Id)
  datatype RolePermission = RolePermission(roleId: Id, permissionId: Id)

  /** Rows in the order in which the database returns them; role and permission rows map an id to a code. */
  datatype Tables = Tables(
    assignments: seq<Assignment>,
    userBrands: seq<UserBrand>,
    rolePermissions: seq<RolePermission>,
    roles: map<Id, string>,
    permissions: map<Id, string>)

  datatype UserView = UserView(id: Id, roles: seq<string>, permissions: seq<string>, brandIds: seq<Id>)

  // ------------------------------------------------------------------ lists

  /** [...new Set(list)]: the first occurrence of each element. */
  function Distinct(s: seq<string>): (r: seq<string>)
    ensures forall x :: x in r <==> x in s
    ensures forall i, j | 0 <= i < j < |r| :: r[i] != r[j]
  {
    if s == [] then []
    else
      var front, last := Distinct(s[..|s| - 1]), s[|s| - 1];
      assert forall x :: x in s <==> x in s[..|s| - 1] || x == last;
      if last in front then front else front + [last]
  }

  /** Elements are listed in the order in which they first occur. */
  lemma {:induction false} FirstOccurrencesInOrder(s: seq<string>, i: nat, j: nat)
    requires i < j < |Distinct(s)|
    ensures exists k :: 0 <= k < |s| && s[k] == Distinct(s)[i] && Distinct(s)[j] !in s[..k]
  {
    var front := s[..|s| - 1];
    if j < |Distinct(front)| {
      FirstOccurrencesInOrder(front, i, j);
      var k :| 0 <= k < |front| && front[k] == Distinct(front)[i] && Distinct(front)[j] !in front[..k];
      assert front[..k] == s[..k];
      assert s[k] == Distinct(s)[i];
    } else {
      assert Distinct(front)[i] in Distinct(front);
      var k :| 0 <= k < |front| && front[k] == Distinct(front)[i];
      assert s[k] == Distinct(s)[i] && forall x | x in s[..k] :: x in front;
    }
  }

  function InsertCode(c: string, sorted: seq<string>): (r: seq<string>)
    ensures forall x :: x in r <==> x == c || x in sorted
  {
    if sorted == [] || Precedes(c, sorted[0]) then [c] + sorted
    else
      assert forall x :: x in sorted <==> x == sorted[0] || x in sorted[1..];
      [sorted[0]] + InsertCode(c, sorted[1..])
  }

  /** Array.prototype.sort on strings. */
  function SortCodes(s: seq<string>): (r: seq<string>)
    ensures forall x :: x in r <==> x in s
  {
    if s == [] then []
    else
      assert forall x :: x in s <==> x == s[0] || x in s[1..];
      InsertCode(s[0], SortCodes(s[1..]))
  }

  ghost predicate Increasing(s: seq<string>) {
    forall i, j | 0 <= i < j < |s| :: Precedes(s[i], s[j]) && s[i] != s[j]
  }

  lemma {:induction false} InsertIncreasing(c: string, s: seq<string>)
    requires Increasing(s) && c !in s
    ensures Increasing(InsertCode(c, s))
  {
    hide Precedes;
    if s == [] {
    } else if Precedes(c, s[0]) {
      forall i | 0 <= i < |s|
        ensures Precedes(c, s[i])
      {
        if i > 0 {
          PrecedesTransitive(c, s[0], s[i]);
        }
      }
    } else {
      InsertIncreasing(c, s[1..]);
      PrecedesTotal(c, s[0]);
      var r := InsertCode(c, s[1..]);
      forall i | 0 <= i < |r|
        ensures Precedes(s[0], r[i]) && s[0] != r[i]
      {
        assert r[i] in r;
      }
    }
  }

  lemma {:induction false} SortIncreasing(s: seq<string>)
    requires forall i, j | 0 <= i < j < |s| :: s[i] != s[j]
    ensures Increasing(SortCodes(s))
  {
    if s != [] {
      SortIncreasing(s[1..]);
      InsertIncreasing(s[0], SortCodes(s[1..]));
    }
  }

  // ------------------------------------------------------------------ one user at a time

  function RoleList(roles: map<Id, string>, rows: seq<Assignment>, uid: Id): seq<string> {
    if rows == [] then []
    else
      var a := rows[|rows| - 1];
      RoleList(roles, rows[..|rows| - 1], uid) + if a.userId == uid && a.roleId in roles then [roles[a.roleId]] else []
  }

  /** The codes that role permissions give a role; a missing permission row and an empty code give none. */
  function CodesOfRole(permissions: map<Id, string>, rows: seq<RolePermission>, roleId: Id): seq<string> {
    if rows == [] then []
    else
      var rp := rows[|rows| - 1];
      CodesOfRole(permissions, rows[..|rows| - 1], roleId)
      + if rp.roleId == roleId && rp.permissionId in permissions && permissions[rp.permissionId] != ""
        then [permissions[rp.permissionId]] else []
  }

  function PermissionList(t: Tables, rows: seq<Assignment>, uid: Id): seq<string> {
    if rows == [] then []
    else
      var a := rows[|rows| - 1];
      PermissionList(t, rows[..|rows| - 1], uid)
      + if a.userId == uid && a.roleId in t.roles then CodesOfRole(t.permissions, t.rolePermissions, a.roleId) else []
  }

  function BrandList(rows: seq<UserBrand>, uid: Id): seq<Id> {
    if rows == [] then []
    else
      var b := rows[|rows| - 1];
      BrandList(rows[..|rows| - 1], uid) + if b.userId == uid then [b.brandId] else []
  }

  function View(t: Tables, uid: Id): UserView {
    UserView(uid,
             Distinct(RoleList(t.roles, t.assignments, uid)),
             SortCodes(Distinct(PermissionList(t, t.assignments, uid))),
             Distinct(BrandList(t.userBrands, uid)))
  }

  // ------------------------------------------------------------------ the relational definition

  /** The user is assigned a role whose row exists. */
  ghost predicate HasRole(t: Tables, uid: Id, roleId: Id) {
    Assignment(uid, roleId) in t.assignments && roleId in t.roles
  }

  ghost predicate Grants(t: Tables, roleId: Id, permissionId: Id) {
    RolePermission(roleId, permissionId) in t.rolePermissions && permissionId in t.permissions
  }

  lemma {:induction false} RoleListMeans(roles: map<Id, string>, rows: seq<Assignment>, uid: Id, code: string)
    ensures code in RoleList(roles, rows, uid) <==>
            exists r :: Assignment(uid, r) in rows && r in roles && roles[r] == code
  {
    if rows != [] {
      var front, a := rows[..|rows| - 1], rows[|rows| - 1];
      RoleListMeans(roles, front, uid, code);
      assert rows == front + [a];
      if a.userId == uid && a.roleId in roles && roles[a.roleId] == code {
        assert Assignment(uid, a.roleId) in rows;
      }
    }
  }

  lemma {:induction false} CodesOfRoleMeans(permissions: map<Id, string>, rows: seq<RolePermission>, roleId: Id, code: string)
    ensures code in CodesOfRole(permissions, rows, roleId) <==>
            code != "" && exists p :: RolePermission(roleId, p) in rows && p in permissions && permissions[p] == code
  {
    if rows != [] {
      var front, rp := rows[..|rows| - 1], rows[|rows| - 1];
      CodesOfRoleMeans(permissions, front, roleId, code);
      assert rows == front + [rp];
      if rp.roleId == roleId && rp.permissionId in permissions && permissions[rp.permissionId] == code {
        assert RolePermission(roleId, rp.permissionId) in rows;
      }
    }
  }

  lemma {:induction false} PermissionListMeans(t: Tables, rows: seq<Assignment>, uid: Id, code: string)
    ensures code in PermissionList(t, rows, uid) <==>
            exists r :: Assignment(uid, r) in rows && r in t.roles && code in CodesOfRole(t.permissions, t.rolePermissions, r)
  {
    if rows != [] {
      var front, a := rows[..|rows| - 1], rows[|rows| - 1];
      PermissionListMeans(t, front, uid, code);
      assert rows == front + [a];
      if a.userId == uid && a.roleId in t.roles && code in CodesOfRole(t.permissions, t.rolePermissions, a.roleId) {
        assert Assignment(uid, a.roleId) in rows;
      }
    }
  }

  lemma {:induction false} BrandListMeans(rows: seq<UserBrand>, uid: Id, brandId: Id)
    ensures brandId in BrandList(rows, uid) <==> UserBrand(uid, brandId) in rows
  {
    if rows != [] {
      var front, b := rows[..|rows| - 1], rows[|rows| - 1];
      BrandListMeans(front, uid, brandId);
      assert rows == front + [b];
    }
  }

  lemma {:induction false} RoleListPrefix(roles: map<Id, string>, rows: seq<Assignment>, uid: Id, k: nat) returns (m: nat)
    requires k < |RoleList(roles, rows, uid)|
    ensures m < |rows| && rows[m].userId == uid && rows[m].roleId in roles && roles[rows[m].roleId] == RoleList(roles, rows, uid)[k]
    ensures RoleList(roles, rows[..m], uid) == RoleList(roles, rows, uid)[..k]
  {
    var front := rows[..|rows| - 1];
    if k < |RoleList(roles, front, uid)| {
      m := RoleListPrefix(roles, front, uid, k);
      assert rows[..m] == front[..m];
    } else {
      m := |rows| - 1;
    }
  }

  lemma {:induction false} BrandListPrefix(rows: seq<UserBrand>, uid: Id, k: nat) returns (m: nat)
    requires k < |BrandList(rows, uid)|
    ensures m < |rows| && rows[m] == UserBrand(uid, BrandList(rows, uid)[k])
    ensures BrandList(rows[..m], uid) == BrandList(rows, uid)[..k]
  {
    var front := rows[..|rows| - 1];
    if k < |BrandList(front, uid)| {
      m := BrandListPrefix(front, uid, k);
      assert rows[..m] == front[..m];
    } else {
      m := |rows| - 1;
    }
  }

  /** The m-th assignment gives the user the code, and none before it gives the other one. */
  ghost predicate RoleComesFirst(t: Tables, uid: Id, m: nat, code: string, other: string) {
    && m < |t.assignments| && t.assignments[m].userId == uid
    && t.assignments[m].roleId in t.roles && t.roles[t.assignments[m].roleId] == code
    && forall r | Assignment(uid, r) in t.assignments[..m] && r in t.roles :: t.roles[r] != other
  }

  ghost predicate BrandComesFirst(t: Tables, uid: Id, m: nat, brandId: Id, other: Id) {
    m < |t.userBrands| && t.userBrands[m] == UserBrand(uid, brandId) && UserBrand(uid, other) !in t.userBrands[..m]
  }

  /** A view lists role codes and brands in the order in which the rows first give them. */
  lemma ViewInOrder(t: Tables, uid: Id, i: nat, j: nat)
    requires i < j
    ensures j < |View(t, uid).roles| ==> exists m :: RoleComesFirst(t, uid, m, View(t, uid).roles[i], View(t, uid).roles[j])
    ensures j < |View(t, uid).brandIds| ==> exists m :: BrandComesFirst(t, uid, m, View(t, uid).brandIds[i], View(t, uid).brandIds[j])
  {
    hide RoleList, BrandList, PermissionList, Distinct, SortCodes;
    var roles, brands := RoleList(t.roles, t.assignments, uid), BrandList(t.userBrands, uid);
    if j < |Distinct(roles)| {
      FirstOccurrencesInOrder(roles, i, j);
      var k :| 0 <= k < |roles| && roles[k] == Distinct(roles)[i] && Distinct(roles)[j] !in roles[..k];
      var m := RoleListPrefix(t.roles, t.assignments, uid, k);
      RoleListMeans(t.roles, t.assignments[..m], uid, Distinct(roles)[j]);
      assert RoleComesFirst(t, uid, m, Distinct(roles)[i], Distinct(roles)[j]);
    }
    if j < |Distinct(brands)| {
      FirstOccurrencesInOrder(brands, i, j);
      var k :| 0 <= k < |brands| && brands[k] == Distinct(brands)[i] && Distinct(brands)[j] !in brands[..k];
      var m := BrandListPrefix(t.userBrands, uid, k);
      BrandListMeans(t.userBrands[..m], uid, Distinct(brands)[j]);
      assert BrandComesFirst(t, uid, m, Distinct(brands)[i], Distinct(brands)[j]);
    }
  }

  /** What one view holds: each role code once, each non-empty permission code once and in order, and
   *  each brand once, exactly those that the tables relate to the user. */
  lemma ViewMeans(t: Tables, uid: Id)
    ensures var v := View(t, uid);
            && v.id == uid
            && (forall i, j | 0 <= i < j < |v.roles| :: v.roles[i] != v.roles[j])
            && (forall code :: code in v.roles <==> exists r :: HasRole(t, uid, r) && t.roles[r] == code)
            && Increasing(v.permissions)
            && (forall code :: code in v.permissions <==>
                  code != "" && exists r, p :: HasRole(t, uid, r) && Grants(t, r, p) && t.permissions[p] == code)
            && (forall i, j | 0 <= i < j < |v.brandIds| :: v.brandIds[i] != v.brandIds[j])
            && (forall b :: b in v.brandIds <==> UserBrand(uid, b) in t.userBrands)
  {
    hide Increasing, RoleList, PermissionList, BrandList, CodesOfRole, Distinct, SortCodes;
    SortIncreasing(Distinct(PermissionList(t, t.assignments, uid)));
    forall code
      ensures code in View(t, uid).roles <==> exists r :: HasRole(t, uid, r) && t.roles[r] == code
    {
      RoleListMeans(t.roles, t.assignments, uid, code);
      assert forall r :: HasRole(t, uid, r) <==> Assignment(uid, r) in t.assignments && r in t.roles;
    }
    forall code
      ensures code in View(t, uid).permissions <==>
              code != "" && exists r, p :: HasRole(t, uid, r) && Grants(t, r, p) && t.permissions[p] == code
    {
      PermissionMeans(t, uid, code);
    }
    forall b
      ensures b in View(t, uid).brandIds <==> UserBrand(uid, b) in t.userBrands
    {
      BrandListMeans(t.userBrands, uid, b);
    }
  }

  lemma PermissionMeans(t: Tables, uid: Id, code: string)
    ensures code in PermissionList(t, t.assignments, uid) <==>
            code != "" && exists r, p :: HasRole(t, uid, r) && Grants(t, r, p) && t.permissions[p] == code
  {
    hide PermissionList, CodesOfRole;
    PermissionListMeans(t, t.assignments, uid, code);
    if code in PermissionList(t, t.assignments, uid) {
      var r :| Assignment(uid, r) in t.assignments && r in t.roles && code in CodesOfRole(t.permissions, t.rolePermissions, r);
      CodesOfRoleMeans(t.permissions, t.rolePermissions, r, code);
      var p :| RolePermission(r, p) in t.rolePermissions && p in t.permissions && t.permissions[p] == code;
      assert HasRole(t, uid, r) && Grants(t, r, p);
    }
    if code != "" && exists r, p :: HasRole(t, uid, r) && Grants(t, r, p) && t.permissions[p] == code {
      var r, p :| HasRole(t, uid, r) && Grants(t, r, p) && t.permissions[p] == code;
      CodesOfRoleMeans(t.permissions, t.rolePermissions, r, code);
      assert Assignment(uid, r) in t.assignments;
    }
  }

  // ------------------------------------------------------------------ UserRepository

  /** The role ids of a user's assignments. */
  function AssignedRoles(t: Tables, uid: Id): set<Id> {
    set a | a in t.assignments && a.userId == uid :: a.roleId
  }

  function GetRoleCodes(t: Tables, uid: Id): set<string> {
    var ids := AssignedRoles(t, uid);
    set r | r in t.roles && r in ids :: t.roles[r]
  }

  /** Looks at role ids only, never at the role rows. */
  function GetPermissionCodes(t: Tables, uid: Id): set<string> {
    var ids := AssignedRoles(t, uid);
    var permissionIds := set rp | rp in t.rolePermissions && rp.roleId in ids :: rp.permissionId;
    set p | p in t.permissions && p in permissionIds :: t.permissions[p]
  }

  function AsSet(s: seq<string>): set<string> { set x | x in s }

  lemma RoleCodesAgree(t: Tables, uid: Id)
    ensures AsSet(View(t, uid).roles) == GetRoleCodes(t, uid)
  {
    hide View;
    ViewMeans(t, uid);
    forall code
      ensures code in View(t, uid).roles <==> code in GetRoleCodes(t, uid)
    {
      if code in View(t, uid).roles {
        var r :| HasRole(t, uid, r) && t.roles[r] == code;
        assert r in AssignedRoles(t, uid);
      }
      if code in GetRoleCodes(t, uid) {
        var r :| r in t.roles && r in AssignedRoles(t, uid) && t.roles[r] == code;
        assert HasRole(t, uid, r);
      }
    }
  }

  /** The tables without the assignments of roles that have no row. */
  function OnlyExistingRoles(t: Tables): Tables { t.(assignments := KeepExisting(t.roles, t.assignments)) }

  function KeepExisting(roles: map<Id, string>, rows: seq<Assignment>): (r: seq<Assignment>)
    ensures forall a :: a in r <==> a in rows && a.roleId in roles
  {
    if rows == [] then []
    else
      assert rows == [rows[0]] + rows[1..];
      (if rows[0].roleId in roles then [rows[0]] else []) + KeepExisting(roles, rows[1..])
  }

  lemma GetPermissionCodesMeans(t: Tables, uid: Id, code: string)
    ensures code in GetPermissionCodes(t, uid) <==>
            exists r, p :: Assignment(uid, r) in t.assignments && Grants(t, r, p) && t.permissions[p] == code
  {
    if code in GetPermissionCodes(t, uid) {
      var rp :| rp in t.rolePermissions && rp.roleId in AssignedRoles(t, uid) && rp.permissionId in t.permissions
                && t.permissions[rp.permissionId] == code;
      var a :| a in t.assignments && a.userId == uid && a.roleId == rp.roleId;
      assert a == Assignment(uid, rp.roleId) && rp == RolePermission(rp.roleId, rp.permissionId);
      assert Grants(t, rp.roleId, rp.permissionId);
    }
    if exists r, p :: Assignment(uid, r) in t.assignments && Grants(t, r, p) && t.permissions[p] == code {
      var r, p :| Assignment(uid, r) in t.assignments && Grants(t, r, p) && t.permissions[p] == code;
      assert r in AssignedRoles(t, uid);
      var rp := RolePermission(r, p);
      assert rp in t.rolePermissions && rp.roleId in AssignedRoles(t, uid);
    }
  }

  /** For all tables, the view's permissions are what getPermissionCodes gives on the assignments of
   *  existing roles, the empty code left out. */
  lemma PermissionCodesAre(t: Tables, uid: Id)
    ensures AsSet(View(t, uid).permissions) == GetPermissionCodes(OnlyExistingRoles(t), uid) - {""}
  {
    hide View, GetPermissionCodes, KeepExisting;
    ViewMeans(t, uid);
    var t' := OnlyExistingRoles(t);
    forall code
      ensures code in View(t, uid).permissions <==> code in GetPermissionCodes(t', uid) && code != ""
    {
      GetPermissionCodesMeans(t', uid, code);
      assert forall r, p :: Grants(t', r, p) == Grants(t, r, p);
      assert forall r :: HasRole(t, uid, r) <==> Assignment(uid, r) in t'.assignments;
    }
  }

  /** Some assigned role that has a row grants the code. */
  ghost predicate GrantedByRow(t: Tables, uid: Id, code: string) {
    exists r, p :: HasRole(t, uid, r) && Grants(t, r, p) && t.permissions[p] == code
  }

  /** The batched join and the simple query agree exactly when every code granted through an assigned role
   *  id is non-empty and is also granted through an assigned role that has a row. */
  lemma PermissionCodesAgree(t: Tables, uid: Id)
    ensures AsSet(View(t, uid).permissions) == GetPermissionCodes(t, uid) <==>
            forall r, p | Assignment(uid, r) in t.assignments && Grants(t, r, p) ::
              t.permissions[p] != "" && GrantedByRow(t, uid, t.permissions[p])
  {
    hide View, GetPermissionCodes;
    ViewMeans(t, uid);
    var shown := AsSet(View(t, uid).permissions);
    forall code
      ensures code in shown <==> code != "" && GrantedByRow(t, uid, code)
      ensures code in shown ==> code in GetPermissionCodes(t, uid)
      ensures code in GetPermissionCodes(t, uid) <==>
              exists r, p :: Assignment(uid, r) in t.assignments && Grants(t, r, p) && t.permissions[p] == code
    {
      GetPermissionCodesMeans(t, uid, code);
      if code in shown {
        var r, p :| HasRole(t, uid, r) && Grants(t, r, p) && t.permissions[p] == code;
        assert Assignment(uid, r) in t.assignments;
      }
    }
    if shown == GetPermissionCodes(t, uid) {
      forall r, p | Assignment(uid, r) in t.assignments && Grants(t, r, p)
        ensures t.permissions[p] != "" && GrantedByRow(t, uid, t.permissions[p])
      {
        assert t.permissions[p] in GetPermissionCodes(t, uid);
      }
    }
  }

  /** So they agree when every assigned role has a row and no code is empty. */
  lemma AgreeWithAllRows(t: Tables, uid: Id)
    requires forall a | a in t.assignments && a.userId == uid :: a.roleId in t.roles
    requires forall p | p in t.permissions :: t.permissions[p] != ""
    ensures AsSet(View(t, uid).permissions) == GetPermissionCodes(t, uid)
  {
    hide View, GetPermissionCodes;
    forall r, p | Assignment(uid, r) in t.assignments && Grants(t, r, p)
      ensures t.permissions[p] != "" && GrantedByRow(t, uid, t.permissions[p])
    {
      assert HasRole(t, uid, r);
    }
    PermissionCodesAgree(t, uid);
  }

  /** Without a role row the two differ: the simple query still grants what the batched join drops. */
  lemma MissingRoleRowDisagrees()
    ensures var t := Tables([Assignment("u", "r")], [], [RolePermission("r", "p")], map[], map["p" := "lead.read"]);
            "lead.read" !in View(t, "u").permissions && GetPermissionCodes(t, "u") == {"lead.read"}
  {
    var t := Tables([Assignment("u", "r")], [], [RolePermission("r", "p")], map[], map["p" := "lead.read"]);
    hide View, GetPermissionCodes;
    ViewMeans(t, "u");
    forall code
      ensures code in GetPermissionCodes(t, "u") <==> code == "lead.read"
    {
      GetPermissionCodesMeans(t, "u", code);
      assert Assignment("u", "r") in t.assignments && Grants(t, "r", "p");
    }
  }

  // ------------------------------------------------------------------ the batched join

  /** SELECT ... WHERE user_id IN (...). */
  function AssignmentsOf(rows: seq<Assignment>, users: seq<Id>): seq<Assignment> {
    if rows == [] then []
    else AssignmentsOf(rows[..|rows| - 1], users) + if rows[|rows| - 1].userId in users then [rows[|rows| - 1]] else []
  }

  function BrandsOf(rows: seq<UserBrand>, users: seq<Id>): seq<UserBrand> {
    if rows == [] then []
    else BrandsOf(rows[..|rows| - 1], users) + if rows[|rows| - 1].userId in users then [rows[|rows| - 1]] else []
  }

  function PermissionsOf(rows: seq<RolePermission>, roleIds: set<Id>): seq<RolePermission> {
    if rows == [] then []
    else PermissionsOf(rows[..|rows| - 1], roleIds) + if rows[|rows| - 1].roleId in roleIds then [rows[|rows| - 1]] else []
  }

  /** map.get(key) ?? []. */
  function Get(m: map<Id, seq<string>>, key: Id): seq<string> { if key in m then m[key] else [] }

  /** The tables as the batched queries fetch them. */
  function Fetched(t: Tables, users: seq<Id>): Tables {
    var assignments := AssignmentsOf(t.assignments, users);
    var roleIds := set a | a in assignments :: a.roleId;
    var rolePermissions := PermissionsOf(t.rolePermissions, roleIds);
    var permissionIds := set rp | rp in rolePermissions :: rp.permissionId;
    Tables(assignments, BrandsOf(t.userBrands, users), rolePermissions,
           map id | id in t.roles && id in roleIds :: t.roles[id],
           map id | id in t.permissions && id in permissionIds :: t.permissions[id])
  }

  lemma {:induction false} FetchedAssignments(roles: map<Id, string>, rows: seq<Assignment>, users: seq<Id>, uid: Id)
    requires uid in users
    ensures RoleList(roles, AssignmentsOf(rows, users), uid) == RoleList(roles, rows, uid)
  {
    if rows != [] {
      var front, a := rows[..|rows| - 1], rows[|rows| - 1];
      FetchedAssignments(roles, front, users, uid);
      var fetched := AssignmentsOf(rows, users);
      if a.userId in users {
        assert fetched[..|fetched| - 1] == AssignmentsOf(front, users);
      } else {
        assert fetched == AssignmentsOf(front, users);
      }
    }
  }

  lemma {:induction false} FetchedGrants(t: Tables, rows: seq<Assignment>, users: seq<Id>, uid: Id)
    requires uid in users
    ensures PermissionList(t, AssignmentsOf(rows, users), uid) == PermissionList(t, rows, uid)
  {
    if rows != [] {
      var front, a := rows[..|rows| - 1], rows[|rows| - 1];
      FetchedGrants(t, front, users, uid);
      var fetched := AssignmentsOf(rows, users);
      if a.userId in users {
        assert fetched[..|fetched| - 1] == AssignmentsOf(front, users);
      } else {
        assert fetched == AssignmentsOf(front, users);
      }
    }
  }

  lemma {:induction false} FetchedBrands(rows: seq<UserBrand>, users: seq<Id>, uid: Id)
    requires uid in users
    ensures BrandList(BrandsOf(rows, users), uid) == BrandList(rows, uid)
  {
    if rows != [] {
      var front, b := rows[..|rows| - 1], rows[|rows| - 1];
      FetchedBrands(front, users, uid);
      var fetched := BrandsOf(rows, users);
      if b.userId in users {
        assert fetched[..|fetched| - 1] == BrandsOf(front, users);
      } else {
        assert fetched == BrandsOf(front, users);
      }
    }
  }

  lemma {:induction false} FetchedCodes(permissions: map<Id, string>, rows: seq<RolePermission>, roleIds: set<Id>, roleId: Id)
    requires roleId in roleIds
    ensures CodesOfRole(permissions, PermissionsOf(rows, roleIds), roleId) == CodesOfRole(permissions, rows, roleId)
  {
    if rows != [] {
      var front, rp := rows[..|rows| - 1], rows[|rows| - 1];
      FetchedCodes(permissions, front, roleIds, roleId);
      var fetched := PermissionsOf(rows, roleIds);
      if rp.roleId in roleIds {
        assert fetched[..|fetched| - 1] == PermissionsOf(front, roleIds);
      } else {
        assert fetched == PermissionsOf(front, roleIds);
      }
    }
  }

  /** Only the rows that the listed ids name are looked up. */
  lemma {:induction false} LookupRoles(roles: map<Id, string>, roles': map<Id, string>, rows: seq<Assignment>, uid: Id)
    requires forall a | a in rows :: (a.roleId in roles <==> a.roleId in roles') && (a.roleId in roles ==> roles[a.roleId] == roles'[a.roleId])
    ensures RoleList(roles, rows, uid) == RoleList(roles', rows, uid)
  {
    if rows != [] {
      assert rows == rows[..|rows| - 1] + [rows[|rows| - 1]];
      LookupRoles(roles, roles', rows[..|rows| - 1], uid);
    }
  }

  lemma {:induction false} LookupCodes(permissions: map<Id, string>, permissions': map<Id, string>, rows: seq<RolePermission>, roleId: Id)
    requires forall rp | rp in rows :: (rp.permissionId in permissions <==> rp.permissionId in permissions')
               && (rp.permissionId in permissions ==> permissions[rp.permissionId] == permissions'[rp.permissionId])
    ensures CodesOfRole(permissions, rows, roleId) == CodesOfRole(permissions', rows, roleId)
  {
    if rows != [] {
      assert rows == rows[..|rows| - 1] + [rows[|rows| - 1]];
      LookupCodes(permissions, permissions', rows[..|rows| - 1], roleId);
    }
  }

  lemma {:induction false} LookupGrants(t: Tables, t': Tables, rows: seq<Assignment>, uid: Id)
    requires forall a | a in rows :: (a.roleId in t.roles <==> a.roleId in t'.roles)
    requires forall a | a in rows ::
               CodesOfRole(t.permissions, t.rolePermissions, a.roleId) == CodesOfRole(t'.permissions, t'.rolePermissions, a.roleId)
    ensures PermissionList(t, rows, uid) == PermissionList(t', rows, uid)
  {
    if rows != [] {
      assert rows == rows[..|rows| - 1] + [rows[|rows| - 1]];
      LookupGrants(t, t', rows[..|rows| - 1], uid);
    }
  }

  lemma FetchedRoleCodes(t: Tables, users: seq<Id>, roleId: Id)
    requires exists a :: a in Fetched(t, users).assignments && a.roleId == roleId
    ensures CodesOfRole(Fetched(t, users).permissions, Fetched(t, users).rolePermissions, roleId)
         == CodesOfRole(t.permissions, t.rolePermissions, roleId)
  {
    hide CodesOfRole, AssignmentsOf, PermissionsOf, BrandsOf;
    var f := Fetched(t, users);
    var roleIds := set a | a in f.assignments :: a.roleId;
    assert roleId in roleIds;
    FetchedCodes(t.permissions, t.rolePermissions, roleIds, roleId);
    LookupCodes(t.permissions, f.permissions, f.rolePermissions, roleId);
  }

  /** The fetched rows give each listed user the view that the whole tables give. */
  lemma FetchedView(t: Tables, users: seq<Id>, uid: Id)
    requires uid in users
    ensures View(Fetched(t, users), uid) == View(t, uid)
  {
    hide Distinct, SortCodes, CodesOfRole, AssignmentsOf, PermissionsOf, BrandsOf, RoleList, PermissionList, BrandList;
    var f := Fetched(t, users);
    FetchedAssignments(t.roles, t.assignments, users, uid);
    FetchedGrants(t, t.assignments, users, uid);
    FetchedBrands(t.userBrands, users, uid);
    assert forall a | a in f.assignments :: a.roleId in f.roles <==> a.roleId in t.roles;
    LookupRoles(t.roles, f.roles, f.assignments, uid);
    forall a | a in f.assignments
      ensures CodesOfRole(t.permissions, t.rolePermissions, a.roleId) == CodesOfRole(f.permissions, f.rolePermissions, a.roleId)
    {
      FetchedRoleCodes(t, users, a.roleId);
    }
    LookupGrants(t, f, f.assignments, uid);
  }

  lemma NoCodes(permissions: map<Id, string>, roleId: Id)
    ensures CodesOfRole(permissions, [], roleId) == []
  {
  }

  lemma NoAssignments(t: Tables, uid: Id)
    ensures RoleList(t.roles, [], uid) == [] && PermissionList(t, [], uid) == []
  {
  }

  lemma CodesSnoc(permissions: map<Id, string>, rows: seq<RolePermission>, i: nat, roleId: Id)
    requires i < |rows|
    ensures CodesOfRole(permissions, rows[..i + 1], roleId) == CodesOfRole(permissions, rows[..i], roleId)
      + if rows[i].roleId == roleId && rows[i].permissionId in permissions && permissions[rows[i].permissionId] != ""
        then [permissions[rows[i].permissionId]] else []
  {
    assert rows[..i + 1][..i] == rows[..i];
  }

  lemma AssignmentSnoc(t: Tables, i: nat, uid: Id)
    requires i < |t.assignments|
    ensures var a, rows := t.assignments[i], t.assignments;
            && RoleList(t.roles, rows[..i + 1], uid) == RoleList(t.roles, rows[..i], uid)
                 + (if a.userId == uid && a.roleId in t.roles then [t.roles[a.roleId]] else [])
            && PermissionList(t, rows[..i + 1], uid) == PermissionList(t, rows[..i], uid)
                 + (if a.userId == uid && a.roleId in t.roles then CodesOfRole(t.permissions, t.rolePermissions, a.roleId) else [])
  {
    assert t.assignments[..i + 1][..i] == t.assignments[..i];
  }

  /** for (const rolePermission of rolePermissions): the codes of every role, by role id. */
  method CollectRolePermissions(f: Tables) returns (byRole: map<Id, seq<string>>)
    ensures forall r :: Get(byRole, r) == CodesOfRole(f.permissions, f.rolePermissions, r)
  {
    hide CodesOfRole;
    byRole := map[];
    assert forall r :: CodesOfRole(f.permissions, [], r) == [] by {
      forall r { NoCodes(f.permissions, r); }
    }
    for i := 0 to |f.rolePermissions|
      invariant forall r :: Get(byRole, r) == CodesOfRole(f.permissions, f.rolePermissions[..i], r)
    {
      var rp := f.rolePermissions[i];
      var list := Get(byRole, rp.roleId);
      if rp.permissionId in f.permissions && f.permissions[rp.permissionId] != "" {
        list := list + [f.permissions[rp.permissionId]];
      }
      byRole := byRole[rp.roleId := list];
      forall r
        ensures Get(byRole, r) == CodesOfRole(f.permissions, f.rolePermissions[..i + 1], r)
      {
        CodesSnoc(f.permissions, f.rolePermissions, i, r);
      }
    }
    assert f.rolePermissions[..|f.rolePermissions|] == f.rolePermissions;
  }

  /** for (const assignment of roleAssignments): role and permission codes, by user id. */
  method CollectRoles(f: Tables, byRole: map<Id, seq<string>>)
    returns (roleCodes: map<Id, seq<string>>, permissionCodes: map<Id, seq<string>>)
    requires forall r :: Get(byRole, r) == CodesOfRole(f.permissions, f.rolePermissions, r)
    ensures forall u :: Get(roleCodes, u) == RoleList(f.roles, f.assignments, u)
    ensures forall u :: Get(permissionCodes, u) == PermissionList(f, f.assignments, u)
  {
    hide RoleList, PermissionList, CodesOfRole;
    roleCodes, permissionCodes := map[], map[];
    forall u {
      NoAssignments(f, u);
    }
    for i := 0 to |f.assignments|
      invariant forall u :: Get(roleCodes, u) == RoleList(f.roles, f.assignments[..i], u)
      invariant forall u :: Get(permissionCodes, u) == PermissionList(f, f.assignments[..i], u)
    {
      var a := f.assignments[i];
      var roles, permissions := Get(roleCodes, a.userId), Get(permissionCodes, a.userId);
      if a.roleId in f.roles {
        roles := roles + [f.roles[a.roleId]];
        permissions := permissions + Get(byRole, a.roleId);
      }
      roleCodes := roleCodes[a.userId := roles];
      permissionCodes := permissionCodes[a.userId := permissions];
      forall u
        ensures Get(roleCodes, u) == RoleList(f.roles, f.assignments[..i + 1], u)
        ensures Get(permissionCodes, u) == PermissionList(f, f.assignments[..i + 1], u)
      {
        AssignmentSnoc(f, i, u);
      }
    }
    assert f.assignments[..|f.assignments|] == f.assignments;
  }

  /** for (const mapping of userBrands): brand ids, by user id. */
  method CollectBrands(rows: seq<UserBrand>) returns (brandIds: map<Id, seq<string>>)
    ensures forall u :: Get(brandIds, u) == BrandList(rows, u)
  {
    brandIds := map[];
    for i := 0 to |rows|
      invariant forall u :: Get(brandIds, u) == BrandList(rows[..i], u)
    {
      brandIds := brandIds[rows[i].userId := Get(brandIds, rows[i].userId) + [rows[i].brandId]];
      assert rows[..i + 1][..i] == rows[..i];
    }
    assert rows[..|rows|] == rows;
  }

  /** The object that serializeUsers builds for one user. */
  method SerializeUser(f: Tables, roleCodes: map<Id, seq<string>>, permissionCodes: map<Id, seq<string>>,
                       brandIds: map<Id, seq<string>>, uid: Id)
    returns (view: UserView)
    requires Get(roleCodes, uid) == RoleList(f.roles, f.assignments, uid)
    requires Get(permissionCodes, uid) == PermissionList(f, f.assignments, uid)
    requires Get(brandIds, uid) == BrandList(f.userBrands, uid)
    ensures view == View(f, uid)
  {
    hide RoleList, PermissionList, BrandList, Distinct, SortCodes, Get;
    view := UserView(uid, Distinct(Get(roleCodes, uid)), SortCodes(Distinct(Get(permissionCodes, uid))),
                     Distinct(Get(brandIds, uid)));
  }

  /** UsersService.serializeUsers: three queries and three loops for the whole list of users give each
   *  user the view that the tables give it alone. */
  method SerializeUsers(t: Tables, users: seq<Id>) returns (views: seq<UserView>)
    ensures |views| == |users| && forall i | 0 <= i < |users| :: views[i] == View(t, users[i])
  {
    hide View, Fetched, RoleList, PermissionList, BrandList, CodesOfRole, Get;
    if users == [] {
      return [];
    }
    var f := Fetched(t, users);
    var byRole := CollectRolePermissions(f);
    var roleCodes, permissionCodes := CollectRoles(f, byRole);
    var brandIds := CollectBrands(f.userBrands);
    views := [];
    for i := 0 to |users|
      invariant |views| == i && forall k | 0 <= k < i :: views[k] == View(t, users[k])
    {
      var view := SerializeUser(f, roleCodes, permissionCodes, brandIds, users[i]);
      FetchedView(t, users, users[i]);
      views := views + [view];
    }
  }

  // ------------------------------------------------------------------ changing what a user has

  /** What resolveRoles makes of the role ids of a request: the roles, or the ids that name none. */
  datatype Resolved = Roles(ids: seq<Id>) | UnknownRoles(missing: seq<Id>)

  /** ids.map(trim).filter(Boolean). */
  function NonBlank(ids: seq<Id>): seq<Id> {
    if ids == [] then []
    else
      var last := Trim(ids[|ids| - 1]);
      NonBlank(ids[..|ids| - 1]) + if last != "" then [last] else []
  }

  lemma {:induction false} NonBlankMeans(ids: seq<Id>, x: Id)
    ensures x in NonBlank(ids) <==> x != "" && exists i | 0 <= i < |ids| :: Trim(ids[i]) == x
  {
    hide Trim;
    if ids != [] {
      var front, last := ids[..|ids| - 1], ids[|ids| - 1];
      NonBlankMeans(front, x);
      assert forall i | 0 <= i < |front| :: ids[i] == front[i];
      if x == Trim(last) {
        assert Trim(ids[|ids| - 1]) == x;
      }
    }
  }

  function NotIn(ids: seq<Id>, roles: map<Id, string>): (r: seq<Id>)
    ensures forall x :: x in r <==> x in ids && x !in roles
    ensures r == [] <==> forall x | x in ids :: x in roles
  {
    if ids == [] then []
    else
      assert ids == [ids[0]] + ids[1..];
      (if ids[0] in roles then [] else [ids[0]]) + NotIn(ids[1..], roles)
  }

  function ResolveRoles(roles: map<Id, string>, roleIds: seq<Id>): Resolved {
    var ids := Distinct(NonBlank(roleIds));
    var missing := NotIn(ids, roles);
    if missing == [] then Roles(ids) else UnknownRoles(missing)
  }

  function NotOfUser(rows: seq<Assignment>, uid: Id): seq<Assignment> {
    if rows == [] then []
    else NotOfUser(rows[..|rows| - 1], uid) + if rows[|rows| - 1].userId != uid then [rows[|rows| - 1]] else []
  }

  function BrandsNotOfUser(rows: seq<UserBrand>, uid: Id): seq<UserBrand> {
    if rows == [] then []
    else BrandsNotOfUser(rows[..|rows| - 1], uid) + if rows[|rows| - 1].userId != uid then [rows[|rows| - 1]] else []
  }

  function WithRoles(t: Tables, uid: Id, roleIds: seq<Id>): Tables {
    t.(assignments := NotOfUser(t.assignments, uid) + seq(|roleIds|, i requires 0 <= i < |roleIds| => Assignment(uid, roleIds[i])))
  }

  function WithBrands(t: Tables, uid: Id, brandIds: seq<Id>): Tables {
    var ids := Distinct(brandIds);
    t.(userBrands := BrandsNotOfUser(t.userBrands, uid) + OwnBrands(uid, ids))
  }

  lemma {:induction false} OthersKept(rows: seq<Assignment>, uid: Id, other: Id)
    ensures AssignmentsOf(NotOfUser(rows, uid), [other]) == if other == uid then [] else AssignmentsOf(rows, [other])
  {
    if rows != [] {
      var front, a := rows[..|rows| - 1], rows[|rows| - 1];
      OthersKept(front, uid, other);
      var kept := NotOfUser(rows, uid);
      if a.userId != uid {
        assert kept[..|kept| - 1] == NotOfUser(front, uid);
      } else {
        assert kept == NotOfUser(front, uid);
      }
    }
  }

  lemma {:induction false} OtherBrandsKept(rows: seq<UserBrand>, uid: Id, other: Id)
    ensures BrandsOf(BrandsNotOfUser(rows, uid), [other]) == if other == uid then [] else BrandsOf(rows, [other])
  {
    if rows != [] {
      var front, b := rows[..|rows| - 1], rows[|rows| - 1];
      OtherBrandsKept(front, uid, other);
      var kept := BrandsNotOfUser(rows, uid);
      if b.userId != uid {
        assert kept[..|kept| - 1] == BrandsNotOfUser(front, uid);
      } else {
        assert kept == BrandsNotOfUser(front, uid);
      }
    }
  }

  lemma AssignmentsOfSnoc(rows: seq<Assignment>, a: Assignment, users: seq<Id>)
    ensures AssignmentsOf(rows + [a], users) == AssignmentsOf(rows, users) + if a.userId in users then [a] else []
  {
    assert (rows + [a])[..|rows|] == rows;
  }

  /** Rows of one user after those of others: a query for a user sees its own part. */
  lemma {:induction false} RowsAppended(rows: seq<Assignment>, added: seq<Assignment>, uid: Id, other: Id)
    requires forall a | a in added :: a.userId == uid
    ensures AssignmentsOf(rows + added, [other]) == AssignmentsOf(rows, [other]) + if other == uid then added else []
  {
    hide AssignmentsOf;
    if added == [] {
      assert rows + added == rows;
    } else {
      var front, a := added[..|added| - 1], added[|added| - 1];
      assert a in added && added == front + [a];
      RowsAppended(rows, front, uid, other);
      assert rows + added == rows + front + [a];
      AssignmentsOfSnoc(rows + front, a, [other]);
    }
  }

  lemma BrandsOfSnoc(rows: seq<UserBrand>, b: UserBrand, users: seq<Id>)
    ensures BrandsOf(rows + [b], users) == BrandsOf(rows, users) + if b.userId in users then [b] else []
  {
    assert (rows + [b])[..|rows|] == rows;
  }

  lemma {:induction false} BrandsAppended(rows: seq<UserBrand>, added: seq<UserBrand>, uid: Id, other: Id)
    requires forall b | b in added :: b.userId == uid
    ensures BrandsOf(rows + added, [other]) == BrandsOf(rows, [other]) + if other == uid then added else []
  {
    hide BrandsOf;
    if added == [] {
      assert rows + added == rows;
    } else {
      var front, b := added[..|added| - 1], added[|added| - 1];
      assert b in added && added == front + [b];
      BrandsAppended(rows, front, uid, other);
      assert rows + added == rows + front + [b];
      BrandsOfSnoc(rows + front, b, [other]);
    }
  }

  /** A view depends on the user's own rows only. */
  lemma OwnRowsDecide(t: Tables, t': Tables, uid: Id)
    requires t' == t.(assignments := t'.assignments, userBrands := t'.userBrands)
    requires AssignmentsOf(t.assignments, [uid]) == AssignmentsOf(t'.assignments, [uid])
    requires BrandsOf(t.userBrands, [uid]) == BrandsOf(t'.userBrands, [uid])
    ensures View(t, uid) == View(t', uid)
  {
    hide Distinct, SortCodes, CodesOfRole, AssignmentsOf, BrandsOf, RoleList, PermissionList, BrandList;
    FetchedAssignments(t.roles, t.assignments, [uid], uid);
    FetchedAssignments(t.roles, t'.assignments, [uid], uid);
    FetchedGrants(t, t.assignments, [uid], uid);
    FetchedGrants(t', t'.assignments, [uid], uid);
    LookupGrants(t, t', AssignmentsOf(t.assignments, [uid]), uid);
    FetchedBrands(t.userBrands, [uid], uid);
    FetchedBrands(t'.userBrands, [uid], uid);
  }

  lemma {:induction false} RowsOfUser(rows: seq<Assignment>, uid: Id, a: Assignment)
    ensures a in AssignmentsOf(rows, [uid]) <==> a in rows && a.userId == uid
  {
    if rows != [] {
      RowsOfUser(rows[..|rows| - 1], uid, a);
      assert rows == rows[..|rows| - 1] + [rows[|rows| - 1]];
    }
  }

  lemma RolesReplaced(t: Tables, uid: Id, roleIds: seq<Id>, other: Id)
    ensures var own := seq(|roleIds|, i requires 0 <= i < |roleIds| => Assignment(uid, roleIds[i]));
            AssignmentsOf(WithRoles(t, uid, roleIds).assignments, [other])
              == if other == uid then own else AssignmentsOf(t.assignments, [other])
  {
    hide AssignmentsOf, NotOfUser;
    var own := seq(|roleIds|, i requires 0 <= i < |roleIds| => Assignment(uid, roleIds[i]));
    OthersKept(t.assignments, uid, other);
    RowsAppended(NotOfUser(t.assignments, uid), own, uid, other);
    assert [] + own == own;
    assert AssignmentsOf(t.assignments, [other]) + [] == AssignmentsOf(t.assignments, [other]);
  }

  /** After syncUserRoles a user is shown with the codes of the given roles and no other, and every
   *  other user is shown as before. */
  lemma SyncedRolesShown(t: Tables, uid: Id, roleIds: seq<Id>, other: Id)
    requires other != uid
    ensures var t' := WithRoles(t, uid, roleIds);
            && View(t', other) == View(t, other)
            && forall code :: code in View(t', uid).roles <==> exists r :: r in roleIds && r in t.roles && t.roles[r] == code
  {
    hide View, AssignmentsOf, NotOfUser;
    var t' := WithRoles(t, uid, roleIds);
    RolesReplaced(t, uid, roleIds, other);
    OwnRowsDecide(t, t', other);
    ViewMeans(t', uid);
    forall r
      ensures HasRole(t', uid, r) <==> r in roleIds && r in t.roles
    {
      RolesReplaced(t, uid, roleIds, uid);
      RowsOfUser(t'.assignments, uid, Assignment(uid, r));
      if r in roleIds {
        var i :| 0 <= i < |roleIds| && roleIds[i] == r;
        assert AssignmentsOf(t'.assignments, [uid])[i] == Assignment(uid, r);
      }
    }
  }

  function OwnBrands(uid: Id, ids: seq<Id>): seq<UserBrand> {
    seq(|ids|, i requires 0 <= i < |ids| => UserBrand(uid, ids[i]))
  }

  lemma BrandsReplaced(t: Tables, uid: Id, brandIds: seq<Id>, other: Id)
    ensures BrandsOf(WithBrands(t, uid, brandIds).userBrands, [other])
         == if other == uid then OwnBrands(uid, Distinct(brandIds)) else BrandsOf(t.userBrands, [other])
  {
    hide BrandsOf, BrandsNotOfUser, Distinct;
    var own := OwnBrands(uid, Distinct(brandIds));
    OtherBrandsKept(t.userBrands, uid, other);
    BrandsAppended(BrandsNotOfUser(t.userBrands, uid), own, uid, other);
    assert [] + own == own;
    assert BrandsOf(t.userBrands, [other]) + [] == BrandsOf(t.userBrands, [other]);
  }

  /** After syncUserBrands a user is shown with the given brands, each once and in the order given. */
  lemma SyncedBrandsShown(t: Tables, uid: Id, brandIds: seq<Id>, other: Id)
    requires other != uid
    ensures var t' := WithBrands(t, uid, brandIds);
            && View(t', other) == View(t, other)
            && View(t', uid).brandIds == Distinct(brandIds)
  {
    hide BrandsOf, BrandsNotOfUser, AssignmentsOf, RoleList, PermissionList, BrandList, CodesOfRole, SortCodes, Distinct;
    var t' := WithBrands(t, uid, brandIds);
    BrandsReplaced(t, uid, brandIds, other);
    BrandsReplaced(t, uid, brandIds, uid);
    OwnRowsDecide(t, t', other);
    FetchedBrands(t'.userBrands, [uid], uid);
    BrandsListed(Distinct(brandIds), uid);
    DistinctAgain(brandIds);
  }

  lemma {:induction false} BrandsListed(ids: seq<Id>, uid: Id)
    ensures BrandList(OwnBrands(uid, ids), uid) == ids
  {
    if ids != [] {
      var front := ids[..|ids| - 1];
      BrandsListed(front, uid);
      var rows := OwnBrands(uid, ids);
      assert rows[..|rows| - 1] == OwnBrands(uid, front);
      assert front + [ids[|ids| - 1]] == ids;
    }
  }

  lemma {:induction false} DistinctKeeps(s: seq<string>)
    requires forall i, j | 0 <= i < j < |s| :: s[i] != s[j]
    ensures Distinct(s) == s
  {
    if s != [] {
      DistinctKeeps(s[..|s| - 1]);
      assert s == s[..|s| - 1] + [s[|s| - 1]];
    }
  }

  lemma DistinctAgain(s: seq<string>)
    ensures Distinct(Distinct(s)) == Distinct(s)
  {
    DistinctKeeps(Distinct(s));
  }

  /** resolveRoles succeeds exactly when every listed id that is not blank names a role once trimmed,
   *  and then gives each such id once. */
  lemma ResolvesExactly(roles: map<Id, string>, roleIds: seq<Id>)
    ensures ResolveRoles(roles, roleIds).Roles? <==>
            forall i | 0 <= i < |roleIds| :: Trim(roleIds[i]) == "" || Trim(roleIds[i]) in roles
    ensures ResolveRoles(roles, roleIds).Roles? ==>
            forall x :: x in ResolveRoles(roles, roleIds).ids <==> x != "" && exists i | 0 <= i < |roleIds| :: Trim(roleIds[i]) == x
    ensures ResolveRoles(roles, roleIds).UnknownRoles? ==>
            forall x :: x in ResolveRoles(roles, roleIds).missing <==>
              x != "" && x !in roles && exists i | 0 <= i < |roleIds| :: Trim(roleIds[i]) == x
  {
    hide NonBlank, Distinct, NotIn, Trim;
    var ids := Distinct(NonBlank(roleIds));
    forall x
      ensures x in ids <==> x != "" && exists i | 0 <= i < |roleIds| :: Trim(roleIds[i]) == x
    {
      NonBlankMeans(roleIds, x);
    }
    if forall x | x in ids :: x in roles {
      forall i | 0 <= i < |roleIds|
        ensures Trim(roleIds[i]) == "" || Trim(roleIds[i]) in roles
      {
        assert Trim(roleIds[i]) != "" ==> Trim(roleIds[i]) in ids;
      }
    }
  }

  /** The role and brand tables as UsersService changes them: delete the user's rows, then save new ones. */
  class UserTables {
    var t: Tables

    constructor (t: Tables)
      ensures this.t == t
    {
      this.t := t;
    }

    method SyncUserRoles(uid: Id, roleIds: seq<Id>)
      modifies this
      ensures t == WithRoles(old(t), uid, roleIds)
    {
      t := t.(assignments := NotOfUser(t.assignments, uid));
      if roleIds == [] {
        return;
      }
      var assignments := seq(|roleIds|, i requires 0 <= i < |roleIds| => Assignment(uid, roleIds[i]));
      t := t.(assignments := t.assignments + assignments);
    }

    method SyncUserBrands(uid: Id, brandIds: seq<Id>)
      modifies this
      ensures t == WithBrands(old(t), uid, brandIds)
    {
      t := t.(userBrands := BrandsNotOfUser(t.userBrands, uid));
      var normalizedIds := Distinct(brandIds);
      if normalizedIds == [] {
        return;
      }
      var mappings := seq(|normalizedIds|, i requires 0 <= i < |normalizedIds| => UserBrand(uid, normalizedIds[i]));
      t := t.(userBrands := t.userBrands + mappings);
    }
  }
}
