/** Creating and changing users with their roles and brands: the account tables and the assignment tables
 *  in one request.
 *
 *  `auth_services.dfy` takes from a request only whether its role and brand ids are known; here they are
 *  resolved, and the rows that go with them are written.
 */
module UserAccounts {
  import opened Wrappers
  import opened AuthModel
  import AuthEffects
  import AuthServices
  import CacheKeys
  import Text
  import UserJoin

  datatype CreateUserDto =
    CreateUserDto(email: string, password: string, isActive: Option<bool>, roleIds: Option<seq<string>>, brandIds: Option<seq<string>>)
  datatype UpdateUserDto =
    UpdateUserDto(email: Option<string>, isActive: Option<bool>, password: Option<string>,
                  roleIds: Option<seq<string>>, brandIds: Option<seq<string>>)

  /** The text of a user id, as the assignment tables hold it. */
  function IdText(id: UserId): string { CacheKeys.Decimal(id) }

  function Listed(ids: Option<seq<string>>): seq<string> { if ids.Some? then ids.value else [] }

  /** resolveRoles does not throw. */
  predicate RolesKnown(t: UserJoin.Tables, ids: Option<seq<string>>) {
    UserJoin.ResolveRoles(t.roles, Listed(ids)).Roles?
  }

  function RolesOf(t: UserJoin.Tables, ids: Option<seq<string>>): seq<string>
    requires RolesKnown(t, ids)
  {
    UserJoin.ResolveRoles(t.roles, Listed(ids)).ids
  }

  /** ensureBrandsExist does not throw, for the ids of the brands that are not removed. */
  predicate BrandsKnown(brands: set<string>, ids: Option<seq<string>>) {
    forall i | 0 <= i < |Listed(ids)| :: Listed(ids)[i] in brands
  }

  function NewUserOf(t: UserJoin.Tables, brands: set<string>, dto: CreateUserDto): NewUser {
    NewUser(dto.email, dto.password, dto.isActive, RolesKnown(t, dto.roleIds), BrandsKnown(brands, dto.brandIds))
  }

  function ChangeOf(t: UserJoin.Tables, brands: set<string>, dto: UpdateUserDto): UserChange {
    UserChange(dto.email, dto.isActive, dto.password, RolesKnown(t, dto.roleIds), BrandsKnown(brands, dto.brandIds))
  }

  /** Both groups of tables. */
  datatype Both = Both(accounts: State, tables: UserJoin.Tables)

  ghost function DoCreate(b: Both, brands: set<string>, dto: CreateUserDto): (Both, Outcome) {
    var (accounts, outcome) := DoCreateUser(b.accounts, NewUserOf(b.tables, brands, dto));
    if outcome != Done || !RolesKnown(b.tables, dto.roleIds) then (Both(accounts, b.tables), outcome)
    else
      var uid := IdText(b.accounts.next);
      var tables := UserJoin.WithRoles(b.tables, uid, RolesOf(b.tables, dto.roleIds));
      (Both(accounts, UserJoin.WithBrands(tables, uid, Listed(dto.brandIds))), Done)
  }

  /** The request got past the checks on the user and the address. */
  predicate ReachesTables(outcome: Outcome) { outcome == Done || outcome == Failed(BadRequest) }

  /** Roles are written before the brand ids are looked at. */
  function SyncedTables(t: UserJoin.Tables, brands: set<string>, uid: string, dto: UpdateUserDto): UserJoin.Tables {
    if !RolesKnown(t, dto.roleIds) then t
    else
      var t1 := if dto.roleIds.Some? then UserJoin.WithRoles(t, uid, RolesOf(t, dto.roleIds)) else t;
      if dto.brandIds.Some? && BrandsKnown(brands, dto.brandIds) then UserJoin.WithBrands(t1, uid, dto.brandIds.value) else t1
  }

  ghost function DoUpdate(b: Both, brands: set<string>, id: UserId, dto: UpdateUserDto): (Both, Outcome) {
    var (accounts, outcome) := DoUpdateUser(b.accounts, id, ChangeOf(b.tables, brands, dto));
    (Both(accounts, if ReachesTables(outcome) then SyncedTables(b.tables, brands, IdText(id), dto) else b.tables), outcome)
  }

  // ------------------------------------------------------------------ what the tables then show

  lemma BrandsLeaveRoles(t: UserJoin.Tables, uid: string, brandIds: seq<string>)
    ensures UserJoin.View(UserJoin.WithBrands(t, uid, brandIds), uid).roles == UserJoin.View(t, uid).roles
  {
  }

  lemma RolesLeaveBrands(t: UserJoin.Tables, uid: string, roleIds: seq<string>)
    ensures UserJoin.View(UserJoin.WithRoles(t, uid, roleIds), uid).brandIds == UserJoin.View(t, uid).brandIds
  {
  }

  /** The codes of the roles that a request lists, once its ids are trimmed and blanks left out. */
  ghost predicate ListsCode(t: UserJoin.Tables, roleIds: Option<seq<string>>, code: string) {
    exists i | 0 <= i < |Listed(roleIds)| ::
      var r := Text.Trim(Listed(roleIds)[i]); r != "" && r in t.roles && t.roles[r] == code
  }

  lemma ResolvedCodes(t: UserJoin.Tables, roleIds: Option<seq<string>>, code: string)
    requires RolesKnown(t, roleIds)
    ensures (exists r :: r in RolesOf(t, roleIds) && r in t.roles && t.roles[r] == code) <==> ListsCode(t, roleIds, code)
  {
    hide UserJoin.ResolveRoles, Text.Trim;
    UserJoin.ResolvesExactly(t.roles, Listed(roleIds));
    if r :| r in RolesOf(t, roleIds) && r in t.roles && t.roles[r] == code {
      var i :| 0 <= i < |Listed(roleIds)| && Text.Trim(Listed(roleIds)[i]) == r;
      assert ListsCode(t, roleIds, code);
    }
    if ListsCode(t, roleIds, code) {
      var i :| 0 <= i < |Listed(roleIds)| && var r := Text.Trim(Listed(roleIds)[i]); r != "" && r in t.roles && t.roles[r] == code;
      assert Text.Trim(Listed(roleIds)[i]) in RolesOf(t, roleIds);
    }
  }

  /** An accepted create shows the new user with exactly the roles and brands that were listed, and leaves
   *  everybody else as they were; a rejected one changes nothing at all. */
  lemma CreateShows(b: Both, brands: set<string>, dto: CreateUserDto, other: string)
    requires other != IdText(b.accounts.next)
    ensures var (b', outcome) := DoCreate(b, brands, dto);
            if outcome == Done then
              var v := UserJoin.View(b'.tables, IdText(b.accounts.next));
              && (forall code :: code in v.roles <==> ListsCode(b.tables, dto.roleIds, code))
              && v.brandIds == UserJoin.Distinct(Listed(dto.brandIds))
              && UserJoin.View(b'.tables, other) == UserJoin.View(b.tables, other)
            else b' == b
  {
    hide UserJoin.View, UserJoin.WithRoles, UserJoin.WithBrands, UserJoin.Distinct, ListsCode, RolesKnown, RolesOf;
    CreateOutcomes(b, brands, dto);
    var (b', outcome) := DoCreate(b, brands, dto);
    if outcome == Done {
      var uid, roleIds := IdText(b.accounts.next), RolesOf(b.tables, dto.roleIds);
      var t1 := UserJoin.WithRoles(b.tables, uid, roleIds);
      UserJoin.SyncedRolesShown(b.tables, uid, roleIds, other);
      UserJoin.SyncedBrandsShown(t1, uid, Listed(dto.brandIds), other);
      BrandsLeaveRoles(t1, uid, Listed(dto.brandIds));
      forall code
        ensures code in UserJoin.View(b'.tables, uid).roles <==> ListsCode(b.tables, dto.roleIds, code)
      {
        ResolvedCodes(b.tables, dto.roleIds, code);
      }
    }
  }

  lemma CreateOutcomes(b: Both, brands: set<string>, dto: CreateUserDto)
    ensures var (accounts, outcome) := DoCreateUser(b.accounts, NewUserOf(b.tables, brands, dto));
            (outcome == Done ==> RolesKnown(b.tables, dto.roleIds)) && (outcome != Done ==> accounts == b.accounts)
  {
    hide RolesKnown, BrandsKnown;
  }

  /** The update is rejected for its brand ids alone, with roles that are known. */
  ghost predicate RejectedForBrands(b: Both, brands: set<string>, id: UserId, dto: UpdateUserDto) {
    && DoUpdate(b, brands, id, dto).1 == Failed(BadRequest)
    && RolesKnown(b.tables, dto.roleIds) && dto.roleIds.Some?
  }

  /** An accepted update shows the roles and brands that were listed, where any were.  A rejected one leaves
   *  the assignment tables alone, except that one rejected for its brands has replaced the roles already. */
  lemma UpdateShows(b: Both, brands: set<string>, id: UserId, dto: UpdateUserDto, other: string)
    requires other != IdText(id)
    ensures var (b', outcome) := DoUpdate(b, brands, id, dto);
            var (before, v) := (UserJoin.View(b.tables, IdText(id)), UserJoin.View(b'.tables, IdText(id)));
            && UserJoin.View(b'.tables, other) == UserJoin.View(b.tables, other)
            && (if dto.roleIds.Some? && (outcome == Done || RejectedForBrands(b, brands, id, dto))
                then forall code :: code in v.roles <==> ListsCode(b.tables, dto.roleIds, code)
                else v.roles == before.roles)
            && v.brandIds == if dto.brandIds.Some? && outcome == Done then UserJoin.Distinct(dto.brandIds.value) else before.brandIds
  {
    hide UserJoin.View, UserJoin.WithRoles, UserJoin.WithBrands, UserJoin.Distinct, ListsCode, RolesOf, RolesKnown, BrandsKnown, DoUpdateUser;
    UpdateOutcomes(b, brands, id, dto);
    var (b', outcome) := DoUpdate(b, brands, id, dto);
    if ReachesTables(outcome) && RolesKnown(b.tables, dto.roleIds) {
      var t, uid := b.tables, IdText(id);
      var t1 := if dto.roleIds.Some? then UserJoin.WithRoles(t, uid, RolesOf(t, dto.roleIds)) else t;
      if dto.roleIds.Some? {
        UserJoin.SyncedRolesShown(t, uid, RolesOf(t, dto.roleIds), other);
        RolesLeaveBrands(t, uid, RolesOf(t, dto.roleIds));
        forall code
          ensures code in UserJoin.View(t1, uid).roles <==> ListsCode(t, dto.roleIds, code)
        {
          ResolvedCodes(t, dto.roleIds, code);
        }
      }
      if dto.brandIds.Some? {
        UserJoin.SyncedBrandsShown(t1, uid, dto.brandIds.value, other);
        BrandsLeaveRoles(t1, uid, dto.brandIds.value);
      }
    }
  }

  /** An update that is accepted has known roles and brands; one that reaches the tables and is rejected does not. */
  lemma UpdateOutcomes(b: Both, brands: set<string>, id: UserId, dto: UpdateUserDto)
    ensures var outcome := DoUpdateUser(b.accounts, id, ChangeOf(b.tables, brands, dto)).1;
            ReachesTables(outcome) ==>
              (outcome == Done <==> RolesKnown(b.tables, dto.roleIds) && BrandsKnown(brands, dto.brandIds))
    ensures dto.brandIds.None? ==> BrandsKnown(brands, dto.brandIds)
  {
    hide RolesKnown, RevokedByUpdate, EditedUser, Renames, DropTokensOf;
  }

  // ------------------------------------------------------------------ what the accounts then hold

  /** Every listed role id is blank or, trimmed, a role's. */
  predicate RolesThere(t: UserJoin.Tables, ids: Option<seq<string>>) {
    forall i | 0 <= i < |Listed(ids)| :: Text.Trim(Listed(ids)[i]) == "" || Text.Trim(Listed(ids)[i]) in t.roles
  }

  lemma KnownMeansThere(t: UserJoin.Tables, ids: Option<seq<string>>)
    ensures RolesKnown(t, ids) <==> RolesThere(t, ids)
  {
    hide UserJoin.ResolveRoles, Text.Trim;
    UserJoin.ResolvesExactly(t.roles, Listed(ids));
  }

  /** A create is accepted exactly when the address is free and every listed role and brand exists, and then
   *  adds the account: the address normalised, the password, active unless said otherwise. */
  lemma CreateStores(b: Both, brands: set<string>, dto: CreateUserDto)
    requires AuthEffects.IdsDrawn(b.accounts)
    ensures var (b', outcome) := DoCreate(b, brands, dto);
            var (users, id, email) := (b.accounts.users, b.accounts.next, Text.Normalize(dto.email));
            && (outcome == Done <==>
                  && (forall uid :: !AuthEffects.Owner(users, uid, email))
                  && RolesThere(b.tables, dto.roleIds) && forall i | 0 <= i < |Listed(dto.brandIds)| :: Listed(dto.brandIds)[i] in brands)
            && (outcome == Done ==>
                  && id !in users && id in b'.accounts.users && b'.accounts.users == users[id := b'.accounts.users[id]]
                  && b'.accounts.store == b.accounts.store && b'.accounts.actionTokens == b.accounts.actionTokens
                  && var user := b'.accounts.users[id];
                     && user.email == email && user.isActive == (dto.isActive != Some(false)) && user.deletedAt.None?
                     && AuthEffects.HoldsPassword(user, dto.password) && user.emailVerifiedAt.None? && user.lockedUntil.None?)
  {
    hide RolesKnown, RolesThere, UserJoin.WithRoles, UserJoin.WithBrands, RolesOf, Text.Normalize;
    KnownMeansThere(b.tables, dto.roleIds);
    var email := Text.Normalize(dto.email);
    if forall uid :: !AuthEffects.Owner(b.accounts.users, uid, email) {
      AuthEffects.NobodyFound(b.accounts.users, email);
    } else {
      var uid :| AuthEffects.Owner(b.accounts.users, uid, email);
      assert HasEmail(b.accounts.users, uid, email);
    }
  }

  /** An update is accepted exactly when the user is there, a new address is nobody else's and every listed
   *  role and brand exists, and then leaves the row with what was sent and no other row changed. */
  lemma UpdateStores(b: Both, brands: set<string>, id: UserId, dto: UpdateUserDto)
    requires DistinctEmails(b.accounts.users)
    ensures var (b', outcome) := DoUpdate(b, brands, id, dto);
            var (users, change) := (b.accounts.users, UserChange(dto.email, dto.isActive, dto.password, true, true));
            && (outcome == Done <==>
                  && id in users && users[id].deletedAt.None?
                  && (AuthEffects.MovesAddress(users[id], change) ==> !AuthEffects.Taken(users, id, Text.Normalize(dto.email.value)))
                  && RolesThere(b.tables, dto.roleIds) && forall i | 0 <= i < |Listed(dto.brandIds)| :: Listed(dto.brandIds)[i] in brands)
            && (outcome == Done ==>
                  && id in b'.accounts.users && b'.accounts.users == users[id := b'.accounts.users[id]]
                  && AuthEffects.EditedRow(users[id], b'.accounts.users[id], change, b.accounts.now)
                  && AuthEffects.ClosedOr(b.accounts.store.rows, b'.accounts.store.rows, id, dto.isActive == Some(false) || dto.password.Some?))
  {
    hide RolesKnown, RolesThere, SyncedTables, RevokedByUpdate, EditedUser, EmailTaken, DistinctEmails, Text.Normalize,
      AuthEffects.Taken, AuthEffects.ClosedOr, AuthEffects.EditedRow;
    KnownMeansThere(b.tables, dto.roleIds);
    var s, change := b.accounts, ChangeOf(b.tables, brands, dto);
    if id in s.users {
      if dto.email.Some? {
        AuthEffects.TakenMeans(s, id, Text.Normalize(dto.email.value));
      }
      AuthEffects.EditLeaves(s.users[id], change, s.now, s.next);
      AuthEffects.EditCloses(s.store.rows, id, change, s.now);
      EditedAlike(s.users[id], EditedUser(s.users[id], change, s.now, s.next), change, s.now);
    }
  }

  /** Whether roles and brands exist does not enter the row. */
  lemma EditedAlike(a: User, b: User, change: UserChange, now: Time)
    requires AuthEffects.EditedRow(a, b, change, now)
    ensures AuthEffects.EditedRow(a, b, change.(rolesKnown := true, brandsKnown := true), now)
  {
    hide Text.Normalize;
  }

  // ------------------------------------------------------------------ the service

  class UsersService {
    const accounts: AuthServices.UsersService
    const tables: UserJoin.UserTables
    /** The ids of the brands that are not removed. */
    const brands: set<string>

    ghost function Contents(): Both
      reads accounts.db, tables
    {
      Both(accounts.db.Contents(), tables.t)
    }

    constructor (accounts: AuthServices.UsersService, tables: UserJoin.UserTables, brands: set<string>)
      ensures this.accounts == accounts && this.tables == tables && this.brands == brands
    {
      this.accounts, this.tables, this.brands := accounts, tables, brands;
    }

    method Create(dto: CreateUserDto) returns (outcome: Outcome)
      requires accounts.db.Valid()
      modifies accounts.db, tables
      ensures accounts.db.Valid()
      ensures (Contents(), outcome) == DoCreate(old(Contents()), brands, dto)
    {
      hide DoCreateUser, UserJoin.ResolveRoles, UserJoin.WithRoles, UserJoin.WithBrands, AuthServices.AuthDatabase.Valid;
      ghost var before := Contents();
      CreateOutcomes(before, brands, dto);
      var id := accounts.db.next;
      var roles := UserJoin.ResolveRoles(tables.t.roles, Listed(dto.roleIds));
      outcome := accounts.Create(NewUserOf(tables.t, brands, dto));
      if outcome == Done {
        tables.SyncUserRoles(IdText(id), roles.ids);
        tables.SyncUserBrands(IdText(id), Listed(dto.brandIds));
      }
    }

    method Update(id: UserId, dto: UpdateUserDto) returns (outcome: Outcome)
      requires accounts.db.Valid()
      modifies accounts.db, tables
      ensures accounts.db.Valid()
      ensures (Contents(), outcome) == DoUpdate(old(Contents()), brands, id, dto)
    {
      hide DoUpdateUser, UserJoin.ResolveRoles, UserJoin.WithRoles, UserJoin.WithBrands, AuthServices.AuthDatabase.Valid, BrandsKnown;
      var change := ChangeOf(tables.t, brands, dto);
      var roles := UserJoin.ResolveRoles(tables.t.roles, Listed(dto.roleIds));
      outcome := accounts.Update(id, change);
      if !ReachesTables(outcome) || !roles.Roles? {
        return;
      }
      if dto.roleIds.Some? {
        tables.SyncUserRoles(IdText(id), roles.ids);
      }
      if dto.brandIds.Some? && change.brandsKnown {
        tables.SyncUserBrands(IdText(id), dto.brandIds.value);
      }
    }
  }
}
