/** Organizations and brands: what their services keep between them, and what they do not.
 *
 *  Removal is soft: the row stays and finds no longer see it.  Columns that no check reads are left out.
 */
module Catalog {
  import opened Wrappers
  import opened Text

  type Id = nat

  datatype Organization = Organization(code: string, live: bool)
  datatype Brand = Brand(organizationId: Id, parentBrandId: Option<Id>, code: string, live: bool)

  type Brands = map<Id, Brand>

  datatype State = State(organizations: map<Id, Organization>, brands: Brands, next: Id)

  datatype Error = NotFound | Conflict | BadRequest
  datatype Reply = Saved(id: Id) | Removed | Failed(error: Error)

  /** parentBrandId of an update: absent, null, or a value. */
  datatype ParentChange = KeepParent | NoParent | NewParent(id: Id)

  datatype BrandChange = BrandChange(organizationId: Option<Id>, parent: ParentChange, code: Option<string>)

  datatype Request =
    | CreateOrganization(newCode: string)
    | UpdateOrganization(id: Id, code: Option<string>)
    | RemoveOrganization(id: Id)
    | CreateBrand(organizationId: Id, parent: Option<Id>, newCode: string)
    | UpdateBrand(id: Id, change: BrandChange)
    | RemoveBrand(id: Id)

  // ------------------------------------------------------------------ finds

  predicate LiveOrganization(s: State, id: Id) { id in s.organizations && s.organizations[id].live }

  predicate LiveBrand(brands: Brands, id: Id) { id in brands && brands[id].live }

  function OrganizationCodes(organizations: map<Id, Organization>): map<Id, string> {
    map id | id in organizations && organizations[id].live :: organizations[id].code
  }

  function BrandCodes(brands: Brands): map<Id, string> {
    map id | id in brands && brands[id].live :: brands[id].code
  }

  /** ensureCodeIsUnique, on a code already normalised. */
  predicate CodeTaken(codes: map<Id, string>, code: string, exclude: Option<Id>) {
    exists id | id in codes :: codes[id] == code && Some(id) != exclude
  }

  /** The code that an update assigns, if it assigns one: an empty code counts as absent. */
  predicate Recodes(current: string, code: Option<string>) {
    code.Some? && code.value != "" && Normalize(code.value) != current
  }

  /** validateParentBrand. */
  function ParentError(s: State, brandId: Option<Id>, organizationId: Id, parent: Option<Id>): Option<Error> {
    if parent.None? then None
    else if brandId == parent then Some(BadRequest)
    else if !LiveBrand(s.brands, parent.value) then Some(NotFound)
    else if s.brands[parent.value].organizationId != organizationId then Some(BadRequest)
    else None
  }

  // ------------------------------------------------------------------ organizations

  function DoCreateOrganization(s: State, code: string): (State, Reply) {
    if CodeTaken(OrganizationCodes(s.organizations), Normalize(code), None) then (s, Failed(Conflict))
    else (s.(organizations := s.organizations[s.next := Organization(Normalize(code), true)], next := s.next + 1), Saved(s.next))
  }

  function DoUpdateOrganization(s: State, id: Id, code: Option<string>): (State, Reply) {
    if !LiveOrganization(s, id) then (s, Failed(NotFound))
    else if !Recodes(s.organizations[id].code, code) then (s, Saved(id))
    else if CodeTaken(OrganizationCodes(s.organizations), Normalize(code.value), Some(id)) then (s, Failed(Conflict))
    else (s.(organizations := s.organizations[id := Organization(Normalize(code.value), true)]), Saved(id))
  }

  predicate HasBrands(s: State, id: Id) {
    exists b | b in s.brands :: s.brands[b].live && s.brands[b].organizationId == id
  }

  function DoRemoveOrganization(s: State, id: Id): (State, Reply) {
    if !LiveOrganization(s, id) then (s, Failed(NotFound))
    else if HasBrands(s, id) then (s, Failed(Conflict))
    else (s.(organizations := s.organizations[id := s.organizations[id].(live := false)]), Removed)
  }

  // ------------------------------------------------------------------ brands

  function DoCreateBrand(s: State, organizationId: Id, parent: Option<Id>, code: string): (State, Reply) {
    if CodeTaken(BrandCodes(s.brands), Normalize(code), None) then (s, Failed(Conflict))
    else if !LiveOrganization(s, organizationId) then (s, Failed(NotFound))
    else
      var error := ParentError(s, None, organizationId, parent);
      if error.Some? then (s, Failed(error.value))
      else (s.(brands := s.brands[s.next := Brand(organizationId, parent, Normalize(code), true)], next := s.next + 1), Saved(s.next))
  }

  function NextOrganization(brand: Brand, change: BrandChange): Id {
    if change.organizationId.Some? then change.organizationId.value else brand.organizationId
  }

  function NextParent(brand: Brand, change: BrandChange): Option<Id> {
    match change.parent
    case KeepParent => brand.parentBrandId
    case NoParent => None
    case NewParent(id) => Some(id)
  }

  function NextCode(brand: Brand, change: BrandChange): string {
    if Recodes(brand.code, change.code) then Normalize(change.code.value) else brand.code
  }

  /** The checks of a brand's update, in the order in which they are made; a parent that is kept is
   *  checked again. */
  function UpdateError(s: State, id: Id, change: BrandChange): Option<Error> {
    if !LiveBrand(s.brands, id) then Some(NotFound)
    else
      var brand := s.brands[id];
      if Recodes(brand.code, change.code) && CodeTaken(BrandCodes(s.brands), Normalize(change.code.value), Some(id)) then Some(Conflict)
      else if NextOrganization(brand, change) != brand.organizationId && !LiveOrganization(s, NextOrganization(brand, change))
      then Some(NotFound)
      else ParentError(s, Some(id), NextOrganization(brand, change), NextParent(brand, change))
  }

  function DoUpdateBrand(s: State, id: Id, change: BrandChange): (State, Reply) {
    var error := UpdateError(s, id, change);
    if error.Some? then (s, Failed(error.value))
    else
      var brand := s.brands[id];
      (s.(brands := s.brands[id :=
         Brand(NextOrganization(brand, change), NextParent(brand, change), NextCode(brand, change), true)]), Saved(id))
  }

  function DoRemoveBrand(s: State, id: Id): (State, Reply) {
    if !LiveBrand(s.brands, id) then (s, Failed(NotFound))
    else (s.(brands := s.brands[id := s.brands[id].(live := false)]), Removed)
  }

  function Step(s: State, r: Request): (State, Reply) {
    match r
    case CreateOrganization(code) => DoCreateOrganization(s, code)
    case UpdateOrganization(id, code) => DoUpdateOrganization(s, id, code)
    case RemoveOrganization(id) => DoRemoveOrganization(s, id)
    case CreateBrand(organizationId, parent, code) => DoCreateBrand(s, organizationId, parent, code)
    case UpdateBrand(id, change) => DoUpdateBrand(s, id, change)
    case RemoveBrand(id) => DoRemoveBrand(s, id)
  }

  const EMPTY := State(map[], map[], 0)

  /** A run of both services from empty tables, with every state it passes. */
  datatype Run = Run(states: seq<State>, requests: seq<Request>)

  ghost predicate StepsAt(run: Run, k: nat)
    requires |run.states| == |run.requests| + 1 && k < |run.requests|
  {
    run.states[k + 1] == Step(run.states[k], run.requests[k]).0
  }

  ghost predicate IsRun(run: Run) {
    && |run.states| == |run.requests| + 1 && run.states[0] == EMPTY
    && forall k: nat | k < |run.requests| :: StepsAt(run, k)
  }

  // ------------------------------------------------------------------ integrity

  /** Live codes are normalised and pairwise distinct. */
  ghost predicate GoodCodes(codes: map<Id, string>) {
    && (forall id | id in codes :: Normalize(codes[id]) == codes[id])
    && (forall a, b | a in codes && b in codes && codes[a] == codes[b] :: a == b)
  }

  /** No brand is its own parent, and parents are rows, perhaps removed ones. */
  ghost predicate GoodParents(brands: Brands) {
    forall id | id in brands && brands[id].parentBrandId.Some? ::
      brands[id].parentBrandId.value != id && brands[id].parentBrandId.value in brands
  }

  ghost predicate BrandsPlaced(s: State) {
    forall id | LiveBrand(s.brands, id) :: LiveOrganization(s, s.brands[id].organizationId)
  }

  ghost predicate Sound(s: State) {
    && (forall id | id in s.organizations :: id < s.next) && (forall id | id in s.brands :: id < s.next)
    && BrandsPlaced(s) && GoodParents(s.brands)
    && GoodCodes(OrganizationCodes(s.organizations)) && GoodCodes(BrandCodes(s.brands))
  }

  lemma PutCode(codes: map<Id, string>, id: Id, code: string)
    requires GoodCodes(codes) && !CodeTaken(codes, Normalize(code), Some(id))
    ensures GoodCodes(codes[id := Normalize(code)])
  {
    hide Normalize;
    NormalizeIdempotent(code);
  }

  lemma FreshCode(codes: map<Id, string>, id: Id, code: string)
    requires !CodeTaken(codes, code, None)
    ensures !CodeTaken(codes, code, Some(id))
  {
  }

  lemma DropCode(codes: map<Id, string>, id: Id)
    requires GoodCodes(codes)
    ensures GoodCodes(codes - {id})
  {
    hide Normalize;
  }

  lemma OrganizationSaved(organizations: map<Id, Organization>, id: Id, organization: Organization)
    ensures OrganizationCodes(organizations[id := organization]) ==
            if organization.live then OrganizationCodes(organizations)[id := organization.code]
            else OrganizationCodes(organizations) - {id}
  {
  }

  lemma BrandSaved(brands: Brands, id: Id, brand: Brand)
    ensures BrandCodes(brands[id := brand]) ==
            if brand.live then BrandCodes(brands)[id := brand.code] else BrandCodes(brands) - {id}
  {
  }

  lemma OrganizationStepSound(s: State, r: Request)
    requires Sound(s) && (r.CreateOrganization? || r.UpdateOrganization? || r.RemoveOrganization?)
    ensures Sound(Step(s, r).0)
  {
    hide Normalize, GoodCodes, OrganizationCodes, BrandCodes, CodeTaken;
    match r
    case CreateOrganization(code) =>
      if !CodeTaken(OrganizationCodes(s.organizations), Normalize(code), None) {
        FreshCode(OrganizationCodes(s.organizations), s.next, Normalize(code));
        PutCode(OrganizationCodes(s.organizations), s.next, code);
        OrganizationSaved(s.organizations, s.next, Organization(Normalize(code), true));
      }
    case UpdateOrganization(id, code) =>
      if LiveOrganization(s, id) && Recodes(s.organizations[id].code, code)
         && !CodeTaken(OrganizationCodes(s.organizations), Normalize(code.value), Some(id)) {
        PutCode(OrganizationCodes(s.organizations), id, code.value);
        OrganizationSaved(s.organizations, id, Organization(Normalize(code.value), true));
      }
    case RemoveOrganization(id) =>
      if LiveOrganization(s, id) && !HasBrands(s, id) {
        OrganizationSaved(s.organizations, id, s.organizations[id].(live := false));
        DropCode(OrganizationCodes(s.organizations), id);
      }
  }

  lemma BrandStepSound(s: State, r: Request)
    requires Sound(s) && (r.CreateBrand? || r.UpdateBrand? || r.RemoveBrand?)
    ensures Sound(Step(s, r).0)
  {
    hide Normalize, GoodCodes, OrganizationCodes, BrandCodes, CodeTaken;
    match r
    case CreateBrand(organizationId, parent, code) =>
      if DoCreateBrand(s, organizationId, parent, code).1.Saved? {
        FreshCode(BrandCodes(s.brands), s.next, Normalize(code));
        PutCode(BrandCodes(s.brands), s.next, code);
        BrandSaved(s.brands, s.next, Brand(organizationId, parent, Normalize(code), true));
      }
    case UpdateBrand(id, change) =>
      if UpdateError(s, id, change).None? {
        var brand := s.brands[id];
        BrandSaved(s.brands, id, Brand(NextOrganization(brand, change), NextParent(brand, change), NextCode(brand, change), true));
        if Recodes(brand.code, change.code) {
          PutCode(BrandCodes(s.brands), id, change.code.value);
        } else {
          CodeKept(s.brands, id);
        }
      }
    case RemoveBrand(id) =>
      if LiveBrand(s.brands, id) {
        BrandSaved(s.brands, id, s.brands[id].(live := false));
        DropCode(BrandCodes(s.brands), id);
      }
  }

  lemma CodeKept(brands: Brands, id: Id)
    requires LiveBrand(brands, id)
    ensures BrandCodes(brands)[id := brands[id].code] == BrandCodes(brands)
  {
  }

  lemma {:induction false} RunSound(run: Run, k: nat)
    requires IsRun(run) && k <= |run.requests|
    ensures Sound(run.states[k])
  {
    hide Sound, Step;
    if k == 0 {
      EmptySound();
    } else {
      RunSound(run, k - 1);
      assert StepsAt(run, k - 1);
      var r := run.requests[k - 1];
      if r.CreateOrganization? || r.UpdateOrganization? || r.RemoveOrganization? {
        OrganizationStepSound(run.states[k - 1], r);
      } else {
        BrandStepSound(run.states[k - 1], r);
      }
    }
  }

  lemma EmptySound()
    ensures Sound(EMPTY)
  {
  }

  /** Over every run of both services from empty tables: a live brand's organization is live, live codes
   *  are normalised and pairwise distinct in each table, and no brand is its own parent. */
  lemma IntegrityKept(run: Run, k: nat)
    requires IsRun(run) && k <= |run.requests|
    ensures var s := run.states[k];
            && (forall id | LiveBrand(s.brands, id) :: LiveOrganization(s, s.brands[id].organizationId))
            && GoodCodes(OrganizationCodes(s.organizations)) && GoodCodes(BrandCodes(s.brands))
            && (forall id | id in s.brands :: s.brands[id].parentBrandId != Some(id))
  {
    hide Normalize, GoodCodes, OrganizationCodes, BrandCodes, Step;
    RunSound(run, k);
  }

  // ------------------------------------------------------------------ parents

  /** A brand that was just created or updated has no parent, or a live one of the same organization. */
  lemma SavedBrandHasGoodParent(s: State, r: Request)
    requires Sound(s) && (r.CreateBrand? || r.UpdateBrand?) && Step(s, r).1.Saved?
    ensures var (s', reply) := Step(s, r);
            && LiveBrand(s'.brands, reply.id)
            && var brand := s'.brands[reply.id];
               brand.parentBrandId.Some? ==>
                 && brand.parentBrandId.value != reply.id
                 && LiveBrand(s'.brands, brand.parentBrandId.value)
                 && s'.brands[brand.parentBrandId.value].organizationId == brand.organizationId
  {
    hide Normalize, GoodCodes, OrganizationCodes, BrandCodes, CodeTaken;
  }

  /** Every live brand with a live parent is in its parent's organization. */
  ghost predicate ParentsTogether(brands: Brands) {
    forall id | LiveBrand(brands, id) && brands[id].parentBrandId.Some? && LiveBrand(brands, brands[id].parentBrandId.value) ::
      brands[brands[id].parentBrandId.value].organizationId == brands[id].organizationId
  }

  ghost predicate HasLiveChild(brands: Brands, id: Id) {
    exists c :: LiveBrand(brands, c) && brands[c].parentBrandId == Some(id)
  }

  /** Families stay in one organization exactly as long as no update moves a brand with live children to
   *  another organization: nothing checks the children of the updated brand. */
  lemma ParentsTogetherExactly(s: State, r: Request)
    requires Sound(s) && ParentsTogether(s.brands)
    ensures ParentsTogether(Step(s, r).0.brands) <==>
            !(&& r.UpdateBrand? && UpdateError(s, r.id, r.change).None? && HasLiveChild(s.brands, r.id)
              && NextOrganization(s.brands[r.id], r.change) != s.brands[r.id].organizationId)
  {
    hide Normalize, GoodCodes, OrganizationCodes, BrandCodes, CodeTaken;
    if r.UpdateBrand? && UpdateError(s, r.id, r.change).None? && HasLiveChild(s.brands, r.id)
       && NextOrganization(s.brands[r.id], r.change) != s.brands[r.id].organizationId {
      var c :| LiveBrand(s.brands, c) && s.brands[c].parentBrandId == Some(r.id);
      var brands := Step(s, r).0.brands;
      assert c != r.id;
      assert LiveBrand(brands, c) && brands[c].parentBrandId == Some(r.id) && LiveBrand(brands, r.id);
    }
  }

  // ------------------------------------------------------------------ cycles

  /** The n-th ancestor. */
  function Up(brands: Brands, id: Id, n: nat): Option<Id>
    decreases n
  {
    if n == 0 then Some(id)
    else if id in brands && brands[id].parentBrandId.Some? then Up(brands, brands[id].parentBrandId.value, n - 1)
    else None
  }

  ghost predicate Acyclic(brands: Brands) { forall id: Id, n: nat | n > 0 :: Up(brands, id, n) != Some(id) }

  /** Climbing from a brand reaches another. */
  ghost predicate Climbs(brands: Brands, id: Id, top: Id) { exists n: nat :: Up(brands, id, n) == Some(top) }

  lemma {:induction false} UpAdd(brands: Brands, id: Id, m: nat, n: nat)
    requires Up(brands, id, m).Some?
    ensures Up(brands, id, m + n) == Up(brands, Up(brands, id, m).value, n)
    decreases m
  {
    if m > 0 {
      UpAdd(brands, brands[id].parentBrandId.value, m - 1, n);
    }
  }

  ghost predicate SameBut(a: Brands, b: Brands, id: Id) {
    forall x | x != id :: (x in a <==> x in b) && (x in a ==> a[x].parentBrandId == b[x].parentBrandId)
  }

  /** A climb to a brand can be made without using that brand's own parent. */
  lemma {:induction false} ClimbAvoids(a: Brands, b: Brands, id: Id, top: Id, n: nat)
    requires SameBut(a, b, top) && Up(a, id, n) == Some(top)
    ensures Climbs(b, id, top)
    decreases n
  {
    if id == top {
      assert Up(b, id, 0) == Some(top);
    } else {
      ClimbAvoids(a, b, a[id].parentBrandId.value, top, n - 1);
      var m: nat :| Up(b, a[id].parentBrandId.value, m) == Some(top);
      assert Up(b, id, m + 1) == Some(top);
    }
  }

  /** A climb is the same in both tables, or passes the brand in which they differ after k steps. */
  lemma {:induction false} ClimbSameOrPasses(a: Brands, b: Brands, x: Id, id: Id, n: nat) returns (k: nat)
    requires SameBut(a, b, x)
    ensures Up(a, id, n) == Up(b, id, n) || (k < n && Up(b, id, k) == Some(x))
    decreases n
  {
    k := 0;
    if n > 0 && id != x && id in b && b[id].parentBrandId.Some? {
      var j := ClimbSameOrPasses(a, b, x, b[id].parentBrandId.value, n - 1);
      k := j + 1;
    }
  }

  /** Giving a brand a parent keeps the brands free of cycles exactly when climbing from that parent does
   *  not reach the brand. */
  lemma NewParentAcyclicExactly(a: Brands, b: Brands, x: Id, parent: Option<Id>)
    requires Acyclic(a) && SameBut(a, b, x) && x in b && b[x].parentBrandId == parent
    ensures Acyclic(b) <==> parent.None? || !Climbs(a, parent.value, x)
  {
    if parent.Some? && Climbs(a, parent.value, x) {
      var n: nat :| Up(a, parent.value, n) == Some(x);
      ClimbAvoids(a, b, parent.value, x, n);
      var m: nat :| Up(b, parent.value, m) == Some(x);
      assert Up(b, x, m + 1) == Some(x);
    } else {
      forall id: Id, n: nat | n > 0
        ensures Up(b, id, n) != Some(id)
      {
        if Up(b, id, n) == Some(id) {
          CycleClimbs(a, b, x, parent, id, n);
        }
      }
    }
  }

  /** A new cycle passes the changed brand, so its new parent climbs to it. */
  lemma CycleClimbs(a: Brands, b: Brands, x: Id, parent: Option<Id>, id: Id, n: nat)
    requires Acyclic(a) && SameBut(a, b, x) && x in b && b[x].parentBrandId == parent
    requires n > 0 && Up(b, id, n) == Some(id)
    ensures parent.Some? && Climbs(a, parent.value, x)
  {
    var k := ClimbSameOrPasses(a, b, x, id, n);
    assert Up(a, id, n) != Some(id);
    UpAdd(b, id, k, n);
    UpAdd(b, id, n, k);
    assert Up(b, x, n) == Some(x);
    assert parent.Some? && Up(b, parent.value, n - 1) == Some(x);
    assert SameBut(b, a, x);
    ClimbAvoids(b, a, parent.value, x, n - 1);
  }

  /** An accepted update keeps the brands free of cycles exactly when climbing from the brand's new parent
   *  does not reach the brand; only the first step of that climb is checked. */
  lemma UpdateAcyclicExactly(s: State, id: Id, change: BrandChange)
    requires Acyclic(s.brands) && UpdateError(s, id, change).None?
    ensures var parent := NextParent(s.brands[id], change);
            Acyclic(DoUpdateBrand(s, id, change).0.brands) <==> parent.None? || !Climbs(s.brands, parent.value, id)
  {
    hide Normalize, OrganizationCodes, BrandCodes, CodeTaken, Acyclic, Climbs;
    NewParentAcyclicExactly(s.brands, DoUpdateBrand(s, id, change).0.brands, id, NextParent(s.brands[id], change));
  }

  /** Every other request keeps the brands free of cycles. */
  lemma OthersKeepAcyclic(s: State, r: Request)
    requires Sound(s) && Acyclic(s.brands) && !r.UpdateBrand?
    ensures Acyclic(Step(s, r).0.brands)
  {
    hide Normalize, GoodCodes, OrganizationCodes, BrandCodes, CodeTaken, Acyclic;
    match r
    case CreateBrand(organizationId, parent, code) =>
      var b := DoCreateBrand(s, organizationId, parent, code).0.brands;
      if b != s.brands {
        if parent.Some? && Climbs(s.brands, parent.value, s.next) {
          var n: nat :| Up(s.brands, parent.value, n) == Some(s.next);
          StaysInTable(s.brands, parent.value, n);
        }
        NewParentAcyclicExactly(s.brands, b, s.next, parent);
      }
    case RemoveBrand(id) =>
      SameParentsAcyclic(s.brands, DoRemoveBrand(s, id).0.brands);
    case _ =>
  }

  lemma SameParentsAcyclic(a: Brands, b: Brands)
    requires Acyclic(a) && a.Keys == b.Keys && forall id | id in a :: a[id].parentBrandId == b[id].parentBrandId
    ensures Acyclic(b)
  {
    forall id: Id, n: nat | n > 0
      ensures Up(b, id, n) != Some(id)
    {
      SameUp(a, b, id, n);
    }
  }

  lemma {:induction false} SameUp(a: Brands, b: Brands, id: Id, n: nat)
    requires a.Keys == b.Keys && forall x | x in a :: a[x].parentBrandId == b[x].parentBrandId
    ensures Up(a, id, n) == Up(b, id, n)
    decreases n
  {
    if n > 0 && id in a && a[id].parentBrandId.Some? {
      SameUp(a, b, a[id].parentBrandId.value, n - 1);
    }
  }

  lemma {:induction false} StaysInTable(brands: Brands, id: Id, n: nat)
    requires GoodParents(brands) && id in brands && Up(brands, id, n).Some?
    ensures Up(brands, id, n).value in brands
    decreases n
  {
    if n > 0 {
      StaysInTable(brands, brands[id].parentBrandId.value, n - 1);
    }
  }

  lemma OneLetterCode(c: char)
    requires 'a' <= c <= 'z'
    ensures Normalize([c]) == [c]
  {
    hide IsSpace, Trim;
    LetterIsNoSpace(c);
    TrimIsTrimmed([c]);
    assert Lower([c]) == [c];
  }

  lemma LetterIsNoSpace(c: char)
    requires 'a' <= c <= 'z'
    ensures !IsSpace(c)
  {
  }

  /** Two brands, the second below the first, and then the first below the second: a run that ends in a cycle. */
  lemma CycleReachable()
    ensures var s := Step(Step(Step(Step(EMPTY, CreateOrganization("a")).0, CreateBrand(0, None, "p")).0,
                               CreateBrand(0, Some(1), "c")).0,
                          UpdateBrand(1, BrandChange(None, NewParent(2), None))).0;
            !Acyclic(s.brands)
  {
    hide Normalize;
    OneLetterCode('a');
    OneLetterCode('p');
    OneLetterCode('c');
    var s1 := Step(EMPTY, CreateOrganization("a")).0;
    assert s1 == State(map[0 := Organization("a", true)], map[], 1);
    var s2 := Step(s1, CreateBrand(0, None, "p")).0;
    assert s2.brands == map[1 := Brand(0, None, "p", true)] && s2.organizations == s1.organizations && s2.next == 2;
    assert BrandCodes(s2.brands) == map[1 := "p"];
    assert "p"[0] != "c"[0];
    var s3 := Step(s2, CreateBrand(0, Some(1), "c")).0;
    assert s3.brands == map[1 := Brand(0, None, "p", true), 2 := Brand(0, Some(1), "c", true)];
    var b := Step(s3, UpdateBrand(1, BrandChange(None, NewParent(2), None))).0.brands;
    assert b[1].parentBrandId == Some(2) && b[2].parentBrandId == Some(1);
    assert Up(b, 1, 0) == Some(1);
    assert Up(b, 2, 1) == Some(1);
    assert Up(b, 1, 2) == Some(1);
  }

  // ------------------------------------------------------------------ the services

  class CatalogDatabase {
    var organizations: map<Id, Organization>
    var brands: Brands
    var next: Id

    ghost function Contents(): State
      reads this
    {
      State(organizations, brands, next)
    }

    constructor ()
      ensures Contents() == EMPTY
    {
      organizations, brands, next := map[], map[], 0;
    }

    method Draw() returns (id: Id)
      modifies this`next
      ensures id == old(next) && next == old(next) + 1
    {
      id := next;
      next := next + 1;
    }
  }

  /** findOne by code, then the comparison with the row to leave out. */
  method EnsureCodeIsUnique(codes: map<Id, string>, code: string, excludeId: Option<Id>) returns (ok: bool)
    requires GoodCodes(codes)
    ensures ok <==> !CodeTaken(codes, Normalize(code), excludeId)
  {
    hide Normalize;
    if existing :| existing in codes && codes[existing] == Normalize(code) {
      ok := Some(existing) == excludeId;
    } else {
      ok := true;
    }
  }

  class OrganizationsService {
    const db: CatalogDatabase

    constructor (db: CatalogDatabase)
      ensures this.db == db
    {
      this.db := db;
    }

    method Create(code: string) returns (r: Reply)
      requires Sound(db.Contents())
      modifies db
      ensures (db.Contents(), r) == DoCreateOrganization(old(db.Contents()), code) && Sound(db.Contents())
    {
      hide Normalize, GoodCodes, CodeTaken, OrganizationCodes, GoodParents, BrandsPlaced, BrandCodes;
      OrganizationStepSound(db.Contents(), CreateOrganization(code));
      var unique := EnsureCodeIsUnique(OrganizationCodes(db.organizations), code, None);
      if !unique {
        return Failed(Conflict);
      }
      var id := db.Draw();
      db.organizations := db.organizations[id := Organization(Normalize(code), true)];
      r := Saved(id);
    }

    method Update(id: Id, code: Option<string>) returns (r: Reply)
      requires Sound(db.Contents())
      modifies db
      ensures (db.Contents(), r) == DoUpdateOrganization(old(db.Contents()), id, code) && Sound(db.Contents())
    {
      hide Normalize, GoodCodes, CodeTaken, OrganizationCodes, GoodParents, BrandsPlaced, BrandCodes;
      OrganizationStepSound(db.Contents(), UpdateOrganization(id, code));
      if id !in db.organizations || !db.organizations[id].live {
        return Failed(NotFound);
      }
      var organization := db.organizations[id];
      if code.Some? && code.value != "" && Normalize(code.value) != organization.code {
        var unique := EnsureCodeIsUnique(OrganizationCodes(db.organizations), code.value, Some(id));
        if !unique {
          return Failed(Conflict);
        }
        organization := organization.(code := Normalize(code.value));
      } else {
        assert db.organizations[id := organization] == db.organizations;
      }
      db.organizations := db.organizations[id := organization];
      r := Saved(id);
    }

    method Remove(id: Id) returns (r: Reply)
      requires Sound(db.Contents())
      modifies db
      ensures (db.Contents(), r) == DoRemoveOrganization(old(db.Contents()), id) && Sound(db.Contents())
    {
      hide Normalize, GoodCodes, CodeTaken, OrganizationCodes, GoodParents, BrandsPlaced, BrandCodes;
      OrganizationStepSound(db.Contents(), RemoveOrganization(id));
      if id !in db.organizations || !db.organizations[id].live {
        return Failed(NotFound);
      }
      var brandsOfIt := set b | b in db.brands && db.brands[b].live && db.brands[b].organizationId == id;
      assert brandsOfIt != {} <==> HasBrands(db.Contents(), id) by {
        assert forall b :: b in brandsOfIt <==> b in db.brands && db.brands[b].live && db.brands[b].organizationId == id;
      }
      if |brandsOfIt| > 0 {
        return Failed(Conflict);
      }
      db.organizations := db.organizations[id := db.organizations[id].(live := false)];
      r := Removed;
    }
  }

  class BrandsService {
    const db: CatalogDatabase

    constructor (db: CatalogDatabase)
      ensures this.db == db
    {
      this.db := db;
    }

    method ValidateParentBrand(brandId: Option<Id>, organizationId: Id, parentBrandId: Option<Id>) returns (error: Option<Error>)
      ensures error.None? <==>
        || parentBrandId.None?
        || (&& parentBrandId != brandId && LiveBrand(db.brands, parentBrandId.value)
            && db.brands[parentBrandId.value].organizationId == organizationId)
      ensures error == Some(NotFound) <==>
        parentBrandId.Some? && parentBrandId != brandId && !LiveBrand(db.brands, parentBrandId.value)
      ensures error.Some? ==> error.value == NotFound || error.value == BadRequest
      ensures error == ParentError(db.Contents(), brandId, organizationId, parentBrandId)
    {
      if parentBrandId.None? {
        return None;
      }
      if brandId.Some? && brandId == parentBrandId {
        return Some(BadRequest);
      }
      var id := parentBrandId.value;
      if id !in db.brands || !db.brands[id].live {
        return Some(NotFound);
      }
      error := if db.brands[id].organizationId != organizationId then Some(BadRequest) else None;
    }

    method Create(organizationId: Id, parentBrandId: Option<Id>, code: string) returns (r: Reply)
      requires Sound(db.Contents())
      modifies db
      ensures (db.Contents(), r) == DoCreateBrand(old(db.Contents()), organizationId, parentBrandId, code) && Sound(db.Contents())
    {
      hide Normalize, GoodCodes, CodeTaken, BrandCodes, GoodParents, BrandsPlaced, OrganizationCodes;
      BrandStepSound(db.Contents(), CreateBrand(organizationId, parentBrandId, code));
      var unique := EnsureCodeIsUnique(BrandCodes(db.brands), code, None);
      if !unique {
        return Failed(Conflict);
      }
      if organizationId !in db.organizations || !db.organizations[organizationId].live {
        return Failed(NotFound);
      }
      var error := ValidateParentBrand(None, organizationId, parentBrandId);
      if error.Some? {
        return Failed(error.value);
      }
      var id := db.Draw();
      db.brands := db.brands[id := Brand(organizationId, parentBrandId, Normalize(code), true)];
      r := Saved(id);
    }

    method Update(id: Id, change: BrandChange) returns (r: Reply)
      requires Sound(db.Contents())
      modifies db
      ensures (db.Contents(), r) == DoUpdateBrand(old(db.Contents()), id, change) && Sound(db.Contents())
    {
      hide Normalize, GoodCodes, CodeTaken, BrandCodes, GoodParents, BrandsPlaced, OrganizationCodes, ParentError;
      BrandStepSound(db.Contents(), UpdateBrand(id, change));
      if id !in db.brands || !db.brands[id].live {
        return Failed(NotFound);
      }
      var brand := db.brands[id];
      var nextOrganizationId := if change.organizationId.Some? then change.organizationId.value else brand.organizationId;
      var nextParentBrandId := NextParent(brand, change);
      if change.code.Some? && change.code.value != "" && Normalize(change.code.value) != brand.code {
        var unique := EnsureCodeIsUnique(BrandCodes(db.brands), change.code.value, Some(id));
        if !unique {
          return Failed(Conflict);
        }
        brand := brand.(code := Normalize(change.code.value));
      }
      if change.organizationId.Some? && change.organizationId.value != brand.organizationId {
        if !LiveOrganization(State(db.organizations, db.brands, db.next), change.organizationId.value) {
          return Failed(NotFound);
        }
        brand := brand.(organizationId := change.organizationId.value);
      }
      var error := ValidateParentBrand(Some(id), nextOrganizationId, nextParentBrandId);
      if error.Some? {
        return Failed(error.value);
      }
      if !change.parent.KeepParent? {
        brand := brand.(parentBrandId := nextParentBrandId);
      }
      db.brands := db.brands[id := brand];
      r := Saved(id);
    }

    method Remove(id: Id) returns (r: Reply)
      requires Sound(db.Contents())
      modifies db
      ensures (db.Contents(), r) == DoRemoveBrand(old(db.Contents()), id) && Sound(db.Contents())
    {
      hide Normalize, GoodCodes, CodeTaken, BrandCodes, GoodParents, BrandsPlaced, OrganizationCodes;
      BrandStepSound(db.Contents(), RemoveBrand(id));
      if id !in db.brands || !db.brands[id].live {
        return Failed(NotFound);
      }
      db.brands := db.brands[id := db.brands[id].(live := false)];
      r := Removed;
    }
  }
}
