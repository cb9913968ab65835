/** What each organization and brand request answers, and the row it leaves, read off the tables before it. */
module CatalogEffects {
  import opened Catalog
  import opened Text
  import opened Wrappers

  /** A live organization other than `except` has the code. */
  predicate OrganizationUses(s: State, code: string, except: Option<Id>) {
    exists id | id in s.organizations :: s.organizations[id].live && s.organizations[id].code == code && except != Some(id)
  }

  predicate BrandUses(s: State, code: string, except: Option<Id>) {
    exists id | id in s.brands :: s.brands[id].live && s.brands[id].code == code && except != Some(id)
  }

  lemma TakenMeans(s: State, code: string, except: Option<Id>)
    ensures CodeTaken(OrganizationCodes(s.organizations), code, except) <==> OrganizationUses(s, code, except)
    ensures CodeTaken(BrandCodes(s.brands), code, except) <==> BrandUses(s, code, except)
  {
    var organizations, brands := OrganizationCodes(s.organizations), BrandCodes(s.brands);
    if id :| id in s.organizations && s.organizations[id].live && s.organizations[id].code == code && except != Some(id) {
      assert id in organizations && organizations[id] == code;
    }
    if id :| id in s.brands && s.brands[id].live && s.brands[id].code == code && except != Some(id) {
      assert id in brands && brands[id] == code;
    }
  }

  /** The code column after an update: the code sent, normalised, unless none or an empty one was. */
  ghost predicate CodeAfter(before: string, code: Option<string>, after: string) {
    after == if code.Some? && code.value != "" then Normalize(code.value) else before
  }

  // ------------------------------------------------------------------ organizations

  /** A create is accepted exactly when no live organization has the normalised code, and adds that row. */
  lemma CreateOrganizationExactly(s: State, r: Request)
    requires r.CreateOrganization?
    ensures Step(s, r) ==
              if OrganizationUses(s, Normalize(r.newCode), None) then (s, Failed(Conflict))
              else (s.(organizations := s.organizations[s.next := Organization(Normalize(r.newCode), true)], next := s.next + 1), Saved(s.next))
  {
    hide Normalize, OrganizationCodes;
    TakenMeans(s, Normalize(r.newCode), None);
  }

  /** An update is accepted exactly when the organization is live and a new code is nobody else's; it leaves
   *  the row live under the code, and no other row changed. */
  lemma UpdateOrganizationExactly(s: State, r: Request, after: string)
    requires r.UpdateOrganization?
    requires r.id in s.organizations ==> CodeAfter(s.organizations[r.id].code, r.code, after)
    ensures var (t, reply) := Step(s, r);
            var live := r.id in s.organizations && s.organizations[r.id].live;
            && (reply == Failed(NotFound) <==> !live)
            && (reply == Failed(Conflict) <==> live && after != s.organizations[r.id].code && OrganizationUses(s, after, Some(r.id)))
            && (reply.Failed? ==> reply.error != BadRequest && t == s)
            && (!reply.Failed? ==> reply == Saved(r.id) && t == s.(organizations := s.organizations[r.id := Organization(after, true)]))
  {
    hide Normalize, OrganizationCodes;
    TakenMeans(s, after, Some(r.id));
    if r.id in s.organizations && after == s.organizations[r.id].code && s.organizations[r.id].live {
      assert s.organizations == s.organizations[r.id := Organization(after, true)];
    }
  }

  /** A removal is accepted exactly when the organization is live and no live brand belongs to it; the row
   *  stays, no longer live, and nothing else changes. */
  lemma RemoveOrganizationExactly(s: State, r: Request)
    requires r.RemoveOrganization?
    ensures var (t, reply) := Step(s, r);
            var live := r.id in s.organizations && s.organizations[r.id].live;
            && (reply == Failed(NotFound) <==> !live)
            && (reply == Removed <==> live && forall b | b in s.brands && s.brands[b].live :: s.brands[b].organizationId != r.id)
            && (reply == Removed || reply == Failed(NotFound) || reply == Failed(Conflict))
            && (reply.Failed? ==> t == s)
            && (reply == Removed ==>
                  t == s.(organizations := s.organizations[r.id := Organization(s.organizations[r.id].code, false)])
                  && forall id :: (id in t.organizations && t.organizations[id].live <==> id != r.id && id in s.organizations && s.organizations[id].live))
  {
  }

  // ------------------------------------------------------------------ brands

  /** No parent, or a live brand of the organization other than `self`. */
  predicate Fits(s: State, self: Option<Id>, organizationId: Id, parent: Option<Id>) {
    parent.Some? ==>
      && self != parent && parent.value in s.brands && s.brands[parent.value].live
      && s.brands[parent.value].organizationId == organizationId
  }

  /** A parent is given that is not the brand itself and that is no live brand. */
  predicate ParentMissing(s: State, self: Option<Id>, parent: Option<Id>) {
    parent.Some? && self != parent && !(parent.value in s.brands && s.brands[parent.value].live)
  }

  predicate OrganizationThere(s: State, id: Id) { id in s.organizations && s.organizations[id].live }

  /** A create checks the code, then the organization, then the parent, and adds the row that was sent. */
  lemma CreateBrandExactly(s: State, r: Request)
    requires r.CreateBrand?
    ensures var (t, reply) := Step(s, r);
            var (used, there) := (BrandUses(s, Normalize(r.newCode), None), OrganizationThere(s, r.organizationId));
            && (reply == Failed(Conflict) <==> used)
            && (reply == Failed(NotFound) <==> !used && (!there || ParentMissing(s, None, r.parent)))
            && (!reply.Failed? <==> !used && there && Fits(s, None, r.organizationId, r.parent))
            && (reply.Failed? ==> t == s)
            && (!reply.Failed? ==>
                  && reply == Saved(s.next)
                  && t == s.(brands := s.brands[s.next := Brand(r.organizationId, r.parent, Normalize(r.newCode), true)], next := s.next + 1))
  {
    hide Normalize, BrandCodes;
    TakenMeans(s, Normalize(r.newCode), None);
  }

  /** The row that an update makes of a brand, column by column. */
  ghost predicate EditedBrand(a: Brand, b: Brand, change: BrandChange) {
    && b.live && CodeAfter(a.code, change.code, b.code)
    && (change.organizationId.Some? ==> b.organizationId == change.organizationId.value)
    && (change.organizationId.None? ==> b.organizationId == a.organizationId)
    && (change.parent.KeepParent? ==> b.parentBrandId == a.parentBrandId)
    && (change.parent.NoParent? ==> b.parentBrandId.None?)
    && (change.parent.NewParent? ==> b.parentBrandId == Some(change.parent.id))
  }

  ghost predicate CodeClash(s: State, id: Id, b: Brand)
    requires id in s.brands
  {
    b.code != s.brands[id].code && BrandUses(s, b.code, Some(id))
  }

  ghost predicate MovesNowhere(s: State, id: Id, b: Brand)
    requires id in s.brands
  {
    b.organizationId != s.brands[id].organizationId && !OrganizationThere(s, b.organizationId)
  }

  /** An update of a live brand is accepted exactly when the row it would make has no clashing code, moves to
   *  a live organization if at all, and fits its parent, kept or new; then that row is stored. */
  lemma UpdateBrandExactly(s: State, r: Request, b: Brand)
    requires r.UpdateBrand? && (r.id in s.brands ==> EditedBrand(s.brands[r.id], b, r.change))
    ensures var (t, reply) := Step(s, r);
            var live := r.id in s.brands && s.brands[r.id].live;
            && (!live ==> reply == Failed(NotFound))
            && (live ==>
                  && (reply == Failed(Conflict) <==> CodeClash(s, r.id, b))
                  && (reply == Failed(NotFound) <==>
                        !CodeClash(s, r.id, b) && (MovesNowhere(s, r.id, b) || ParentMissing(s, Some(r.id), b.parentBrandId)))
                  && (!reply.Failed? <==>
                        !CodeClash(s, r.id, b) && !MovesNowhere(s, r.id, b) && Fits(s, Some(r.id), b.organizationId, b.parentBrandId)))
            && (reply.Failed? ==> t == s)
            && (!reply.Failed? ==> reply == Saved(r.id) && t == s.(brands := s.brands[r.id := b]))
  {
    hide Normalize, BrandCodes;
    TakenMeans(s, b.code, Some(r.id));
  }

  /** A removal is accepted exactly for a live brand; the row stays, no longer live, and nothing else changes,
   *  so that its children keep it as their parent. */
  lemma RemoveBrandExactly(s: State, r: Request)
    requires r.RemoveBrand?
    ensures var (t, reply) := Step(s, r);
            && reply == (if r.id in s.brands && s.brands[r.id].live then Removed else Failed(NotFound))
            && (reply.Failed? ==> t == s)
            && (reply == Removed ==>
                  && r.id in t.brands && !t.brands[r.id].live
                  && t == s.(brands := t.brands) && t.brands.Keys == s.brands.Keys
                  && (forall id | id in s.brands :: t.brands[id] == s.brands[id].(live := t.brands[id].live))
                  && forall id | id in s.brands && id != r.id :: t.brands[id].live == s.brands[id].live)
  {
  }
}
