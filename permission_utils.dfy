/**
 * The orchestration helpers of utils/PermissionUtils.kt: whether identifiers are held, the
 * media/storage classification of categories, the request list built from categories, and
 * the categories reported back as still denied.
 */
module PermissionUtils {
  import opened Wrappers
  import opened Sequences
  import opened Manifest
  import opened PermissionCategories
  import opened Platform
  import Version
  import Mapper = CategoryPermissionsMapper
  import Companion = FragmentCompanion

  /** Every identifier of `permissions` is held, as the companion asks it. */
  predicate AllHeld(d: Device, permissions: seq<Permission>) {
    forall p :: p in permissions ==> Companion.HasPermission(d, p)
  }

  /** hasAllPermissions: stops at the first identifier not held. */
  method HasAllPermissions(d: Device, permissions: seq<Permission>) returns (r: bool)
    ensures r <==> AllHeld(d, permissions)
    ensures permissions == [] ==> r
  {
    var i := 0;
    while i < |permissions|
      invariant 0 <= i <= |permissions|
      invariant AllHeld(d, permissions[..i])
    {
      if !Companion.HasPermission(d, permissions[i]) {
        return false;
      }
      assert permissions[..i + 1] == permissions[..i] + [permissions[i]];
      i := i + 1;
    }
    assert permissions[..i] == permissions;
    return true;
  }

  /**
   * hasManagePermission: all of MANAGE_STORAGE's identifiers are held, that is the
   * storage-manager flag from R on and every legacy MEDIA identifier below R.
   */
  function HasManagePermission(d: Device): (r: bool)
    ensures Version.IsRPlus(d.sdk) ==> (r <==> d.externalStorageManager)
    ensures !Version.IsRPlus(d.sdk) ==> (r <==> AllHeld(d, Mapper.MediaPermissions(d.sdk)))
  {
    var permissions := Mapper.GetPermissions(ManageStorage, d.sdk);
    assert Version.IsRPlus(d.sdk) ==> permissions == [ManageExternalStorage] && ManageExternalStorage in permissions;
    AllHeld(d, permissions)
  }

  predicate IsMediaPermission(category: PermissionCategory) {
    category == Media || category == Photos || category == Videos || category == Music
  }

  function ContainMediaPermissions(categories: seq<PermissionCategory>): (r: bool)
    ensures r <==> exists c :: c in categories && IsMediaPermission(c)
  {
    Media in categories || Photos in categories || Videos in categories || Music in categories
  }

  /** MANAGE_STORAGE together with some media category: the media ones are then dropped. */
  predicate ContainsBoth(categories: seq<PermissionCategory>) {
    ManageStorage in categories && ContainMediaPermissions(categories)
  }

  /** What one category adds to the request list. */
  function Contribution(category: PermissionCategory, containsBoth: bool, sdk: int): seq<Permission> {
    if containsBoth && (IsMediaPermission(category) || category == ManageStorage) then
      if category == ManageStorage then Mapper.GetPermissions(category, sdk) else []
    else
      Mapper.GetPermissions(category, sdk)
  }

  function ContributionOf(containsBoth: bool, sdk: int): PermissionCategory -> seq<Permission> {
    c => Contribution(c, containsBoth, sdk)
  }

  /** The contributions of `categories`, concatenated in order without de-duplication. */
  function Contributions(categories: seq<PermissionCategory>, containsBoth: bool, sdk: int): seq<Permission> {
    FlatMap(categories, ContributionOf(containsBoth, sdk))
  }

  /** The identifiers proceedWithPermissionCheck requests for `categories`. */
  function RequestList(categories: seq<PermissionCategory>, sdk: int): seq<Permission> {
    Contributions(categories, ContainsBoth(categories), sdk)
  }

  lemma ContributionsSnoc(categories: seq<PermissionCategory>, c: PermissionCategory, containsBoth: bool, sdk: int)
    ensures Contributions(categories + [c], containsBoth, sdk) ==
      Contributions(categories, containsBoth, sdk) + Contribution(c, containsBoth, sdk)
  {
    FlatMapSnoc(categories, c, ContributionOf(containsBoth, sdk));
  }

  lemma ContributionsStep(categories: seq<PermissionCategory>, i: int, containsBoth: bool, sdk: int)
    requires 0 <= i < |categories|
    ensures Contributions(categories[..i + 1], containsBoth, sdk) ==
      Contributions(categories[..i], containsBoth, sdk) + Contribution(categories[i], containsBoth, sdk)
  {
    assert categories[..i + 1] == categories[..i] + [categories[i]];
    ContributionsSnoc(categories[..i], categories[i], containsBoth, sdk);
  }

  /** The request list, accumulated category by category as the source does. */
  method BuildRequestList(categories: seq<PermissionCategory>, sdk: int) returns (permissions: seq<Permission>)
    ensures permissions == RequestList(categories, sdk)
  {
    var containsBoth := ManageStorage in categories && ContainMediaPermissions(categories);
    permissions := [];
    var i := 0;
    while i < |categories|
      invariant 0 <= i <= |categories|
      invariant permissions == Contributions(categories[..i], containsBoth, sdk)
    {
      var category := categories[i];
      ContributionsStep(categories, i, containsBoth, sdk);
      if containsBoth && (IsMediaPermission(category) || category == ManageStorage) {
        if category == ManageStorage {
          permissions := permissions + Mapper.GetPermissions(category, sdk);
        }
      } else {
        permissions := permissions + Mapper.GetPermissions(category, sdk);
      }
      i := i + 1;
    }
    assert categories[..i] == categories;
  }

  lemma ContributionsMembership(categories: seq<PermissionCategory>, containsBoth: bool, sdk: int, p: Permission)
    ensures p in Contributions(categories, containsBoth, sdk) <==>
      exists c :: c in categories && p in Contribution(c, containsBoth, sdk)
  {
    FlatMapMembership(categories, ContributionOf(containsBoth, sdk), p);
  }

  /**
   * With MANAGE_STORAGE and a media category both present, the request holds exactly the
   * MANAGE_STORAGE identifiers; no media identifier is requested on its own account.
   */
  lemma ManageStorageSubsumesMedia(categories: seq<PermissionCategory>, sdk: int, p: Permission)
    requires ContainsBoth(categories)
    ensures p in RequestList(categories, sdk) <==>
      p in Mapper.GetPermissions(ManageStorage, sdk)
      || exists c :: c in categories && !IsMediaPermission(c) && c != ManageStorage && p in Mapper.GetPermissions(c, sdk)
  {
    ContributionsMembership(categories, true, sdk, p);
  }

  /** Otherwise every category contributes all of its identifiers. */
  lemma RequestsEveryCategory(categories: seq<PermissionCategory>, sdk: int, p: Permission)
    requires !ContainsBoth(categories)
    ensures p in RequestList(categories, sdk) <==>
      exists c :: c in categories && p in Mapper.GetPermissions(c, sdk)
  {
    ContributionsMembership(categories, false, sdk, p);
  }

  /** The list is not de-duplicated: each occurrence of a category contributes again. */
  lemma {:induction false} RepeatsAreKept(c: PermissionCategory, sdk: int)
    requires !IsMediaPermission(c)
    ensures RequestList([c, c], sdk) == Mapper.GetPermissions(c, sdk) + Mapper.GetPermissions(c, sdk)
  {
    assert !ContainMediaPermissions([c, c]);
    var own := Contribution(c, false, sdk);
    assert [] + [c] == [c] && [c] + [c] == [c, c];
    ContributionsSnoc([], c, false, sdk);
    ContributionsSnoc([c], c, false, sdk);
    assert Contributions([c], false, sdk) == own;
  }

  // ---------------------------------------------------------------------------------------
  // getDeniedCategories

  /** `map { getCategory(it) }`: fails on the first identifier getCategory does not know. */
  function CategoriesOf(permissions: seq<Permission>): (r: Result<seq<PermissionCategory>, Mapper.Fault>)
    ensures r.Success? <==> forall p :: p in permissions ==> Mapper.GetCategory(p).Success?
    ensures r.Success? ==> |r.value| == |permissions|
    ensures r.Success? ==>
      forall i :: 0 <= i < |permissions| ==> Mapper.GetCategory(permissions[i]) == Success(r.value[i])
    ensures r.Failure? ==> exists p :: p in permissions && Mapper.GetCategory(p) == Failure(r.error)
  {
    if permissions == [] then Success([])
    else
      match Mapper.GetCategory(permissions[0])
      case Failure(e) => Failure(e)
      case Success(c) =>
        match CategoriesOf(permissions[1..])
        case Failure(e) => Failure(e)
        case Success(cs) =>
          assert forall i :: 1 <= i < |permissions| ==> permissions[i] == permissions[1..][i - 1];
          Success([c] + cs)
  }

  function NotHeld(d: Device): Permission -> bool {
    p => !Companion.HasPermission(d, p)
  }

  /** The category of each requested identifier still not held, one per identifier, in order. */
  function MissingCategories(d: Device, permissions: seq<Permission>): Result<seq<PermissionCategory>, Mapper.Fault> {
    CategoriesOf(Filter(permissions, NotHeld(d)))
  }

  /**
   * The distinct categories, in first-occurrence order, of the requested identifiers that
   * are still not held; fatal when one of those identifiers has no category.
   */
  function DeniedCategories(d: Device, permissions: seq<Permission>): (r: Result<seq<PermissionCategory>, Mapper.Fault>)
    ensures r.Failure? <==>
      exists p :: p in permissions && !Companion.HasPermission(d, p) && Mapper.GetCategory(p).Failure?
    ensures r.Success? <==> MissingCategories(d, permissions).Success?
    ensures r.Success? ==> InFirstOccurrenceOrder(r.value, MissingCategories(d, permissions).value)
    ensures r.Success? ==> forall c :: c in r.value <==>
      exists p :: p in permissions && !Companion.HasPermission(d, p) && Mapper.GetCategory(p) == Success(c)
  {
    MissingCategoriesMembership(d, permissions);
    match MissingCategories(d, permissions)
    case Failure(e) => Failure(e)
    case Success(cs) =>
      DistinctFirstOccurrences(cs);
      DistinctProperties(cs);
      Success(Distinct(cs))
  }

  /** Which categories the missing identifiers have, and when one of them has none. */
  lemma MissingCategoriesMembership(d: Device, permissions: seq<Permission>)
    ensures MissingCategories(d, permissions).Failure? <==>
      exists p :: p in permissions && !Companion.HasPermission(d, p) && Mapper.GetCategory(p).Failure?
    ensures MissingCategories(d, permissions).Success? ==> forall c :: c in MissingCategories(d, permissions).value <==>
      exists p :: p in permissions && !Companion.HasPermission(d, p) && Mapper.GetCategory(p) == Success(c)
  {
    var missing := Filter(permissions, NotHeld(d));
    forall p ensures p in missing <==> p in permissions && !Companion.HasPermission(d, p) {
      FilterMembership(permissions, NotHeld(d), p);
    }
    match CategoriesOf(missing)
    case Failure(e) =>
    case Success(cs) =>
      forall c ensures c in cs <==> exists p :: p in missing && Mapper.GetCategory(p) == Success(c) {
        if c in cs {
          var i :| 0 <= i < |cs| && cs[i] == c;
          assert missing[i] in missing;
        }
        if exists p :: p in missing && Mapper.GetCategory(p) == Success(c) {
          var p :| p in missing && Mapper.GetCategory(p) == Success(c);
          var i :| 0 <= i < |missing| && missing[i] == p;
          assert cs[i] == c;
        }
      }
  }
}
