/**
 * PermissionHelper.hasPermissions: whether every requested category is already satisfied,
 * a media category also by a held MANAGE_STORAGE.
 */
module PermissionHelper {
  import opened Manifest
  import opened PermissionCategories
  import opened Platform
  import Version
  import Mapper = CategoryPermissionsMapper
  import opened PermissionUtils

  /** One category passes: media with MANAGE_STORAGE held, or all of its own identifiers held. */
  predicate CategorySatisfied(d: Device, category: PermissionCategory) {
    (IsMediaPermission(category) && HasManagePermission(d)) || AllHeld(d, Mapper.GetPermissions(category, d.sdk))
  }

  /** hasPermissions: false at the first category that does not pass. */
  function HasPermissions(d: Device, categories: seq<PermissionCategory>): (r: bool)
    ensures r <==> forall c :: c in categories ==> CategorySatisfied(d, c)
  {
    if categories == [] then true
    else if !CategorySatisfied(d, categories[0]) then false
    else
      assert forall c :: c in categories ==> c == categories[0] || c in categories[1..];
      HasPermissions(d, categories[1..])
  }

  /** Only the set of categories matters: not their order, not their repetitions. */
  lemma SameCategoriesSameAnswer(d: Device, cs: seq<PermissionCategory>, ds: seq<PermissionCategory>)
    requires forall c :: c in cs <==> c in ds
    ensures HasPermissions(d, cs) == HasPermissions(d, ds)
  {
  }

  /** A held MANAGE_STORAGE satisfies media categories whose own identifiers are not held. */
  lemma ManageStorageSatisfiesMedia(d: Device, categories: seq<PermissionCategory>)
    requires Version.IsRPlus(d.sdk) && d.externalStorageManager
    requires forall c :: c in categories ==> IsMediaPermission(c)
    ensures HasPermissions(d, categories)
  {
  }

  /** A category with nothing to request on this API level is always satisfied. */
  lemma EmptyCategorySatisfied(d: Device, category: PermissionCategory)
    requires Mapper.GetPermissions(category, d.sdk) == []
    ensures HasPermissions(d, [category])
  {
  }

  /** Below Marshmallow, NOTIFICATIONS, SCHEDULE, IGNORE_BATTERY_OPTIMIZATION and MEDIA_LOCATION pass unasked. */
  lemma {:induction false} OldPlatformCategoriesSatisfied(d: Device)
    requires !Version.IsMarshmallowPlus(d.sdk)
    ensures HasPermissions(d, [Notifications, Schedule, IgnoreBatteryOptimization, MediaLocation])
  {
    Mapper.EmptyOnOldPlatforms(Notifications, d.sdk);
    Mapper.EmptyOnOldPlatforms(Schedule, d.sdk);
    Mapper.EmptyOnOldPlatforms(IgnoreBatteryOptimization, d.sdk);
    Mapper.EmptyOnOldPlatforms(MediaLocation, d.sdk);
  }

  /**
   * From Marshmallow on, IGNORE_BATTERY_OPTIMIZATION counts as satisfied exactly when its
   * identifier is granted as an ordinary permission; the exemption is not consulted here.
   */
  lemma {:induction false} BatteryCheckedAsGrant(d: Device)
    requires Version.IsMarshmallowPlus(d.sdk)
    ensures HasPermissions(d, [IgnoreBatteryOptimization]) <==> RequestIgnoreBatteryOptimizations in d.granted
  {
    var ps := Mapper.GetPermissions(IgnoreBatteryOptimization, d.sdk);
    assert ps == [RequestIgnoreBatteryOptimizations];
    assert RequestIgnoreBatteryOptimizations in ps;
  }
}
