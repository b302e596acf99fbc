/**
 * The companion of the concrete fragment (fragments/PermissionFragment.kt): its own, narrower
 * classification of special identifiers, the permission query the rest of the library uses,
 * and the entry point that reuses or adds the headless fragment and gives every request a
 * fresh result cell.
 */
module FragmentCompanion {
  import opened Manifest
  import opened Platform
  import Version
  import Fragments

  /** Only MANAGE_EXTERNAL_STORAGE; the battery identifier is not special here. */
  predicate IsSpecialPermission(p: Permission) {
    p == ManageExternalStorage
  }

  predicate HasSpecialPermission(d: Device, p: Permission) {
    if p == ManageExternalStorage then d.externalStorageManager else false
  }

  predicate HasNormalPermission(d: Device, p: Permission) {
    p in d.granted
  }

  /** The permission query of `PermissionUtils` and `PermissionHelper`. */
  predicate HasPermission(d: Device, p: Permission) {
    if IsSpecialPermission(p) then HasSpecialPermission(d, p) else HasNormalPermission(d, p)
  }

  /**
   * The companion answers like the fragment for every identifier except the battery one,
   * which it looks up as an ordinary grant instead of the exemption query.
   */
  lemma AgreesWithFragmentExceptBattery(d: Device, p: Permission)
    ensures p != RequestIgnoreBatteryOptimizations ==> (HasPermission(d, p) <==> Fragments.HasPermission(d, p))
    ensures HasPermission(d, RequestIgnoreBatteryOptimizations) <==> RequestIgnoreBatteryOptimizations in d.granted
    ensures Fragments.HasPermission(d, RequestIgnoreBatteryOptimizations) <==>
      !Version.IsMarshmallowPlus(d.sdk) || d.ignoringBatteryOptimizations
  {
  }

  /** The two classifications do disagree: a granted but non-exempt battery identifier. */
  lemma ClassificationsDiverge()
    ensures exists d: Device ::
      HasPermission(d, RequestIgnoreBatteryOptimizations) && !Fragments.HasPermission(d, RequestIgnoreBatteryOptimizations)
  {
    var d := Device(Version.M, {RequestIgnoreBatteryOptimizations}, false, false, {});
    assert HasPermission(d, RequestIgnoreBatteryOptimizations);
    assert !Fragments.HasPermission(d, RequestIgnoreBatteryOptimizations);
  }

  /** A host's fragment manager, reduced to the one tag the library looks up. */
  class FragmentManager {
    var tagged: Fragments.PermissionFragment?

    constructor ()
      ensures tagged == null
    {
      tagged := null;
    }
  }

  /**
   * _requestPermissions: reuse the fragment found by tag or add a new one, install a fresh
   * result cell, then start the request. The cell ends completed with the first result the
   * request delivers synchronously, and stays active while the platform has the next move.
   */
  method RequestPermissions(fm: FragmentManager, requestId: int, permissions: seq<Permission>, d: Device)
    returns (fragment: Fragments.PermissionFragment, cell: Fragments.CompletableDeferred)
    requires fm.tagged != null ==> fm.tagged.Valid()
    modifies fm, fm.tagged
    ensures fm.tagged == fragment && fragment.Valid()
    ensures old(fm.tagged) != null ==> fragment == old(fm.tagged)
    ensures old(fm.tagged) == null ==> fresh(fragment)
    ensures fresh(cell) && fragment.completableDeferred == cell
    ensures var s0 := if old(fm.tagged) != null then old(fm.tagged.State()) else Fragments.Initial;
      var t := Fragments.RequestStep(s0, d, requestId, permissions);
      && fragment.State() == t.session
      && fragment.events == (if old(fm.tagged) != null then old(fm.tagged.events) else []) + t.events
      && cell.state == Fragments.Settle(Fragments.Active, t.events)
  {
    if fm.tagged != null {
      fragment := fm.tagged;
    } else {
      fragment := new Fragments.PermissionFragment();
      fm.tagged := fragment;
    }
    cell := new Fragments.CompletableDeferred();
    fragment.completableDeferred := cell;
    fragment.RequestPermissions(requestId, permissions, d);
  }
}
