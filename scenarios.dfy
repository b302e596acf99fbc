/**
 * Whole runs of a permission check on fixed platforms: the request list, the transitions of
 * the state machine as the platform calls back, and what the caller finally hears.
 */
module Scenarios {
  import opened Wrappers
  import opened Sequences
  import opened Manifest
  import opened PermissionCategories
  import opened Platform
  import Version
  import Mapper = CategoryPermissionsMapper
  import opened Fragments
  import PermissionUtils
  import PermissionCheck

  // ---------------------------------------------------------------------------------------
  // Small evaluations the runs below are built from

  lemma CategoriesPair(x: Permission, y: Permission, cx: PermissionCategory, cy: PermissionCategory)
    requires Mapper.GetCategory(x) == Success(cx) && Mapper.GetCategory(y) == Success(cy)
    ensures PermissionUtils.CategoriesOf([x, y]) == Success([cx, cy])
  {
    var none: seq<Permission> := [];
    assert PermissionUtils.CategoriesOf(none) == Success([]);
    assert [y][1..] == none;
    assert [cy] + [] == [cy];
    assert PermissionUtils.CategoriesOf([y]) == Success([cy]);
    assert [x, y][1..] == [y];
    assert [cx] + [cy] == [cx, cy];
  }

  lemma DistinctPair<T>(x: T, y: T)
    ensures Distinct([x, y]) == if x == y then [x] else [x, y]
  {
    assert [x, y][..1] == [x];
    assert [x][..0] == [];
    assert Distinct([x]) == [x];
  }

  /** The categories reported for two identifiers still missing, both of which are mapped. */
  lemma DeniedPair(d: Device, x: Permission, y: Permission, cx: PermissionCategory, cy: PermissionCategory)
    requires PermissionUtils.NotHeld(d)(x) && PermissionUtils.NotHeld(d)(y)
    requires Mapper.GetCategory(x) == Success(cx) && Mapper.GetCategory(y) == Success(cy)
    ensures PermissionUtils.DeniedCategories(d, [x, y]) == Success(if cx == cy then [cx] else [cx, cy])
  {
    FilterKeepsAll([x, y], PermissionUtils.NotHeld(d));
    CategoriesPair(x, y, cx, cy);
    DistinctPair(cx, cy);
  }

  /** The caller's reaction once the denied categories are known. */
  lemma ReactWith(result: PermissionResult, requested: seq<Permission>, d: Device, cs: seq<PermissionCategory>)
    requires PermissionUtils.DeniedCategories(d, requested) == Success(cs)
    ensures PermissionCheck.React(result, requested, d).callback ==
      Success(PermissionCheck.Callback(result.PermissionGranted?, cs))
  {
  }

  // ---------------------------------------------------------------------------------------
  // MEDIA on Pie, refused in the dialog

  const Pie: Device := Device(Version.P, {}, false, false, {})
  const Legacy: seq<Permission> := [ReadExternalStorage, WriteExternalStorage]
  const BothDenied: seq<int> := [PERMISSION_DENIED, PERMISSION_DENIED]

  /** Below Q, MEDIA is asked as the two legacy storage identifiers. */
  lemma MediaRequestOnPie()
    ensures PermissionUtils.RequestList([Media], Version.P) == Legacy
  {
    Mapper.MediaTable(Version.P);
    assert !PermissionUtils.ContainsBoth([Media]);
    assert [Media][..0] == [];
    assert PermissionUtils.Contributions([Media], false, Version.P) == [] + Legacy;
  }

  lemma PieCategorised()
    ensures Categorised(Initial, Pie, Legacy) == Initial.(pendingNormal := Legacy)
    ensures NotGranted(Pie, Legacy) == Legacy
  {
    assert forall p :: p in Legacy ==> !IsSpecialPermission(p) && !HasNormalPermission(Pie, p) by {
    }
    NormalOnlyCategorised(Initial, Pie, Legacy);
  }

  /** Neither is held and neither is special: one dialog for both. */
  lemma MediaDialogOnPie()
    ensures RequestStep(Initial, Pie, PermissionCheck.RequestId, Legacy) ==
      Transition(Initial.(pendingNormal := Legacy), [BatchRequested(Legacy, 1)])
  {
    PieCategorised();
    assert !RationaleWanted(Pie, Legacy);
    assert RequestStep(Initial, Pie, 1, Legacy) == Proceed(Initial.(pendingNormal := Legacy), 1);
  }

  /** Both refused with no rationale flag: a permanent denial that lists both. */
  lemma MediaRefusedOnPie()
    ensures PermissionsResultStep(Initial.(pendingNormal := Legacy), Pie, 1, Legacy, BothDenied) ==
      Transition(Initial, [ResultEmitted(PermissionDeniedPermanently(1, Legacy))])
  {
    AllRefused(Legacy, BothDenied);
    assert !AllGranted(BothDenied);
    assert Cleared(Initial.(pendingNormal := Legacy)) == Initial;
    assert Legacy + [] == Legacy;
  }

  /** The caller is sent to settings and hears that MEDIA is denied. */
  lemma MediaReactionOnPie()
    ensures PermissionCheck.React(PermissionDeniedPermanently(1, Legacy), Legacy, Pie) ==
      PermissionCheck.Reaction(PermissionCheck.SettingsDialog, Success(PermissionCheck.Callback(false, [Media])))
  {
    DeniedPair(Pie, ReadExternalStorage, WriteExternalStorage, Media, Media);
  }

  /**
   * The whole run for MEDIA on Pie with nothing granted: one dialog for both legacy
   * identifiers, both refused with no rationale flag, a permanent denial that lists them,
   * the settings prompt, and the caller hears (false, [MEDIA]).
   */
  lemma MediaRunOnPie()
    ensures PermissionUtils.RequestList([Media], Pie.sdk) == Legacy
    ensures var t1 := RequestStep(Initial, Pie, PermissionCheck.RequestId, Legacy);
      && t1.events == [BatchRequested([ReadExternalStorage, WriteExternalStorage], 1)]
      && PermissionsResultStep(t1.session, Pie, PermissionCheck.RequestId, Legacy, BothDenied) ==
           Transition(Initial, [ResultEmitted(PermissionDeniedPermanently(1, [ReadExternalStorage, WriteExternalStorage]))])
    ensures PermissionCheck.React(PermissionDeniedPermanently(1, Legacy), Legacy, Pie) ==
      PermissionCheck.Reaction(PermissionCheck.SettingsDialog, Success(PermissionCheck.Callback(false, [Media])))
  {
    MediaRequestOnPie();
    MediaDialogOnPie();
    MediaRefusedOnPie();
    MediaReactionOnPie();
  }

  // ---------------------------------------------------------------------------------------
  // MANAGE_STORAGE with PHOTOS on Tiramisu, granted in settings

  const Tiramisu: Device := Device(Version.TIRAMISU, {}, false, false, {})
  const StorageGranted: Device := Tiramisu.(externalStorageManager := true)

  /** MANAGE_STORAGE subsumes PHOTOS: only MANAGE_EXTERNAL_STORAGE is asked. */
  lemma {:induction false} StorageRequestOnTiramisu()
    ensures PermissionUtils.RequestList([ManageStorage, Photos], Version.TIRAMISU) == [ManageExternalStorage]
  {
    var cs := [ManageStorage, Photos];
    assert PermissionUtils.ContainsBoth(cs);
    assert cs[..1] == [ManageStorage] && [ManageStorage][..0] == [];
    assert PermissionUtils.Contribution(Photos, true, Version.TIRAMISU) == [];
    assert PermissionUtils.Contribution(ManageStorage, true, Version.TIRAMISU) == [ManageExternalStorage];
    assert PermissionUtils.Contributions([ManageStorage], true, Version.TIRAMISU) == [] + [ManageExternalStorage];
  }

  lemma StorageCategorised()
    ensures Categorised(Initial, Tiramisu, [ManageExternalStorage]) == Initial.(pendingSpecial := [ManageExternalStorage])
    ensures NotGranted(Tiramisu, [ManageExternalStorage]) == [ManageExternalStorage]
  {
    assert forall p :: p in [ManageExternalStorage] ==> IsSpecialPermission(p) && !HasSpecialPermission(Tiramisu, p) by {
    }
    SpecialOnlyCategorised(Initial, Tiramisu, [ManageExternalStorage]);
  }

  /** The special identifier goes to its settings screen; nothing is delivered yet. */
  lemma StorageSettingsOnTiramisu()
    ensures RequestStep(Initial, Tiramisu, 1, [ManageExternalStorage]) ==
      Transition(Initial.(specialPermissionReqCode := 1, requestedSpecial := Some(ManageExternalStorage)),
                 [SettingsLaunched(ManageExternalStorage, 1)])
  {
    StorageCategorised();
    assert !RationaleWanted(Tiramisu, [ManageExternalStorage]);
    assert RequestStep(Initial, Tiramisu, 1, [ManageExternalStorage]) ==
      Proceed(Initial.(pendingSpecial := [ManageExternalStorage]), 1);
    assert [ManageExternalStorage][1..] == [];
  }

  /** Back from settings with the storage manager granted: PermissionGranted, and the fields are reset. */
  lemma StorageGrantedOnTiramisu()
    ensures ActivityResultStep(Initial.(specialPermissionReqCode := 1, requestedSpecial := Some(ManageExternalStorage)),
                               StorageGranted, 1) ==
      Transition(Initial, [ResultEmitted(PermissionGranted(1))])
  {
  }

  lemma StorageReactionOnTiramisu()
    ensures PermissionCheck.React(PermissionGranted(1), [ManageExternalStorage], StorageGranted) ==
      PermissionCheck.Reaction(PermissionCheck.NoPrompt, Success(PermissionCheck.Callback(true, [])))
  {
    FilterKeepsNone([ManageExternalStorage], PermissionUtils.NotHeld(StorageGranted));
  }

  /**
   * The whole run for MANAGE_STORAGE with PHOTOS on Tiramisu: only the storage manager
   * identifier is asked, it goes to its settings screen, comes back granted, and the caller
   * hears (true, []) with no prompt.
   */
  lemma StorageRunOnTiramisu()
    ensures PermissionUtils.RequestList([ManageStorage, Photos], Tiramisu.sdk) == [ManageExternalStorage]
    ensures var t1 := RequestStep(Initial, Tiramisu, PermissionCheck.RequestId, [ManageExternalStorage]);
      && t1.events == [SettingsLaunched(ManageExternalStorage, 1)]
      && ActivityResultStep(t1.session, StorageGranted, PermissionCheck.RequestId) ==
           Transition(Initial, [ResultEmitted(PermissionGranted(1))])
    ensures PermissionCheck.React(PermissionGranted(1), [ManageExternalStorage], StorageGranted) ==
      PermissionCheck.Reaction(PermissionCheck.NoPrompt, Success(PermissionCheck.Callback(true, [])))
  {
    StorageRequestOnTiramisu();
    StorageSettingsOnTiramisu();
    StorageGrantedOnTiramisu();
    StorageReactionOnTiramisu();
  }

  // ---------------------------------------------------------------------------------------
  // Two special identifiers, both refused in settings

  const BothSpecials: seq<Permission> := [ManageExternalStorage, RequestIgnoreBatteryOptimizations]

  lemma {:induction false} SpecialsRequestOnTiramisu()
    ensures PermissionUtils.RequestList([ManageStorage, IgnoreBatteryOptimization], Version.TIRAMISU) == BothSpecials
  {
    var cs := [ManageStorage, IgnoreBatteryOptimization];
    assert !PermissionUtils.ContainMediaPermissions(cs);
    assert cs[..1] == [ManageStorage] && [ManageStorage][..0] == [];
    assert PermissionUtils.Contributions([ManageStorage], false, Version.TIRAMISU) == [] + [ManageExternalStorage];
  }

  lemma SpecialsCategorised()
    ensures Categorised(Initial, Tiramisu, BothSpecials) == Initial.(pendingSpecial := BothSpecials)
    ensures NotGranted(Tiramisu, BothSpecials) == BothSpecials
  {
    assert forall p :: p in BothSpecials ==> IsSpecialPermission(p) && !HasSpecialPermission(Tiramisu, p) by {
    }
    SpecialOnlyCategorised(Initial, Tiramisu, BothSpecials);
  }

  /** Both are special: the first goes to settings, the second waits in the queue. */
  lemma SpecialsFirstScreen()
    ensures RequestStep(Initial, Tiramisu, 1, BothSpecials) ==
      Transition(Initial.(pendingSpecial := [RequestIgnoreBatteryOptimizations], specialPermissionReqCode := 1,
                          requestedSpecial := Some(ManageExternalStorage)),
                 [SettingsLaunched(ManageExternalStorage, 1)])
  {
    SpecialsCategorised();
    assert !RationaleWanted(Tiramisu, BothSpecials);
    assert RequestStep(Initial, Tiramisu, 1, BothSpecials) == Proceed(Initial.(pendingSpecial := BothSpecials), 1);
    assert BothSpecials[1..] == [RequestIgnoreBatteryOptimizations];
  }

  /** Still refused: it is recorded and the next special goes to settings. */
  lemma SpecialsSecondScreen()
    ensures ActivityResultStep(
        Initial.(pendingSpecial := [RequestIgnoreBatteryOptimizations], specialPermissionReqCode := 1,
                 requestedSpecial := Some(ManageExternalStorage)), Tiramisu, 1) ==
      Transition(Initial.(specialDenied := [ManageExternalStorage], specialPermissionReqCode := 1,
                          requestedSpecial := Some(RequestIgnoreBatteryOptimizations)),
                 [SettingsLaunched(RequestIgnoreBatteryOptimizations, 1)])
  {
    assert [RequestIgnoreBatteryOptimizations][1..] == [];
  }

  /** The second comes back refused too: the result carries the emptied list. */
  lemma SpecialsLastScreen()
    ensures ActivityResultStep(
        Initial.(specialDenied := [ManageExternalStorage], specialPermissionReqCode := 1,
                 requestedSpecial := Some(RequestIgnoreBatteryOptimizations)), Tiramisu, 1) ==
      Transition(Initial, [ResultEmitted(PermissionDenied(1, []))])
  {
  }

  lemma SpecialsReactionOnTiramisu()
    ensures PermissionCheck.React(PermissionDenied(1, []), BothSpecials, Tiramisu) ==
      PermissionCheck.Reaction(PermissionCheck.NoPrompt,
        Success(PermissionCheck.Callback(false, [ManageStorage, IgnoreBatteryOptimization])))
  {
    DeniedPair(Tiramisu, ManageExternalStorage, RequestIgnoreBatteryOptimizations, ManageStorage, IgnoreBatteryOptimization);
    ReactWith(PermissionDenied(1, []), BothSpecials, Tiramisu, [ManageStorage, IgnoreBatteryOptimization]);
  }

  /**
   * Both refused: PermissionDenied is delivered with an EMPTY list, because the list it was
   * given is the one the clearing empties; the caller still hears both categories.
   */
  lemma SpecialsBothRefused()
    ensures ActivityResultStep(
        Initial.(specialDenied := [ManageExternalStorage], specialPermissionReqCode := 1,
                 requestedSpecial := Some(RequestIgnoreBatteryOptimizations)), Tiramisu, 1) ==
      Transition(Initial, [ResultEmitted(PermissionDenied(1, []))])
    ensures PermissionCheck.React(PermissionDenied(1, []), BothSpecials, Tiramisu) ==
      PermissionCheck.Reaction(PermissionCheck.NoPrompt,
        Success(PermissionCheck.Callback(false, [ManageStorage, IgnoreBatteryOptimization])))
  {
    SpecialsLastScreen();
    SpecialsReactionOnTiramisu();
  }
}
