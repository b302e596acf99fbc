# AndroidPermissions in Dafny

This is a model of the core of the AndroidPermissions library, a Kotlin helper for Android apps.
A caller names permission *categories*, such as MEDIA, CONTACTS or MANAGE_STORAGE. The library:

- expands them into the platform's permission identifiers for the running API level;
- asks for the missing identifiers through a headless fragment, a small state machine;
- sends special identifiers (all-files access, battery-optimisation exemption) to their settings screens one at a time;
- sends all normal identifiers together to the platform's permission dialog;
- completes a one-shot result cell with the outcome;
- tells the caller whether everything was granted and which categories are still missing.

Modules, one per source file:

- `Version` (`utils/Version.kt`): the API-level gates, as predicates on an explicit `sdk`.
- `Manifest`, `PermissionCategories`, `Platform`: the identifiers, the categories and the platform constants. `Platform.Device` is one snapshot of everything the library asks the platform:
  - the API level;
  - the granted identifiers;
  - the storage-manager flag;
  - the battery-exemption flag;
  - the identifiers that want a rationale.
- `CategoryPermissionsMapper` (`mappers/CategoryPermissionsMapper.kt`): the category to identifier tables, per API level, and the reverse mapping. The reverse mapping's `RuntimeException` becomes a `Failure`.
- `Fragments` (`fragments/BasePermissionFragment.kt`, with the subclass's result cell from `fragments/PermissionFragment.kt`):
  - the state machine on values: a `Session` and one step function per platform callback, each returning the next session and the outward events;
  - the class `PermissionFragment`, whose methods update the fields as the Kotlin does, each proved to follow its step function;
  - the class `CompletableDeferred`, the result cell.
- `FragmentCompanion` (the companion of `fragments/PermissionFragment.kt`): its own, narrower notion of a special identifier, and the entry point that reuses or adds the fragment and installs a fresh cell.
- `PermissionUtils`, `PermissionHelper`, `PermissionCheck` (`utils/PermissionUtils.kt`, `PermissionHelper.kt`): the held-permission queries, the request-list construction, the denied-category report, and `proceedWithPermissionCheck`.
- `Scenarios`: whole runs on fixed platforms, from the categories asked to what the caller hears.

Two behaviours of the source are kept as written:

- **An empty denied list.** On two paths a `PermissionDenied` result would list the special identifiers still denied:
  - all dialog answers are granted but some special stayed denied (`BasePermissionFragment.kt:47-49`);
  - the last settings screen returns (`BasePermissionFragment.kt:155-157`).

  On both, the result is built around the mutable list itself, and `clearPrevState` empties that list before the result is handed on. The caller therefore receives `PermissionDenied(code, [])` (`EmitDeniedWithLiveList`, `Scenarios.SpecialsBothRefused`).
- **Two meanings of "special".** The fragment treats both MANAGE_EXTERNAL_STORAGE and REQUEST_IGNORE_BATTERY_OPTIMIZATIONS as special. The companion's `hasPermission` treats only MANAGE_EXTERNAL_STORAGE as special. So `PermissionHelper` and `getDeniedCategories` look the battery identifier up as an ordinary grant (`FragmentCompanion.ClassificationsDiverge`, `PermissionHelper.BatteryCheckedAsGrant`).

Source paths below are relative to the repository root.

## Model

| member | source | states |
|---|---|---|
| Version.Monotone | src/main/java/com/mr/permission/utils/Version.kt:6-16 | every `isXPlus` gate, once true at some API level, stays true above it; `isLessThanN` stays true below |
| Version.Chained | src/main/java/com/mr/permission/utils/Version.kt:6-15 | each newer release gate implies the next older one, from TIRAMISU down to MARSHMALLOW |
| Version.LessThanNIsNotNougat | src/main/java/com/mr/permission/utils/Version.kt:16 | `isLessThanN` means "at most 23" and is exactly the negation of `isNougatPlus` |
| CategoryPermissionsMapper.GetCategory | src/main/java/com/mr/permission/mappers/CategoryPermissionsMapper.kt:10-42 | the reverse mapping fails, with the identifier in the error, exactly for SCHEDULE_EXACT_ALARM and for identifiers the library does not name |
| CategoryPermissionsMapper.GetPermissions | src/main/java/com/mr/permission/mappers/CategoryPermissionsMapper.kt:44-72 | no category's identifier list on any API level repeats an identifier |
| CategoryPermissionsMapper.StoragePermissions | src/main/java/com/mr/permission/mappers/CategoryPermissionsMapper.kt:75-78 | MANAGE_STORAGE is MANAGE_EXTERNAL_STORAGE alone from R on and the MEDIA list below R; duplicate-free, with no foreign identifier |
| CategoryPermissionsMapper.MediaPermissions | src/main/java/com/mr/permission/mappers/CategoryPermissionsMapper.kt:80-88 | the image, video and audio lists added in turn to an insertion-ordered set (definition; `CategoryPermissionsMapper.MediaIsDistinctUnion` and `CategoryPermissionsMapper.MediaTable` state its contents) |
| CategoryPermissionsMapper.MediaLocationPermissions | src/main/java/com/mr/permission/mappers/CategoryPermissionsMapper.kt:128-133 | ACCESS_MEDIA_LOCATION from Q on, nothing below (definition; see `CategoryPermissionsMapper.EmptyOnOldPlatforms`) |
| CategoryPermissionsMapper.ContactPermissions | src/main/java/com/mr/permission/mappers/CategoryPermissionsMapper.kt:135-138 | READ_CONTACTS then WRITE_CONTACTS (definition) |
| CategoryPermissionsMapper.CalendarPermissions | src/main/java/com/mr/permission/mappers/CategoryPermissionsMapper.kt:140-143 | READ_CALENDAR then WRITE_CALENDAR (definition) |
| CategoryPermissionsMapper.CallLogPermissions | src/main/java/com/mr/permission/mappers/CategoryPermissionsMapper.kt:145-148 | READ_CALL_LOG then WRITE_CALL_LOG (definition) |
| CategoryPermissionsMapper.SmsPermissions | src/main/java/com/mr/permission/mappers/CategoryPermissionsMapper.kt:150-152 | READ_SMS alone (definition) |
| CategoryPermissionsMapper.IgnoreBatteryOptPermissions | src/main/java/com/mr/permission/mappers/CategoryPermissionsMapper.kt:154-160 | REQUEST_IGNORE_BATTERY_OPTIMIZATIONS from M on, nothing below (definition) |
| CategoryPermissionsMapper.NotificationPermissions | src/main/java/com/mr/permission/mappers/CategoryPermissionsMapper.kt:162-168 | POST_NOTIFICATIONS from T on, nothing below (definition) |
| CategoryPermissionsMapper.AlarmPermissions | src/main/java/com/mr/permission/mappers/CategoryPermissionsMapper.kt:170-176 | SCHEDULE_EXACT_ALARM from S on, nothing below (definition) |
| CategoryPermissionsMapper.MediaIsDistinctUnion | src/main/java/com/mr/permission/mappers/CategoryPermissionsMapper.kt:80-88 | MEDIA, built by adding the image, video and audio lists to an insertion-ordered set, is the first-occurrence de-duplication of their concatenation; it has no repeats, and its members are exactly those of the three lists |
| CategoryPermissionsMapper.ImagesPermissions | src/main/java/com/mr/permission/mappers/CategoryPermissionsMapper.kt:90-101 | the list starts with READ_MEDIA_IMAGES from T on, else READ_EXTERNAL_STORAGE; it holds WRITE_EXTERNAL_STORAGE exactly below R and ACCESS_MEDIA_LOCATION exactly from Q on; nothing else, no repeats |
| CategoryPermissionsMapper.VideoPermissions | src/main/java/com/mr/permission/mappers/CategoryPermissionsMapper.kt:103-114 | the same shape as the image list, with READ_MEDIA_VIDEO |
| CategoryPermissionsMapper.AudioPermissions | src/main/java/com/mr/permission/mappers/CategoryPermissionsMapper.kt:116-126 | READ_MEDIA_AUDIO from T on, else READ_EXTERNAL_STORAGE; WRITE_EXTERNAL_STORAGE exactly below R; never ACCESS_MEDIA_LOCATION |
| CategoryPermissionsMapper.MediaTable | src/main/java/com/mr/permission/mappers/CategoryPermissionsMapper.kt:80-133 | the exact, ordered MEDIA list on each of the four API-level bands: below Q, Q, R to S_V2, and from T on |
| CategoryPermissionsMapper.EmptyOnOldPlatforms | src/main/java/com/mr/permission/mappers/CategoryPermissionsMapper.kt:44-176 | a category resolves to no identifier exactly in four cases: NOTIFICATIONS below T, SCHEDULE below S, IGNORE_BATTERY_OPTIMIZATION below M, MEDIA_LOCATION below Q |
| CategoryPermissionsMapper.RoundTrip | src/main/java/com/mr/permission/mappers/CategoryPermissionsMapper.kt:10-72 | for CONTACTS, CALENDAR, CALL_LOGS, SMS, NOTIFICATIONS, IGNORE_BATTERY_OPTIMIZATION and MEDIA_LOCATION, every identifier the category produces maps back to that category |
| CategoryPermissionsMapper.ScheduleDoesNotRoundTrip | src/main/java/com/mr/permission/mappers/CategoryPermissionsMapper.kt:170-176 | from S on SCHEDULE produces SCHEDULE_EXACT_ALARM, which the reverse mapping rejects as not handled |
| CategoryPermissionsMapper.MediaLocationEscapesPhotosAndVideos | src/main/java/com/mr/permission/mappers/CategoryPermissionsMapper.kt:90-133 | from Q on PHOTOS and VIDEOS contain ACCESS_MEDIA_LOCATION, which maps back to MEDIA_LOCATION, not to them |
| CategoryPermissionsMapper.MediaMembers | src/main/java/com/mr/permission/mappers/CategoryPermissionsMapper.kt:80-88 | MEDIA draws only on the two storage identifiers, the three media identifiers and ACCESS_MEDIA_LOCATION |
| CategoryPermissionsMapper.TablesHoldKnownIdentifiers | src/main/java/com/mr/permission/mappers/CategoryPermissionsMapper.kt:44-72 | every identifier any category produces is one of the library's named identifiers |
| CategoryPermissionsMapper.ScheduleOnlyInSchedule | src/main/java/com/mr/permission/mappers/CategoryPermissionsMapper.kt:44-72 | SCHEDULE_EXACT_ALARM appears in no category's list but SCHEDULE's |
| CategoryPermissionsMapper.GetCategoryDefinedOnTables | src/main/java/com/mr/permission/mappers/CategoryPermissionsMapper.kt:10-72 | the reverse mapping succeeds on every identifier produced by any category other than SCHEDULE |
| CategoryPermissionsMapper.GetCategoryInverse | src/main/java/com/mr/permission/mappers/CategoryPermissionsMapper.kt:10-72 | every identifier the reverse mapping accepts is produced, on some API level, by the category it maps to |
| CategoryPermissionsMapper.MediaOnOldPlatforms | src/main/java/com/mr/permission/mappers/CategoryPermissionsMapper.kt:80-101 | the two legacy storage identifiers are in MEDIA on Marshmallow |
| Fragments.IsSpecialPermission | src/main/java/com/mr/permission/fragments/BasePermissionFragment.kt:198-202 | the fragment's special identifiers are MANAGE_EXTERNAL_STORAGE and REQUEST_IGNORE_BATTERY_OPTIMIZATIONS; everything else goes to the dialog (definition; `Fragments.CategorisedWellFormed` keeps the two kinds apart) |
| Fragments.IsIgnoringBatteryOptimizations | src/main/java/com/mr/permission/fragments/BasePermissionFragment.kt:191-196 | below M there is nothing to be exempt from, so it holds; from M on it is the platform's exemption flag (definition; used by `FragmentCompanion.AgreesWithFragmentExceptBattery`) |
| Fragments.HasSpecialPermission | src/main/java/com/mr/permission/fragments/BasePermissionFragment.kt:182-188 | all-files access is the storage-manager flag, the battery identifier is the exemption, and any other identifier is never held as special (definition) |
| Fragments.HasNormalPermission | src/main/java/com/mr/permission/fragments/BasePermissionFragment.kt:175-179 | a normal identifier is held when the platform reports it granted (definition) |
| Fragments.HasPermission | src/main/java/com/mr/permission/fragments/BasePermissionFragment.kt:165-171 | special identifiers are asked as special, all others as normal grants (definition; `Fragments.NothingMissing` relates it to the not-granted list) |
| Fragments.ShouldShowRationale | src/main/java/com/mr/permission/fragments/BasePermissionFragment.kt:51 | the platform's rationale flag for an identifier (a field of the platform snapshot) |
| Fragments.CategoriseMembership | src/main/java/com/mr/permission/fragments/BasePermissionFragment.kt:107-121 | the not-granted list holds exactly the requested identifiers not held; the special queue gets exactly the special ones not held; the normal queue gets exactly the normal ones not granted |
| Fragments.CategoriseSplits | src/main/java/com/mr/permission/fragments/BasePermissionFragment.kt:107-121 | the not-granted list is, with multiplicities, the special additions plus the normal additions |
| Fragments.NormalOnlyCategorised | src/main/java/com/mr/permission/fragments/BasePermissionFragment.kt:107-121 | when no requested identifier is special or held, all of them, in order, are not granted and are appended to the normal queue alone |
| Fragments.SpecialOnlyCategorised | src/main/java/com/mr/permission/fragments/BasePermissionFragment.kt:107-121 | when every requested identifier is special and not held, all of them, in order, are appended to the special queue alone |
| Fragments.CategorisedWellFormed | src/main/java/com/mr/permission/fragments/BasePermissionFragment.kt:107-121 | categorising keeps the invariant: the special queue, the special-denied list and the active special hold only special identifiers, and the normal queue holds only normal ones |
| Fragments.DeniedByDialog | src/main/java/com/mr/permission/fragments/BasePermissionFragment.kt:55-57 | the dialog's denied list contains every identifier answered PERMISSION_DENIED and nothing else, and is empty when every answer is granted |
| Fragments.AllRefused | src/main/java/com/mr/permission/fragments/BasePermissionFragment.kt:55-57 | when every answer is PERMISSION_DENIED, the denied list is the whole request, in order |
| Fragments.RequestStep | src/main/java/com/mr/permission/fragments/BasePermissionFragment.kt:71-105 | the request transition: a remembered id is forgotten and goes straight to the next special or the batch; otherwise the missing identifiers are queued and the call grants at once, shows the rationale, or proceeds (definition; its properties are `Fragments.NothingMissingGrants`, `Fragments.RationaleOnlyForNormal`, `Fragments.RationaleRetry`, `Fragments.RequestStepWellFormed`) |
| Fragments.ActivityResultStep | src/main/java/com/mr/permission/fragments/BasePermissionFragment.kt:135-163 | the settings-return transition (definition; its properties are `Fragments.ActivityResultIgnored`, `Fragments.ActivityResultOrder`, `Fragments.SpecialsDrainInOrder`) |
| Fragments.PermissionsResultStep | src/main/java/com/mr/permission/fragments/BasePermissionFragment.kt:36-69 | the dialog-result transition (definition; its properties are `Fragments.BatchClassification`, `Fragments.EmptyBatchIsPermanentDenial`) |
| Fragments.ProceedWellFormed | src/main/java/com/mr/permission/fragments/BasePermissionFragment.kt:97-103 | launching the next special or the normal batch keeps the session invariant |
| Fragments.RequestStepWellFormed | src/main/java/com/mr/permission/fragments/BasePermissionFragment.kt:71-105 | a request, first call or repeat, keeps the session invariant |
| Fragments.ActivityResultStepWellFormed | src/main/java/com/mr/permission/fragments/BasePermissionFragment.kt:135-163 | a settings-screen return keeps the session invariant |
| Fragments.NothingMissing | src/main/java/com/mr/permission/fragments/BasePermissionFragment.kt:83-88 | nothing is missing if and only if every requested identifier is held |
| Fragments.NothingMissingGrants | src/main/java/com/mr/permission/fragments/BasePermissionFragment.kt:83-88 | a first request whose identifiers are all held delivers PermissionGranted at once, clears the session and asks the platform nothing |
| Fragments.RationaleOnlyForNormal | src/main/java/com/mr/permission/fragments/BasePermissionFragment.kt:83-95 | a first request delivers ShowRational if and only if some requested normal identifier is not granted and wants a rationale; when it does, the request id is remembered and the session cleared |
| Fragments.RationaleWantedIff | src/main/java/com/mr/permission/fragments/BasePermissionFragment.kt:90-92 | the rationale check over the not-granted list is the same as one over the request restricted to normal identifiers not granted |
| Fragments.RationaleRetry | src/main/java/com/mr/permission/fragments/BasePermissionFragment.kt:72-81 | a repeat request for a remembered id forgets it and never delivers a result; it launches the head of the special queue, or else issues the normal batch, possibly empty |
| Fragments.ActivityResultIgnored | src/main/java/com/mr/permission/fragments/BasePermissionFragment.kt:136-139 | a settings return with no screen outstanding, or with another request code, changes nothing and does nothing |
| Fragments.ActivityResultOrder | src/main/java/com/mr/permission/fragments/BasePermissionFragment.kt:135-163 | on a matching return, the active special is recorded as denied exactly when it is still not held. Then the next special is launched if any is pending, else the normal batch is issued, else the result is delivered: Denied with an empty list if some special stayed denied, otherwise Granted |
| Fragments.BatchClassification | src/main/java/com/mr/permission/fragments/BasePermissionFragment.kt:36-69 | every dialog result clears the session and delivers exactly one result for that request code. Granted comes exactly when the answers are non-empty, all granted, and no special stayed denied; all granted with a denied special gives Denied with an empty list. Otherwise it is Denied if a requested identifier wants a rationale, else DeniedPermanently, listing the dialog's denials followed by the special denials |
| Fragments.EmptyBatchIsPermanentDenial | src/main/java/com/mr/permission/fragments/BasePermissionFragment.kt:41-68 | an empty answer array ends as DeniedPermanently, listing only the special denials |
| Fragments.Launches | src/main/java/com/mr/permission/fragments/BasePermissionFragment.kt:127-133 | one settings launch per queued special, in queue order, all with the same request code |
| Fragments.SpecialsDrainInOrder | src/main/java/com/mr/permission/fragments/BasePermissionFragment.kt:127-163 | over n settings returns, the specials are launched one after another in FIFO order; those that come back still not held collect in order in the special-denied list; the normal queue is untouched |
| Fragments.OneSettingsReturn | src/main/java/com/mr/permission/fragments/BasePermissionFragment.kt:141-149 | a settings return while specials wait records the active one if still not held and launches the next one |
| Fragments.RationaleLoopTerminates | src/main/java/com/mr/permission/fragments/BasePermissionFragment.kt:72-95 | after ShowRational, and when no special identifier of the request is missing, the caller's repeat request with the same id on an unchanged platform does not show the rationale again: it issues the dialog for the missing normal identifiers and forgets the id (with a special missing, the repeat goes to its settings screen instead, as `Fragments.RationaleRetry` states) |
| Fragments.SettleOnce | src/main/java/com/mr/permission/fragments/PermissionFragment.kt:137-150 | the result cell is one-shot: once completed or cancelled nothing changes it, and an active cell ends completed with the first delivered result, or stays active |
| Fragments.CompletableDeferred.constructor | src/main/java/com/mr/permission/fragments/PermissionFragment.kt:135 | a new cell is active |
| Fragments.CompletableDeferred.Complete | src/main/java/com/mr/permission/fragments/PermissionFragment.kt:137-143 | completing takes effect, and reports so, only on an active cell |
| Fragments.CompletableDeferred.Cancel | src/main/java/com/mr/permission/fragments/PermissionFragment.kt:145-150 | cancelling takes effect only on an active cell |
| Fragments.PermissionFragment.constructor | src/main/java/com/mr/permission/fragments/BasePermissionFragment.kt:24-29 | a new fragment has empty queues and lists, no outstanding request code, no active special, and no cell |
| Fragments.PermissionFragment.RequestPermissions | src/main/java/com/mr/permission/fragments/BasePermissionFragment.kt:71-105 | the fields become the request step's session, the step's events are appended, the invariant is kept, and the cell settles on the delivered result |
| Fragments.PermissionFragment.ProceedWithRequest | src/main/java/com/mr/permission/fragments/BasePermissionFragment.kt:97-103 | specials go first, one at a time; with none pending the normal batch is issued |
| Fragments.PermissionFragment.CategorisePermissions | src/main/java/com/mr/permission/fragments/BasePermissionFragment.kt:107-121 | the loop returns the not-granted identifiers in order and appends the missing special and normal identifiers to their queues; nothing else changes |
| Fragments.PermissionFragment.RequestNextSpecialPermission | src/main/java/com/mr/permission/fragments/BasePermissionFragment.kt:127-133 | with a special pending, its head is removed, becomes the active special, records the request code and is launched; otherwise nothing happens |
| Fragments.PermissionFragment.RequestSpecialPermission | src/main/java/com/mr/permission/fragments/BasePermissionFragment.kt:205-231 | one settings launch for a special identifier with the request code |
| Fragments.PermissionFragment.RequestNormalPermissions | src/main/java/com/mr/permission/fragments/BasePermissionFragment.kt:78 | one platform dialog for the given identifiers with the request code |
| Fragments.PermissionFragment.OnActivityResult | src/main/java/com/mr/permission/fragments/BasePermissionFragment.kt:135-163 | the fields follow the settings-return step, its events are appended, the invariant is kept, and the cell settles on any delivered result |
| Fragments.PermissionFragment.OnRequestPermissionsResult | src/main/java/com/mr/permission/fragments/BasePermissionFragment.kt:36-69 | the fields follow the dialog-result step, its single result is appended, and the cell settles on it |
| Fragments.PermissionFragment.EmitResult | src/main/java/com/mr/permission/fragments/BasePermissionFragment.kt:233-236 | the session is cleared first, then the result is delivered to the cell |
| Fragments.PermissionFragment.EmitDeniedWithLiveList | src/main/java/com/mr/permission/fragments/BasePermissionFragment.kt:155-157 | a Denied result built around the special-denied list reaches the cell with an empty list, because the clearing runs first |
| Fragments.PermissionFragment.ClearPrevState | src/main/java/com/mr/permission/fragments/BasePermissionFragment.kt:238-244 | the queues, the denied list, the request code and the active special are reset; the rationale map is kept |
| Fragments.PermissionFragment.OnPermissionResult | src/main/java/com/mr/permission/fragments/PermissionFragment.kt:137-143 | a result completes the cell when one is installed; a fragment without a cell only records the event |
| Fragments.PermissionFragment.OnDestroy | src/main/java/com/mr/permission/fragments/PermissionFragment.kt:145-150 | an installed, still active cell is cancelled; any other cell is left as it is |
| FragmentCompanion.IsSpecialPermission | src/main/java/com/mr/permission/fragments/PermissionFragment.kt:115-118 | only MANAGE_EXTERNAL_STORAGE is special for the companion (definition; `FragmentCompanion.ClassificationsDiverge` shows the difference matters) |
| FragmentCompanion.HasSpecialPermission | src/main/java/com/mr/permission/fragments/PermissionFragment.kt:127-132 | all-files access is the storage-manager flag; no other identifier is held as special (definition) |
| FragmentCompanion.HasNormalPermission | src/main/java/com/mr/permission/fragments/PermissionFragment.kt:120-124 | an identifier is held when the platform reports it granted (definition) |
| FragmentCompanion.HasPermission | src/main/java/com/mr/permission/fragments/PermissionFragment.kt:107-113 | the library-wide permission query: special as special, all others as normal grants (definition; compared with the fragment's in `FragmentCompanion.AgreesWithFragmentExceptBattery`) |
| FragmentCompanion.AgreesWithFragmentExceptBattery | src/main/java/com/mr/permission/fragments/PermissionFragment.kt:107-132 | the companion's permission query agrees with the fragment's on every identifier except REQUEST_IGNORE_BATTERY_OPTIMIZATIONS, which it answers as an ordinary grant; the fragment answers it with the exemption, or with true below M |
| FragmentCompanion.ClassificationsDiverge | src/main/java/com/mr/permission/fragments/PermissionFragment.kt:115-118 | some platform state makes the two queries disagree on the battery identifier |
| FragmentCompanion.FragmentManager.constructor | src/main/java/com/mr/permission/fragments/PermissionFragment.kt:88 | a host starts with no fragment under the library's tag |
| FragmentCompanion.RequestPermissions | src/main/java/com/mr/permission/fragments/PermissionFragment.kt:78-105 | the fragment found under the tag is reused, else a fresh one is added. It gets a fresh cell and runs the request step from its own state, or from the initial state. The returned cell is already completed when the request delivers a result at once, and still active when the platform has the next move |
| PermissionUtils.HasAllPermissions | src/main/java/com/mr/permission/utils/PermissionUtils.kt:28-35 | true if and only if every identifier is held as the companion asks it (so true on none) |
| PermissionUtils.HasManagePermission | src/main/java/com/mr/permission/utils/PermissionUtils.kt:21-26 | from R on, exactly the storage-manager flag; below R, every legacy MEDIA identifier granted |
| PermissionUtils.IsMediaPermission | src/main/java/com/mr/permission/utils/PermissionUtils.kt:109-114 | MEDIA, PHOTOS, VIDEOS and MUSIC are the media categories (definition) |
| PermissionUtils.ContainMediaPermissions | src/main/java/com/mr/permission/utils/PermissionUtils.kt:102-114 | true if and only if some category is MEDIA, PHOTOS, VIDEOS or MUSIC |
| PermissionUtils.Contribution | src/main/java/com/mr/permission/utils/PermissionUtils.kt:53-63 | with MANAGE_STORAGE and a media category both asked, a media category adds nothing and MANAGE_STORAGE adds its own identifiers; otherwise a category adds all of its identifiers (definition) |
| PermissionUtils.RequestList | src/main/java/com/mr/permission/utils/PermissionUtils.kt:48-64 | the in-order concatenation of the contributions (definition; `PermissionUtils.ManageStorageSubsumesMedia`, `PermissionUtils.RequestsEveryCategory` and `PermissionUtils.RepeatsAreKept` state what it holds) |
| PermissionUtils.BuildRequestList | src/main/java/com/mr/permission/utils/PermissionUtils.kt:48-64 | the loop's array is the in-order concatenation of the categories' contributions |
| PermissionUtils.ContributionsMembership | src/main/java/com/mr/permission/utils/PermissionUtils.kt:51-64 | an identifier is requested if and only if some category contributes it |
| PermissionUtils.ManageStorageSubsumesMedia | src/main/java/com/mr/permission/utils/PermissionUtils.kt:48-64 | with MANAGE_STORAGE and a media category both asked, the request holds exactly MANAGE_STORAGE's identifiers and those of the non-media categories |
| PermissionUtils.RequestsEveryCategory | src/main/java/com/mr/permission/utils/PermissionUtils.kt:48-64 | otherwise an identifier is requested if and only if some asked category produces it |
| PermissionUtils.RepeatsAreKept | src/main/java/com/mr/permission/utils/PermissionUtils.kt:51-64 | the request list is not de-duplicated: a repeated non-media category contributes its identifiers twice |
| PermissionUtils.CategoriesOf | src/main/java/com/mr/permission/utils/PermissionUtils.kt:121 | mapping identifiers to categories succeeds exactly when every identifier maps; it then keeps position and length, and otherwise fails with the error of an identifier that does not map |
| PermissionUtils.MissingCategories | src/main/java/com/mr/permission/utils/PermissionUtils.kt:119-121 | the category of each requested identifier still not held, in request order, failing where one has none (definition) |
| PermissionUtils.MissingCategoriesMembership | src/main/java/com/mr/permission/utils/PermissionUtils.kt:119-121 | the per-identifier categories fail exactly when a missing identifier has no category, and otherwise hold exactly the categories of the missing identifiers |
| Sequences.DistinctFirstOccurrences | src/main/java/com/mr/permission/utils/PermissionUtils.kt:121 | `distinct` lists every element once, nothing else, in the order of each element's first occurrence |
| PermissionUtils.DeniedCategories | src/main/java/com/mr/permission/utils/PermissionUtils.kt:116-122 | fails exactly when a requested identifier not held has no category; otherwise it lists each category of the requested identifiers not held exactly once, in the order in which the first missing identifier of each category appears in the request |
| PermissionHelper.CategorySatisfied | src/main/java/com/mr/permission/PermissionHelper.kt:16-26 | a category passes when it is a media category and MANAGE_STORAGE is held, or when all of its own identifiers are held (definition) |
| PermissionHelper.HasPermissions | src/main/java/com/mr/permission/PermissionHelper.kt:14-29 | true if and only if every category is satisfied: media with MANAGE_STORAGE held, or all of the category's own identifiers held |
| PermissionHelper.SameCategoriesSameAnswer | src/main/java/com/mr/permission/PermissionHelper.kt:14-29 | the answer depends only on the set of categories, not on their order or repetitions |
| PermissionHelper.ManageStorageSatisfiesMedia | src/main/java/com/mr/permission/PermissionHelper.kt:16-20 | from R on, all-files access satisfies any list of media categories |
| PermissionHelper.EmptyCategorySatisfied | src/main/java/com/mr/permission/PermissionHelper.kt:19-24 | a category with nothing to request on the running API level is satisfied |
| PermissionHelper.OldPlatformCategoriesSatisfied | src/main/java/com/mr/permission/PermissionHelper.kt:14-29 | below M, NOTIFICATIONS, SCHEDULE, IGNORE_BATTERY_OPTIMIZATION and MEDIA_LOCATION are satisfied without asking |
| PermissionHelper.BatteryCheckedAsGrant | src/main/java/com/mr/permission/PermissionHelper.kt:19-24 | from M on, IGNORE_BATTERY_OPTIMIZATION is satisfied exactly when its identifier is granted as an ordinary permission |
| PermissionCheck.React | src/main/java/com/mr/permission/utils/PermissionUtils.kt:70-97 | the rationale dialog is shown exactly for ShowRational and the settings dialog exactly for DeniedPermanently. The callback fails exactly when a missing requested identifier has no category; otherwise its flag means Granted, and its list holds each category still missing exactly once, in first-occurrence order over the request |
| PermissionCheck.CallbackForEveryResult | src/main/java/com/mr/permission/utils/PermissionUtils.kt:92-97 | the callback's list does not depend on the kind of result |
| PermissionCheck.AlarmRequested | src/main/java/com/mr/permission/utils/PermissionUtils.kt:51-64 | from S on, SCHEDULE is requested as SCHEDULE_EXACT_ALARM alone |
| PermissionCheck.MissingAlarmIsFatal | src/main/java/com/mr/permission/utils/PermissionUtils.kt:92-97 | from S on, asking for SCHEDULE while the alarm permission is missing ends in the fatal mapping, so the caller is never called back |
| PermissionCheck.ProceedWithPermissionCheck | src/main/java/com/mr/permission/utils/PermissionUtils.kt:37-69 | already satisfied categories give (true, []) with no request; otherwise the built list is requested with request id 1 through a fresh cell, which settles on the request's first result |
| Scenarios.MediaRequestOnPie | src/main/java/com/mr/permission/utils/PermissionUtils.kt:51-64 | on Pie, MEDIA is requested as READ_EXTERNAL_STORAGE then WRITE_EXTERNAL_STORAGE |
| Scenarios.PieCategorised | src/main/java/com/mr/permission/fragments/BasePermissionFragment.kt:107-121 | on Pie with nothing granted, both legacy identifiers go to the normal queue |
| Scenarios.MediaDialogOnPie | src/main/java/com/mr/permission/fragments/BasePermissionFragment.kt:83-103 | with no rationale flag and no special, one dialog asks for both |
| Scenarios.MediaRefusedOnPie | src/main/java/com/mr/permission/fragments/BasePermissionFragment.kt:60-68 | both refused with no rationale flag: DeniedPermanently listing both, and the session is back to its initial state |
| Scenarios.MediaReactionOnPie | src/main/java/com/mr/permission/utils/PermissionUtils.kt:82-97 | the caller is offered the settings dialog and hears (false, [MEDIA]) |
| Scenarios.MediaRunOnPie | src/main/java/com/mr/permission/utils/PermissionUtils.kt:37-100 | the whole MEDIA run on Pie, from the request list to the callback |
| Scenarios.StorageRequestOnTiramisu | src/main/java/com/mr/permission/utils/PermissionUtils.kt:48-64 | MANAGE_STORAGE with PHOTOS on T requests MANAGE_EXTERNAL_STORAGE alone |
| Scenarios.StorageCategorised | src/main/java/com/mr/permission/fragments/BasePermissionFragment.kt:107-121 | the storage identifier goes to the special queue |
| Scenarios.StorageSettingsOnTiramisu | src/main/java/com/mr/permission/fragments/BasePermissionFragment.kt:97-99 | its settings screen is launched with request code 1 and nothing is delivered yet |
| Scenarios.StorageGrantedOnTiramisu | src/main/java/com/mr/permission/fragments/BasePermissionFragment.kt:135-163 | back from settings with access granted: PermissionGranted, and the fields are reset |
| Scenarios.StorageReactionOnTiramisu | src/main/java/com/mr/permission/utils/PermissionUtils.kt:92-97 | the caller hears (true, []) with no dialog |
| Scenarios.StorageRunOnTiramisu | src/main/java/com/mr/permission/utils/PermissionUtils.kt:37-100 | the whole MANAGE_STORAGE with PHOTOS run on T |
| Scenarios.SpecialsRequestOnTiramisu | src/main/java/com/mr/permission/utils/PermissionUtils.kt:51-64 | MANAGE_STORAGE with IGNORE_BATTERY_OPTIMIZATION requests both special identifiers, in that order |
| Scenarios.SpecialsCategorised | src/main/java/com/mr/permission/fragments/BasePermissionFragment.kt:107-121 | both go to the special queue, in order |
| Scenarios.SpecialsFirstScreen | src/main/java/com/mr/permission/fragments/BasePermissionFragment.kt:97-99 | the first goes to its settings screen while the second waits |
| Scenarios.SpecialsSecondScreen | src/main/java/com/mr/permission/fragments/BasePermissionFragment.kt:141-149 | the first comes back refused: it is recorded and the second is launched |
| Scenarios.SpecialsLastScreen | src/main/java/com/mr/permission/fragments/BasePermissionFragment.kt:153-157 | the second comes back refused too: PermissionDenied with the emptied list, and the session is back to its initial state |
| Scenarios.SpecialsReactionOnTiramisu | src/main/java/com/mr/permission/utils/PermissionUtils.kt:92-97 | the caller hears (false, [MANAGE_STORAGE, IGNORE_BATTERY_OPTIMIZATION]) with no dialog |
| Scenarios.SpecialsBothRefused | src/main/java/com/mr/permission/fragments/BasePermissionFragment.kt:153-157 | both refused: PermissionDenied arrives with an empty list, yet the caller hears (false, [MANAGE_STORAGE, IGNORE_BATTERY_OPTIMIZATION]) |

## Left out

- Coroutines: `CoroutineScope`, `Dispatchers`, `withContext` and `await` are left out. A run is modelled as the sequence of platform callbacks, and the awaited value is the settled cell.
- The two public `requestPermissions` entry points (`PermissionFragment.kt:39-76`) only pick a fragment manager; the model starts at `_requestPermissions`.
- Fragment transactions: `findFragmentByTag`, `add` and `commitNow` are reduced to `FragmentManager.tagged`.
- `onCreate` and `retainInstance` are left out, because they are lifecycle configuration with no effect on the fields.
- The screens themselves are left out:
  - intents and `startActivityForResult`;
  - the fallback intent after the first one throws;
  - the battery intent's swallowed exception.

  Launching a settings screen is one `SettingsLaunched` event.
- `Fragments.PermissionFragment.RequestSpecialPermission`: requires a special identifier, because the fragment only ever queues special ones (`CategorisedWellFormed`). The source's `RuntimeException` for any other identifier is therefore unreachable and not modelled.
- `activity?.let` and `fragment.activity?.let`: a detached fragment is not modelled.
  - The settings screen is assumed to be launched.
  - The caller is assumed to be called back.
- The dialogs' texts, their buttons and `launchMyAppDetails` are left out; only which dialog is shown is modelled. The rationale dialog's "allow" restarts the whole check; its effect on the fragment is `Fragments.RationaleLoopTerminates`.
- `PermissionHelper.openPowerSettings`, `PermissionsExt.kt`, `utils/ActivityExt.kt` and `model/PermissionStringRes.kt` are left out. They are entry-point wrappers, intents and text resources with no decision logic.
- Platform queries are left out as calls. These are:
  - `checkSelfPermission`;
  - `shouldShowRequestPermissionRationale`;
  - `isExternalStorageManager`;
  - `isIgnoringBatteryOptimizations`;
  - `SDK_INT`.

  Each becomes a field of the `Platform.Device` snapshot passed to each step. The user's changes between steps are changes of that snapshot.
- `model/PermissionResult.kt` is not part of this model's sources. Its four cases are reconstructed from their uses.
- `containSpecialPermission` (`BasePermissionFragment.kt:123-125`) is never called and is not modelled.
- `Fragments.PermissionFragment.CategorisePermissions` appends to the two queues once, after the loop, instead of at each step. Nothing reads the queues during the loop, so the final state is the same.
- The abstract base class and its one subclass are merged into one class, since the model has no inheritance.
- `PermissionHelper.kt` imports `Version` from a common-utils package outside this repository. It is used only by `openPowerSettings`, which is left out.
- Identifiers are an enumeration plus `Other(name)`; string equality of identifiers is identity of constructors.
- `resultCode` and the `Intent` of `onActivityResult` are ignored, as in the source.
