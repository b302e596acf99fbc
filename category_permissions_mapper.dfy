/**
 * Category <-> identifier tables (mappers/CategoryPermissionsMapper.kt), parameterised by the
 * platform's API level `sdk` (the source reads it from Build.VERSION.SDK_INT through Version).
 */
module CategoryPermissionsMapper {
  import opened Wrappers
  import opened Sequences
  import opened Manifest
  import opened PermissionCategories
  import Version

  /** `getCategory`'s RuntimeException("$permission not handled"). */
  datatype Fault = NotHandled(permission: Permission)

  /** Reverse mapping; fatal (a Failure) for an identifier no branch names. */
  function GetCategory(permission: Permission): (r: Result<PermissionCategory, Fault>)
    ensures r.Failure? <==> permission == ScheduleExactAlarm || permission.Other?
    ensures r.Failure? ==> r.error == NotHandled(permission)
  {
    match permission
    case ManageExternalStorage => Success(ManageStorage)
    case WriteExternalStorage => Success(Media)
    case ReadExternalStorage => Success(Media)
    case ReadMediaImages => Success(Photos)
    case ReadMediaVideo => Success(Videos)
    case ReadMediaAudio => Success(Music)
    case WriteContacts => Success(Contacts)
    case ReadContacts => Success(Contacts)
    case WriteCalendar => Success(Calendar)
    case ReadCalendar => Success(Calendar)
    case WriteCallLog => Success(CallLogs)
    case ReadCallLog => Success(CallLogs)
    case ReadSms => Success(Sms)
    case AccessMediaLocation => Success(MediaLocation)
    case PostNotifications => Success(Notifications)
    case RequestIgnoreBatteryOptimizations => Success(IgnoreBatteryOptimization)
    case _ => Failure(NotHandled(permission))
  }

  /** Forward mapping: the identifiers a category needs on API level `sdk`, in request order. */
  function GetPermissions(category: PermissionCategory, sdk: int): (r: seq<Permission>)
    ensures NoDuplicates(r)
  {
    match category
    case Media => MediaIsDistinctUnion(sdk); MediaPermissions(sdk)
    case Photos => ImagesPermissions(sdk)
    case Videos => VideoPermissions(sdk)
    case Music => AudioPermissions(sdk)
    case ManageStorage => StoragePermissions(sdk)
    case Contacts => ContactPermissions()
    case Calendar => CalendarPermissions()
    case CallLogs => CallLogPermissions()
    case Sms => SmsPermissions()
    case Schedule => AlarmPermissions(sdk)
    case MediaLocation => MediaLocationPermissions(sdk)
    case Notifications => NotificationPermissions(sdk)
    case IgnoreBatteryOptimization => IgnoreBatteryOptPermissions(sdk)
  }

  function ManageStoragePermission(): seq<Permission> {
    [ManageExternalStorage]
  }

  /** "All files" access from R on; below R the legacy storage identifiers of MEDIA. */
  function StoragePermissions(sdk: int): (r: seq<Permission>)
    ensures NoDuplicates(r)
    ensures Version.IsRPlus(sdk) ==> r == [ManageExternalStorage]
    ensures !Version.IsRPlus(sdk) ==> r == MediaPermissions(sdk)
    ensures forall p :: p in r ==> !p.Other?
  {
    MediaIsDistinctUnion(sdk);
    if Version.IsRPlus(sdk) then ManageStoragePermission() else MediaPermissions(sdk)
  }

  /**
   * MEDIA: the image, video and audio identifiers added in that order to an
   * insertion-ordered set (see MediaIsDistinctUnion).
   */
  function MediaPermissions(sdk: int): seq<Permission> {
    AddAll(AddAll(AddAll([], ImagesPermissions(sdk)), VideoPermissions(sdk)), AudioPermissions(sdk))
  }

  /**
   * MEDIA holds the first occurrence of every image, video and audio identifier, in that
   * order: no repetitions and nothing else.
   */
  lemma {:induction false} MediaIsDistinctUnion(sdk: int)
    ensures MediaPermissions(sdk) ==
      Distinct(ImagesPermissions(sdk) + VideoPermissions(sdk) + AudioPermissions(sdk))
    ensures NoDuplicates(MediaPermissions(sdk))
    ensures forall p :: p in MediaPermissions(sdk) <==>
      p in ImagesPermissions(sdk) || p in VideoPermissions(sdk) || p in AudioPermissions(sdk)
  {
    AddAllThree(ImagesPermissions(sdk), VideoPermissions(sdk), AudioPermissions(sdk));
  }

  function ImagesPermissions(sdk: int): (r: seq<Permission>)
    ensures |r| > 0 && r[0] == if Version.IsTPlus(sdk) then ReadMediaImages else ReadExternalStorage
    ensures ReadMediaImages in r <==> Version.IsTPlus(sdk)
    ensures ReadExternalStorage in r <==> !Version.IsTPlus(sdk)
    ensures WriteExternalStorage in r <==> !Version.IsRPlus(sdk)
    ensures AccessMediaLocation in r <==> Version.IsQPlus(sdk)
    ensures forall p :: p in r ==>
      p in {ReadMediaImages, ReadExternalStorage, WriteExternalStorage, AccessMediaLocation}
    ensures NoDuplicates(r)
  {
    (if Version.IsTPlus(sdk) then [ReadMediaImages] else [ReadExternalStorage])
    + (if !Version.IsRPlus(sdk) then [WriteExternalStorage] else [])
    + MediaLocationPermissions(sdk)
  }

  function VideoPermissions(sdk: int): (r: seq<Permission>)
    ensures |r| > 0 && r[0] == if Version.IsTPlus(sdk) then ReadMediaVideo else ReadExternalStorage
    ensures ReadMediaVideo in r <==> Version.IsTPlus(sdk)
    ensures ReadExternalStorage in r <==> !Version.IsTPlus(sdk)
    ensures WriteExternalStorage in r <==> !Version.IsRPlus(sdk)
    ensures AccessMediaLocation in r <==> Version.IsQPlus(sdk)
    ensures forall p :: p in r ==>
      p in {ReadMediaVideo, ReadExternalStorage, WriteExternalStorage, AccessMediaLocation}
    ensures NoDuplicates(r)
  {
    (if Version.IsTPlus(sdk) then [ReadMediaVideo] else [ReadExternalStorage])
    + (if !Version.IsRPlus(sdk) then [WriteExternalStorage] else [])
    + MediaLocationPermissions(sdk)
  }

  function AudioPermissions(sdk: int): (r: seq<Permission>)
    ensures |r| > 0 && r[0] == if Version.IsTPlus(sdk) then ReadMediaAudio else ReadExternalStorage
    ensures ReadMediaAudio in r <==> Version.IsTPlus(sdk)
    ensures ReadExternalStorage in r <==> !Version.IsTPlus(sdk)
    ensures WriteExternalStorage in r <==> !Version.IsRPlus(sdk)
    ensures AccessMediaLocation !in r
    ensures forall p :: p in r ==> p in {ReadMediaAudio, ReadExternalStorage, WriteExternalStorage}
    ensures NoDuplicates(r)
  {
    (if Version.IsTPlus(sdk) then [ReadMediaAudio] else [ReadExternalStorage])
    + (if !Version.IsRPlus(sdk) then [WriteExternalStorage] else [])
  }

  function MediaLocationPermissions(sdk: int): seq<Permission> {
    if Version.IsQPlus(sdk) then [AccessMediaLocation] else []
  }

  function ContactPermissions(): seq<Permission> {
    [ReadContacts, WriteContacts]
  }

  function CalendarPermissions(): seq<Permission> {
    [ReadCalendar, WriteCalendar]
  }

  function CallLogPermissions(): seq<Permission> {
    [ReadCallLog, WriteCallLog]
  }

  function SmsPermissions(): seq<Permission> {
    [ReadSms]
  }

  function IgnoreBatteryOptPermissions(sdk: int): seq<Permission> {
    if Version.IsMarshmallowPlus(sdk) then [RequestIgnoreBatteryOptimizations] else []
  }

  function NotificationPermissions(sdk: int): seq<Permission> {
    if Version.IsTPlus(sdk) then [PostNotifications] else []
  }

  function AlarmPermissions(sdk: int): seq<Permission> {
    if Version.IsSPlus(sdk) then [ScheduleExactAlarm] else []
  }

  // ---------------------------------------------------------------------------------------
  // Properties of the tables

  /** The MEDIA list on each band of API levels. */
  lemma MediaTable(sdk: int)
    ensures sdk < Version.Q ==> MediaPermissions(sdk) == [ReadExternalStorage, WriteExternalStorage]
    ensures Version.Q <= sdk < Version.R ==>
      MediaPermissions(sdk) == [ReadExternalStorage, WriteExternalStorage, AccessMediaLocation]
    ensures Version.R <= sdk < Version.TIRAMISU ==>
      MediaPermissions(sdk) == [ReadExternalStorage, AccessMediaLocation]
    ensures Version.TIRAMISU <= sdk ==>
      MediaPermissions(sdk) == [ReadMediaImages, AccessMediaLocation, ReadMediaVideo, ReadMediaAudio]
  {
    var images, video, audio := ImagesPermissions(sdk), VideoPermissions(sdk), AudioPermissions(sdk);
    if sdk < Version.Q {
      assert images == [ReadExternalStorage, WriteExternalStorage] && video == [ReadExternalStorage, WriteExternalStorage] && audio == [ReadExternalStorage, WriteExternalStorage];
      MediaBelowQ();
    } else if sdk < Version.R {
      assert images == [ReadExternalStorage, WriteExternalStorage, AccessMediaLocation] && video == [ReadExternalStorage, WriteExternalStorage, AccessMediaLocation] && audio == [ReadExternalStorage, WriteExternalStorage];
      MediaBelowR();
    } else if sdk < Version.TIRAMISU {
      assert images == [ReadExternalStorage, AccessMediaLocation] && video == [ReadExternalStorage, AccessMediaLocation] && audio == [ReadExternalStorage];
      MediaBelowTiramisu();
    } else {
      assert images == [ReadMediaImages, AccessMediaLocation] && video == [ReadMediaVideo, AccessMediaLocation] && audio == [ReadMediaAudio];
      MediaFromTiramisu();
    }
  }

  lemma MediaBelowQ()
    ensures AddAll(AddAll(AddAll([], [ReadExternalStorage, WriteExternalStorage]), [ReadExternalStorage, WriteExternalStorage]), [ReadExternalStorage, WriteExternalStorage])
      == [ReadExternalStorage, WriteExternalStorage]
  {
  }

  lemma MediaBelowR()
    ensures AddAll(AddAll(AddAll([], [ReadExternalStorage, WriteExternalStorage, AccessMediaLocation]), [ReadExternalStorage, WriteExternalStorage, AccessMediaLocation]), [ReadExternalStorage, WriteExternalStorage])
      == [ReadExternalStorage, WriteExternalStorage, AccessMediaLocation]
  {
    var l := [ReadExternalStorage, WriteExternalStorage, AccessMediaLocation];
    AddAllIsDistinct([], l);
    assert [] + l == l;
    DistinctOfDuplicateFree(l);
    AddAllPresent(l, l);
    AddAllPresent(l, [ReadExternalStorage, WriteExternalStorage]);
  }

  lemma MediaBelowTiramisu()
    ensures AddAll(AddAll(AddAll([], [ReadExternalStorage, AccessMediaLocation]), [ReadExternalStorage, AccessMediaLocation]), [ReadExternalStorage])
      == [ReadExternalStorage, AccessMediaLocation]
  {
  }

  lemma MediaFromTiramisu()
    ensures AddAll(AddAll(AddAll([], [ReadMediaImages, AccessMediaLocation]), [ReadMediaVideo, AccessMediaLocation]), [ReadMediaAudio])
      == [ReadMediaImages, AccessMediaLocation, ReadMediaVideo, ReadMediaAudio]
  {
  }

  /** Exactly four categories can resolve to nothing, each below its own API level. */
  lemma EmptyOnOldPlatforms(category: PermissionCategory, sdk: int)
    ensures GetPermissions(category, sdk) == [] <==>
      || (category == Notifications && !Version.IsTPlus(sdk))
      || (category == Schedule && !Version.IsSPlus(sdk))
      || (category == IgnoreBatteryOptimization && !Version.IsMarshmallowPlus(sdk))
      || (category == MediaLocation && !Version.IsQPlus(sdk))
  {
    match category {
      case Media =>
        MediaIsDistinctUnion(sdk);
        assert ImagesPermissions(sdk)[0] in MediaPermissions(sdk);
      case ManageStorage =>
        MediaIsDistinctUnion(sdk);
        assert ImagesPermissions(sdk)[0] in MediaPermissions(sdk);
      case Photos => assert |ImagesPermissions(sdk)| > 0;
      case Videos => assert |VideoPermissions(sdk)| > 0;
      case Music => assert |AudioPermissions(sdk)| > 0;
      case Contacts =>
      case Calendar =>
      case CallLogs =>
      case Sms =>
      case Schedule =>
      case MediaLocation =>
      case Notifications =>
      case IgnoreBatteryOptimization =>
    }
  }

  /** Categories whose identifiers all map back to the category itself. */
  predicate RoundTrips(category: PermissionCategory) {
    category in {Contacts, Calendar, CallLogs, Sms, Notifications, IgnoreBatteryOptimization, MediaLocation}
  }

  lemma RoundTrip(category: PermissionCategory, sdk: int, p: Permission)
    requires RoundTrips(category) && p in GetPermissions(category, sdk)
    ensures GetCategory(p) == Success(category)
  {
  }

  /** SCHEDULE_EXACT_ALARM, SCHEDULE's only identifier from S on, is one `getCategory` rejects. */
  lemma ScheduleDoesNotRoundTrip(sdk: int)
    requires Version.IsSPlus(sdk)
    ensures GetPermissions(Schedule, sdk) == [ScheduleExactAlarm]
    ensures GetCategory(ScheduleExactAlarm) == Failure(NotHandled(ScheduleExactAlarm))
  {
  }

  /** From Q on, PHOTOS and VIDEOS carry ACCESS_MEDIA_LOCATION, which maps to MEDIA_LOCATION. */
  lemma MediaLocationEscapesPhotosAndVideos(sdk: int)
    requires Version.IsQPlus(sdk)
    ensures AccessMediaLocation in GetPermissions(Photos, sdk)
    ensures AccessMediaLocation in GetPermissions(Videos, sdk)
    ensures GetCategory(AccessMediaLocation) == Success(MediaLocation)
  {
  }

  /** MEDIA draws only on the storage, media and media-location identifiers. */
  lemma MediaMembers(sdk: int)
    ensures forall p :: p in MediaPermissions(sdk) ==>
      p in {ReadExternalStorage, WriteExternalStorage, ReadMediaImages, ReadMediaVideo, ReadMediaAudio, AccessMediaLocation}
  {
    MediaIsDistinctUnion(sdk);
  }

  /** Every identifier a category other than SCHEDULE produces is known to `getCategory`. */
  lemma {:induction false} GetCategoryDefinedOnTables(category: PermissionCategory, sdk: int, p: Permission)
    requires category != Schedule && p in GetPermissions(category, sdk)
    ensures GetCategory(p).Success?
  {
    ScheduleOnlyInSchedule(category, sdk);
    TablesHoldKnownIdentifiers(category, sdk);
    assert p != ScheduleExactAlarm && !p.Other?;
  }

  /** Every list is made of the library's own identifiers: no foreign name appears. */
  lemma {:induction false} TablesHoldKnownIdentifiers(category: PermissionCategory, sdk: int)
    ensures forall p :: p in GetPermissions(category, sdk) ==> !p.Other?
  {
    if category == Media || category == ManageStorage {
      MediaMembers(sdk);
    }
  }

  /** SCHEDULE_EXACT_ALARM belongs to no other category's list. */
  lemma {:induction false} ScheduleOnlyInSchedule(category: PermissionCategory, sdk: int)
    requires category != Schedule
    ensures ScheduleExactAlarm !in GetPermissions(category, sdk)
  {
    if category == Media || category == ManageStorage {
      MediaMembers(sdk);
    }
  }

  /** Every identifier `getCategory` accepts is produced by that category on some API level. */
  lemma {:induction false} GetCategoryInverse(p: Permission)
    requires GetCategory(p).Success?
    ensures exists sdk :: p in GetPermissions(GetCategory(p).value, sdk)
  {
    match p {
      case ManageExternalStorage => assert p in GetPermissions(ManageStorage, Version.R);
      case WriteExternalStorage => MediaOnOldPlatforms(p);
      case ReadExternalStorage => MediaOnOldPlatforms(p);
      case ReadMediaImages => assert p in GetPermissions(Photos, Version.TIRAMISU);
      case ReadMediaVideo => assert p in GetPermissions(Videos, Version.TIRAMISU);
      case ReadMediaAudio => assert p in GetPermissions(Music, Version.TIRAMISU);
      case WriteContacts => assert p in GetPermissions(Contacts, 0);
      case ReadContacts => assert p in GetPermissions(Contacts, 0);
      case WriteCalendar => assert p in GetPermissions(Calendar, 0);
      case ReadCalendar => assert p in GetPermissions(Calendar, 0);
      case WriteCallLog => assert p in GetPermissions(CallLogs, 0);
      case ReadCallLog => assert p in GetPermissions(CallLogs, 0);
      case ReadSms => assert p in GetPermissions(Sms, 0);
      case AccessMediaLocation => assert p in GetPermissions(MediaLocation, Version.Q);
      case PostNotifications => assert p in GetPermissions(Notifications, Version.TIRAMISU);
      case RequestIgnoreBatteryOptimizations =>
        assert p in GetPermissions(IgnoreBatteryOptimization, Version.M);
    }
  }

  lemma MediaOnOldPlatforms(p: Permission)
    requires p == WriteExternalStorage || p == ReadExternalStorage
    ensures p in GetPermissions(Media, Version.M)
  {
    MediaTable(Version.M);
  }
}
