/**
 * PermissionUtils.proceedWithPermissionCheck: answer at once when every category is already
 * satisfied, otherwise request the built identifier list with request id 1 and, once the
 * result is delivered, pick the prompt to show and call the caller back.
 */
module PermissionCheck {
  import opened Wrappers
  import opened Sequences
  import opened Manifest
  import opened PermissionCategories
  import opened Platform
  import Version
  import Mapper = CategoryPermissionsMapper
  import Fragments
  import Companion = FragmentCompanion
  import opened PermissionUtils
  import opened PermissionHelper

  /** The state machine is always driven with this request id. */
  const RequestId: int := 1

  /** The dialog shown for a result (its texts and buttons are not modelled). */
  datatype Prompt =
    | NoPrompt
    | RationaleDialog  // "allow" starts the whole check again
    | SettingsDialog   // "open settings" opens the app's details screen

  /** The arguments of the caller's action. */
  datatype Callback = Callback(granted: bool, deniedCategories: seq<PermissionCategory>)

  /** The caller's view of one delivered result; the callback fails where the mapping throws. */
  datatype Reaction = Reaction(prompt: Prompt, callback: Result<Callback, Mapper.Fault>)

  /**
   * The reaction to `result` for the identifiers `requested`, with the platform as it is on
   * delivery: the prompt depends on the kind of result only, the callback runs for every
   * kind, its flag says Granted, and its list holds the categories still missing, each once,
   * in the order of the first missing identifier of each.
   */
  function React(result: Fragments.PermissionResult, requested: seq<Permission>, d: Device): (r: Reaction)
    ensures r.prompt == RationaleDialog <==> result.ShowRational?
    ensures r.prompt == SettingsDialog <==> result.PermissionDeniedPermanently?
    ensures r.callback.Success? <==>
      forall p :: p in requested && !Companion.HasPermission(d, p) ==> Mapper.GetCategory(p).Success?
    ensures r.callback.Success? ==> (r.callback.value.granted <==> result.PermissionGranted?)
    ensures r.callback.Success? ==> forall c :: c in r.callback.value.deniedCategories <==>
      exists p :: p in requested && !Companion.HasPermission(d, p) && Mapper.GetCategory(p) == Success(c)
    ensures r.callback.Success? ==>
      && MissingCategories(d, requested).Success?
      && InFirstOccurrenceOrder(r.callback.value.deniedCategories, MissingCategories(d, requested).value)
  {
    var prompt :=
      if result.ShowRational? then RationaleDialog
      else if result.PermissionDeniedPermanently? then SettingsDialog
      else NoPrompt;
    match DeniedCategories(d, requested)
    case Failure(e) => Reaction(prompt, Failure(e))
    case Success(cs) => Reaction(prompt, Success(Callback(result.PermissionGranted?, cs)))
  }

  /** Whatever the result, the caller hears the same list; only the flag differs. */
  lemma CallbackForEveryResult(r1: Fragments.PermissionResult, r2: Fragments.PermissionResult,
                               requested: seq<Permission>, d: Device)
    ensures React(r1, requested, d).callback.Success? == React(r2, requested, d).callback.Success?
    ensures React(r1, requested, d).callback.Success? ==>
      React(r1, requested, d).callback.value.deniedCategories == React(r2, requested, d).callback.value.deniedCategories
  {
  }

  /** From S on, SCHEDULE is asked as the exact-alarm identifier alone. */
  lemma {:induction false} AlarmRequested(sdk: int)
    requires Version.IsSPlus(sdk)
    ensures RequestList([Schedule], sdk) == [ScheduleExactAlarm]
  {
    assert !ContainsBoth([Schedule]);
    assert [] + [Schedule] == [Schedule];
    ContributionsSnoc([], Schedule, false, sdk);
    assert Contribution(Schedule, false, sdk) == [ScheduleExactAlarm];
  }

  /**
   * Asking for SCHEDULE from S on, with the alarm permission still missing, ends in the
   * fatal mapping of SCHEDULE_EXACT_ALARM: the caller is never called back.
   */
  lemma {:induction false} MissingAlarmIsFatal(result: Fragments.PermissionResult, d: Device)
    requires Version.IsSPlus(d.sdk) && ScheduleExactAlarm !in d.granted
    ensures React(result, RequestList([Schedule], d.sdk), d).callback.Failure?
  {
    AlarmRequested(d.sdk);
    assert !Companion.HasPermission(d, ScheduleExactAlarm);
    assert Mapper.GetCategory(ScheduleExactAlarm).Failure?;
    assert ScheduleExactAlarm in RequestList([Schedule], d.sdk);
  }

  /**
   * proceedWithPermissionCheck up to the point where it waits: either the categories are
   * already satisfied and the caller hears (true, []) with no request made, or the built
   * list is requested with request id 1 through a fresh result cell.
   */
  method ProceedWithPermissionCheck(fm: Companion.FragmentManager, categories: seq<PermissionCategory>, d: Device)
    returns (immediate: Option<Callback>, requested: seq<Permission>, cell: Fragments.CompletableDeferred?)
    requires fm.tagged != null ==> fm.tagged.Valid()
    modifies fm, fm.tagged
    ensures HasPermissions(d, categories) ==>
      && immediate == Some(Callback(true, []))
      && cell == null
      && fm.tagged == old(fm.tagged)
      && (fm.tagged != null ==> unchanged(fm.tagged))
    ensures !HasPermissions(d, categories) ==>
      && immediate == None
      && requested == RequestList(categories, d.sdk)
      && cell != null && fresh(cell)
      && fm.tagged != null && fm.tagged.Valid() && fm.tagged.completableDeferred == cell
      && var s0 := if old(fm.tagged) != null then old(fm.tagged.State()) else Fragments.Initial;
         cell.state == Fragments.Settle(Fragments.Active, Fragments.RequestStep(s0, d, RequestId, requested).events)
  {
    if HasPermissions(d, categories) {
      return Some(Callback(true, [])), [], null;
    }
    requested := BuildRequestList(categories, d.sdk);
    var fragment, installed := Companion.RequestPermissions(fm, RequestId, requested, d);
    immediate, cell := None, installed;
  }
}
