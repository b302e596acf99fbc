/**
 * The permission request state machine (fragments/BasePermissionFragment.kt) together with the
 * one-shot result cell its concrete subclass owns (fragments/PermissionFragment.kt).
 *
 * The first half specifies the machine on values: a `Session` holds the fragment's mutable
 * fields and each platform callback is a step function from a session to the next session
 * and the outward events (a settings screen launched, a permission dialog issued, a result
 * delivered). The second half is the fragment itself, a class whose methods do what the
 * Kotlin does, field by field, and are proved to follow the step functions.
 */
module Fragments {
  import opened Wrappers
  import opened Sequences
  import opened Manifest
  import opened Platform
  import Version

  /** The outcome delivered to the waiting caller (model/PermissionResult.kt, reconstructed). */
  datatype PermissionResult =
    | PermissionGranted(requestId: int)
    | PermissionDenied(requestId: int, permissions: seq<Permission>)
    | PermissionDeniedPermanently(requestId: int, permissions: seq<Permission>)
    | ShowRational(requestId: int)

  /** What the fragment does outside itself. */
  datatype Event =
    | SettingsLaunched(permission: Permission, requestCode: int)  // startActivityForResult
    | BatchRequested(permissions: seq<Permission>, requestCode: int)  // Fragment.requestPermissions
    | ResultEmitted(result: PermissionResult)  // onPermissionResult

  /** `specialPermissionReqCode` when no settings screen is outstanding. */
  const NoRequestCode: int := -1

  // ---------------------------------------------------------------------------------------
  // Platform queries, as the fragment asks them

  predicate IsSpecialPermission(p: Permission) {
    p == ManageExternalStorage || p == RequestIgnoreBatteryOptimizations
  }

  /** Below Marshmallow there are no battery optimisations to be exempt from. */
  predicate IsIgnoringBatteryOptimizations(d: Device) {
    !Version.IsMarshmallowPlus(d.sdk) || d.ignoringBatteryOptimizations
  }

  predicate HasSpecialPermission(d: Device, p: Permission) {
    match p
    case ManageExternalStorage => d.externalStorageManager
    case RequestIgnoreBatteryOptimizations => IsIgnoringBatteryOptimizations(d)
    case _ => false
  }

  predicate HasNormalPermission(d: Device, p: Permission) {
    p in d.granted
  }

  predicate HasPermission(d: Device, p: Permission) {
    if IsSpecialPermission(p) then HasSpecialPermission(d, p) else HasNormalPermission(d, p)
  }

  predicate ShouldShowRationale(d: Device, p: Permission) {
    p in d.showRationale
  }

  // ---------------------------------------------------------------------------------------
  // categorisePermissions, as filters

  function SpecialMissing(d: Device): Permission -> bool {
    p => IsSpecialPermission(p) && !HasSpecialPermission(d, p)
  }

  function NormalMissing(d: Device): Permission -> bool {
    p => !IsSpecialPermission(p) && !HasNormalPermission(d, p)
  }

  function Missing(d: Device): Permission -> bool {
    p => !HasPermission(d, p)
  }

  /** The special identifiers of `ps` not held, in order. */
  function MissingSpecial(d: Device, ps: seq<Permission>): seq<Permission> {
    Filter(ps, SpecialMissing(d))
  }

  /** The normal identifiers of `ps` not held, in order. */
  function MissingNormal(d: Device, ps: seq<Permission>): seq<Permission> {
    Filter(ps, NormalMissing(d))
  }

  /** The identifiers of `ps` not held, in order (categorisePermissions' return value). */
  function NotGranted(d: Device, ps: seq<Permission>): seq<Permission> {
    Filter(ps, Missing(d))
  }

  /** The not-granted identifiers are exactly the input's identifiers not held, by kind. */
  lemma CategoriseMembership(d: Device, ps: seq<Permission>)
    ensures forall p :: p in NotGranted(d, ps) <==> p in ps && !HasPermission(d, p)
    ensures forall p :: p in MissingSpecial(d, ps) <==>
      p in ps && IsSpecialPermission(p) && !HasSpecialPermission(d, p)
    ensures forall p :: p in MissingNormal(d, ps) <==>
      p in ps && !IsSpecialPermission(p) && !HasNormalPermission(d, p)
  {
    forall p ensures p in NotGranted(d, ps) <==> p in ps && !HasPermission(d, p) {
      FilterMembership(ps, Missing(d), p);
    }
    forall p ensures p in MissingSpecial(d, ps) <==>
      p in ps && IsSpecialPermission(p) && !HasSpecialPermission(d, p)
    {
      FilterMembership(ps, SpecialMissing(d), p);
    }
    forall p ensures p in MissingNormal(d, ps) <==>
      p in ps && !IsSpecialPermission(p) && !HasNormalPermission(d, p)
    {
      FilterMembership(ps, NormalMissing(d), p);
    }
  }

  /** The not-granted identifiers split, with multiplicities, into the special and the normal ones. */
  lemma {:induction false} CategoriseSplits(d: Device, ps: seq<Permission>)
    ensures multiset(NotGranted(d, ps)) == multiset(MissingSpecial(d, ps)) + multiset(MissingNormal(d, ps))
  {
    if ps != [] {
      CategoriseSplits(d, ps[..|ps| - 1]);
    }
  }

  /** One more identifier extends each of the three filters by itself or by nothing. */
  lemma CategoriseStep(d: Device, ps: seq<Permission>, i: int)
    requires 0 <= i < |ps|
    ensures NotGranted(d, ps[..i + 1]) ==
      NotGranted(d, ps[..i]) + (if !HasPermission(d, ps[i]) then [ps[i]] else [])
    ensures MissingSpecial(d, ps[..i + 1]) ==
      MissingSpecial(d, ps[..i]) + (if IsSpecialPermission(ps[i]) && !HasSpecialPermission(d, ps[i]) then [ps[i]] else [])
    ensures MissingNormal(d, ps[..i + 1]) ==
      MissingNormal(d, ps[..i]) + (if !IsSpecialPermission(ps[i]) && !HasNormalPermission(d, ps[i]) then [ps[i]] else [])
  {
    assert ps[..i + 1] == ps[..i] + [ps[i]];
    FilterAppend(ps[..i], ps[i], Missing(d));
    FilterAppend(ps[..i], ps[i], SpecialMissing(d));
    FilterAppend(ps[..i], ps[i], NormalMissing(d));
  }

  /** When no identifier is held and none is special, all of them go to the normal queue. */
  lemma NormalOnlyCategorised(s: Session, d: Device, ps: seq<Permission>)
    requires forall p :: p in ps ==> !IsSpecialPermission(p) && !HasNormalPermission(d, p)
    ensures NotGranted(d, ps) == ps
    ensures Categorised(s, d, ps) == s.(pendingNormal := s.pendingNormal + ps)
    ensures s.pendingNormal == [] ==> Categorised(s, d, ps) == s.(pendingNormal := ps)
  {
    FilterKeepsAll(ps, Missing(d));
    FilterKeepsNone(ps, SpecialMissing(d));
    FilterKeepsAll(ps, NormalMissing(d));
    assert s.pendingSpecial + [] == s.pendingSpecial;
    assert [] + ps == ps;
  }

  /** When no identifier is held and all are special, all of them go to the settings queue. */
  lemma SpecialOnlyCategorised(s: Session, d: Device, ps: seq<Permission>)
    requires forall p :: p in ps ==> IsSpecialPermission(p) && !HasSpecialPermission(d, p)
    ensures NotGranted(d, ps) == ps
    ensures Categorised(s, d, ps) == s.(pendingSpecial := s.pendingSpecial + ps)
    ensures s.pendingSpecial == [] ==> Categorised(s, d, ps) == s.(pendingSpecial := ps)
  {
    FilterKeepsAll(ps, Missing(d));
    FilterKeepsAll(ps, SpecialMissing(d));
    FilterKeepsNone(ps, NormalMissing(d));
    assert s.pendingNormal + [] == s.pendingNormal;
    assert [] + ps == ps;
  }

  /** Both queues only ever receive identifiers of their own kind. */
  lemma {:induction false} CategorisedWellFormed(s: Session, d: Device, ps: seq<Permission>)
    requires WellFormed(s)
    ensures WellFormed(Categorised(s, d, ps))
  {
    CategoriseMembership(d, ps);
  }

  // ---------------------------------------------------------------------------------------
  // The machine on values

  /** The fragment's mutable fields. */
  datatype Session = Session(
    rationalRequest: map<int, bool>,
    pendingSpecial: seq<Permission>,   // FIFO of special identifiers still to send to settings
    pendingNormal: seq<Permission>,    // normal identifiers for the next dialog
    specialDenied: seq<Permission>,    // specials still not held after their settings screen
    specialPermissionReqCode: int,
    requestedSpecial: Option<Permission>)  // the one special awaiting its settings screen

  const Initial: Session := Session(map[], [], [], [], NoRequestCode, None)

  /** Only special identifiers are ever queued for, or sent to, a settings screen. */
  predicate WellFormed(s: Session) {
    && (forall p :: p in s.pendingSpecial ==> IsSpecialPermission(p))
    && (forall p :: p in s.pendingNormal ==> !IsSpecialPermission(p))
    && (forall p :: p in s.specialDenied ==> IsSpecialPermission(p))
    && (s.requestedSpecial.Some? ==> IsSpecialPermission(s.requestedSpecial.value))
  }

  /** clearPrevState: everything but the rationale map is reset. */
  function Cleared(s: Session): Session {
    s.(pendingSpecial := [], pendingNormal := [], specialDenied := [],
       specialPermissionReqCode := NoRequestCode, requestedSpecial := None)
  }

  predicate IsClear(s: Session) {
    && s.pendingSpecial == [] && s.pendingNormal == [] && s.specialDenied == []
    && s.specialPermissionReqCode == NoRequestCode && s.requestedSpecial == None
  }

  datatype Transition = Transition(session: Session, events: seq<Event>)

  /** _onPermissionResult: clear, then deliver `r`. */
  function Emit(s: Session, r: PermissionResult): Transition {
    Transition(Cleared(s), [ResultEmitted(r)])
  }

  /**
   * _onPermissionResult(PermissionDenied(code, specialDeniedPermissions)): the result holds
   * the list object itself, which the clearing empties before the result is handed over.
   */
  function EmitLiveDenied(s: Session, code: int): Transition {
    var c := Cleared(s);
    Transition(c, [ResultEmitted(PermissionDenied(code, c.specialDenied))])
  }

  /** categorisePermissions' effect: missing identifiers appended to the two queues. */
  function Categorised(s: Session, d: Device, ps: seq<Permission>): Session {
    s.(pendingSpecial := s.pendingSpecial + MissingSpecial(d, ps),
       pendingNormal := s.pendingNormal + MissingNormal(d, ps))
  }

  /** requestNextSpecialPermission: the head of the queue becomes the one active special. */
  function NextSpecial(s: Session, requestId: int): Transition {
    if |s.pendingSpecial| > 0 then
      Transition(
        s.(specialPermissionReqCode := requestId,
           requestedSpecial := Some(s.pendingSpecial[0]),
           pendingSpecial := s.pendingSpecial[1..]),
        [SettingsLaunched(s.pendingSpecial[0], requestId)])
    else Transition(s, [])
  }

  /** One dialog for every pending normal identifier. */
  function NormalBatch(s: Session, requestCode: int): Transition {
    Transition(s, [BatchRequested(s.pendingNormal, requestCode)])
  }

  /** Specials first, one at a time; otherwise the normal batch (possibly empty). */
  function Proceed(s: Session, requestId: int): Transition {
    if s.pendingSpecial != [] then NextSpecial(s, requestId) else NormalBatch(s, requestId)
  }

  /** Some missing normal identifier has its rationale flag (special ones are never asked). */
  predicate RationaleWanted(d: Device, notGranted: seq<Permission>) {
    exists p :: p in notGranted && !IsSpecialPermission(p) && ShouldShowRationale(d, p)
  }

  /** requestPermissions(requestId, *permissions). */
  function RequestStep(s: Session, d: Device, requestId: int, permissions: seq<Permission>): Transition {
    if requestId in s.rationalRequest then
      Proceed(Categorised(s.(rationalRequest := s.rationalRequest - {requestId}), d, permissions), requestId)
    else
      var s1 := Categorised(s, d, permissions);
      var notGranted := NotGranted(d, permissions);
      if notGranted == [] then
        Emit(s1, PermissionGranted(requestId))
      else if RationaleWanted(d, notGranted) then
        Emit(s1.(rationalRequest := s1.rationalRequest[requestId := false]), ShowRational(requestId))
      else
        Proceed(s1, requestId)
  }

  /** The active special comes back from its settings screen: recorded if still not held. */
  function SettleActive(s: Session, d: Device): Session {
    match s.requestedSpecial
    case None => s
    case Some(p) =>
      s.(requestedSpecial := None,
         specialDenied := if HasSpecialPermission(d, p) then s.specialDenied else s.specialDenied + [p])
  }

  /** onActivityResult(requestCode, ...). */
  function ActivityResultStep(s: Session, d: Device, requestCode: int): Transition {
    if s.specialPermissionReqCode == NoRequestCode || s.specialPermissionReqCode != requestCode then
      Transition(s, [])
    else
      var s1 := SettleActive(s, d);
      if s1.pendingSpecial != [] then NextSpecial(s1, requestCode)
      else if s1.pendingNormal != [] then NormalBatch(s1, requestCode)
      else if s1.specialDenied != [] then EmitLiveDenied(s1, requestCode)
      else Emit(s1, PermissionGranted(requestCode))
  }

  predicate AllGranted(grantResults: seq<int>) {
    forall i :: 0 <= i < |grantResults| ==> grantResults[i] == PERMISSION_GRANTED
  }

  /** The identifiers whose dialog answer is PERMISSION_DENIED, in order (filterIndexed). */
  function DeniedByDialog(permissions: seq<Permission>, grantResults: seq<int>): (r: seq<Permission>)
    requires |grantResults| == |permissions|
    ensures forall i :: 0 <= i < |permissions| && grantResults[i] == PERMISSION_DENIED ==> permissions[i] in r
    ensures forall p :: p in r ==>
      exists i :: 0 <= i < |permissions| && permissions[i] == p && grantResults[i] == PERMISSION_DENIED
    ensures AllGranted(grantResults) ==> r == []
  {
    if permissions == [] then []
    else
      var n := |permissions| - 1;
      var prev := DeniedByDialog(permissions[..n], grantResults[..n]);
      assert forall i :: 0 <= i < n ==> permissions[..n][i] == permissions[i] && grantResults[..n][i] == grantResults[i];
      prev + (if grantResults[n] == PERMISSION_DENIED then [permissions[n]] else [])
  }

  /** Every identifier refused in the dialog: all of them are reported, in order. */
  lemma {:induction false} AllRefused(permissions: seq<Permission>, grantResults: seq<int>)
    requires |grantResults| == |permissions|
    requires forall i :: 0 <= i < |grantResults| ==> grantResults[i] == PERMISSION_DENIED
    ensures DeniedByDialog(permissions, grantResults) == permissions
  {
    if permissions != [] {
      var n := |permissions| - 1;
      AllRefused(permissions[..n], grantResults[..n]);
      assert permissions == permissions[..n] + [permissions[n]];
    }
  }

  /** onRequestPermissionsResult(requestCode, permissions, grantResults). */
  function PermissionsResultStep(s: Session, d: Device, requestCode: int,
                                 permissions: seq<Permission>, grantResults: seq<int>): Transition
    requires |grantResults| == |permissions|
  {
    if |grantResults| > 0 && AllGranted(grantResults) then
      if s.specialDenied == [] then Emit(s, PermissionGranted(requestCode))
      else EmitLiveDenied(s, requestCode)
    else if exists p :: p in permissions && ShouldShowRationale(d, p) then
      Emit(s, PermissionDenied(requestCode, DeniedByDialog(permissions, grantResults) + s.specialDenied))
    else
      Emit(s, PermissionDeniedPermanently(requestCode, DeniedByDialog(permissions, grantResults) + s.specialDenied))
  }

  // ---------------------------------------------------------------------------------------
  // Properties of the machine

  lemma ProceedWellFormed(s: Session, requestId: int)
    requires WellFormed(s)
    ensures WellFormed(Proceed(s, requestId).session)
  {
  }

  lemma {:induction false} RequestStepWellFormed(s: Session, d: Device, requestId: int, permissions: seq<Permission>)
    requires WellFormed(s)
    ensures WellFormed(RequestStep(s, d, requestId, permissions).session)
  {
    if requestId in s.rationalRequest {
      var s0 := s.(rationalRequest := s.rationalRequest - {requestId});
      CategorisedWellFormed(s0, d, permissions);
      ProceedWellFormed(Categorised(s0, d, permissions), requestId);
    } else {
      CategorisedWellFormed(s, d, permissions);
      ProceedWellFormed(Categorised(s, d, permissions), requestId);
    }
  }

  lemma ActivityResultStepWellFormed(s: Session, d: Device, requestCode: int)
    requires WellFormed(s)
    ensures WellFormed(ActivityResultStep(s, d, requestCode).session)
  {
  }

  /** Nothing is missing exactly when every requested identifier is held. */
  lemma NothingMissing(d: Device, ps: seq<Permission>)
    ensures NotGranted(d, ps) == [] <==> forall p :: p in ps ==> HasPermission(d, p)
  {
    CategoriseMembership(d, ps);
    if NotGranted(d, ps) != [] {
      assert NotGranted(d, ps)[0] in NotGranted(d, ps);
    }
  }

  /** A request whose identifiers are all held is granted at once, with no platform step. */
  lemma {:induction false} NothingMissingGrants(s: Session, d: Device, requestId: int, permissions: seq<Permission>)
    requires requestId !in s.rationalRequest
    requires forall p :: p in permissions ==> HasPermission(d, p)
    ensures RequestStep(s, d, requestId, permissions) ==
      Transition(Cleared(s), [ResultEmitted(PermissionGranted(requestId))])
  {
    NothingMissing(d, permissions);
    assert Cleared(Categorised(s, d, permissions)) == Cleared(s);
  }

  /**
   * On a first call, the rationale is shown exactly when some missing NORMAL identifier has
   * its rationale flag; a missing special identifier never triggers it. Showing it records
   * the request id and clears the session; nothing is launched or requested.
   */
  lemma {:induction false} RationaleOnlyForNormal(s: Session, d: Device, requestId: int, permissions: seq<Permission>)
    requires requestId !in s.rationalRequest
    ensures var t := RequestStep(s, d, requestId, permissions);
      (t.events == [ResultEmitted(ShowRational(requestId))]) <==>
        exists p :: p in permissions && !IsSpecialPermission(p) && !HasNormalPermission(d, p) && ShouldShowRationale(d, p)
    ensures var t := RequestStep(s, d, requestId, permissions);
      t.events == [ResultEmitted(ShowRational(requestId))] ==>
        t.session == Cleared(s).(rationalRequest := s.rationalRequest[requestId := false])
  {
    var s1 := Categorised(s, d, permissions);
    var notGranted := NotGranted(d, permissions);
    var t := RequestStep(s, d, requestId, permissions);
    RationaleWantedIff(d, permissions);
    if notGranted == [] {
      assert t == Emit(s1, PermissionGranted(requestId));
    } else if RationaleWanted(d, notGranted) {
      var shown := s1.(rationalRequest := s1.rationalRequest[requestId := false]);
      assert t == Emit(shown, ShowRational(requestId));
      assert Cleared(shown) == Cleared(s).(rationalRequest := s.rationalRequest[requestId := false]);
    } else {
      assert t == Proceed(s1, requestId);
    }
  }

  lemma RationaleWantedIff(d: Device, permissions: seq<Permission>)
    ensures RationaleWanted(d, NotGranted(d, permissions)) <==>
      exists p :: p in permissions && !IsSpecialPermission(p) && !HasNormalPermission(d, p) && ShouldShowRationale(d, p)
  {
    CategoriseMembership(d, permissions);
    if exists p :: p in permissions && !IsSpecialPermission(p) && !HasNormalPermission(d, p) && ShouldShowRationale(d, p) {
      var p :| p in permissions && !IsSpecialPermission(p) && !HasNormalPermission(d, p) && ShouldShowRationale(d, p);
      assert p in NotGranted(d, permissions);
    }
  }

  /**
   * A repeat call for a request id that was shown its rationale forgets that id, skips the
   * rationale check and goes to the next special, or else to the normal batch, even an empty
   * one. It never delivers a result.
   */
  lemma {:induction false} RationaleRetry(s: Session, d: Device, requestId: int, permissions: seq<Permission>)
    requires requestId in s.rationalRequest
    ensures var t := RequestStep(s, d, requestId, permissions);
      && t.session.rationalRequest == s.rationalRequest - {requestId}
      && |t.events| == 1
      && !t.events[0].ResultEmitted?
    ensures var t := RequestStep(s, d, requestId, permissions);
      var queue := s.pendingSpecial + MissingSpecial(d, permissions);
      if queue != [] then
        t.events == [SettingsLaunched(queue[0], requestId)] && t.session.pendingSpecial == queue[1..]
      else
        t.events == [BatchRequested(s.pendingNormal + MissingNormal(d, permissions), requestId)]
  {
  }

  /** A settings-screen result for another request code, or with none outstanding, is ignored. */
  lemma ActivityResultIgnored(s: Session, d: Device, requestCode: int)
    requires s.specialPermissionReqCode == NoRequestCode || s.specialPermissionReqCode != requestCode
    ensures ActivityResultStep(s, d, requestCode) == Transition(s, [])
  {
  }

  /**
   * A matching settings-screen result records the active special as denied iff it is still
   * not held, then launches the next special before any normal batch; with nothing pending
   * it delivers Denied if some special stayed denied (with the list already emptied by the
   * clearing) and Granted otherwise.
   */
  lemma {:induction false} ActivityResultOrder(s: Session, d: Device, requestCode: int)
    requires s.specialPermissionReqCode != NoRequestCode && s.specialPermissionReqCode == requestCode
    ensures var t := ActivityResultStep(s, d, requestCode);
      var denied := s.specialDenied +
        (if s.requestedSpecial.Some? && !HasSpecialPermission(d, s.requestedSpecial.value)
         then [s.requestedSpecial.value] else []);
      && (s.pendingSpecial != [] ==>
            && t.events == [SettingsLaunched(s.pendingSpecial[0], requestCode)]
            && t.session.requestedSpecial == Some(s.pendingSpecial[0])
            && t.session.pendingSpecial == s.pendingSpecial[1..]
            && t.session.specialDenied == denied)
      && (s.pendingSpecial == [] && s.pendingNormal != [] ==>
            && t.events == [BatchRequested(s.pendingNormal, requestCode)]
            && t.session.requestedSpecial == None
            && t.session.specialDenied == denied)
      && (s.pendingSpecial == [] && s.pendingNormal == [] ==>
            && t.session == Cleared(s)
            && t.events == [ResultEmitted(
                 if denied != [] then PermissionDenied(requestCode, []) else PermissionGranted(requestCode))])
  {
  }

  /**
   * Dialog results: all granted (and at least one answer) gives Granted unless a special
   * stayed denied, which gives Denied with the live, already emptied, special list; any other
   * answer gives Denied when some requested identifier has its rationale flag, else
   * DeniedPermanently, both listing the dialog's denied identifiers then the special denials.
   * Every outcome clears the session.
   */
  lemma {:induction false} BatchClassification(s: Session, d: Device, requestCode: int,
                                               permissions: seq<Permission>, grantResults: seq<int>)
    requires |grantResults| == |permissions|
    ensures var t := PermissionsResultStep(s, d, requestCode, permissions, grantResults);
      && t.session == Cleared(s)
      && |t.events| == 1 && t.events[0].ResultEmitted?
      && t.events[0].result.requestId == requestCode
      && !t.events[0].result.ShowRational?
    ensures var r := PermissionsResultStep(s, d, requestCode, permissions, grantResults).events[0].result;
      var listed := DeniedByDialog(permissions, grantResults) + s.specialDenied;
      && (r.PermissionGranted? <==> |grantResults| > 0 && AllGranted(grantResults) && s.specialDenied == [])
      && (|grantResults| > 0 && AllGranted(grantResults) && s.specialDenied != [] ==>
            r == PermissionDenied(requestCode, []))
      && (!(|grantResults| > 0 && AllGranted(grantResults)) ==>
            && r.permissions == listed
            && (r.PermissionDenied? <==> exists p :: p in permissions && ShouldShowRationale(d, p))
            && (r.PermissionDeniedPermanently? <==> !exists p :: p in permissions && ShouldShowRationale(d, p)))
  {
  }

  /** Dialog results with no answers at all (an empty batch) end as DeniedPermanently. */
  lemma EmptyBatchIsPermanentDenial(s: Session, d: Device, requestCode: int)
    ensures PermissionsResultStep(s, d, requestCode, [], []).events ==
      [ResultEmitted(PermissionDeniedPermanently(requestCode, s.specialDenied))]
  {
    assert DeniedByDialog([], []) + s.specialDenied == s.specialDenied;
  }

  /** The settings screens of `queue`, launched one after another with `code`. */
  function Launches(queue: seq<Permission>, code: int): (r: seq<Event>)
    ensures |r| == |queue|
    ensures forall i :: 0 <= i < |queue| ==> r[i] == SettingsLaunched(queue[i], code)
  {
    if queue == [] then [] else Launches(queue[..|queue| - 1], code) + [SettingsLaunched(queue[|queue| - 1], code)]
  }

  /** `n` settings screens coming back with `code`, the platform unchanged meanwhile. */
  function ReturnFromSettings(s: Session, d: Device, code: int, n: nat): Transition {
    if n == 0 then Transition(s, [])
    else
      var t := ReturnFromSettings(s, d, code, n - 1);
      var u := ActivityResultStep(t.session, d, code);
      Transition(u.session, t.events + u.events)
  }

  /**
   * Sequential FIFO negotiation: while specials are pending, each returning settings screen
   * launches the next one, in queue order, and the specials that come back still not held
   * collect in order in the special-denied list; the normal queue is untouched meanwhile.
   */
  lemma {:induction false} SpecialsDrainInOrder(s: Session, d: Device, code: int, n: nat)
    requires s.specialPermissionReqCode == code && code != NoRequestCode
    requires s.requestedSpecial.Some?
    requires n <= |s.pendingSpecial|
    ensures var launched := [s.requestedSpecial.value] + s.pendingSpecial;
      ReturnFromSettings(s, d, code, n) == Transition(
        s.(pendingSpecial := s.pendingSpecial[n..],
           requestedSpecial := Some(launched[n]),
           specialDenied := s.specialDenied + Filter(launched[..n], StillDenied(d))),
        Launches(s.pendingSpecial[..n], code))
  {
    if n > 0 {
      SpecialsDrainInOrder(s, d, code, n - 1);
      var launched := [s.requestedSpecial.value] + s.pendingSpecial;
      var t := ReturnFromSettings(s, d, code, n - 1);
      OneSettingsReturn(t.session, d, code);
      assert launched[..n] == launched[..n - 1] + [launched[n - 1]];
      FilterAppend(launched[..n - 1], launched[n - 1], StillDenied(d));
      assert s.pendingSpecial[..n] == s.pendingSpecial[..n - 1] + [s.pendingSpecial[n - 1]];
      assert t.session.pendingSpecial[1..] == s.pendingSpecial[n..];
    }
  }

  /** A special identifier that came back from its settings screen still not held. */
  function StillDenied(d: Device): Permission -> bool {
    p => !HasSpecialPermission(d, p)
  }

  /** One settings screen comes back while more specials wait: the next one is launched. */
  lemma OneSettingsReturn(s: Session, d: Device, code: int)
    requires s.specialPermissionReqCode == code && code != NoRequestCode
    requires s.requestedSpecial.Some? && s.pendingSpecial != []
    ensures var active := s.requestedSpecial.value;
      ActivityResultStep(s, d, code) == Transition(
        s.(requestedSpecial := Some(s.pendingSpecial[0]),
           pendingSpecial := s.pendingSpecial[1..],
           specialDenied := s.specialDenied + (if HasSpecialPermission(d, active) then [] else [active])),
        [SettingsLaunched(s.pendingSpecial[0], code)])
  {
  }

  /**
   * The rationale round trip: a first call that finds a missing normal identifier with its
   * rationale flag delivers ShowRational; the caller's repeat call with the same id, on an
   * unchanged platform, does not show it again but issues the dialog for the missing normal
   * identifiers (when no special is missing).
   */
  lemma {:induction false} RationaleLoopTerminates(s: Session, d: Device, requestId: int, permissions: seq<Permission>)
    requires requestId !in s.rationalRequest
    requires MissingSpecial(d, permissions) == []
    requires exists p :: p in permissions && !IsSpecialPermission(p) && !HasNormalPermission(d, p) && ShouldShowRationale(d, p)
    ensures var first := RequestStep(s, d, requestId, permissions);
      && first.events == [ResultEmitted(ShowRational(requestId))]
      && RequestStep(first.session, d, requestId, permissions).events ==
           [BatchRequested(MissingNormal(d, permissions), requestId)]
      && requestId !in RequestStep(first.session, d, requestId, permissions).session.rationalRequest
  {
    RationaleOnlyForNormal(s, d, requestId, permissions);
    var first := RequestStep(s, d, requestId, permissions);
    var shown := Cleared(s).(rationalRequest := s.rationalRequest[requestId := false]);
    assert first.session == shown;
    RationaleRetry(shown, d, requestId, permissions);
    assert shown.pendingSpecial + MissingSpecial(d, permissions) == [];
    assert shown.pendingNormal + MissingNormal(d, permissions) == MissingNormal(d, permissions);
  }

  // ---------------------------------------------------------------------------------------
  // The result cell (kotlinx CompletableDeferred<PermissionResult>)

  datatype DeferredState = Active | Completed(result: PermissionResult) | Cancelled

  class CompletableDeferred {
    var state: DeferredState

    constructor ()
      ensures state == Active
    {
      state := Active;
    }

    predicate IsActive()
      reads this
    {
      state.Active?
    }

    /** Only the first completion or cancellation takes effect. */
    method Complete(r: PermissionResult) returns (completed: bool)
      modifies this
      ensures completed == old(state).Active?
      ensures state == if completed then Completed(r) else old(state)
    {
      completed := state.Active?;
      if completed {
        state := Completed(r);
      }
    }

    method Cancel()
      modifies this
      ensures state == if old(state).Active? then Cancelled else old(state)
    {
      if state.Active? {
        state := Cancelled;
      }
    }
  }

  /** The cell after the fragment delivered the results among `events`. */
  function Settle(c: DeferredState, events: seq<Event>): DeferredState
    decreases |events|
  {
    if events == [] then c
    else Settle(if events[0].ResultEmitted? && c.Active? then Completed(events[0].result) else c, events[1..])
  }

  /** The first result among `events`, if any. */
  function FirstResult(events: seq<Event>): Option<PermissionResult> {
    if events == [] then None
    else if events[0].ResultEmitted? then Some(events[0].result)
    else FirstResult(events[1..])
  }

  /**
   * The cell is one-shot: once completed or cancelled it keeps its state whatever follows,
   * and an active cell ends completed with the first result delivered, or stays active.
   */
  lemma {:induction false} SettleOnce(c: DeferredState, events: seq<Event>)
    ensures !c.Active? ==> Settle(c, events) == c
    ensures c.Active? ==>
      Settle(c, events) == match FirstResult(events) case Some(r) => Completed(r) case None => Active
    decreases |events|
  {
    if events != [] {
      var next := if events[0].ResultEmitted? && c.Active? then Completed(events[0].result) else c;
      SettleOnce(next, events[1..]);
    }
  }

  // ---------------------------------------------------------------------------------------
  // The fragment

  class PermissionFragment {
    var rationalRequest: map<int, bool>
    var pendingSpecialPermissions: seq<Permission>
    var pendingNormalPermissions: seq<Permission>
    var specialDeniedPermissions: seq<Permission>
    var specialPermissionReqCode: int
    var requestedSpecialPermission: Option<Permission>
    /** lateinit: null until a request installs a cell. */
    var completableDeferred: CompletableDeferred?
    /** The fragment's outward actions so far. */
    ghost var events: seq<Event>

    function State(): Session
      reads this
    {
      Session(rationalRequest, pendingSpecialPermissions, pendingNormalPermissions,
              specialDeniedPermissions, specialPermissionReqCode, requestedSpecialPermission)
    }

    ghost predicate Valid()
      reads this
    {
      WellFormed(State())
    }

    constructor ()
      ensures Valid() && State() == Initial
      ensures completableDeferred == null && events == []
    {
      rationalRequest := map[];
      pendingSpecialPermissions := [];
      pendingNormalPermissions := [];
      specialDeniedPermissions := [];
      specialPermissionReqCode := NoRequestCode;
      requestedSpecialPermission := None;
      completableDeferred := null;
      events := [];
    }

    method RequestPermissions(requestId: int, permissions: seq<Permission>, d: Device)
      requires Valid()
      modifies this, completableDeferred
      ensures Valid()
      ensures State() == RequestStep(old(State()), d, requestId, permissions).session
      ensures events == old(events) + RequestStep(old(State()), d, requestId, permissions).events
      ensures completableDeferred == old(completableDeferred)
      ensures completableDeferred != null ==>
        completableDeferred.state ==
        Settle(old(completableDeferred.state), RequestStep(old(State()), d, requestId, permissions).events)
    {
      ghost var s0 := State();
      ghost var t := RequestStep(s0, d, requestId, permissions);
      RequestStepWellFormed(s0, d, requestId, permissions);
      if requestId in rationalRequest {
        ghost var s1 := Categorised(s0.(rationalRequest := s0.rationalRequest - {requestId}), d, permissions);
        assert t == Proceed(s1, requestId);
        rationalRequest := rationalRequest - {requestId};
        var ignored := CategorisePermissions(permissions, d);
        assert State() == s1;
        ProceedWithRequest(requestId);
        return;
      }

      ghost var s1 := Categorised(s0, d, permissions);
      var notGranted := CategorisePermissions(permissions, d);
      assert State() == s1;
      if notGranted == [] {
        assert t == Emit(s1, PermissionGranted(requestId));
        EmitResult(PermissionGranted(requestId));
      } else if RationaleWanted(d, notGranted) {
        assert t == Emit(s1.(rationalRequest := s1.rationalRequest[requestId := false]), ShowRational(requestId));
        rationalRequest := rationalRequest[requestId := false];
        EmitResult(ShowRational(requestId));
      } else {
        assert t == Proceed(s1, requestId);
        ProceedWithRequest(requestId);
      }
    }

    /** Specials go to their settings screens first, one at a time; then the normal batch. */
    method ProceedWithRequest(requestId: int)
      requires Valid()
      modifies this
      ensures Valid()
      ensures State() == Proceed(old(State()), requestId).session
      ensures events == old(events) + Proceed(old(State()), requestId).events
      ensures completableDeferred == old(completableDeferred)
    {
      if |pendingSpecialPermissions| > 0 {
        RequestNextSpecialPermission(requestId);
      } else {
        RequestNormalPermissions(pendingNormalPermissions, requestId);
      }
    }

    /** Appends the missing special and normal identifiers to their queues, in order. */
    method CategorisePermissions(permissions: seq<Permission>, d: Device) returns (notGranted: seq<Permission>)
      modifies this
      ensures notGranted == NotGranted(d, permissions)
      ensures State() == Categorised(old(State()), d, permissions)
      ensures events == old(events)
      ensures completableDeferred == old(completableDeferred)
    {
      var special: seq<Permission> := [];
      var normal: seq<Permission> := [];
      notGranted := [];
      var i := 0;
      while i < |permissions|
        invariant 0 <= i <= |permissions|
        invariant notGranted == NotGranted(d, permissions[..i])
        invariant special == MissingSpecial(d, permissions[..i])
        invariant normal == MissingNormal(d, permissions[..i])
        modifies {}
      {
        var p := permissions[i];
        CategoriseStep(d, permissions, i);
        if IsSpecialPermission(p) {
          if !HasSpecialPermission(d, p) {
            special := special + [p];
            notGranted := notGranted + [p];
          }
        } else if !HasNormalPermission(d, p) {
          normal := normal + [p];
          notGranted := notGranted + [p];
        }
        i := i + 1;
      }
      assert permissions[..|permissions|] == permissions;
      // Nothing reads the queues while the loop runs, so appending afterwards is the same.
      pendingSpecialPermissions := pendingSpecialPermissions + special;
      pendingNormalPermissions := pendingNormalPermissions + normal;
    }

    method RequestNextSpecialPermission(requestId: int)
      requires Valid()
      modifies this
      ensures Valid()
      ensures State() == NextSpecial(old(State()), requestId).session
      ensures events == old(events) + NextSpecial(old(State()), requestId).events
      ensures completableDeferred == old(completableDeferred)
    {
      if |pendingSpecialPermissions| > 0 {
        specialPermissionReqCode := requestId;
        var p := pendingSpecialPermissions[0];
        pendingSpecialPermissions := pendingSpecialPermissions[1..];
        requestedSpecialPermission := Some(p);
        RequestSpecialPermission(requestId, p);
      }
    }

    /** Opens the settings screen for `permission`; any other identifier is a fatal error. */
    method RequestSpecialPermission(requestId: int, permission: Permission)
      requires IsSpecialPermission(permission)
      modifies this`events
      ensures events == old(events) + [SettingsLaunched(permission, requestId)]
    {
      events := events + [SettingsLaunched(permission, requestId)];
    }

    /** The platform's batched permission dialog. */
    method RequestNormalPermissions(permissions: seq<Permission>, requestCode: int)
      modifies this`events
      ensures events == old(events) + [BatchRequested(permissions, requestCode)]
    {
      events := events + [BatchRequested(permissions, requestCode)];
    }

    method OnActivityResult(requestCode: int, d: Device)
      requires Valid()
      modifies this, completableDeferred
      ensures Valid()
      ensures State() == ActivityResultStep(old(State()), d, requestCode).session
      ensures events == old(events) + ActivityResultStep(old(State()), d, requestCode).events
      ensures completableDeferred == old(completableDeferred)
      ensures completableDeferred != null ==>
        completableDeferred.state ==
        Settle(old(completableDeferred.state), ActivityResultStep(old(State()), d, requestCode).events)
    {
      ghost var s0 := State();
      ghost var t := ActivityResultStep(s0, d, requestCode);
      ActivityResultStepWellFormed(s0, d, requestCode);
      if specialPermissionReqCode == NoRequestCode || specialPermissionReqCode != requestCode {
        return;
      }

      if requestedSpecialPermission.Some? {
        var permission := requestedSpecialPermission.value;
        requestedSpecialPermission := None;
        if !HasSpecialPermission(d, permission) {
          specialDeniedPermissions := specialDeniedPermissions + [permission];
        }
      }
      ghost var s1 := SettleActive(s0, d);
      assert State() == s1;

      if |pendingSpecialPermissions| > 0 {
        assert t == NextSpecial(s1, requestCode);
        RequestNextSpecialPermission(requestCode);
      } else if |pendingNormalPermissions| > 0 {
        assert t == NormalBatch(s1, requestCode);
        RequestNormalPermissions(pendingNormalPermissions, requestCode);
      } else if |specialDeniedPermissions| > 0 {
        assert t == EmitLiveDenied(s1, requestCode);
        EmitDeniedWithLiveList(requestCode);
      } else {
        assert t == Emit(s1, PermissionGranted(requestCode));
        EmitResult(PermissionGranted(requestCode));
      }
    }

    method OnRequestPermissionsResult(requestCode: int, permissions: seq<Permission>, grantResults: seq<int>, d: Device)
      requires Valid()
      requires |grantResults| == |permissions|
      modifies this, completableDeferred
      ensures Valid()
      ensures State() == PermissionsResultStep(old(State()), d, requestCode, permissions, grantResults).session
      ensures events == old(events) + PermissionsResultStep(old(State()), d, requestCode, permissions, grantResults).events
      ensures completableDeferred == old(completableDeferred)
      ensures completableDeferred != null ==>
        completableDeferred.state ==
        Settle(old(completableDeferred.state),
               PermissionsResultStep(old(State()), d, requestCode, permissions, grantResults).events)
    {
      if |grantResults| > 0 && AllGranted(grantResults) {
        if specialDeniedPermissions == [] {
          EmitResult(PermissionGranted(requestCode));
        } else {
          EmitDeniedWithLiveList(requestCode);
        }
      } else if exists p :: p in permissions && ShouldShowRationale(d, p) {
        EmitResult(PermissionDenied(requestCode, DeniedByDialog(permissions, grantResults) + specialDeniedPermissions));
      } else {
        EmitResult(PermissionDeniedPermanently(requestCode,
          DeniedByDialog(permissions, grantResults) + specialDeniedPermissions));
      }
    }

    /** _onPermissionResult: clear the session, then hand `r` over. */
    method EmitResult(r: PermissionResult)
      modifies this, completableDeferred
      ensures State() == Cleared(old(State()))
      ensures events == old(events) + [ResultEmitted(r)]
      ensures completableDeferred == old(completableDeferred)
      ensures completableDeferred != null ==>
        completableDeferred.state ==
        Settle(old(completableDeferred.state), [ResultEmitted(r)])
    {
      ClearPrevState();
      OnPermissionResult(r);
    }

    /**
     * _onPermissionResult(PermissionDenied(requestCode, specialDeniedPermissions)): the result
     * shares the list with the field, so what it carries is read after the clearing.
     */
    method EmitDeniedWithLiveList(requestCode: int)
      modifies this, completableDeferred
      ensures State() == Cleared(old(State()))
      ensures events == old(events) + [ResultEmitted(PermissionDenied(requestCode, []))]
      ensures completableDeferred == old(completableDeferred)
      ensures completableDeferred != null ==>
        completableDeferred.state ==
        Settle(old(completableDeferred.state), [ResultEmitted(PermissionDenied(requestCode, []))])
    {
      ClearPrevState();
      OnPermissionResult(PermissionDenied(requestCode, specialDeniedPermissions));
    }

    method ClearPrevState()
      modifies this
      ensures State() == Cleared(old(State()))
      ensures events == old(events) && completableDeferred == old(completableDeferred)
    {
      pendingSpecialPermissions := [];
      pendingNormalPermissions := [];
      specialDeniedPermissions := [];
      specialPermissionReqCode := NoRequestCode;
      requestedSpecialPermission := None;
    }

    /** Completes the cell if one was installed (a recreated fragment has none). */
    method OnPermissionResult(r: PermissionResult)
      modifies this`events, completableDeferred
      ensures events == old(events) + [ResultEmitted(r)]
      ensures completableDeferred != null ==>
        completableDeferred.state ==
        Settle(old(completableDeferred.state), [ResultEmitted(r)])
    {
      events := events + [ResultEmitted(r)];
      if completableDeferred != null {
        var completed := completableDeferred.Complete(r);
      }
    }

    /** Cancels a cell that is installed and still waiting. */
    method OnDestroy()
      modifies completableDeferred
      ensures completableDeferred != null ==>
        completableDeferred.state == if old(completableDeferred.state).Active? then Cancelled
                                     else old(completableDeferred.state)
    {
      if completableDeferred != null && completableDeferred.IsActive() {
        completableDeferred.Cancel();
      }
    }
  }
}
