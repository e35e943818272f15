/** The activation logic of the main screen (`MainActivity`): the
    requirement checks, the three-way status with its ordered list of what
    is missing, and the enable/disable toggle. */
module MainActivity {
  import opened Android
  import opened ContactsHelper
  import opened Preferences
  import CallScreening

  /** `hasAllPermissions`: READ_PHONE_STATE, READ_CONTACTS and ANSWER_PHONE_CALLS. */
  function HasAllPermissions(p: Platform): (granted: bool)
    ensures granted <==> p.readPhoneState && p.readContacts && p.answerPhoneCalls
  {
    p.readPhoneState && p.readContacts && p.answerPhoneCalls
  }

  /** `hasOverlayPermission`: `Settings.canDrawOverlays` from Android 6 on,
      always granted before; an exception is "not granted". */
  function HasOverlayPermission(p: Platform): (granted: bool)
    ensures p.sdkInt < SDK_M ==> granted
    ensures p.sdkInt >= SDK_M ==> (granted <==> p.canDrawOverlays == Returns(true))
  {
    if p.sdkInt >= SDK_M then
      match p.canDrawOverlays
      case Returns(canDraw) => canDraw
      case Throws => false
    else true
  }

  /** The default-dialer test at the end of `isDefaultCallScreeningService`. */
  function IsDefaultDialer(p: Platform): (isDefault: bool)
    ensures isDefault <==> p.telecom.Returns? && p.telecom.value.defaultDialerPackage == Some(p.packageName)
  {
    match DefaultDialerIsUs(p)
    case Returns(isDefault) => isDefault
    case Throws => false
  }

  /** Every role query `isDefaultCallScreeningService` asks returns: the
      role manager is obtained and not null, `isRoleAvailable` answers, and
      `isRoleHeld` answers whenever it is asked (the role is available). */
  predicate RoleQueriesAnswer(p: Platform) {
    && p.roleManager.Returns?
    && p.roleManager.value.RoleManager?
    && p.roleManager.value.isRoleAvailable.Returns?
    && (p.roleManager.value.isRoleAvailable.value ==> p.roleManager.value.isRoleHeld.Returns?)
  }

  /** `isDefaultCallScreeningService`: on Android 10+ the screening role
      (available and held, asked in that order), else the default dialer.
      Unlike the service's gate, one `try` covers everything: an
      exception in a role query makes the whole check false. */
  function IsDefaultCallScreeningService(p: Platform): (configured: bool)
    ensures p.sdkInt >= SDK_Q ==>
              (configured <==> RoleQueriesAnswer(p)
                               && (CallScreening.HoldsScreeningRole(p.roleManager.value) || IsDefaultDialer(p)))
    ensures p.sdkInt < SDK_Q ==> (configured <==> IsDefaultDialer(p))
  {
    if p.sdkInt >= SDK_Q then
      match p.roleManager
      case Throws => false
      case Returns(NullRoleManager) => false
      case Returns(RoleManager(available, held)) =>
        match available
        case Throws => false
        case Returns(false) => IsDefaultDialer(p)
        case Returns(true) =>
          match held
          case Throws => false
          case Returns(true) => true
          case Returns(false) => IsDefaultDialer(p)
    else IsDefaultDialer(p)
  }

  /** `hasAllProtection`: every system requirement is met. */
  function HasAllProtection(p: Platform): (protected: bool)
    ensures protected <==> HasAllPermissions(p) && HasOverlayPermission(p) && IsDefaultCallScreeningService(p)
  {
    HasAllPermissions(p) && HasOverlayPermission(p) && IsDefaultCallScreeningService(p)
  }

  /** `isProtectionReallyActive`: the requirements and the user's flag. */
  function IsProtectionReallyActive(userEnabled: bool, p: Platform): (active: bool)
    ensures active <==> HasAllProtection(p) && userEnabled
  {
    HasAllProtection(p) && userEnabled
  }

  /** The three entries `updateUI` can list as missing, in display order. */
  datatype Requirement = BasicPermissions | OverlayApps | CallScreeningSetup

  function Rank(req: Requirement): nat {
    match req
    case BasicPermissions => 0
    case OverlayApps => 1
    case CallScreeningSetup => 2
  }

  /** Whether one requirement is met. */
  predicate Meets(p: Platform, req: Requirement) {
    match req
    case BasicPermissions => HasAllPermissions(p)
    case OverlayApps => HasOverlayPermission(p)
    case CallScreeningSetup => IsDefaultCallScreeningService(p)
  }

  /** The `missing` list of `updateUI` and `verifyAndActivateProtection`:
      exactly the failing requirements, each once, in display order. */
  function MissingRequirements(p: Platform): (missing: seq<Requirement>)
    ensures forall req :: req in missing <==> !Meets(p, req)
    ensures forall i, j :: 0 <= i < j < |missing| ==> Rank(missing[i]) < Rank(missing[j])
  {
    var afterPermissions := if !HasAllPermissions(p) then [BasicPermissions] else [];
    var afterOverlay := afterPermissions + if !HasOverlayPermission(p) then [OverlayApps] else [];
    afterOverlay + if !IsDefaultCallScreeningService(p) then [CallScreeningSetup] else []
  }

  /** Nothing is listed exactly when every requirement is met. */
  lemma NothingMissingIffProtected(p: Platform)
    ensures MissingRequirements(p) == [] <==> HasAllProtection(p)
  {
    if MissingRequirements(p) == [] {
      assert Meets(p, BasicPermissions) && Meets(p, OverlayApps) && Meets(p, CallScreeningSetup);
    } else {
      assert !Meets(p, MissingRequirements(p)[0]);
    }
  }

  /** The status line of `updateUI`. */
  datatype ProtectionStatus =
    | Enabled                               // requirements met and flag on
    | Available                             // requirements met, flag off
    | Disabled(missing: seq<Requirement>)   // something is not set up

  function Status(userEnabled: bool, p: Platform): (s: ProtectionStatus)
    ensures s == Enabled <==> IsProtectionReallyActive(userEnabled, p)
    ensures s == Available <==> HasAllProtection(p) && !userEnabled
    ensures s.Disabled? <==> !HasAllProtection(p)
    ensures s.Disabled? ==> s.missing == MissingRequirements(p) && s.missing != []
  {
    if IsProtectionReallyActive(userEnabled, p) then Enabled
    else if HasAllProtection(p) then Available
    else
      NothingMissingIffProtected(p);
      Disabled(MissingRequirements(p))
  }

  /** What `updateUI` shows and whether it starts the blocking service. */
  datatype UiState = UiState(status: ProtectionStatus, contactsLoaded: nat, callsBlocked: int32, startsService: bool)

  function UpdateUi(prefs: SafecallPrefs, p: Platform): (ui: UiState)
    reads prefs
    ensures ui.startsService <==> IsProtectionReallyActive(prefs.allSetupCompleted, p) && HasAllPermissions(p)
    ensures ui.status == Status(prefs.allSetupCompleted, p)
    ensures ui.callsBlocked == prefs.BlockedCalls()
    ensures ui.contactsLoaded == GetContactsCount(p)
  {
    var isReallyActive := IsProtectionReallyActive(prefs.allSetupCompleted, p);
    UiState(Status(prefs.allSetupCompleted, p), GetContactsCount(p), prefs.BlockedCalls(),
            isReallyActive && HasAllPermissions(p))
  }

  /** Whenever the service is started it is because protection is really
      active, which already implies every permission. */
  lemma ServiceStartsIffReallyActive(prefs: SafecallPrefs, p: Platform)
    ensures UpdateUi(prefs, p).startsService <==> UpdateUi(prefs, p).status == Enabled
  {
  }

  /** The three paths of `verifyAndActivateProtection`. */
  datatype ToggleOutcome =
    | Deactivated
    | Refused(missing: seq<Requirement>)   // the toast listing what is missing
    | Activated(startsService: bool)

  /** `verifyAndActivateProtection`: switch off whenever on; switch on only
      when every requirement is met. It refreshes the screen (`ui`) after
      switching either way, but not after refusing. */
  method VerifyAndActivateProtection(prefs: SafecallPrefs, p: Platform) returns (outcome: ToggleOutcome, ui: Option<UiState>)
    modifies prefs
    ensures old(prefs.allSetupCompleted) ==>
              outcome == Deactivated && !prefs.allSetupCompleted && !prefs.callScreeningConfigured
    ensures !old(prefs.allSetupCompleted) && !HasAllProtection(p) ==>
              && outcome == Refused(MissingRequirements(p))
              && prefs.allSetupCompleted == old(prefs.allSetupCompleted)
              && prefs.callScreeningConfigured == old(prefs.callScreeningConfigured)
    ensures !old(prefs.allSetupCompleted) && HasAllProtection(p) ==>
              outcome == Activated(true) && prefs.allSetupCompleted && prefs.callScreeningConfigured
    ensures prefs.blockedCallsCount == old(prefs.blockedCallsCount)
    ensures ui == if outcome.Refused? then None else Some(UpdateUi(prefs, p))
    ensures outcome.Activated? ==> ui.value.status == Enabled && ui.value.startsService
    ensures outcome == Deactivated ==> ui.value.status != Enabled && !ui.value.startsService
  {
    var currentlyEnabled := prefs.allSetupCompleted;
    var hasSystemRequirements := HasAllProtection(p);
    if currentlyEnabled {
      prefs.PutProtectionFlags(false);
      return Deactivated, Some(UpdateUi(prefs, p));
    }
    if !hasSystemRequirements {
      return Refused(MissingRequirements(p)), None;
    }
    prefs.PutProtectionFlags(true);
    var startsService := HasAllPermissions(p);
    return Activated(startsService), Some(UpdateUi(prefs, p));
  }

  // ---------------------------------------------------------------------
  // How the screen relates to the services

  /** When the screen says protection is really active, the screening
      service's gate is open too. */
  lemma ReallyActiveOpensScreeningGate(userEnabled: bool, p: Platform)
    requires IsProtectionReallyActive(userEnabled, p)
    ensures CallScreening.IsProtectionActive(userEnabled, p)
  {
    if p.sdkInt >= SDK_Q {
      var rm := p.roleManager.value;
      if !CallScreening.HoldsScreeningRole(rm) {
        assert IsDefaultDialer(p);
      }
    }
  }

  /** The converse fails: before Android 10 the screen also demands the
      default dialer role, which the service's gate does not. */
  lemma ScreenStricterBeforeQ(p: Platform)
    requires p.sdkInt < SDK_Q && p.readContacts && p.answerPhoneCalls
    requires !IsDefaultDialer(p)
    ensures CallScreening.IsProtectionActive(true, p)
    ensures !IsProtectionReallyActive(true, p)
  {
  }

  /** And on Android 10+ a failing role query makes the screen report
      "call screening missing" even for the default dialer, while the
      service's gate falls back to the dialer and stays open. */
  lemma RoleQueryFailureHidesDialer(p: Platform)
    requires p.sdkInt >= SDK_Q && p.readContacts && p.answerPhoneCalls
    requires p.roleManager == Returns(RoleManager(Throws, Throws))
    requires IsDefaultDialer(p)
    ensures CallScreening.IsProtectionActive(true, p)
    ensures CallScreeningSetup in MissingRequirements(p)
  {
  }
}
