/** The Android 10+ call-screening service (`CallScreeningService`): an
    activation gate, the block decision, and the blocked-call counter. */
module CallScreening {
  import opened Android
  import opened ContactsHelper
  import opened Preferences

  /** The fields of `CallResponse.Builder` that the service sets. */
  datatype CallResponse = CallResponse(disallowCall: bool, rejectCall: bool, skipCallLog: bool, skipNotification: bool)

  /** `setDisallowCall(false).setRejectCall(false)`; the rest keep the builder's false. */
  const AllowResponse := CallResponse(false, false, false, false)

  /** `setDisallowCall(true).setRejectCall(true).setSkipCallLog(false).setSkipNotification(true)`. */
  const BlockResponse := CallResponse(true, true, false, true)

  /** The inner `try` around the two role queries of `isProtectionActive`:
      both queries run, and an exception in either (or a null role manager)
      counts as "not held". */
  function HoldsScreeningRole(rm: RoleManager): (held: bool)
    ensures held <==> rm.RoleManager? && rm.isRoleAvailable == Returns(true) && rm.isRoleHeld == Returns(true)
  {
    match rm
    case NullRoleManager => false
    case RoleManager(available, heldProbe) =>
      match (available, heldProbe)
      case (Returns(a), Returns(h)) => a && h
      case _ => false
  }

  /** `isProtectionActive`, given the persisted `all_setup_completed` flag. */
  function IsProtectionActive(userEnabled: bool, p: Platform): (active: bool)
    ensures !userEnabled ==> !active
    ensures active ==> p.readContacts && p.answerPhoneCalls
    ensures userEnabled && p.readContacts && p.answerPhoneCalls && p.sdkInt < SDK_Q ==> active
  {
    if !userEnabled then false
    else if !p.readContacts || !p.answerPhoneCalls then false
    else if p.sdkInt >= SDK_Q then
      match p.roleManager
      case Throws => false   // getSystemService outside the inner try
      case Returns(rm) =>
        if HoldsScreeningRole(rm) then true
        else DefaultDialerIsUs(p) == Returns(true)
    else true
  }

  /** On Android 10+ with the flag and both permissions, the gate is open
      exactly when the screening role is held or the app is the default
      dialer, provided the role manager itself could be obtained. */
  lemma GateOnAndroidQ(userEnabled: bool, p: Platform)
    requires userEnabled && p.readContacts && p.answerPhoneCalls && p.sdkInt >= SDK_Q
    ensures p.roleManager.Throws? ==> !IsProtectionActive(userEnabled, p)
    ensures p.roleManager.Returns? ==>
              (IsProtectionActive(userEnabled, p) <==>
                 HoldsScreeningRole(p.roleManager.value)
                 || (p.telecom.Returns? && p.telecom.value.defaultDialerPackage == Some(p.packageName)))
  {
  }

  /** A failing role query does not close the gate by itself: the default
      dialer still opens it. */
  lemma RoleQueryFailureFallsBackToDialer(p: Platform)
    requires p.readContacts && p.answerPhoneCalls && p.sdkInt >= SDK_Q
    requires p.roleManager.Returns? && p.roleManager.value.RoleManager?
    requires p.roleManager.value.isRoleHeld.Throws?
    ensures IsProtectionActive(true, p) <==> DefaultDialerIsUs(p) == Returns(true)
  {
  }

  /** What `shouldBlockCall` decides for a non-blank number: block a
      stranger, but never without READ_CONTACTS. */
  predicate ShouldBlock(phoneNumber: string, p: Platform) {
    p.readContacts && !InContacts(phoneNumber, p)
  }

  /** `shouldBlockCall`. Its own catch blocks are unreachable: everything in
      the `try` that can fail is already caught inside `ContactsHelper`. */
  method ShouldBlockCall(phoneNumber: string, p: Platform) returns (shouldBlock: bool)
    ensures shouldBlock <==> ShouldBlock(phoneNumber, p)
    ensures !p.readContacts ==> !shouldBlock
  {
    if !p.readContacts {
      return false;
    }
    var contactsCount := GetContactsCount(p);  // only logged
    var isContact := IsNumberInContacts(phoneNumber, p);
    shouldBlock := !isContact;
  }

  /** The whole verdict of `onScreenCall`. */
  predicate Blocks(userEnabled: bool, p: Platform, phoneNumber: Option<string>) {
    IsProtectionActive(userEnabled, p)
    && (IsNullOrBlank(phoneNumber) || ShouldBlock(phoneNumber.value, p))
  }

  /** The response `onScreenCall` sends back for that verdict. */
  function ScreeningResponse(userEnabled: bool, p: Platform, phoneNumber: Option<string>): (r: CallResponse)
    ensures r.disallowCall == r.rejectCall == Blocks(userEnabled, p, phoneNumber)
    ensures r == AllowResponse || r == BlockResponse
  {
    if Blocks(userEnabled, p, phoneNumber) then BlockResponse else AllowResponse
  }

  /** `onScreenCall`: answer the platform and count every blocked call.
      `refreshNotification` is the UPDATE_NOTIFICATION broadcast. */
  method OnScreenCall(prefs: SafecallPrefs, p: Platform, phoneNumber: Option<string>)
    returns (response: CallResponse, refreshNotification: bool)
    modifies prefs
    ensures response == ScreeningResponse(old(prefs.allSetupCompleted), p, phoneNumber)
    ensures refreshNotification == Blocks(old(prefs.allSetupCompleted), p, phoneNumber)
    ensures prefs.blockedCallsCount ==
              if Blocks(old(prefs.allSetupCompleted), p, phoneNumber)
              then Some(Int32Succ(old(prefs.BlockedCalls())))
              else old(prefs.blockedCallsCount)
    ensures prefs.allSetupCompleted == old(prefs.allSetupCompleted)
    ensures prefs.callScreeningConfigured == old(prefs.callScreeningConfigured)
  {
    if !IsProtectionActive(prefs.allSetupCompleted, p) {
      return AllowResponse, false;
    }
    if IsNullOrBlank(phoneNumber) {
      response := BlockResponse;
      prefs.IncrementBlockedCallsCount();
      return response, true;
    }
    var shouldBlock := ShouldBlockCall(phoneNumber.value, p);
    if shouldBlock {
      response := BlockResponse;
      prefs.IncrementBlockedCallsCount();
      refreshNotification := true;
    } else {
      response := AllowResponse;
      refreshNotification := false;
    }
  }

  // ---------------------------------------------------------------------
  // Properties of the verdict

  /** While the gate is closed every call is let through. */
  lemma InactiveGateAllows(userEnabled: bool, p: Platform, phoneNumber: Option<string>)
    requires !IsProtectionActive(userEnabled, p)
    ensures ScreeningResponse(userEnabled, p, phoneNumber) == AllowResponse
  {
  }

  /** With the gate open, a hidden or blank caller is always blocked. */
  lemma HiddenCallerBlocked(userEnabled: bool, p: Platform, phoneNumber: Option<string>)
    requires IsProtectionActive(userEnabled, p) && IsNullOrBlank(phoneNumber)
    ensures ScreeningResponse(userEnabled, p, phoneNumber) == BlockResponse
  {
  }

  /** With the gate open, a visible number is blocked exactly when it is not
      a contact: the gate already demands READ_CONTACTS, so the permission
      check inside `shouldBlockCall` never lets a call through here. */
  lemma OpenGateBlocksExactlyStrangers(userEnabled: bool, p: Platform, phoneNumber: string)
    requires IsProtectionActive(userEnabled, p) && !IsBlank(phoneNumber)
    ensures Blocks(userEnabled, p, Some(phoneNumber)) <==> !InContacts(phoneNumber, p)
  {
  }

  /** No contact data is not "fail open": with the gate open, an unreadable
      or empty contact list blocks every caller. */
  lemma NoContactsBlocksEveryone(userEnabled: bool, p: Platform, phoneNumber: Option<string>)
    requires IsProtectionActive(userEnabled, p)
    requires p.contacts == Unavailable || p.contacts == Rows([])
    ensures Blocks(userEnabled, p, phoneNumber)
  {
    if !IsNullOrBlank(phoneNumber) {
      NoContactsNoMatch(phoneNumber.value, p);
    }
  }

  /** A caller saved in the contacts (same number after normalisation) is
      never blocked. */
  lemma SavedContactAllowed(userEnabled: bool, p: Platform, phoneNumber: string, j: nat)
    requires !IsBlank(phoneNumber)
    requires p.contacts.Rows? && j < |p.contacts.numbers| && p.contacts.numbers[j].Some?
    requires NormalizePhoneNumber(p.contacts.numbers[j].value) == NormalizePhoneNumber(phoneNumber) != []
    ensures ScreeningResponse(userEnabled, p, Some(phoneNumber)) == AllowResponse
  {
    ContactWithSameNumberFound(phoneNumber, p, j);
  }
}
