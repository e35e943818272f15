/** The legacy PHONE_STATE broadcast path (`CallReceiver`): a stricter gate,
    an attempt to end the ringing call, and a counter that only moves when
    that attempt succeeds. */
module CallReceiver {
  import opened Android
  import opened ContactsHelper
  import opened Preferences
  import CallScreening

  /** `TelephonyManager.ACTION_PHONE_STATE_CHANGED`. */
  const ACTION_PHONE_STATE_CHANGED: string := "android.intent.action.PHONE_STATE"
  /** `TelephonyManager.EXTRA_STATE_RINGING`, `_IDLE`, `_OFFHOOK`. */
  const EXTRA_STATE_RINGING: string := "RINGING"
  const EXTRA_STATE_IDLE: string := "IDLE"
  const EXTRA_STATE_OFFHOOK: string := "OFFHOOK"

  /** The broadcast: its action and the `EXTRA_STATE` and
      `EXTRA_INCOMING_NUMBER` extras, each possibly absent. */
  datatype Intent = Intent(action: Option<string>, state: Option<string>, incomingNumber: Option<string>)

  /** What one broadcast leads to. */
  datatype ReceiverOutcome =
    | Ignored                          // other action, gate closed, or not RINGING
    | ContactAllowed                   // a contact is ringing: nothing is done
    | BlockAttempted(blocked: bool)    // `blockCall` ran and returned `blocked`

  /** `isProtectionActive(context)`: the flag and both permissions, and on
      Android 10+ being the default dialer; the screening role is not consulted. */
  function IsProtectionActive(userEnabled: bool, p: Platform): (active: bool)
    ensures active ==> userEnabled && p.answerPhoneCalls && p.readContacts
    ensures p.sdkInt < SDK_Q ==> (active <==> userEnabled && p.answerPhoneCalls && p.readContacts)
    ensures p.sdkInt >= SDK_Q ==>
              (active <==> userEnabled && p.answerPhoneCalls && p.readContacts && DefaultDialerIsUs(p) == Returns(true))
  {
    if !userEnabled then false
    else if !p.answerPhoneCalls || !p.readContacts then false
    else if p.sdkInt >= SDK_Q then
      match DefaultDialerIsUs(p)
      case Returns(isDefault) => isDefault
      case Throws => false
    else true
  }

  /** `blockCall`: `endCall()` on Android 9+ with ANSWER_PHONE_CALLS. Its
      boolean result is ignored: only an exception counts as failure. */
  function BlockCall(p: Platform): (blocked: bool)
    ensures blocked <==> p.sdkInt >= SDK_P && p.answerPhoneCalls && p.telecom.Returns?
                         && p.telecom.value.endCall.Returns?
  {
    if p.sdkInt >= SDK_P then
      match p.telecom
      case Throws => false
      case Returns(telecom) =>
        if p.answerPhoneCalls then
          match telecom.endCall
          case Returns(_) => true
          case Throws => false
        else false
    else false
  }

  /** What `handleIncomingCall` does for a ringing call that passed the gate. */
  function IncomingCallOutcome(p: Platform, phoneNumber: Option<string>): (r: ReceiverOutcome)
    ensures r != Ignored
    ensures r.BlockAttempted? ==> r.blocked == BlockCall(p)
  {
    if IsNullOrBlank(phoneNumber) then BlockAttempted(BlockCall(p))
    else if !InContacts(phoneNumber.value, p) then BlockAttempted(BlockCall(p))
    else ContactAllowed
  }

  /** What `onReceive` does with one broadcast. */
  function ReceiveOutcome(userEnabled: bool, p: Platform, intent: Intent): (r: ReceiverOutcome)
    ensures r != Ignored ==>
              intent.action == Some(ACTION_PHONE_STATE_CHANGED) && intent.state == Some(EXTRA_STATE_RINGING)
              && IsProtectionActive(userEnabled, p)
  {
    if intent.action != Some(ACTION_PHONE_STATE_CHANGED) then Ignored
    else if !IsProtectionActive(userEnabled, p) then Ignored
    else if intent.state == Some(EXTRA_STATE_RINGING) then IncomingCallOutcome(p, intent.incomingNumber)
    else Ignored  // IDLE and OFFHOOK are only logged; other states match no branch
  }

  /** `handleIncomingCall`. */
  method HandleIncomingCall(prefs: SafecallPrefs, p: Platform, phoneNumber: Option<string>)
    returns (outcome: ReceiverOutcome)
    modifies prefs
    ensures outcome == IncomingCallOutcome(p, phoneNumber)
    ensures prefs.blockedCallsCount ==
              if outcome == BlockAttempted(true) then Some(Int32Succ(old(prefs.BlockedCalls())))
              else old(prefs.blockedCallsCount)
    ensures prefs.allSetupCompleted == old(prefs.allSetupCompleted)
    ensures prefs.callScreeningConfigured == old(prefs.callScreeningConfigured)
  {
    if IsNullOrBlank(phoneNumber) {
      var blocked := BlockCall(p);
      if blocked {
        prefs.IncrementBlockedCallsCount();
      }
      return BlockAttempted(blocked);
    }
    var isContact := IsNumberInContacts(phoneNumber.value, p);
    if !isContact {
      var blocked := BlockCall(p);
      if blocked {
        prefs.IncrementBlockedCallsCount();
      }
      return BlockAttempted(blocked);
    }
    return ContactAllowed;
  }

  /** `onReceive`. */
  method OnReceive(prefs: SafecallPrefs, p: Platform, intent: Intent) returns (outcome: ReceiverOutcome)
    modifies prefs
    ensures outcome == ReceiveOutcome(old(prefs.allSetupCompleted), p, intent)
    ensures prefs.blockedCallsCount ==
              if outcome == BlockAttempted(true) then Some(Int32Succ(old(prefs.BlockedCalls())))
              else old(prefs.blockedCallsCount)
    ensures prefs.allSetupCompleted == old(prefs.allSetupCompleted)
    ensures prefs.callScreeningConfigured == old(prefs.callScreeningConfigured)
  {
    if intent.action != Some(ACTION_PHONE_STATE_CHANGED) {
      return Ignored;
    }
    if !IsProtectionActive(prefs.allSetupCompleted, p) {
      return Ignored;
    }
    var state := intent.state;
    if state == Some(EXTRA_STATE_RINGING) {
      outcome := HandleIncomingCall(prefs, p, intent.incomingNumber);
    } else {
      outcome := Ignored;
    }
  }

  // ---------------------------------------------------------------------
  // Properties

  /** Only a ringing PHONE_STATE broadcast can lead anywhere; the IDLE and
      OFFHOOK states, any other state and any other action change nothing. */
  lemma OnlyRingingActs(userEnabled: bool, p: Platform, intent: Intent)
    requires intent.action != Some(ACTION_PHONE_STATE_CHANGED) || intent.state != Some(EXTRA_STATE_RINGING)
    ensures ReceiveOutcome(userEnabled, p, intent) == Ignored
  {
  }

  /** In particular the IDLE and OFFHOOK broadcasts are only logged. */
  lemma IdleAndOffhookIgnored(userEnabled: bool, p: Platform, number: Option<string>)
    ensures ReceiveOutcome(userEnabled, p, Intent(Some(ACTION_PHONE_STATE_CHANGED), Some(EXTRA_STATE_IDLE), number)) == Ignored
    ensures ReceiveOutcome(userEnabled, p, Intent(Some(ACTION_PHONE_STATE_CHANGED), Some(EXTRA_STATE_OFFHOOK), number)) == Ignored
  {
    OnlyRingingActs(userEnabled, p, Intent(Some(ACTION_PHONE_STATE_CHANGED), Some(EXTRA_STATE_IDLE), number));
    OnlyRingingActs(userEnabled, p, Intent(Some(ACTION_PHONE_STATE_CHANGED), Some(EXTRA_STATE_OFFHOOK), number));
  }

  /** A ringing stranger (or hidden caller) leads to a block attempt whose
      success is exactly `blockCall`'s; a ringing contact is left alone. */
  lemma RingingOutcome(userEnabled: bool, p: Platform, number: Option<string>)
    requires IsProtectionActive(userEnabled, p)
    ensures var r := ReceiveOutcome(userEnabled, p, Intent(Some(ACTION_PHONE_STATE_CHANGED), Some(EXTRA_STATE_RINGING), number));
            && (IsNullOrBlank(number) ==> r == BlockAttempted(BlockCall(p)))
            && (!IsNullOrBlank(number) ==> (r == ContactAllowed <==> InContacts(number.value, p)))
            && (!IsNullOrBlank(number) && !InContacts(number.value, p) ==> r == BlockAttempted(BlockCall(p)))
  {
  }

  /** `endCall()` reporting false still counts as a successful block. */
  lemma EndCallResultIgnored(p: Platform)
    requires p.sdkInt >= SDK_P && p.answerPhoneCalls
    requires p.telecom.Returns? && p.telecom.value.endCall == Returns(false)
    ensures BlockCall(p)
  {
  }

  /** The broadcast gate is at least as strict as the screening service's,
      as long as the role manager can be obtained. */
  lemma ReceiverGateImpliesScreeningGate(userEnabled: bool, p: Platform)
    requires IsProtectionActive(userEnabled, p)
    requires p.roleManager.Returns?
    ensures CallScreening.IsProtectionActive(userEnabled, p)
  {
  }

  /** It is strictly stricter: holding only the screening role opens the
      service's gate but not the receiver's. */
  lemma ScreeningRoleAloneNotEnough(p: Platform)
    requires p.sdkInt >= SDK_Q && p.readContacts && p.answerPhoneCalls
    requires p.roleManager == Returns(RoleManager(Returns(true), Returns(true)))
    requires p.telecom.Returns? && p.telecom.value.defaultDialerPackage != Some(p.packageName)
    ensures CallScreening.IsProtectionActive(true, p)
    ensures !IsProtectionActive(true, p)
  {
  }
}
