/** The parts of the Android platform that the call-filtering core consults,
    as one immutable snapshot per decision. Each platform query that the
    source wraps in a `try` is a `Probe`: it either returns a value or throws. */
module Android {

  datatype Option<+T> = None | Some(value: T)

  /** The outcome of one platform call that may raise an exception. */
  datatype Probe<+T> = Returns(value: T) | Throws

  /** Kotlin's `Int`: a 32-bit two's-complement integer. */
  newtype int32 = x: int | -0x8000_0000 <= x < 0x8000_0000

  const INT32_MIN: int32 := -0x8000_0000
  const INT32_MAX: int32 := 0x7fff_ffff

  /** `x + 1` on a Kotlin `Int`, which wraps around at the top of the range. */
  function Int32Succ(x: int32): (r: int32)
    ensures x < INT32_MAX ==> r as int == x as int + 1
    ensures x == INT32_MAX ==> r == INT32_MIN
  {
    if x == INT32_MAX then INT32_MIN else x + 1
  }

  /** `Build.VERSION_CODES.M`, `.P` and `.Q`. */
  const SDK_M := 23
  const SDK_P := 28
  const SDK_Q := 29

  /** The phone-number column of the contacts provider, in cursor order.
      A row's value may be null. `Unavailable` is a null cursor or a query
      that raised (missing permission or any other failure). */
  datatype ContactsQuery = Rows(numbers: seq<Option<string>>) | Unavailable

  /** `getSystemService(RoleManager::class.java)`; it may come back null. */
  datatype RoleManager =
    | NullRoleManager
    | RoleManager(isRoleAvailable: Probe<bool>, isRoleHeld: Probe<bool>)

  /** `getSystemService(TELECOM_SERVICE) as TelecomManager`. `endCall`
      is what the platform would do when asked to end the ringing call. */
  datatype TelecomManager = TelecomManager(defaultDialerPackage: Option<string>, endCall: Probe<bool>)

  /** `PhoneNumberUtils.areSamePhoneNumber(a, b, countryIso)` (API 29+) and
      the deprecated `PhoneNumberUtils.compare(a, b)`: opaque platform oracles. */
  datatype PhoneNumberUtils = PhoneNumberUtils(
    areSamePhoneNumber: (string, string, string) -> Probe<bool>,
    compare: (string, string) -> Probe<bool>)

  /** One snapshot of everything the core asks the platform. */
  datatype Platform = Platform(
    sdkInt: int,
    packageName: string,
    readPhoneState: bool,
    readContacts: bool,
    answerPhoneCalls: bool,
    canDrawOverlays: Probe<bool>,
    roleManager: Probe<RoleManager>,
    telecom: Probe<TelecomManager>,
    networkCountryIso: Probe<Option<string>>,  // None: no TelephonyManager
    localeCountry: string,                     // Locale.getDefault().country
    phoneNumberUtils: PhoneNumberUtils,
    contacts: ContactsQuery)

  /** `telecom.defaultDialerPackage == packageName`, where obtaining the
      telecom service may throw. */
  function DefaultDialerIsUs(p: Platform): (r: Probe<bool>)
    ensures r == Returns(true) <==> p.telecom.Returns? && p.telecom.value.defaultDialerPackage == Some(p.packageName)
    ensures r.Throws? <==> p.telecom.Throws?
  {
    match p.telecom
    case Throws => Throws
    case Returns(t) => Returns(t.defaultDialerPackage == Some(p.packageName))
  }
}
