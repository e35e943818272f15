# Safecall-kids call-blocking core in Dafny

Safecall-kids is an Android app that lets calls through from numbers saved in
the phone's contacts and blocks everyone else, hidden callers included. This
project models the part of the app that makes that decision:

- `ContactsHelper`: turning a phone number into a canonical form, the
  rules for deciding that two numbers are the same, the contact look-up,
  the contact count and the contact sample.
- `CallScreening`: the Android 10+ `CallScreeningService`, which checks
  whether protection is active, decides whether to block a call and counts
  blocked calls.
- `CallReceiver`: the legacy `PHONE_STATE` broadcast receiver, with its own
  stricter gate and its `endCall` attempt.
- `MainActivity`: the status logic of the main screen (which requirements are
  missing, whether protection is really active) and the enable/disable
  toggle.

The Android platform is an immutable snapshot, the datatype
`Android.Platform`. It holds:

- the SDK level and the three runtime permissions, as plain booleans;
- the overlay permission;
- the role manager and the telecom manager;
- the country settings;
- the platform's `PhoneNumberUtils`, modelled as uninterpreted functions;
- the rows of the contacts query.

Every platform call that can throw is a `Probe`, which is `Returns(v)` or
`Throws`, so each `try`/`catch` of the source becomes a case split.

The `safecall_prefs` file is a class, `Preferences.SafecallPrefs`, with three
fields: the two activation flags and the blocked-call counter. The counter
keeps Kotlin's 32-bit `Int` wrap-around. The methods that write it have
`modifies` clauses and state the whole new state.

Files:
`android.dfy` (platform), `prefs.dfy` (preferences), `contacts_helper.dfy`,
`call_screening.dfy`, `call_receiver.dfy`, `main_activity.dfy`.

### Behaviour worth knowing

- **Normalising a number twice can change it again.**
  - Only one leading `"+55"` is removed. `"+55+55" + d` normalises to
    `"+55" + d`, and normalising that gives `d` (`NormalizeNotIdempotentInGeneral`).
  - Normalising twice gives the same result as once when a `+` can appear
    only in front of the filtered number (`NormalizeIdempotent`).
  - Only the literal `"+55"` is stripped. Any other `+` prefix loses just its `+`.
- **Missing contact data blocks callers.**
  - An unreadable cursor or an empty contact list makes every caller a
    stranger, so with the gate open everyone is blocked (`NoContactsBlocksEveryone`).
  - Only a missing READ_CONTACTS permission lets calls through.
- **The two call paths count blocked calls differently.**
  - The screening service counts every block decision.
  - The broadcast receiver counts a call only when `blockCall` returns true.
  - `blockCall` ignores `endCall()`'s own boolean result (`EndCallResultIgnored`).
- **The three activation checks differ.**
  - The receiver's gate does not consult the screening role
    (`ScreeningRoleAloneNotEnough`).
  - The main screen demands the default dialer below Android 10, where the
    service asks only for the flag and the permissions (`ScreenStricterBeforeQ`).
  - On Android 10+, a failing role query makes the main screen report call
    screening as missing. In the same situation the service falls back to the
    default-dialer check (`RoleQueryFailureHidesDialer`).
- **The catch blocks of `shouldBlockCall` are unreachable.** Every callee
  already catches its own exceptions.

## Model

| member | source | states |
|---|---|---|
| Android.Int32Succ | app/src/main/java/com/safecallkids/app/CallScreeningService.kt:188-194 | Kotlin `Int` increment: one more below `Int.MAX_VALUE`, wraps to `Int.MIN_VALUE` at it |
| Android.DefaultDialerIsUs | app/src/main/java/com/safecallkids/app/CallReceiver.kt:56-64 | the default-dialer test: throws exactly when the telecom service cannot be obtained, otherwise true iff the default dialer package is this app |
| Preferences.SafecallPrefs.constructor | app/src/main/java/com/safecallkids/app/MainActivity.kt:328-329 | a fresh preferences file: both flags read false and the counter key is absent |
| Preferences.SafecallPrefs.BlockedCalls | app/src/main/java/com/safecallkids/app/CallScreeningService.kt:190 | `getInt("blocked_calls_count", 0)`: 0 while the key is absent, the stored value otherwise |
| Preferences.SafecallPrefs.IncrementBlockedCallsCount | app/src/main/java/com/safecallkids/app/CallScreeningService.kt:188-194 | the counter becomes the 32-bit successor of its old value (old + 1 below the maximum); both flags are unchanged |
| Preferences.SafecallPrefs.PutProtectionFlags | app/src/main/java/com/safecallkids/app/MainActivity.kt:881-884 | both activation flags take the given value; the counter is unchanged |
| ContactsHelper.KeepPlusAndDigits | app/src/main/java/com/safecallkids/app/ContactsHelper.kt:100 | the regex filter: the result holds only `+` and digits, and each kept character occurs exactly as often as in the input (dropped ones not at all) |
| ContactsHelper.KeepPlusAndDigitsConcat | app/src/main/java/com/safecallkids/app/ContactsHelper.kt:100 | the filter distributes over concatenation, so kept characters stay in their order |
| ContactsHelper.KeepPlusAndDigitsChar | app/src/main/java/com/safecallkids/app/ContactsHelper.kt:100 | a single character is kept iff it is `+` or a digit |
| ContactsHelper.KeepPlusAndDigitsFixesKept | app/src/main/java/com/safecallkids/app/ContactsHelper.kt:100 | filtering an already filtered string changes nothing |
| ContactsHelper.StripCountryPrefix | app/src/main/java/com/safecallkids/app/ContactsHelper.kt:103-109 | the result is a suffix of the input, shorter by 3 when it starts with `+55`, else by 1 when it starts with `+`, else by 0 |
| ContactsHelper.TrimLeadingZeros | app/src/main/java/com/safecallkids/app/ContactsHelper.kt:112 | the result is a suffix of the input, every dropped character is `0`, and it does not start with `0` |
| ContactsHelper.NormalizePhoneNumber | app/src/main/java/com/safecallkids/app/ContactsHelper.kt:96-122 | a blank input gives the empty string; the result holds only `+` and digits and never starts with `0` |
| ContactsHelper.BlankFiltersToEmpty | app/src/main/java/com/safecallkids/app/ContactsHelper.kt:97-100 | a blank string holds no `+` or digit, so the filter leaves nothing |
| ContactsHelper.NormalizeIgnoresFormatting | app/src/main/java/com/safecallkids/app/ContactsHelper.kt:96-122 | every input normalises exactly as its filtered form does: spaces, dashes, parentheses and other characters are removed first and do not change the result |
| ContactsHelper.NormalizeFixesCanonical | app/src/main/java/com/safecallkids/app/ContactsHelper.kt:96-122 | a digit string without a leading zero is its own normal form |
| ContactsHelper.NormalizeIdempotent | app/src/main/java/com/safecallkids/app/ContactsHelper.kt:96-122 | normalising twice equals normalising once, whenever the filtered input has `+` at most at its front |
| ContactsHelper.NormalizeKept | app/src/main/java/com/safecallkids/app/ContactsHelper.kt:103-112 | on a non-empty filtered string, normalisation is the prefix strip followed by the zero trim |
| ContactsHelper.NormalizeStripsBrazilCode | app/src/main/java/com/safecallkids/app/ContactsHelper.kt:103-105 | a `+55` in front of a filtered number without a leading zero is exactly what normalisation removes |
| ContactsHelper.NormalizeNotIdempotentInGeneral | app/src/main/java/com/safecallkids/app/ContactsHelper.kt:103-109 | for every canonical digit string d, `+55+55`+d normalises to `+55`+d, which normalises again to d, so normalisation is not idempotent |
| ContactsHelper.TakeLast | app/src/main/java/com/safecallkids/app/ContactsHelper.kt:144-145 | Kotlin `takeLast(n)`: the last min(n, length) characters |
| ContactsHelper.WithoutNinthDigit | app/src/main/java/com/safecallkids/app/ContactsHelper.kt:137-142 | the number with its third character removed, character by character |
| ContactsHelper.AsciiUpper | app/src/main/java/com/safecallkids/app/ContactsHelper.kt:155 | upper-casing of the country code: same length, each `a`-`z` becomes its capital and every other character is unchanged |
| ContactsHelper.CountryIso | app/src/main/java/com/safecallkids/app/ContactsHelper.kt:153-158 | the network's country code upper-cased when the telephony service reports one; the default locale's country when it reports none or throws |
| ContactsHelper.PlatformSameNumber | app/src/main/java/com/safecallkids/app/ContactsHelper.kt:149-166 | on Android 10+ the answer of `areSamePhoneNumber` with that country, below it the answer of `compare`; an exception from either gives false |
| ContactsHelper.ComparePhoneNumbers | app/src/main/java/com/safecallkids/app/ContactsHelper.kt:129-167 | an empty number matches nothing; a non-empty number matches itself; two non-empty numbers the platform comparison calls the same match |
| ContactsHelper.SuffixRuleMeaning | app/src/main/java/com/safecallkids/app/ContactsHelper.kt:144-148 | the suffix rule fires iff both numbers have at least 8 characters and their last 8 agree |
| ContactsHelper.NinthDigitMatchesBothWays | app/src/main/java/com/safecallkids/app/ContactsHelper.kt:136-143 | an 11-digit number and its 10-digit form without the 9th digit match in both argument orders |
| ContactsHelper.NinthDigitImpliesSuffix | app/src/main/java/com/safecallkids/app/ContactsHelper.kt:136-148 | whenever the 9th-digit rule fires, the 8-character suffix rule fires too, in both orders |
| ContactsHelper.CompareWithoutOracle | app/src/main/java/com/safecallkids/app/ContactsHelper.kt:129-167 | when the platform comparison says no or throws, two numbers match iff both are non-empty and they are equal or share their last 8 characters |
| ContactsHelper.CompareSymmetric | app/src/main/java/com/safecallkids/app/ContactsHelper.kt:129-167 | with a symmetric platform comparison, matching is symmetric |
| ContactsHelper.NoRowMatches | app/src/main/java/com/safecallkids/app/ContactsHelper.kt:30-38 | when the front-to-back scan finds nothing, no row of the cursor matches |
| ContactsHelper.IsNumberInContacts | app/src/main/java/com/safecallkids/app/ContactsHelper.kt:21-51 | found iff some row of the contacts cursor, normalised, matches the normalised input; no cursor gives false |
| ContactsHelper.BlankEntryNeverMatches | app/src/main/java/com/safecallkids/app/ContactsHelper.kt:32-35 | a null or blank contact row never matches |
| ContactsHelper.FoundOnlyThroughNonBlankRow | app/src/main/java/com/safecallkids/app/ContactsHelper.kt:21-51 | a number is found only when the query returned rows and one of them is non-blank |
| ContactsHelper.ContactWithSameNumberFound | app/src/main/java/com/safecallkids/app/ContactsHelper.kt:21-51 | a row normalising to the same non-empty number as the input is found |
| ContactsHelper.NoContactsNoMatch | app/src/main/java/com/safecallkids/app/ContactsHelper.kt:21-51 | with no cursor or an empty one, no number is a contact |
| ContactsHelper.GetContactsCount | app/src/main/java/com/safecallkids/app/ContactsHelper.kt:56-69 | the number of rows, null rows included; 0 when the query fails |
| ContactsHelper.NonBlankNumbers | app/src/main/java/com/safecallkids/app/ContactsHelper.kt:176-183 | the non-blank rows: no more of them than rows, none blank |
| ContactsHelper.NonBlankNumbersMembers | app/src/main/java/com/safecallkids/app/ContactsHelper.kt:176-183 | a string is among the selected rows iff some row holds it and it is not blank |
| ContactsHelper.NonBlankNumbersConcat | app/src/main/java/com/safecallkids/app/ContactsHelper.kt:176-183 | the selection of non-blank rows distributes over concatenation, so every non-blank row is kept, in cursor order |
| ContactsHelper.NonBlankNumbersRow | app/src/main/java/com/safecallkids/app/ContactsHelper.kt:180-183 | a single row is kept iff it is neither null nor blank |
| ContactsHelper.NonBlankNumbersPrefix | app/src/main/java/com/safecallkids/app/ContactsHelper.kt:176-183 | the non-blank rows of a prefix of the cursor are a prefix of all non-blank rows |
| ContactsHelper.GetContactSample | app/src/main/java/com/safecallkids/app/ContactsHelper.kt:172-190 | the first min(limit, k) of the k non-blank rows, in cursor order (limit defaults to 5); at most max(limit, 0) of them, none blank |
| ContactsHelper.SampleWithinCount | app/src/main/java/com/safecallkids/app/ContactsHelper.kt:56-69 | the sample never holds more numbers than the contact count |
| CallScreening.HoldsScreeningRole | app/src/main/java/com/safecallkids/app/CallScreeningService.kt:113-122 | the screening role counts iff the role manager exists and both queries return true |
| CallScreening.IsProtectionActive | app/src/main/java/com/safecallkids/app/CallScreeningService.kt:79-150 | the gate is closed without the user flag and without READ_CONTACTS or ANSWER_PHONE_CALLS; below Android 10 the flag and both permissions open it |
| CallScreening.GateOnAndroidQ | app/src/main/java/com/safecallkids/app/CallScreeningService.kt:110-142 | on Android 10+, with the flag and the permissions: a failing role-manager lookup closes the gate; otherwise it is open iff the role is held or the app is the default dialer |
| CallScreening.RoleQueryFailureFallsBackToDialer | app/src/main/java/com/safecallkids/app/CallScreeningService.kt:113-136 | a throwing role query leaves the gate to the default-dialer check alone |
| CallScreening.ShouldBlockCall | app/src/main/java/com/safecallkids/app/CallScreeningService.kt:152-186 | block iff READ_CONTACTS is granted and the number is not a contact; never without the permission |
| CallScreening.ScreeningResponse | app/src/main/java/com/safecallkids/app/CallScreeningService.kt:51-76 | the response is either the allow or the block response, disallowing and rejecting exactly when the call is blocked |
| CallScreening.OnScreenCall | app/src/main/java/com/safecallkids/app/CallScreeningService.kt:17-77 | the response, the notification refresh and a counter increment all happen exactly for a blocked call; the flags are unchanged |
| CallScreening.InactiveGateAllows | app/src/main/java/com/safecallkids/app/CallScreeningService.kt:23-31 | while the gate is closed every call is allowed |
| CallScreening.HiddenCallerBlocked | app/src/main/java/com/safecallkids/app/CallScreeningService.kt:35-48 | with the gate open a hidden or blank caller is blocked |
| CallScreening.OpenGateBlocksExactlyStrangers | app/src/main/java/com/safecallkids/app/CallScreeningService.kt:51-76 | with the gate open a visible number is blocked iff it is not a contact |
| CallScreening.NoContactsBlocksEveryone | app/src/main/java/com/safecallkids/app/CallScreeningService.kt:51-76 | with the gate open and no contact data, every caller is blocked |
| CallScreening.SavedContactAllowed | app/src/main/java/com/safecallkids/app/CallScreeningService.kt:51-76 | a caller saved in the contacts under the same normalised number is allowed |
| CallReceiver.IsProtectionActive | app/src/main/java/com/safecallkids/app/CallReceiver.kt:44-67 | the gate needs the flag, ANSWER_PHONE_CALLS and READ_CONTACTS; below Android 10 these are enough, on Android 10+ the app must also be the default dialer |
| CallReceiver.BlockCall | app/src/main/java/com/safecallkids/app/CallReceiver.kt:98-122 | succeeds iff on Android 9+, with ANSWER_PHONE_CALLS, the telecom service is obtained and `endCall()` does not throw |
| CallReceiver.IncomingCallOutcome | app/src/main/java/com/safecallkids/app/CallReceiver.kt:69-96 | a ringing call is never ignored, and a block attempt's result is that of `blockCall` |
| CallReceiver.ReceiveOutcome | app/src/main/java/com/safecallkids/app/CallReceiver.kt:17-42 | only a ringing PHONE_STATE broadcast with the gate open leads anywhere |
| CallReceiver.HandleIncomingCall | app/src/main/java/com/safecallkids/app/CallReceiver.kt:69-96 | the outcome of the call; the counter moves by one exactly when blocking succeeded; the flags are unchanged |
| CallReceiver.OnReceive | app/src/main/java/com/safecallkids/app/CallReceiver.kt:17-42 | the outcome of the broadcast under the stored flag; the counter moves exactly when a block succeeded; the flags are unchanged |
| CallReceiver.OnlyRingingActs | app/src/main/java/com/safecallkids/app/CallReceiver.kt:17-42 | any other action or state, IDLE and OFFHOOK included, is ignored |
| CallReceiver.IdleAndOffhookIgnored | app/src/main/java/com/safecallkids/app/CallReceiver.kt:30-40 | the IDLE and OFFHOOK broadcasts are ignored whatever the gate and the number |
| CallReceiver.RingingOutcome | app/src/main/java/com/safecallkids/app/CallReceiver.kt:69-96 | with the gate open: a hidden caller and a stranger lead to a block attempt, and a visible number is left alone iff it is a contact |
| CallReceiver.EndCallResultIgnored | app/src/main/java/com/safecallkids/app/CallReceiver.kt:106-113 | `endCall()` returning false still counts as a successful block |
| CallReceiver.ReceiverGateImpliesScreeningGate | app/src/main/java/com/safecallkids/app/CallReceiver.kt:44-67 | when the role manager can be obtained, an open receiver gate implies an open screening-service gate |
| CallReceiver.ScreeningRoleAloneNotEnough | app/src/main/java/com/safecallkids/app/CallReceiver.kt:54-66 | holding only the screening role opens the screening service's gate but not the receiver's |
| MainActivity.HasAllPermissions | app/src/main/java/com/safecallkids/app/MainActivity.kt:150-159 | granted iff READ_PHONE_STATE, READ_CONTACTS and ANSWER_PHONE_CALLS are all granted |
| MainActivity.HasOverlayPermission | app/src/main/java/com/safecallkids/app/MainActivity.kt:161-174 | always granted below Android 6; from Android 6 on, granted iff `canDrawOverlays` returns true |
| MainActivity.IsDefaultDialer | app/src/main/java/com/safecallkids/app/MainActivity.kt:186-189 | true iff the telecom service is obtained and its default dialer package is this app; an exception gives false |
| MainActivity.IsDefaultCallScreeningService | app/src/main/java/com/safecallkids/app/MainActivity.kt:177-194 | on Android 10+ configured iff every role query asked answers and either the screening role is held or the app is the default dialer; below Android 10 exactly the default dialer |
| MainActivity.HasAllProtection | app/src/main/java/com/safecallkids/app/MainActivity.kt:312-319 | all three requirements are met |
| MainActivity.IsProtectionReallyActive | app/src/main/java/com/safecallkids/app/MainActivity.kt:324-337 | the requirements are met and the user flag is on |
| MainActivity.MissingRequirements | app/src/main/java/com/safecallkids/app/MainActivity.kt:401-404 | a requirement is listed iff it is not met, each at most once, in display order |
| MainActivity.NothingMissingIffProtected | app/src/main/java/com/safecallkids/app/MainActivity.kt:382-404 | the missing list is empty iff every requirement is met |
| MainActivity.Status | app/src/main/java/com/safecallkids/app/MainActivity.kt:382-412 | "enabled" iff really active, "available" iff set up but switched off, else "disabled" with the non-empty missing list |
| MainActivity.UpdateUi | app/src/main/java/com/safecallkids/app/MainActivity.kt:375-439 | the status line, the contact count, the stored blocked count; the service is started iff protection is really active and every permission is granted |
| MainActivity.ServiceStartsIffReallyActive | app/src/main/java/com/safecallkids/app/MainActivity.kt:437-439 | the screen starts the blocking service exactly when it shows protection as enabled |
| MainActivity.VerifyAndActivateProtection | app/src/main/java/com/safecallkids/app/MainActivity.kt:867-928 | switched on: clears both flags. Switched off with something missing: refuses and lists what is missing, flags unchanged. Switched off with everything set up: sets both flags and starts the service. The counter never changes, and the refreshed screen shows the new state |
| MainActivity.ReallyActiveOpensScreeningGate | app/src/main/java/com/safecallkids/app/MainActivity.kt:324-337 | when the screen says protection is really active, the screening service's gate is open |
| MainActivity.ScreenStricterBeforeQ | app/src/main/java/com/safecallkids/app/MainActivity.kt:177-194 | below Android 10 a missing default dialer closes the screen's check but not the service's gate |
| MainActivity.RoleQueryFailureHidesDialer | app/src/main/java/com/safecallkids/app/MainActivity.kt:177-194 | on Android 10+ with throwing role queries, the default dialer still opens the service's gate while the screen lists call screening as missing |

## Left out

- User interface: text, buttons, dialogs, toasts, language switching,
  the guided setup, and the permission and role request flows. These are
  presentation; only the decisions behind them are modelled.
- `CallBlockingService`, `DialerActivity` and `MyConnectionService` are not
  part of this model. Starting the blocking service is the `startsService`
  flag; the notification refresh broadcast is the `refreshNotification` result.
- Logging, including the `getContactsCount` call that `shouldBlockCall`
  makes only to log the result.
- Android permission checks are plain booleans. The `try` around
  `checkSelfPermission` never fires in the model.
- Shared preferences are a single-threaded in-memory store. `apply()`'s
  asynchronous write, concurrent calls from the two services, and the
  type-mismatch exceptions of `getBoolean`/`getInt` are not modelled.
- The rows of the contacts query are a finite list. A cursor that throws
  halfway through a scan has the same effect as `Unavailable` for
  `isNumberInContacts` (the catch returns false), but that partial scan is
  not modelled separately.
- ContactsHelper.GetContactSample: the catch at ContactsHelper.kt:186
  returns whatever was collected before an exception. The model covers a
  whole cursor or no cursor, not a partial scan.
- ContactsHelper.AsciiUpper: upper-cases ASCII letters only. Kotlin's
  `uppercase()` follows Unicode, which matters only for non-ASCII country
  codes.
- KeepPlusAndDigits: its own contract gives which characters are kept and
  how often, not their order. The order is stated by the lemmas
  KeepPlusAndDigitsConcat and KeepPlusAndDigitsChar, which together pin the
  filter down.
- NonBlankNumbers: its own contract gives only a bound and that no selected
  string is blank. Which rows are kept, and in what order, is stated by the
  lemmas NonBlankNumbersMembers, NonBlankNumbersConcat and NonBlankNumbersRow.
- IsDigit: only the ASCII digits count as digits. Android's regex `\d`
  also matches other Unicode decimal digits, so a number written in, say,
  Arabic-Indic digits keeps them in the app but normalises to nothing here.
- Kotlin strings are UTF-16 sequences. The model uses Dafny characters, so
  surrogate pairs count as one character instead of two.
- `PhoneNumberUtils.areSamePhoneNumber` and `compare` are uninterpreted
  functions of the platform. Their own rules are Android's, not the app's.
- The `catch` blocks of `shouldBlockCall` are not modelled: nothing inside
  its `try` can throw once the helpers catch their own exceptions.
