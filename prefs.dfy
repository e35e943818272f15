/** The `safecall_prefs` shared-preferences file, as a single-threaded store. */
module Preferences {
  import opened Android

  class SafecallPrefs {
    /** `all_setup_completed`: the user has switched protection on. */
    var allSetupCompleted: bool
    /** `call_screening_configured`: written by the toggle, read nowhere in the core. */
    var callScreeningConfigured: bool
    /** `blocked_calls_count`; `None` while the key has never been written. */
    var blockedCallsCount: Option<int32>

    /** A fresh install: no key has been written, so both flags read false. */
    constructor ()
      ensures !allSetupCompleted && !callScreeningConfigured && blockedCallsCount == None
    {
      allSetupCompleted := false;
      callScreeningConfigured := false;
      blockedCallsCount := None;
    }

    /** `getInt("blocked_calls_count", 0)`. */
    function BlockedCalls(): (n: int32)
      reads this
      ensures blockedCallsCount == None ==> n == 0
      ensures blockedCallsCount.Some? ==> n == blockedCallsCount.value
    {
      match blockedCallsCount
      case None => 0
      case Some(n) => n
    }

    /** `incrementBlockedCallsCount`: read the count (a missing key reads 0)
        and write it back plus one, with Kotlin's `Int` wrap-around. */
    method IncrementBlockedCallsCount()
      modifies this
      ensures blockedCallsCount == Some(Int32Succ(old(BlockedCalls())))
      ensures old(BlockedCalls()) < INT32_MAX ==> BlockedCalls() as int == old(BlockedCalls()) as int + 1
      ensures allSetupCompleted == old(allSetupCompleted)
      ensures callScreeningConfigured == old(callScreeningConfigured)
    {
      var currentCount := BlockedCalls();
      blockedCallsCount := Some(Int32Succ(currentCount));
    }

    /** One `edit()...apply()` that writes both activation flags to `enabled`. */
    method PutProtectionFlags(enabled: bool)
      modifies this
      ensures allSetupCompleted == enabled && callScreeningConfigured == enabled
      ensures blockedCallsCount == old(blockedCallsCount)
    {
      allSetupCompleted := enabled;
      callScreeningConfigured := enabled;
    }
  }
}
