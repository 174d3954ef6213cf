/**
 * The start-up gate and the file path check. The gate waits (a timer that
 * is not modelled), then decides, in a fixed order, whether the installation
 * was tampered with, whether the licence has expired, or whether access is
 * granted; loading ends in every case.
 */
module Security {
  import opened Wrappers

  const CheckingStatus := "Checking..."
  const TamperedStatus := "Failed: App tampering detected."
  const ExpiredStatus := "Failed: License expired."
  const GrantedStatus := "License validated. Access granted."

  /** The two mock checks; both are hard-wired to pass. */
  const MockTampered := false
  const MockExpired := false

  /** What the timer callback decides: the status it sets and the alert it raises, if any. */
  datatype Decision = Decision(licenseStatus: string, alert: Option<string>)

  /** The decision, tampering taking precedence over expiry. */
  function Decide(isTampered: bool, isExpired: bool): (d: Decision)
    ensures d.licenseStatus == GrantedStatus <==> !isTampered && !isExpired
    ensures d.alert.None? <==> d.licenseStatus == GrantedStatus
    ensures isTampered ==> d == Decision(TamperedStatus, Some("Security Alert"))
    ensures !isTampered && isExpired ==> d == Decision(ExpiredStatus, Some("License Required"))
  {
    if isTampered then Decision(TamperedStatus, Some("Security Alert"))
    else if isExpired then Decision(ExpiredStatus, Some("License Required"))
    else Decision(GrantedStatus, None)
  }

  /** Tampering decides the outcome whatever the expiry flag says. */
  lemma TamperingDominates(expiredA: bool, expiredB: bool)
    ensures Decide(true, expiredA) == Decide(true, expiredB)
  {
  }

  /** With the flags as the code fixes them, access is always granted. */
  lemma MockAlwaysGrants()
    ensures Decide(MockTampered, MockExpired) == Decision(GrantedStatus, None)
  {
  }

  /** The state the start-up hook exposes to the home screen. */
  class StartupChecks {
    var isLoading: bool
    var licenseStatus: string
    var alerts: seq<string>

    constructor ()
      ensures isLoading && licenseStatus == CheckingStatus && alerts == []
    {
      isLoading := true;
      licenseStatus := CheckingStatus;
      alerts := [];
    }

    /** The body of the timer callback, for given results of the two checks. */
    method RunChecks(isTampered: bool, isExpired: bool)
      modifies this
      ensures !isLoading
      ensures licenseStatus == Decide(isTampered, isExpired).licenseStatus
      ensures alerts == old(alerts) + match Decide(isTampered, isExpired).alert { case Some(a) => [a] case None => [] }
    {
      if isTampered {
        licenseStatus := TamperedStatus;
        alerts := alerts + ["Security Alert"];
        isLoading := false;
        return;
      }
      if isExpired {
        licenseStatus := ExpiredStatus;
        alerts := alerts + ["License Required"];
        isLoading := false;
        return;
      }
      licenseStatus := GrantedStatus;
      isLoading := false;
    }

    /** The timer fires: the checks run with the hard-wired mock results. */
    method OnCheckTimer()
      modifies this
      ensures !isLoading && licenseStatus == GrantedStatus && alerts == old(alerts)
    {
      RunChecks(MockTampered, MockExpired);
    }
  }

  /** A path passes when it is longer than five characters and contains a slash. */
  predicate ValidateFilePath(path: string)
  {
    |path| > 5 && '/' in path
  }

  /** No path of five characters or fewer passes, whatever it holds. */
  lemma ShortPathsFail(path: string)
    requires |path| <= 5
    ensures !ValidateFilePath(path)
  {
  }

  /** No path without a slash passes, however long. */
  lemma PathsWithoutSlashFail(path: string)
    requires forall i :: 0 <= i < |path| ==> path[i] != '/'
    ensures !ValidateFilePath(path)
  {
  }

  /** Any path of six or more characters with a slash somewhere passes. */
  lemma LongPathsWithSlashPass(path: string, i: nat)
    requires |path| >= 6 && i < |path| && path[i] == '/'
    ensures ValidateFilePath(path)
  {
  }
}
