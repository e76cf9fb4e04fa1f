/** The checks on the configuration, and what they do and do not guarantee to the rest of the model. */
module Settings {
  import opened Clock
  import opened Wrappers
  import opened Routing
  import Protocol
  import History

  /** Durations are in nanoseconds; `socketModeOk` stands for the parse of the octal socket mode. */
  datatype Options = Options(
    logLevel: string, logFormat: string, window: string,
    globalLimit: int, burst: int, cleanupInterval: int, abuseTTL: int,
    abuseMultiplier: int, abuseTransferThreshold: int, socketModeOk: bool)

  datatype ConfigError =
    | InvalidLogLevel | InvalidLogFormat | InvalidWindow | GlobalLimitNotPositive | BurstNegative
    | CleanupIntervalNotPositive | AbuseTTLNotPositive | AbuseMultiplierNotPositive | ThresholdNotPositive
    | BurstReachesAbuse | InvalidSocketMode

  /** The first complaint, if there is one. */
  function Validate(c: Options): Option<ConfigError> {
    if c.logLevel !in {"debug", "info", "warn", "error"} then Some(InvalidLogLevel)
    else if c.logFormat !in {"json", "text"} then Some(InvalidLogFormat)
    else if c.window !in {"second", "minute"} then Some(InvalidWindow)
    else if c.globalLimit <= 0 then Some(GlobalLimitNotPositive)
    else if c.burst < 0 then Some(BurstNegative)
    else if c.cleanupInterval <= 0 then Some(CleanupIntervalNotPositive)
    else if c.abuseTTL <= 0 then Some(AbuseTTLNotPositive)
    else if c.abuseMultiplier <= 0 then Some(AbuseMultiplierNotPositive)
    else if c.abuseTransferThreshold <= 0 then Some(ThresholdNotPositive)
    else if c.burst >= c.globalLimit * c.abuseMultiplier then Some(BurstReachesAbuse)
    else if !c.socketModeOk then Some(InvalidSocketMode)
    else None
  }

  function WindowSeconds(c: Options): Seconds {
    if c.window == "minute" then 60 else 1
  }

  function LimitsOf(c: Options): Limits {
    Limits(c.globalLimit, c.burst, c.abuseMultiplier)
  }

  /** The service that a validated configuration starts. */
  function ServiceOf(c: Options): Protocol.Config
    requires Validate(c).None?
  {
    Protocol.Config(WindowSeconds(c), LimitsOf(c), c.abuseTransferThreshold)
  }

  /** What is wrong with a configuration, complaint by complaint. */
  predicate Violates(c: Options, e: ConfigError) {
    match e
    case InvalidLogLevel => c.logLevel != "debug" && c.logLevel != "info" && c.logLevel != "warn" && c.logLevel != "error"
    case InvalidLogFormat => c.logFormat != "json" && c.logFormat != "text"
    case InvalidWindow => c.window != "second" && c.window != "minute"
    case GlobalLimitNotPositive => c.globalLimit <= 0
    case BurstNegative => c.burst < 0
    case CleanupIntervalNotPositive => c.cleanupInterval <= 0
    case AbuseTTLNotPositive => c.abuseTTL <= 0
    case AbuseMultiplierNotPositive => c.abuseMultiplier <= 0
    case ThresholdNotPositive => c.abuseTransferThreshold <= 0
    case BurstReachesAbuse => c.burst >= c.globalLimit * c.abuseMultiplier
    case InvalidSocketMode => !c.socketModeOk
  }

  /** The order in which the checks are made. */
  function Rank(e: ConfigError): nat {
    match e
    case InvalidLogLevel => 0
    case InvalidLogFormat => 1
    case InvalidWindow => 2
    case GlobalLimitNotPositive => 3
    case BurstNegative => 4
    case CleanupIntervalNotPositive => 5
    case AbuseTTLNotPositive => 6
    case AbuseMultiplierNotPositive => 7
    case ThresholdNotPositive => 8
    case BurstReachesAbuse => 9
    case InvalidSocketMode => 10
  }

  /** The check passes just when nothing is wrong, and otherwise reports what is wrong first. */
  lemma ValidateFindsFirst(c: Options)
    ensures Validate(c).None? <==> forall e: ConfigError :: !Violates(c, e)
    ensures Validate(c).Some? ==>
      && Violates(c, Validate(c).value)
      && forall e: ConfigError :: Rank(e) < Rank(Validate(c).value) ==> !Violates(c, e)
  {
    if Validate(c).None? {
      forall e: ConfigError ensures !Violates(c, e) {
      }
    } else {
      assert Violates(c, Validate(c).value);
    }
  }

  /** The two windows in nanoseconds. */
  lemma WindowInTicks(c: Options)
    requires Validate(c).None?
    ensures WindowLength(ServiceOf(c).w) == if c.window == "minute" then 60_000_000_000 else 1_000_000_000
  {
  }

  /** A configuration that passes meets the premises of every theorem, and allows somebody something. */
  lemma ValidatedIsSound(c: Options)
    requires Validate(c).None?
    ensures ServiceOf(c).Sound() && 0 < ServiceOf(c).threshold
    ensures ServiceOf(c).threshold == c.abuseTransferThreshold
    ensures LimitsOf(c).Global().limit == c.globalLimit && LimitsOf(c).Global().burst == c.burst
    ensures 0 < LimitsOf(c).Global().Cap() && c.globalLimit <= LimitsOf(c).Global().line
  {
  }

  /** The condition under which every slot charged as abuse also had blocked requests. */
  lemma BlockingCondition(c: Options)
    requires Validate(c).None?
    ensures LimitsOf(c).Global().Sound()
    ensures History.AbuseImpliesBlocking(WindowSeconds(c), LimitsOf(c).Global())
      <==> c.globalLimit + c.burst <= c.globalLimit * c.abuseMultiplier
  {
    ValidatedIsSound(c);
    History.AbuseImpliesBlockingIff(WindowSeconds(c), LimitsOf(c).Global());
  }

  /** The last numeric check is weaker than that: limit 10, multiplier 10 and burst 99 pass, and 101 requests in
      one slot are then all allowed and still charged. */
  lemma ValidateIsTooWeak()
    ensures var c := Options("info", "json", "second", 10, 99, 1, 1, 10, 3, true);
      && Validate(c).None?
      && LimitsOf(c).Global().Sound()
      && !History.AbuseImpliesBlocking(WindowSeconds(c), LimitsOf(c).Global())
      && var rs := [seq(101, _ => 0), [WindowLength(1)]];
      && History.AreRuns(1, rs) && History.Charged(LimitsOf(c).Global(), rs, 0)
      && !History.RunIsBlocked(1, LimitsOf(c).Global(), rs, 0)
  {
    var c := Options("info", "json", "second", 10, 99, 1, 1, 10, 3, true);
    var p := LimitsOf(c).Global();
    var rs := History.UnblockedAbuse(1, p);
    assert p.line == 100;
    assert rs == [seq(101, _ => 0), [WindowLength(1)]];
    BlockingCondition(c);
  }
}
