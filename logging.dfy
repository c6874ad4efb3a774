/** The service's logging decisions (service.go): the level the configured
    service-log level string selects, the level of the access logger, and
    the level each access-log entry is written at. Levels are logrus's,
    where a logger emits an entry when the entry's rank is at most its own. */
module Logging {
  import opened Text

  datatype Level = ErrorLevel | WarnLevel | InfoLevel | DebugLevel

  /** The numeric rank logrus gives each level; higher is more verbose. */
  function Rank(l: Level): nat
  {
    match l
    case ErrorLevel => 2
    case WarnLevel => 3
    case InfoLevel => 4
    case DebugLevel => 5
  }

  /** Whether a logger set to `logger` writes an entry at `entry`. */
  predicate Emits(logger: Level, entry: Level)
  {
    Rank(entry) <= Rank(logger)
  }

  /** The service logger's level: "debug", "warn" and "error" in any letter
      case select their level; "info" and every other string select info. */
  function ServiceLevel(config: string): (l: Level)
    ensures l == DebugLevel <==> ToLower(config) == "debug"
    ensures l == WarnLevel <==> ToLower(config) == "warn"
    ensures l == ErrorLevel <==> ToLower(config) == "error"
    ensures l == InfoLevel <==> ToLower(config) !in {"debug", "warn", "error"}
  {
    var s := ToLower(config);
    if s == "debug" then DebugLevel
    else if s == "info" then InfoLevel
    else if s == "warn" then WarnLevel
    else if s == "error" then ErrorLevel
    else InfoLevel
  }

  /** The access logger's level: a dedicated logger (to the access-log file,
      or to stdout when the service log goes to a file) is at info; otherwise
      the access log shares the service logger and its level. */
  function AccessLoggerLevel(accessLogPath: string, serviceLogPath: string, serviceLevel: Level): (l: Level)
    ensures accessLogPath != "" || serviceLogPath != "" ==> l == InfoLevel
    ensures accessLogPath == "" && serviceLogPath == "" ==> l == serviceLevel
  {
    if accessLogPath != "" then InfoLevel
    else if serviceLogPath != "" then InfoLevel
    else serviceLevel
  }

  /** Go's integer division, which truncates toward zero. */
  function GoQuotient(a: int, b: int): (q: int)
    requires b > 0
    ensures a >= 0 ==> 0 <= a - q * b < b
    ensures a < 0 ==> -b < a - q * b <= 0
  {
    if a >= 0 then a / b else -((-a) / b)
  }

  /** The level of an access-log entry: error when `status/100 == 5`, info
      otherwise. That is exactly the 5xx statuses. */
  function Severity(status: int): (l: Level)
    ensures l == ErrorLevel <==> 500 <= status <= 599
    ensures l == ErrorLevel || l == InfoLevel
  {
    if GoQuotient(status, 100) != 5 then InfoLevel else ErrorLevel
  }

  // ---------------------------------------------------------------------------
  // Properties.

  /** Level names are matched without regard to letter case. */
  lemma {:induction false} ServiceLevelIgnoresCase(config: string)
    ensures ServiceLevel(ToLower(config)) == ServiceLevel(config)
  {
    ToLowerIdempotent(config);
  }

  lemma ServiceLevelCases()
    ensures ServiceLevel("DEBUG") == DebugLevel
    ensures ServiceLevel("Warn") == WarnLevel
    ensures ServiceLevel("error") == ErrorLevel
    ensures ServiceLevel("info") == InfoLevel
    ensures ServiceLevel("") == InfoLevel
    ensures ServiceLevel("verbose") == InfoLevel
  {
    assert ToLower("DEBUG") == "debug";
    assert ToLower("Warn") == "warn";
    assert ToLower("error") == "error";
    assert ToLower("info") == "info";
    assert ToLower("verbose") == "verbose";
  }

  /** Which access-log entries reach the log: a dedicated access logger
      writes every entry; a shared one set to warn or error drops the info
      entries, that is every response but the 5xx ones, and any logger writes
      the 5xx entries. */
  lemma AccessEntryEmitted(accessLogPath: string, serviceLogPath: string, serviceLevel: Level, status: int)
    ensures accessLogPath != "" || serviceLogPath != "" ==>
      Emits(AccessLoggerLevel(accessLogPath, serviceLogPath, serviceLevel), Severity(status))
    ensures 500 <= status <= 599 ==>
      Emits(AccessLoggerLevel(accessLogPath, serviceLogPath, serviceLevel), Severity(status))
    ensures accessLogPath == "" && serviceLogPath == "" && serviceLevel in {WarnLevel, ErrorLevel} ==>
      (Emits(AccessLoggerLevel(accessLogPath, serviceLogPath, serviceLevel), Severity(status)) <==> 500 <= status <= 599)
  {
  }

  /** The status classes around the boundary: 499 and 600 are info, 500 and
      599 are error. */
  lemma SeverityBoundaries()
    ensures Severity(499) == InfoLevel && Severity(500) == ErrorLevel
    ensures Severity(599) == ErrorLevel && Severity(600) == InfoLevel
  {
  }

  /** A negative status is never in the 5xx class, even though Go's `/`
      rounds `-500 / 100` to -5 rather than to a class of its own. */
  lemma NegativeStatusIsInfo(status: int)
    requires status < 0
    ensures Severity(status) == InfoLevel
  {
  }
}
