/** The logging adapter: it picks a threshold level from the log options,
    renders a log4j property configuration for either a console or a file
    appender (or none at all when log4j is configured elsewhere), and forwards
    Ruby logger calls to log4j at the matching level. */
module Logging {
  import opened Wrappers

  /** log4j's levels. */
  datatype Level = DEBUG | INFO | WARN | ERROR | FATAL

  function LevelName(l: Level): string {
    match l
    case DEBUG => "DEBUG"
    case INFO => "INFO"
    case WARN => "WARN"
    case ERROR => "ERROR"
    case FATAL => "FATAL"
  }

  /** Ruby's `::Logger` severities are the integers 0 (DEBUG) to 5 (UNKNOWN). */
  const RubyInfo: int := 1

  /** The name of a Ruby severity. */
  function SeverityName(severity: int): Option<string> {
    if severity == 0 then Some("DEBUG")
    else if severity == 1 then Some("INFO")
    else if severity == 2 then Some("WARN")
    else if severity == 3 then Some("ERROR")
    else if severity == 4 then Some("FATAL")
    else if severity == 5 then Some("UNKNOWN")
    else None
  }

  /** `LEVELS[severity]`: nil for a severity outside the five it lists. */
  function Levels(severity: int): (r: Option<Level>)
    ensures r.Some? <==> 0 <= severity <= 4
  {
    if severity == 0 then Some(DEBUG)
    else if severity == 1 then Some(INFO)
    else if severity == 2 then Some(WARN)
    else if severity == 3 then Some(ERROR)
    else if severity == 4 then Some(FATAL)
    else None
  }

  /** Every severity the map lists goes to the log4j level of the same name,
      and distinct severities go to distinct levels. */
  lemma LevelsKeepNames(severity: int)
    requires Levels(severity).Some?
    ensures SeverityName(severity) == Some(LevelName(Levels(severity).value))
  {
  }

  lemma LevelsInjective(s: int, t: int)
    requires Levels(s).Some? && Levels(s) == Levels(t)
    ensures s == t
  {
  }

  /** The log options; an absent entry is nil. */
  datatype LogOptions = LogOptions(warn: bool, debug: bool, log4j: bool, log: Option<string>)

  /** The threshold: DEBUG when the interpreter's debug flag or the `debug`
      option is set, otherwise WARN when `warn` is set, otherwise ERROR. */
  function Threshold(options: LogOptions, globalDebug: bool): (l: Level)
    ensures l == DEBUG <==> globalDebug || options.debug
    ensures l == WARN <==> !globalDebug && !options.debug && options.warn
    ensures l == ERROR <==> !globalDebug && !options.debug && !options.warn
  {
    var limit := if options.warn then WARN else ERROR;
    if globalDebug || options.debug then DEBUG else limit
  }

  /** One `key = value` line of the property configuration. */
  datatype Directive = Directive(key: string, value: string)

  const RootCategory: string := "log4j.rootCategory"
  const JettyLogger: string := "log4j.logger.org.eclipse.jetty.util.log"
  const Appender: string := "log4j.appender.default"
  const AppenderThreshold: string := "log4j.appender.default.Threshold"
  const AppenderLayout: string := "log4j.appender.default.layout"
  const ConversionPattern: string := "log4j.appender.default.layout.ConversionPattern"
  const AppendFlag: string := "log4j.appender.default.Append"
  const AppenderFile: string := "log4j.appender.default.File"

  const ConsoleAppender: string := "org.apache.log4j.ConsoleAppender"
  const FileAppender: string := "org.apache.log4j.FileAppender"
  const PatternLayout: string := "org.apache.log4j.PatternLayout"
  // Pattern values as written in the configuration text; `\n` is the
  // properties-file escape for a newline.
  const ConsolePattern: string := "%m\\n"
  const FilePattern: string := "%d %p %m\\n"

  function BaseSection(limit: Level): seq<Directive> {
    [ Directive(RootCategory, LevelName(limit) + ", default"),
      Directive(JettyLogger, LevelName(limit) + ", default"),
      Directive(AppenderThreshold, LevelName(limit)),
      Directive(AppenderLayout, PatternLayout) ]
  }

  function ConsoleSection(): seq<Directive> {
    [ Directive(Appender, ConsoleAppender),
      Directive(ConversionPattern, ConsolePattern) ]
  }

  function FileSection(path: string): seq<Directive> {
    [ Directive(Appender, FileAppender),
      Directive(AppendFlag, "true"),
      Directive(AppenderFile, path),
      Directive(ConversionPattern, FilePattern) ]
  }

  /** `initialize_logging`: None when the `log4j` option leaves configuration
      to someone else; otherwise the base section followed by the console
      section without a `log` option, or by the file section with one. */
  function Configuration(options: LogOptions, globalDebug: bool): (c: Option<seq<Directive>>)
    ensures c.None? <==> options.log4j
    ensures c.Some? ==> BaseSection(Threshold(options, globalDebug)) <= c.value
  {
    if options.log4j then None
    else
      var limit := Threshold(options, globalDebug);
      var config := BaseSection(limit);
      var config := if options.log.None? then config + ConsoleSection() else config;
      var config := if options.log.Some? then config + FileSection(options.log.value) else config;
      Some(config)
  }

  /** The value for `key` as written in the configuration text: that of the
      last line setting it. Escapes and line breaks inside values are not
      interpreted. */
  function Lookup(config: seq<Directive>, key: string): Option<string>
  {
    if |config| == 0 then None
    else if config[|config| - 1].key == key then Some(config[|config| - 1].value)
    else Lookup(config[..|config| - 1], key)
  }

  /** No key is set twice, so the order of the lines does not matter. */
  predicate DistinctKeys(config: seq<Directive>) {
    forall i, j :: 0 <= i < j < |config| ==> config[i].key != config[j].key
  }

  /** In a configuration without repeated keys, looking up a line's key gives
      the value written on that line, and a key on no line is absent. */
  lemma {:induction false} LookupDistinct(config: seq<Directive>, i: int)
    requires DistinctKeys(config) && 0 <= i < |config|
    ensures Lookup(config, config[i].key) == Some(config[i].value)
    decreases |config|
  {
    if i < |config| - 1 {
      LookupDistinct(config[..|config| - 1], i);
    }
  }

  lemma {:induction false} LookupAbsent(config: seq<Directive>, key: string)
    requires forall i :: 0 <= i < |config| ==> config[i].key != key
    ensures Lookup(config, key).None?
    decreases |config|
  {
    if |config| > 0 {
      LookupAbsent(config[..|config| - 1], key);
    }
  }

  /** What the configuration text says, line by line: the root category, the transport's
      logger and the appender threshold share the chosen level; the appender
      is the console one with pattern `%m\n` exactly when there is no `log`
      option, and otherwise the file one, appending to the given path with
      pattern `%d %p %m\n`; the file-only keys are absent on the console, and
      no line beyond these six or eight is present. */
  lemma ConfigurationContents(options: LogOptions, globalDebug: bool)
    requires !options.log4j
    ensures var config := Configuration(options, globalDebug).value;
            var level := LevelName(Threshold(options, globalDebug));
            && DistinctKeys(config)
            && |config| == (if options.log.None? then 6 else 8)
            && Lookup(config, RootCategory) == Some(level + ", default")
            && Lookup(config, JettyLogger) == Some(level + ", default")
            && Lookup(config, AppenderThreshold) == Some(level)
            && Lookup(config, AppenderLayout) == Some(PatternLayout)
            && Lookup(config, Appender) == Some(if options.log.None? then ConsoleAppender else FileAppender)
            && Lookup(config, ConversionPattern) == Some(if options.log.None? then ConsolePattern else FilePattern)
            && Lookup(config, AppendFlag) == (if options.log.None? then None else Some("true"))
            && Lookup(config, AppenderFile) == (if options.log.None? then None else Some(options.log.value))
  {
    var config := Configuration(options, globalDebug).value;
    var limit := Threshold(options, globalDebug);
    KeysDiffer();
    LookupDistinct(config, 0);
    LookupDistinct(config, 1);
    LookupDistinct(config, 2);
    LookupDistinct(config, 3);
    LookupDistinct(config, 4);
    LookupDistinct(config, 5);
    if options.log.None? {
      assert config == BaseSection(limit) + ConsoleSection();
      LookupAbsent(config, AppendFlag);
      LookupAbsent(config, AppenderFile);
    } else {
      assert config == BaseSection(limit) + FileSection(options.log.value);
      LookupDistinct(config, 6);
      LookupDistinct(config, 7);
    }
  }

  /** The eight keys are pairwise different. */
  lemma KeysDiffer()
    ensures var keys := [RootCategory, JettyLogger, AppenderThreshold, AppenderLayout, Appender,
                         ConversionPattern, AppendFlag, AppenderFile];
            forall i, j :: 0 <= i < j < |keys| ==> keys[i] != keys[j]
  {
    // The only two keys of equal length first differ at index 23.
    assert AppendFlag[23] != AppenderLayout[23];
  }

  /** What a block passed to `add` does: absent, or yielding a value (nil or a string). */
  datatype Block = NoBlock | Yields(result: Option<string>)

  /** One call to the log4j logger. */
  datatype LogCall = LogCall(level: Option<Level>, content: Option<string>)

  /** `add`: logs the message if there is one, else what the block yields if
      that is not nil, else the program name, at `LEVELS[severity]`. */
  function Add(severity: int, message: Option<string>, block: Block, progname: Option<string>): (c: LogCall)
    ensures c.level == Levels(severity)
    ensures message.Some? ==> c.content == message
    ensures message.None? && block.Yields? && block.result.Some? ==> c.content == block.result
    ensures message.None? && !(block.Yields? && block.result.Some?) ==> c.content == progname
    ensures c.content.None? <==> message.None? && !(block.Yields? && block.result.Some?) && progname.None?
  {
    var yielded := if block.Yields? then block.result else None;
    var content := if message.Some? then message else if yielded.Some? then yielded else progname;
    LogCall(Levels(severity), content)
  }

  /** `write`: the message, at INFO. */
  function Write(message: Option<string>): (c: LogCall)
    ensures c.level == Some(INFO)
    ensures c.content == message
  {
    Add(RubyInfo, message, NoBlock, None)
  }

  /** Ruby's `to_s` on a string or nil. */
  function ToS(v: Option<string>): string {
    v.GetOr("")
  }

  /** `puts`: the message stringified, at INFO; so something is always logged. */
  function Puts(message: Option<string>): (c: LogCall)
    ensures c.level == Some(INFO)
    ensures c.content.Some?
    ensures message.Some? ==> c.content == message
    ensures message.None? ==> c.content == Some("")
  {
    Write(Some(ToS(message)))
  }

  /** The standard logger's `debug`, `info`, `warn`, `error` and `fatal` pass
      their argument as the program name to `add`; each such call logs that
      text at the log4j level named like the method. */
  lemma SeverityMethodsLogText(severity: int, text: string)
    requires 0 <= severity <= 4
    ensures Add(severity, None, NoBlock, Some(text)).content == Some(text)
    ensures Add(severity, None, NoBlock, Some(text)).level.Some?
    ensures SeverityName(severity) == Some(LevelName(Add(severity, None, NoBlock, Some(text)).level.value))
  {
    LevelsKeepNames(severity);
  }
}
