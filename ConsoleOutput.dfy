/**
 * `ConsoleOutput`: the log output that writes to Unity's console. Its
 * level filter and the sink each level is routed to are modelled; each
 * emitted line is recorded together with its sink. The clock reading
 * `DateTime.Now.ToString("HH:mm:ss.fff")` is a parameter, and whether the
 * build defines `UNITY_EDITOR || DEVELOPMENT_BUILD` is a constant of the
 * object.
 */
module ConsoleOutputs {
  import opened Common
  import opened Logging

  /** `Debug.Log`, `Debug.LogWarning`, `Debug.LogError`. */
  datatype Sink = PlainSink | WarningSink | ErrorSink

  datatype ConsoleLine = ConsoleLine(sink: Sink, text: string)

  /** The tag field: empty for a null or empty tag, the tag in brackets otherwise. */
  function TagField(tag: Option<string>): (r: string)
    ensures NullOrEmpty(tag) <==> r == ""
    ensures !NullOrEmpty(tag) ==> r == "[" + tag.value + "]"
  {
    if NullOrEmpty(tag) then "" else "[" + tag.value + "]"
  }

  /**
   * `FormatMessage`: the bare message without timestamps; with them,
   * `[time] LEVEL tagField message`, the four parts separated by single
   * spaces.
   */
  function FormatMessage(message: string, level: LogLevel, tag: Option<string>, enableTimestamp: bool, time: string): (r: string)
    ensures !enableTimestamp ==> r == message
  {
    if !enableTimestamp then message
    else "[" + time + "] " + Upper(level) + (" " + TagField(tag) + " " + message)
  }

  /**
   * With timestamps on, the line starts with the bracketed time and a space,
   * then the upper-case level name, and ends with the message; in between
   * are the tag field and two single spaces.
   */
  lemma FormatMessageLayout(message: string, level: LogLevel, tag: Option<string>, time: string)
    ensures var r := FormatMessage(message, level, tag, true, time);
            |r| == |time| + |Upper(level)| + |TagField(tag)| + |message| + 5 &&
            r[..|time| + 3] == "[" + time + "] " && r[|r| - |message|..] == message &&
            r[|time| + 3..|time| + 3 + |Upper(level)|] == Upper(level)
  {
    Parts("[" + time + "] ", Upper(level), " " + TagField(tag) + " ", message);
  }

  /** The pieces of `a + b + c + d` sit where their lengths put them. */
  lemma Parts(a: string, b: string, c: string, d: string)
    ensures var r := a + b + (c + d);
            |r| == |a| + |b| + |c| + |d| && r[..|a|] == a && r[|a|..|a| + |b|] == b && r[|r| - |d|..] == d
  {
    var r := a + b + (c + d);
    assert r == a + (b + (c + d));
    assert (b + (c + d))[..|b|] == b;
    assert (c + d)[|c|..] == d;
  }

  /** An empty or null tag leaves two spaces between the level name and the message. */
  lemma EmptyTagDoubleSpace(message: string, level: LogLevel, tag: Option<string>, time: string)
    requires NullOrEmpty(tag)
    ensures FormatMessage(message, level, tag, true, time) == "[" + time + "] " + Upper(level) + "  " + message
  {
  }

  /** A message can be read back from its formatted line: formatting is injective in the message. */
  lemma {:induction false} FormatMessageInjective(m1: string, m2: string, level: LogLevel, tag: Option<string>, enableTimestamp: bool, time: string)
    requires FormatMessage(m1, level, tag, enableTimestamp, time) == FormatMessage(m2, level, tag, enableTimestamp, time)
    ensures m1 == m2
  {
    var r := FormatMessage(m1, level, tag, enableTimestamp, time);
    if enableTimestamp {
      FormatMessageLayout(m1, level, tag, time);
      FormatMessageLayout(m2, level, tag, time);
    }
    assert |m1| == |m2|;
    assert m1 == r[|r| - |m1|..] == m2;
  }

  /**
   * The sink a level goes to, or `None` when nothing is written: Debug only
   * in editor and development builds, Info plain, Warning as a warning,
   * Error and Fatal as errors.
   */
  function Route(level: LogLevel, developmentBuild: bool): (r: Option<Sink>)
    ensures r == Some(ErrorSink) <==> level == Error || level == Fatal
    ensures r == Some(WarningSink) <==> level == Warning
    ensures r == Some(PlainSink) <==> level == Info || (level == Debug && developmentBuild)
    ensures r == None <==> level == Debug && !developmentBuild
  {
    match level
    case Debug => if developmentBuild then Some(PlainSink) else None
    case Info => Some(PlainSink)
    case Warning => Some(WarningSink)
    case Error => Some(ErrorSink)
    case Fatal => Some(ErrorSink)
  }

  class ConsoleOutput {
    /** `_logLevel`. */
    var logLevel: LogLevel
    /** `_enableTimestamp`, fixed by the constructor. */
    const enableTimestamp: bool
    /** Whether `UNITY_EDITOR || DEVELOPMENT_BUILD` is defined. */
    const developmentBuild: bool
    /** The lines written to the console, in order. */
    var emitted: seq<ConsoleLine>

    constructor (developmentBuild: bool, enableTimestamp: bool := true)
      ensures logLevel == Info && this.enableTimestamp == enableTimestamp
      ensures this.developmentBuild == developmentBuild && emitted == []
    {
      logLevel := Info;
      this.enableTimestamp := enableTimestamp;
      this.developmentBuild := developmentBuild;
      emitted := [];
    }

    /** What one `Log` call writes: nothing below the level, otherwise the formatted line on the level's sink. */
    function Written(message: string, level: LogLevel, tag: Option<string>, time: string): seq<ConsoleLine>
      reads this
    {
      if Rank(level) < Rank(logLevel) then []
      else
        match Route(level, developmentBuild)
        case None => []
        case Some(sink) => [ConsoleLine(sink, FormatMessage(message, level, tag, enableTimestamp, time))]
    }

    /** `Log(message, level, tag)`. */
    method Log(message: string, level: LogLevel, tag: Option<string>, time: string)
      modifies this`emitted
      ensures emitted == old(emitted) + Written(message, level, tag, time)
      ensures Rank(level) < Rank(logLevel) ==> emitted == old(emitted)
      ensures Rank(level) >= Rank(logLevel) && level != Debug ==>
                |emitted| == |old(emitted)| + 1 && emitted[|old(emitted)|].sink == Route(level, developmentBuild).value
    {
      if Rank(level) < Rank(logLevel) {
        return;
      }
      var formatted := FormatMessage(message, level, tag, enableTimestamp, time);
      match level {
        case Debug =>
          if developmentBuild {
            emitted := emitted + [ConsoleLine(PlainSink, formatted)];
          }
        case Info =>
          emitted := emitted + [ConsoleLine(PlainSink, formatted)];
        case Warning =>
          emitted := emitted + [ConsoleLine(WarningSink, formatted)];
        case Error =>
          emitted := emitted + [ConsoleLine(ErrorSink, formatted)];
        case Fatal =>
          emitted := emitted + [ConsoleLine(ErrorSink, formatted)];
      }
    }

    /** `SetLogLevel(level)`. */
    method SetLogLevel(level: LogLevel)
      modifies this`logLevel
      ensures logLevel == level
    {
      logLevel := level;
    }
  }
}
