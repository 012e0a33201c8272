/**
 * `LogManager`: the logging front end. It owns the list of log outputs,
 * the current level and the timestamp and stack-trace switches, formats
 * each message once and hands it to every output in list order.
 *
 * An output is a value with an identity and a kind; the manager's calls
 * into outputs (`Log`, `SetLogLevel`, the debug window's `MaxLines`,
 * `Dispose`) are recorded, in order, in `calls`. The clock reading is a
 * parameter of every operation that logs.
 */
module LogManagers {
  import opened Common
  import opened Logging

  /** The runtime type of an `ILogOutput`, with what its constructor was given. */
  datatype OutputKind =
    | ConsoleKind(enableTimestamp: bool)
    | FileKind(path: Option<string>, maxFileSize: int)
    | WindowKind
    | CustomKind(typeName: string, disposable: bool)

  datatype LogOutput = LogOutput(id: nat, kind: OutputKind)

  /** `output.GetType().Name`. */
  function TypeName(o: LogOutput): string
  {
    match o.kind
    case ConsoleKind(_) => "ConsoleOutput"
    case FileKind(_, _) => "FileOutput"
    case WindowKind => "DebugWindow"
    case CustomKind(n, _) => n
  }

  /** `output is IDisposable`: `FileOutput` is, the console and the window are not. */
  predicate Disposable(o: LogOutput)
  {
    match o.kind
    case ConsoleKind(_) => false
    case FileKind(_, _) => true
    case WindowKind => false
    case CustomKind(_, d) => d
  }

  datatype OutputCall =
    | LogCall(output: LogOutput, message: string, level: LogLevel, tag: Option<string>)
    | SetLevelCall(output: LogOutput, level: LogLevel)
    | MaxLinesCall(output: LogOutput, maxLines: int)
    | DisposeCall(output: LogOutput)

  /** `LogConfig`. */
  datatype LogConfig = LogConfig(
    defaultLogLevel: LogLevel,
    logFilePath: Option<string>,
    enableConsoleOutput: bool,
    enableFileOutput: bool,
    enableDebugWindow: bool,
    debugWindowMaxLines: int,
    enableTimestamp: bool,
    enableStackTrace: bool,
    maxLogFileSize: int)

  /** `new LogConfig()`. */
  const DefaultConfig := LogConfig(Info, None, true, true, true, 1000, true, false, 10)

  /** An exception: its type name, its message and its stack trace, which may be null. */
  datatype Exception = Exception(typeName: string, message: string, stackTrace: Option<string>)

  /** The timestamp field of `FormatLogMessage`: `[time] ` when timestamps are on. */
  function TimeField(enableTimestamp: bool, time: string): (r: string)
    ensures enableTimestamp ==> r == "[" + time + "] "
    ensures !enableTimestamp ==> r == ""
  {
    if enableTimestamp then "[" + time + "] " else ""
  }

  /** The tag field of `FormatLogMessage`: `[tag] ` for a non-empty tag. */
  function TagField(tag: Option<string>): (r: string)
    ensures NullOrEmpty(tag) <==> r == ""
    ensures !NullOrEmpty(tag) ==> r == "[" + tag.value + "] "
  {
    if NullOrEmpty(tag) then "" else "[" + tag.value + "] "
  }

  /**
   * `FormatLogMessage`: the timestamp field, the upper-case level name and
   * a space, the tag field, then the message.
   */
  function FormatLogMessage(message: string, level: LogLevel, tag: Option<string>, enableTimestamp: bool, time: string): (r: string)
    ensures |r| == |TimeField(enableTimestamp, time)| + |Upper(level)| + 1 + |TagField(tag)| + |message|
    ensures r[..|TimeField(enableTimestamp, time)|] == TimeField(enableTimestamp, time)
    ensures var p := |TimeField(enableTimestamp, time)|;
            r[p..p + |Upper(level)| + 1] == Upper(level) + " "
    ensures var p := |TimeField(enableTimestamp, time)| + |Upper(level)| + 1;
            r[p..p + |TagField(tag)|] == TagField(tag)
    ensures r[|r| - |message|..] == message
  {
    var t := TimeField(enableTimestamp, time);
    var l := Upper(level) + " ";
    var g := TagField(tag);
    var r := t + l + g + message;
    assert r[..|t|] == t;
    assert r[|t|..|t| + |l|] == l;
    assert r[|t| + |l|..|t| + |l| + |g|] == g;
    assert r[|r| - |message|..] == message;
    r
  }

  /** Without timestamp and tag the line is the upper-case level name, a space and the message. */
  lemma FormatLogMessageBare(message: string, level: LogLevel, tag: Option<string>, time: string)
    requires NullOrEmpty(tag)
    ensures FormatLogMessage(message, level, tag, false, time) == Upper(level) + " " + message
  {
  }

  /** The message can be read back from the formatted line: formatting is injective in the message. */
  lemma {:induction false} FormatLogMessageInjective(m1: string, m2: string, level: LogLevel, tag: Option<string>, enableTimestamp: bool, time: string)
    requires FormatLogMessage(m1, level, tag, enableTimestamp, time) == FormatLogMessage(m2, level, tag, enableTimestamp, time)
    ensures m1 == m2
  {
    var r := FormatLogMessage(m1, level, tag, enableTimestamp, time);
    assert |m1| == |m2|;
    assert m1 == r[|r| - |m1|..] == m2;
  }

  /** The level name is printed without brackets, so a line without timestamp or tag never carries its own level's tag at the front. */
  lemma FormatLogMessageUntagged(message: string, level: LogLevel, tag: Option<string>, time: string)
    ensures !At(FormatLogMessage(message, level, tag, false, time), Tag(level), 0)
  {
    var r := FormatLogMessage(message, level, tag, false, time);
    assert r[0] == Upper(level)[0] != '[';
  }

  /** One `Log` call per output, in list order, all with the same arguments. */
  function LogCalls(outputs: seq<LogOutput>, message: string, level: LogLevel, tag: Option<string>): (r: seq<OutputCall>)
    ensures |r| == |outputs|
  {
    if outputs == [] then [] else [LogCall(outputs[0], message, level, tag)] + LogCalls(outputs[1..], message, level, tag)
  }

  lemma {:induction false} LogCallsIndex(outputs: seq<LogOutput>, message: string, level: LogLevel, tag: Option<string>)
    ensures forall i :: 0 <= i < |outputs| ==> LogCalls(outputs, message, level, tag)[i] == LogCall(outputs[i], message, level, tag)
  {
    if outputs != [] {
      LogCallsIndex(outputs[1..], message, level, tag);
    }
  }

  lemma LogCallsAppend(outputs: seq<LogOutput>, o: LogOutput, message: string, level: LogLevel, tag: Option<string>)
    ensures LogCalls(outputs + [o], message, level, tag) == LogCalls(outputs, message, level, tag) + [LogCall(o, message, level, tag)]
  {
    assert outputs == [] || (outputs + [o])[1..] == outputs[1..] + [o];
  }

  /** One `SetLogLevel` call per output, in list order. */
  function SetLevelCalls(outputs: seq<LogOutput>, level: LogLevel): (r: seq<OutputCall>)
    ensures |r| == |outputs|
  {
    if outputs == [] then [] else [SetLevelCall(outputs[0], level)] + SetLevelCalls(outputs[1..], level)
  }

  lemma {:induction false} SetLevelCallsIndex(outputs: seq<LogOutput>, level: LogLevel)
    ensures forall i :: 0 <= i < |outputs| ==> SetLevelCalls(outputs, level)[i] == SetLevelCall(outputs[i], level)
  {
    if outputs != [] {
      SetLevelCallsIndex(outputs[1..], level);
    }
  }

  lemma SetLevelCallsAppend(outputs: seq<LogOutput>, o: LogOutput, level: LogLevel)
    ensures SetLevelCalls(outputs + [o], level) == SetLevelCalls(outputs, level) + [SetLevelCall(o, level)]
  {
    assert outputs == [] || (outputs + [o])[1..] == outputs[1..] + [o];
  }

  /** One `Dispose` call per disposable output, in list order. */
  function DisposeCalls(outputs: seq<LogOutput>): (r: seq<OutputCall>)
    ensures |r| <= |outputs|
    ensures forall c :: c in r <==> exists o :: o in outputs && Disposable(o) && c == DisposeCall(o)
  {
    if outputs == [] then []
    else
      var rest := DisposeCalls(outputs[1..]);
      assert forall o :: o in outputs <==> o == outputs[0] || o in outputs[1..];
      if Disposable(outputs[0]) then [DisposeCall(outputs[0])] + rest else rest
  }

  lemma DisposeCallsAppend(outputs: seq<LogOutput>, o: LogOutput)
    ensures DisposeCalls(outputs + [o]) == DisposeCalls(outputs) + if Disposable(o) then [DisposeCall(o)] else []
  {
    if outputs != [] {
      assert (outputs + [o])[1..] == outputs[1..] + [o];
      DisposeCallsAppend(outputs[1..], o);
    }
  }

  /**
   * What one `Log` call does to the outputs: nothing below the current
   * level, otherwise the same formatted line to every output once, in list
   * order.
   */
  function Dispatch(outputs: seq<LogOutput>, currentLevel: LogLevel, enableTimestamp: bool,
                    message: string, level: LogLevel, tag: Option<string>, time: string): (r: seq<OutputCall>)
    ensures Rank(level) < Rank(currentLevel) ==> r == []
    ensures Rank(level) >= Rank(currentLevel) ==>
              |r| == |outputs| &&
              forall i :: 0 <= i < |outputs| ==>
                r[i] == LogCall(outputs[i], FormatLogMessage(message, level, tag, enableTimestamp, time), level, tag)
  {
    if Rank(level) < Rank(currentLevel) then []
    else
      LogCallsIndex(outputs, FormatLogMessage(message, level, tag, enableTimestamp, time), level, tag);
      LogCalls(outputs, FormatLogMessage(message, level, tag, enableTimestamp, time), level, tag)
  }

  /** The message `LogException` logs: type and message, then the stack trace only when traces are on and it is not null. */
  function ExceptionMessage(e: Exception, enableStackTrace: bool): (r: string)
    ensures var head := "异常: " + e.typeName + " - " + e.message;
            |r| >= |head| && r[..|head|] == head
    ensures enableStackTrace && e.stackTrace.Some? ==>
              r == "异常: " + e.typeName + " - " + e.message + "\n堆栈跟踪:\n" + e.stackTrace.value
    ensures !(enableStackTrace && e.stackTrace.Some?) ==> r == "异常: " + e.typeName + " - " + e.message
  {
    var head := "异常: " + e.typeName + " - " + e.message;
    if enableStackTrace && e.stackTrace.Some? then
      var r := head + "\n堆栈跟踪:\n" + e.stackTrace.value;
      assert r[..|head|] == head;
      r
    else head
  }

  /** The outputs `Initialize` creates from a configuration, in the order it adds them. */
  function Created(config: LogConfig, consoleId: nat, fileId: nat, windowId: nat): seq<LogOutput>
  {
    (if config.enableConsoleOutput then [LogOutput(consoleId, ConsoleKind(config.enableTimestamp))] else []) +
    (if config.enableFileOutput then [LogOutput(fileId, FileKind(config.logFilePath, config.maxLogFileSize))] else []) +
    (if config.enableDebugWindow then [LogOutput(windowId, WindowKind)] else [])
  }

  /** The calls `Initialize` makes into the outputs it creates, before its own confirmation line. */
  function SetupCalls(config: LogConfig, consoleId: nat, fileId: nat, windowId: nat): seq<OutputCall>
  {
    var level := config.defaultLogLevel;
    (if config.enableConsoleOutput then [SetLevelCall(LogOutput(consoleId, ConsoleKind(config.enableTimestamp)), level)] else []) +
    (if config.enableFileOutput then [SetLevelCall(LogOutput(fileId, FileKind(config.logFilePath, config.maxLogFileSize)), level)] else []) +
    (if config.enableDebugWindow
     then [MaxLinesCall(LogOutput(windowId, WindowKind), config.debugWindowMaxLines), SetLevelCall(LogOutput(windowId, WindowKind), level)]
     else [])
  }

  /** Fresh console and file outputs added to a list without repeats keep it without repeats, as long as the window is not already there. */
  lemma CreatedNoDups(outputs: seq<LogOutput>, config: LogConfig, consoleId: nat, fileId: nat, windowId: nat)
    requires NoDups(outputs) && consoleId != fileId
    requires forall o :: o in outputs ==> o.id != consoleId && o.id != fileId
    requires config.enableDebugWindow ==> LogOutput(windowId, WindowKind) !in outputs
    ensures NoDups(outputs + Created(config, consoleId, fileId, windowId))
  {
    var c := Created(config, consoleId, fileId, windowId);
    var all := outputs + c;
    assert NoDups(c);
    forall i, j | 0 <= i < j < |all| ensures all[i] != all[j] {
      if j >= |outputs| && i < |outputs| {
        assert all[i] in outputs;
        assert all[j] in c;
      } else if i >= |outputs| {
        assert all[i] == c[i - |outputs|] && all[j] == c[j - |outputs|];
      }
    }
  }

  class LogManager {
    /** `_outputs`. */
    var outputs: seq<LogOutput>
    /** `_currentLevel`. */
    var currentLevel: LogLevel
    /** `_isInitialized`. */
    var initialized: bool
    /** `_enableTimestamp`. */
    var enableTimestamp: bool
    /** `_enableStackTrace`. */
    var enableStackTrace: bool
    /** Whether `UNITY_EDITOR || DEVELOPMENT_BUILD` is defined. */
    const developmentBuild: bool
    /** The calls made into outputs, in order. */
    var calls: seq<OutputCall>

    /** No output is in the list twice. */
    predicate Valid()
      reads this
    {
      NoDups(outputs)
    }

    /** The manager before `Awake` runs `Initialize(new LogConfig())`. */
    constructor (developmentBuild: bool)
      ensures Valid() && outputs == [] && currentLevel == Info && !initialized
      ensures enableTimestamp && !enableStackTrace && calls == [] && this.developmentBuild == developmentBuild
    {
      outputs := [];
      currentLevel := Info;
      initialized := false;
      enableTimestamp := true;
      enableStackTrace := false;
      this.developmentBuild := developmentBuild;
      calls := [];
    }

    /** The loop of `Log`: the formatted line goes to every output once, in list order. */
    method Broadcast(formatted: string, level: LogLevel, tag: Option<string>)
      modifies this`calls
      ensures calls == old(calls) + LogCalls(outputs, formatted, level, tag)
    {
      ghost var start := calls;
      for i := 0 to |outputs|
        invariant calls == start + LogCalls(outputs[..i], formatted, level, tag)
      {
        LogCallsAppend(outputs[..i], outputs[i], formatted, level, tag);
        assert outputs[..i + 1] == outputs[..i] + [outputs[i]];
        calls := calls + [LogCall(outputs[i], formatted, level, tag)];
      }
      assert outputs[..|outputs|] == outputs;
    }

    /** `Log(message, level, tag)`. */
    method Log(message: string, level: LogLevel, tag: Option<string>, time: string)
      modifies this`calls
      ensures calls == old(calls) + Dispatch(outputs, currentLevel, enableTimestamp, message, level, tag, time)
    {
      if Rank(level) < Rank(currentLevel) {
        return;
      }
      var formatted := FormatLogMessage(message, level, tag, enableTimestamp, time);
      Broadcast(formatted, level, tag);
    }

    /** `LogDebug`: compiled out of release builds. */
    method LogDebug(message: string, tag: Option<string>, time: string)
      modifies this`calls
      ensures calls == old(calls) + if developmentBuild then Dispatch(outputs, currentLevel, enableTimestamp, message, Debug, tag, time) else []
    {
      if developmentBuild {
        Log(message, Debug, tag, time);
      }
    }

    method LogInfo(message: string, tag: Option<string>, time: string)
      modifies this`calls
      ensures calls == old(calls) + Dispatch(outputs, currentLevel, enableTimestamp, message, Info, tag, time)
    {
      Log(message, Info, tag, time);
    }

    method LogWarning(message: string, tag: Option<string>, time: string)
      modifies this`calls
      ensures calls == old(calls) + Dispatch(outputs, currentLevel, enableTimestamp, message, Warning, tag, time)
    {
      Log(message, Warning, tag, time);
    }

    method LogError(message: string, tag: Option<string>, time: string)
      modifies this`calls
      ensures calls == old(calls) + Dispatch(outputs, currentLevel, enableTimestamp, message, Error, tag, time)
    {
      Log(message, Error, tag, time);
    }

    method LogFatal(message: string, tag: Option<string>, time: string)
      modifies this`calls
      ensures calls == old(calls) + Dispatch(outputs, currentLevel, enableTimestamp, message, Fatal, tag, time)
    {
      Log(message, Fatal, tag, time);
    }

    /** `LogException(exception, tag)`: null is ignored; otherwise the exception is logged at Error. */
    method LogException(exception: Option<Exception>, tag: Option<string>, time: string)
      modifies this`calls
      ensures exception.None? ==> calls == old(calls)
      ensures exception.Some? ==>
                calls == old(calls) + Dispatch(outputs, currentLevel, enableTimestamp,
                                               ExceptionMessage(exception.value, enableStackTrace), Error, tag, time)
    {
      if exception.None? {
        return;
      }
      var e := exception.value;
      var message := "异常: " + e.typeName + " - " + e.message;
      if enableStackTrace && e.stackTrace.Some? {
        message := message + "\n堆栈跟踪:\n" + e.stackTrace.value;
      }
      Log(message, Error, tag, time);
    }

    /**
     * `AddOutput(output)`: null and an output already present are ignored;
     * otherwise the output is given the current level, appended, and the
     * addition is logged to every output, the new one included.
     */
    method AddOutput(output: Option<LogOutput>, time: string)
      requires Valid()
      modifies this`outputs, this`calls
      ensures Valid()
      ensures output.None? || output.value in old(outputs) ==> outputs == old(outputs) && calls == old(calls)
      ensures output.Some? && output.value !in old(outputs) ==>
                outputs == old(outputs) + [output.value] &&
                calls == old(calls) + [SetLevelCall(output.value, currentLevel)] +
                         Dispatch(outputs, currentLevel, enableTimestamp, "添加日志输出: " + TypeName(output.value), Info, Some("LogManager"), time)
    {
      if output.None? {
        return;
      }
      var o := output.value;
      if o !in outputs {
        calls := calls + [SetLevelCall(o, currentLevel)];
        outputs := outputs + [o];
        LogInfo("添加日志输出: " + TypeName(o), Some("LogManager"), time);
      }
    }

    /** `RemoveOutput(output)`: null and an absent output are ignored; a present one leaves the list and the removal is logged to the rest. */
    method RemoveOutput(output: Option<LogOutput>, time: string)
      requires Valid()
      modifies this`outputs, this`calls
      ensures Valid()
      ensures output.None? || output.value !in old(outputs) ==> outputs == old(outputs) && calls == old(calls)
      ensures output.Some? && output.value in old(outputs) ==>
                outputs == RemoveFirst(old(outputs), output.value) && output.value !in outputs &&
                calls == old(calls) + Dispatch(outputs, currentLevel, enableTimestamp, "移除日志输出: " + TypeName(output.value), Info, Some("LogManager"), time)
    {
      if output.None? {
        return;
      }
      var o := output.value;
      if o in outputs {
        RemoveAtNoDups(outputs, IndexOf(outputs, o));
        outputs := RemoveFirst(outputs, o);
        LogInfo("移除日志输出: " + TypeName(o), Some("LogManager"), time);
      }
    }

    /** The loop of `SetLogLevel`: every output is given the level, in list order. */
    method SetOutputLevels(level: LogLevel)
      modifies this`calls
      ensures calls == old(calls) + SetLevelCalls(outputs, level)
    {
      ghost var start := calls;
      for i := 0 to |outputs|
        invariant calls == start + SetLevelCalls(outputs[..i], level)
      {
        SetLevelCallsAppend(outputs[..i], outputs[i], level);
        assert outputs[..i + 1] == outputs[..i] + [outputs[i]];
        calls := calls + [SetLevelCall(outputs[i], level)];
      }
      assert outputs[..|outputs|] == outputs;
    }

    /**
     * `SetLogLevel(level)`: the level is stored and given to every output
     * in list order, then the change is logged at Info under the new level,
     * so it reaches no output when the new level is above Info.
     */
    method SetLogLevel(level: LogLevel, time: string)
      modifies this`currentLevel, this`calls
      ensures currentLevel == level
      ensures calls == old(calls) + SetLevelCalls(outputs, level) +
                       Dispatch(outputs, level, enableTimestamp, "日志级别设置为: " + Name(level), Info, Some("LogManager"), time)
      ensures Rank(level) > Rank(Info) ==> calls == old(calls) + SetLevelCalls(outputs, level)
    {
      currentLevel := level;
      SetOutputLevels(level);
      ghost var mid := calls;
      LogInfo("日志级别设置为: " + Name(level), Some("LogManager"), time);
      assert Rank(level) > Rank(Info) ==> calls == mid + [] == mid;
    }

    /** `Initialize`'s additions once its guard has passed: one output per enabled switch, each given the level first. */
    method AddConfiguredOutputs(config: LogConfig, consoleId: nat, fileId: nat, windowId: nat)
      modifies this`outputs, this`calls
      ensures outputs == old(outputs) + Created(config, consoleId, fileId, windowId)
      ensures calls == old(calls) + SetupCalls(config, consoleId, fileId, windowId)
    {
      var level := config.defaultLogLevel;
      ghost var o0, c0 := outputs, calls;
      if config.enableConsoleOutput {
        var console := LogOutput(consoleId, ConsoleKind(config.enableTimestamp));
        calls := calls + [SetLevelCall(console, level)];
        outputs := outputs + [console];
      }
      if config.enableFileOutput {
        var file := LogOutput(fileId, FileKind(config.logFilePath, config.maxLogFileSize));
        calls := calls + [SetLevelCall(file, level)];
        outputs := outputs + [file];
      }
      if config.enableDebugWindow {
        var window := LogOutput(windowId, WindowKind);
        calls := calls + [MaxLinesCall(window, config.debugWindowMaxLines), SetLevelCall(window, level)];
        outputs := outputs + [window];
      }
      assert outputs == o0 + Created(config, consoleId, fileId, windowId);
      assert calls == c0 + SetupCalls(config, consoleId, fileId, windowId);
    }

    /**
     * `Initialize(config)`: skipped entirely once initialised. Otherwise it
     * takes the level and switches from the configuration, adds a new
     * console output, a new file output and the debug-window singleton as
     * enabled, and logs its completion. `consoleId` and `fileId` are the
     * identities of the two objects it creates, `windowId` that of
     * `DebugWindow.Instance`.
     */
    method Initialize(config: LogConfig, consoleId: nat, fileId: nat, windowId: nat, time: string)
      requires Valid() && consoleId != fileId
      requires forall o :: o in outputs ==> o.id != consoleId && o.id != fileId
      modifies this
      ensures old(initialized) ==>
                outputs == old(outputs) && calls == old(calls) && currentLevel == old(currentLevel) &&
                enableTimestamp == old(enableTimestamp) && enableStackTrace == old(enableStackTrace) && initialized
      ensures !old(initialized) ==>
                initialized && currentLevel == config.defaultLogLevel &&
                enableTimestamp == config.enableTimestamp && enableStackTrace == config.enableStackTrace &&
                outputs == old(outputs) + Created(config, consoleId, fileId, windowId) &&
                calls == old(calls) + SetupCalls(config, consoleId, fileId, windowId) +
                         Dispatch(outputs, currentLevel, enableTimestamp, "日志系统初始化完成", Info, Some("LogManager"), time)
      ensures old(initialized) || !config.enableDebugWindow || LogOutput(windowId, WindowKind) !in old(outputs) ==> Valid()
    {
      if initialized {
        return;
      }
      if config.enableDebugWindow && LogOutput(windowId, WindowKind) !in outputs {
        CreatedNoDups(outputs, config, consoleId, fileId, windowId);
      } else if !config.enableDebugWindow {
        CreatedNoDups(outputs, config, consoleId, fileId, windowId);
      }
      currentLevel := config.defaultLogLevel;
      enableTimestamp := config.enableTimestamp;
      enableStackTrace := config.enableStackTrace;
      AddConfiguredOutputs(config, consoleId, fileId, windowId);
      initialized := true;
      LogInfo("日志系统初始化完成", Some("LogManager"), time);
    }

    method EnableTimestamp(enable: bool)
      modifies this`enableTimestamp
      ensures enableTimestamp == enable
    {
      enableTimestamp := enable;
    }

    method EnableStackTrace(enable: bool)
      modifies this`enableStackTrace
      ensures enableStackTrace == enable
    {
      enableStackTrace := enable;
    }

    /** `OnDestroy()`: every disposable output is disposed in list order, then the list is emptied and the manager marked uninitialised. */
    method OnDestroy()
      modifies this`outputs, this`calls, this`initialized
      ensures Valid() && outputs == [] && !initialized
      ensures calls == old(calls) + DisposeCalls(old(outputs))
    {
      ghost var start := calls;
      ghost var all := outputs;
      for i := 0 to |outputs|
        invariant outputs == all
        invariant calls == start + DisposeCalls(outputs[..i])
      {
        DisposeCallsAppend(outputs[..i], outputs[i]);
        assert outputs[..i + 1] == outputs[..i] + [outputs[i]];
        if Disposable(outputs[i]) {
          calls := calls + [DisposeCall(outputs[i])];
        }
      }
      assert outputs[..|outputs|] == outputs;
      outputs := [];
      initialized := false;
    }
  }
}
