/**
 * `DebugWindow`: the in-game log output. It keeps a bounded buffer of
 * lines, a visibility flag toggled by F12 or its public methods, and the
 * filter state of its search box and level toolbar. The IMGUI drawing is
 * not modelled; the decision of which buffered lines the window shows is.
 */
module DebugWindows {
  import opened Logging

  /** The `MaxLines` setter: never below 100. */
  function ClampMaxLines(v: int): (r: int)
    ensures r >= 100 && r >= v
    ensures r == 100 || r == v
  {
    if v < 100 then 100 else v
  }

  /** The buffer after `Log` accepts `message`: appended at the end, then the oldest line dropped once if the count exceeds `maxLines`. */
  function Appended(lines: seq<string>, message: string, maxLines: int): (r: seq<string>)
    ensures |lines| + 1 <= maxLines ==> r == lines + [message]
    ensures |lines| + 1 > maxLines && lines != [] ==> r == lines[1..] + [message]
    ensures |lines| + 1 > maxLines && lines == [] ==> r == []
  {
    var added := lines + [message];
    if |added| > maxLines then
      assert lines != [] ==> added[1..] == lines[1..] + [message];
      added[1..]
    else added
  }

  /** The last `n` elements of `s`, or all of `s` when it is shorter. */
  function LastN<T>(s: seq<T>, n: nat): (r: seq<T>)
    ensures |r| == if |s| <= n then |s| else n
  {
    if |s| <= n then s else s[|s| - n..]
  }

  /** The buffer after `Log` accepts each of `messages` in turn. */
  function AppendedAll(lines: seq<string>, messages: seq<string>, maxLines: int): seq<string>
    decreases |messages|
  {
    if messages == [] then lines else AppendedAll(Appended(lines, messages[0], maxLines), messages[1..], maxLines)
  }

  /** One accepted line on a buffer within its bound keeps the last `maxLines` lines written. */
  lemma AppendedLast(lines: seq<string>, message: string, maxLines: nat)
    requires |lines| <= maxLines
    ensures Appended(lines, message, maxLines) == LastN(lines + [message], maxLines)
  {
  }

  lemma LastNAppend<T>(s: seq<T>, t: seq<T>, u: seq<T>, n: nat)
    requires |s| <= n
    ensures LastN(LastN(s + t, n) + u, n) == LastN(s + t + u, n)
  {
    var st := s + t;
    var stu := s + t + u;
    var a := LastN(st, n) + u;
    if |a| > n {
      assert LastN(a, n) == a[|a| - n..];
      assert LastN(stu, n) == stu[|stu| - n..];
      forall j | |a| - n <= j < |a| ensures a[j] == stu[j + |stu| - |a|] {
      }
    }
  }

  /**
   * However many lines are logged into a buffer that is within its bound,
   * the buffer ends up holding exactly the last `maxLines` lines of
   * everything written, in order.
   */
  lemma {:induction false} AppendedAllLast(lines: seq<string>, messages: seq<string>, maxLines: nat)
    requires |lines| <= maxLines
    ensures AppendedAll(lines, messages, maxLines) == LastN(lines + messages, maxLines)
    decreases |messages|
  {
    if messages == [] {
      assert lines + messages == lines;
    } else {
      var next := Appended(lines, messages[0], maxLines);
      AppendedLast(lines, messages[0], maxLines);
      AppendedAllLast(next, messages[1..], maxLines);
      LastNAppend(lines, [messages[0]], messages[1..], maxLines);
      assert lines + [messages[0]] + messages[1..] == lines + messages;
    }
  }

  /**
   * `GetLogLevel(line)`: the level of the first tag found when checking
   * [DEBUG], [INFO], [WARNING], [ERROR], [FATAL] in that order; Debug when
   * the line holds none of them.
   */
  function GetLogLevel(line: string): (r: LogLevel)
    ensures Contains(line, Tag(r)) || (r == Debug && forall l :: !Contains(line, Tag(l)))
    ensures forall l :: Rank(l) < Rank(r) ==> !Contains(line, Tag(l))
  {
    if Contains(line, Tag(Debug)) then Debug
    else if Contains(line, Tag(Info)) then Info
    else if Contains(line, Tag(Warning)) then Warning
    else if Contains(line, Tag(Error)) then Error
    else if Contains(line, Tag(Fatal)) then Fatal
    else Debug
  }

  /** `DrawLogContent`'s filter as written: a line is skipped when the search text is non-empty or the line lacks it. */
  predicate ShownAsWritten(line: string, searchText: string, filterLevel: LogLevel)
  {
    !(searchText != "" || !Contains(line, searchText)) && Rank(GetLogLevel(line)) >= Rank(filterLevel)
  }

  /** As written, typing anything into the search box hides every line. */
  lemma SearchHidesAll(line: string, searchText: string, filterLevel: LogLevel)
    requires searchText != ""
    ensures !ShownAsWritten(line, searchText, filterLevel)
  {
  }

  /** The line "[INFO] hello" is hidden by the search "hello" that it matches. */
  lemma SearchHidesMatch()
    ensures Contains("[INFO] hello", "hello") && !ShownAsWritten("[INFO] hello", "hello", Debug)
  {
    ContainsSlice("[INFO] hello", 7, 12);
    assert "[INFO] hello"[7..12] == "hello";
  }

  /** The intended filter: no search text or a line containing it, and a level at or above the toolbar's. */
  predicate Shown(line: string, searchText: string, filterLevel: LogLevel)
  {
    (searchText == "" || Contains(line, searchText)) && Rank(GetLogLevel(line)) >= Rank(filterLevel)
  }

  /** The intended filter keeps exactly the lines that contain the search text and are at or above the filter level. */
  lemma ShownIff(line: string, searchText: string, filterLevel: LogLevel)
    ensures Shown(line, searchText, filterLevel) <==> Contains(line, searchText) && Rank(GetLogLevel(line)) >= Rank(filterLevel)
  {
    if searchText == "" {
      ContainsEmpty(line);
    }
  }

  /** With an empty search box the two filters agree. */
  lemma EmptySearchAgrees(line: string, filterLevel: LogLevel)
    ensures Shown(line, "", filterLevel) == ShownAsWritten(line, "", filterLevel)
  {
    ContainsEmpty(line);
  }

  /** The lines of `lines` the intended filter shows, in buffer order. */
  function ShownLines(lines: seq<string>, searchText: string, filterLevel: LogLevel): (r: seq<string>)
    ensures |r| <= |lines|
  {
    if lines == [] then []
    else if Shown(lines[0], searchText, filterLevel) then [lines[0]] + ShownLines(lines[1..], searchText, filterLevel)
    else ShownLines(lines[1..], searchText, filterLevel)
  }

  /** The window shows a line exactly when it is buffered and passes the filter. */
  lemma {:induction false} ShownLinesMembers(lines: seq<string>, searchText: string, filterLevel: LogLevel)
    ensures forall x :: x in ShownLines(lines, searchText, filterLevel) <==> x in lines && Shown(x, searchText, filterLevel)
  {
    if lines != [] {
      ShownLinesMembers(lines[1..], searchText, filterLevel);
      assert forall x :: x in lines <==> x == lines[0] || x in lines[1..];
    }
  }

  lemma ShownLinesAppend(lines: seq<string>, x: string, searchText: string, filterLevel: LogLevel)
    ensures ShownLines(lines + [x], searchText, filterLevel) ==
            ShownLines(lines, searchText, filterLevel) + if Shown(x, searchText, filterLevel) then [x] else []
  {
    if lines != [] {
      assert (lines + [x])[1..] == lines[1..] + [x];
    }
  }

  class DebugWindow {
    /** `_logLevel`. */
    var logLevel: LogLevel
    /** `_logLines`, oldest first. */
    var lines: seq<string>
    /** `_isVisible`. */
    var visible: bool
    /** `_maxLines`. */
    var maxLines: int
    /** `_filterLevel`, set from the toolbar. */
    var filterLevel: LogLevel
    /** `_searchText`, set from the search box. */
    var searchText: string

    /** `_maxLines` starts at 1000 and the setter never stores less than 100. */
    predicate Valid()
      reads this
    {
      maxLines >= 100
    }

    constructor ()
      ensures Valid()
      ensures logLevel == Info && lines == [] && !visible && maxLines == 1000
      ensures filterLevel == Debug && searchText == ""
    {
      logLevel := Info;
      lines := [];
      visible := false;
      maxLines := 1000;
      filterLevel := Debug;
      searchText := "";
    }

    /** `MaxLines = value`. The buffer is not trimmed: once it is longer than the new limit, each later `Log` drops one line and adds one, so it keeps its current length. */
    method SetMaxLines(value: int)
      modifies this`maxLines
      ensures Valid() && maxLines == ClampMaxLines(value)
    {
      maxLines := if 100 > value then 100 else value;
    }

    /** `Log(message, level, tag)`: the tag is ignored; the message itself is what the buffer keeps. */
    method Log(message: string, level: LogLevel, tag: string)
      requires Valid()
      modifies this`lines
      ensures Rank(level) < Rank(logLevel) ==> lines == old(lines)
      ensures Rank(level) >= Rank(logLevel) ==> lines == Appended(old(lines), message, maxLines)
      ensures |old(lines)| <= maxLines ==> |lines| <= maxLines
      ensures Rank(level) >= Rank(logLevel) ==> lines[|lines| - 1] == message
    {
      if Rank(level) < Rank(logLevel) {
        return;
      }
      lines := lines + [message];
      if |lines| > maxLines {
        lines := lines[1..];
      }
    }

    /** `SetLogLevel(level)`. */
    method SetLogLevel(level: LogLevel)
      modifies this`logLevel
      ensures logLevel == level
    {
      logLevel := level;
    }

    /** `ClearLogs()`. */
    method ClearLogs()
      modifies this`lines
      ensures lines == []
    {
      lines := [];
    }

    /** `ToggleWindow()` (and F12 in `Update`): two toggles restore the flag. */
    method ToggleWindow()
      modifies this`visible
      ensures visible == !old(visible)
    {
      visible := !visible;
    }

    method ShowWindow()
      modifies this`visible
      ensures visible
    {
      visible := true;
    }

    method HideWindow()
      modifies this`visible
      ensures !visible
    {
      visible := false;
    }

    /** The lines `DrawLogContent` labels, with the search filter as intended. */
    method VisibleLines() returns (shown: seq<string>)
      ensures shown == ShownLines(lines, searchText, filterLevel)
    {
      shown := [];
      for i := 0 to |lines|
        invariant shown == ShownLines(lines[..i], searchText, filterLevel)
      {
        ShownLinesAppend(lines[..i], lines[i], searchText, filterLevel);
        assert lines[..i + 1] == lines[..i] + [lines[i]];
        if Shown(lines[i], searchText, filterLevel) {
          shown := shown + [lines[i]];
        }
      }
      assert lines[..|lines|] == lines;
    }
  }
}
