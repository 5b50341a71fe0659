// The script `console` object (ConsoleScriptingInterface): nested group
// indentation, label timers and assertion messages. Every line the console
// hands to the ScriptEngine is modelled as an Entry appended to `output`.

module Console {
  import opened Decimal
  import opened Durations

  /** ScriptEngine::scriptPrintedMessage and ScriptEngine::scriptErrorMessage. */
  datatype Channel = Printed | Error

  datatype Entry = Entry(channel: Channel, text: string)

  /** The marker strings GROUP, GROUPCOLLAPSED and GROUPEND of ConsoleScriptingInterface.h. */
  datatype Markers = Markers(group: string, groupCollapsed: string, groupEnd: string)

  /** What one level of nesting adds to the indentation. */
  const Indent: string := "   "

  /** QString::mid(0, n): the first n characters, or the whole string when n is negative or too large. */
  function Mid(s: string, n: int): (r: string)
    ensures r <= s
    ensures |r| == if 0 <= n < |s| then n else |s|
  {
    if 0 <= n < |s| then s[..n] else s
  }

  function Spaces(n: nat): (r: string)
    ensures |r| == n && forall i :: 0 <= i < n ==> r[i] == ' '
  {
    seq(n, _ => ' ')
  }

  /** An indentation: a run of spaces, three per nesting level. */
  ghost predicate IsIndent(s: string) {
    |s| % 3 == 0 && s == Spaces(|s|)
  }

  /** The fields _addSpace, _isSameLevel, _isGroupEnd and _selectedGroup. */
  datatype GroupState = GroupState(addSpace: string, isSameLevel: bool, isGroupEnd: bool, selectedGroup: string)

  /** The state after one call, with the lines that call emitted. */
  datatype Step = Step(state: GroupState, emitted: seq<Entry>)

  /** The state every public console operation keeps. */
  ghost predicate Consistent(st: GroupState) {
    IsIndent(st.addSpace) && (st.isGroupEnd ==> st.addSpace == "")
  }

  /** The first part of consoleGroupLog: open a group level and print its header, or print a log line. */
  function PrintStep(k: Markers, st: GroupState, currentGroup: string, groupName: string): (r: Step)
    ensures r.state.selectedGroup == st.selectedGroup
    ensures r.state.isGroupEnd ==> st.isGroupEnd
    ensures |r.emitted| == (if currentGroup != k.group && currentGroup != k.groupCollapsed && groupName == k.groupEnd then 0 else 1)
    ensures forall e :: e in r.emitted ==> e.channel == Printed
  {
    if currentGroup == k.group || currentGroup == k.groupCollapsed then
      var kept := if st.isSameLevel then Mid(st.addSpace, |st.addSpace| - 3) else st.addSpace;
      var space := if st.isGroupEnd then "" else kept + Indent;
      Step(st.(addSpace := space, isSameLevel := false, isGroupEnd := false),
           [Entry(Printed, Mid(space, |space| - 1) + groupName)])
    else if groupName != k.groupEnd then
      var space := if st.isSameLevel then st.addSpace else st.addSpace + Indent;
      Step(st.(addSpace := space, isSameLevel := true), [Entry(Printed, space + groupName)])
    else
      Step(st, [])
  }

  /** The last part of consoleGroupLog: on GROUPEND, step back one level and note when none is left. */
  function CloseStep(k: Markers, st: GroupState, groupName: string): (r: GroupState)
    ensures r.selectedGroup == st.selectedGroup && r.isSameLevel == st.isSameLevel
    ensures r.addSpace <= st.addSpace
    ensures groupName != k.groupEnd ==> r == st
    ensures groupName == k.groupEnd ==> (r.isGroupEnd <==> st.isGroupEnd || r.addSpace == "")
  {
    if groupName == k.groupEnd then
      var space := Mid(st.addSpace, |st.addSpace| - 3);
      st.(addSpace := space, isGroupEnd := st.isGroupEnd || space == "")
    else
      st
  }

  /** consoleGroupLog(currentGroup, groupName). */
  function GroupLogStep(k: Markers, st: GroupState, currentGroup: string, groupName: string): (r: Step)
    ensures r.state.selectedGroup == st.selectedGroup
    ensures |r.emitted| == (if currentGroup != k.group && currentGroup != k.groupCollapsed && groupName == k.groupEnd then 0 else 1)
    ensures forall e :: e in r.emitted ==> e.channel == Printed
  {
    var printed := PrintStep(k, st, currentGroup, groupName);
    Step(CloseStep(k, printed.state, groupName), printed.emitted)
  }

  /** log(message). */
  function LogStep(k: Markers, st: GroupState, message: string): (r: Step)
    ensures r.state.selectedGroup == st.selectedGroup
    ensures forall e :: e in r.emitted ==> e.channel == Printed
    ensures message != k.groupEnd ==> |r.emitted| == 1
  {
    if st.isGroupEnd then Step(st, [Entry(Printed, message)])
    else GroupLogStep(k, st, st.selectedGroup, message)
  }

  /** group(name). */
  function GroupStep(k: Markers, st: GroupState, name: string): (r: Step)
    ensures r.state.selectedGroup == name
    ensures |r.emitted| == 1 && r.emitted[0].channel == Printed
  {
    GroupLogStep(k, st.(selectedGroup := name), k.group, name)
  }

  /** groupCollapsed(name). */
  function GroupCollapsedStep(k: Markers, st: GroupState, name: string): (r: Step)
    ensures r.state.selectedGroup == name
    ensures |r.emitted| == 1 && r.emitted[0].channel == Printed
  {
    GroupLogStep(k, st.(selectedGroup := name), k.groupCollapsed, name)
  }

  /** groupEnd(). */
  function GroupEndStep(k: Markers, st: GroupState): (r: Step)
    ensures r.state.selectedGroup == st.selectedGroup
    ensures st.selectedGroup != k.group && st.selectedGroup != k.groupCollapsed ==> r.emitted == []
  {
    GroupLogStep(k, st, st.selectedGroup, k.groupEnd)
  }

  lemma IndentShorten(s: string)
    requires IsIndent(s)
    ensures IsIndent(Mid(s, |s| - 3))
    ensures |Mid(s, |s| - 3)| == if |s| >= 3 then |s| - 3 else 0
  {
  }

  lemma IndentDeepen(s: string)
    requires IsIndent(s)
    ensures IsIndent(s + Indent) && s + Indent == Spaces(|s| + 3)
  {
  }

  /** Whatever consoleGroupLog is called with, _addSpace stays a run of spaces of length a multiple of 3. */
  lemma GroupLogStepKeepsIndent(k: Markers, st: GroupState, currentGroup: string, groupName: string)
    requires IsIndent(st.addSpace)
    ensures IsIndent(GroupLogStep(k, st, currentGroup, groupName).state.addSpace)
  {
  }

  /** log, group, groupCollapsed and groupEnd keep the state Consistent. */
  lemma StepsKeepConsistent(k: Markers, st: GroupState, name: string)
    requires Consistent(st)
    ensures Consistent(LogStep(k, st, name).state)
    ensures Consistent(GroupStep(k, st, name).state)
    ensures Consistent(GroupCollapsedStep(k, st, name).state)
    ensures Consistent(GroupEndStep(k, st).state)
  {
    GroupLogStepKeepsIndent(k, st, st.selectedGroup, name);
    GroupLogStepKeepsIndent(k, st.(selectedGroup := name), k.group, name);
    GroupLogStepKeepsIndent(k, st.(selectedGroup := name), k.groupCollapsed, name);
    GroupLogStepKeepsIndent(k, st, st.selectedGroup, k.groupEnd);
  }

  /**
   * consoleGroupLog with a group marker as current group prints a header.
   * At a group end the header starts a fresh nesting with no indent;
   * otherwise the level is deepened by one (after stepping back out of a
   * level that logs had opened) and the header is printed one space short
   * of the new indentation.
   */
  lemma HeaderStep(k: Markers, st: GroupState, currentGroup: string, name: string)
    requires Consistent(st)
    requires currentGroup == k.group || currentGroup == k.groupCollapsed
    requires name != k.groupEnd
    ensures var r := GroupLogStep(k, st, currentGroup, name);
      && r.state.selectedGroup == st.selectedGroup
      && !r.state.isSameLevel && !r.state.isGroupEnd
      && (st.isGroupEnd ==> r.state.addSpace == "" && r.emitted == [Entry(Printed, name)])
      && (!st.isGroupEnd ==>
            var level := if st.isSameLevel && st.addSpace != "" then |st.addSpace| / 3 else |st.addSpace| / 3 + 1;
            && r.state.addSpace == Spaces(3 * level)
            && r.emitted == [Entry(Printed, Spaces(3 * level - 1) + name)])
  {
    var a := st.addSpace;
    var r := GroupLogStep(k, st, currentGroup, name);
    assert r == PrintStep(k, st, currentGroup, name);
    if !st.isGroupEnd {
      IndentShorten(a);
      var kept := if st.isSameLevel then Mid(a, |a| - 3) else a;
      IndentDeepen(kept);
      var space := kept + Indent;
      var level := if st.isSameLevel && a != "" then |a| / 3 else |a| / 3 + 1;
      assert |space| == 3 * level;
      assert r.state.addSpace == space == Spaces(3 * level);
      assert Mid(space, |space| - 1) == Spaces(3 * level - 1);
    } else {
      assert Mid("", -1) + name == name;
    }
  }

  /**
   * group(name) and groupCollapsed(name) select the group and print its
   * header as HeaderStep describes.
   */
  lemma GroupOpensLevel(k: Markers, st: GroupState, name: string, collapsed: bool)
    requires Consistent(st)
    requires name != k.groupEnd
    ensures var r := if collapsed then GroupCollapsedStep(k, st, name) else GroupStep(k, st, name);
      && r.state.selectedGroup == name
      && !r.state.isSameLevel && !r.state.isGroupEnd
      && (st.isGroupEnd ==> r.state.addSpace == "" && r.emitted == [Entry(Printed, name)])
      && (!st.isGroupEnd ==>
            var level := if st.isSameLevel && st.addSpace != "" then |st.addSpace| / 3 else |st.addSpace| / 3 + 1;
            && r.state.addSpace == Spaces(3 * level)
            && r.emitted == [Entry(Printed, Spaces(3 * level - 1) + name)])
  {
    HeaderStep(k, st.(selectedGroup := name), if collapsed then k.groupCollapsed else k.group, name);
  }

  /**
   * log(message) after the outermost group has ended prints the message as
   * it is and changes nothing. Inside a group (whose name is not a marker)
   * it prints the message at the indentation of the group's contents,
   * deepening by one level only for the first log at that level.
   */
  lemma LogPrints(k: Markers, st: GroupState, message: string)
    requires Consistent(st)
    ensures st.isGroupEnd ==> LogStep(k, st, message) == Step(st, [Entry(Printed, message)])
    ensures !st.isGroupEnd && st.selectedGroup != k.group && st.selectedGroup != k.groupCollapsed
            && message != k.groupEnd ==>
      var level := if st.isSameLevel then |st.addSpace| / 3 else |st.addSpace| / 3 + 1;
      LogStep(k, st, message)
        == Step(st.(addSpace := Spaces(3 * level), isSameLevel := true),
                [Entry(Printed, Spaces(3 * level) + message)])
  {
    IndentDeepen(st.addSpace);
  }

  /** Two logs in a row inside a group print at the same indentation; the second changes no state. */
  lemma LogTwiceSameLevel(k: Markers, st: GroupState, first: string, second: string)
    requires Consistent(st) && !st.isGroupEnd
    requires st.selectedGroup != k.group && st.selectedGroup != k.groupCollapsed
    requires first != k.groupEnd && second != k.groupEnd
    ensures var r1 := LogStep(k, st, first);
      var r2 := LogStep(k, r1.state, second);
      && r1.emitted == [Entry(Printed, r1.state.addSpace + first)]
      && r2 == Step(r1.state, [Entry(Printed, r1.state.addSpace + second)])
  {
  }

  /**
   * groupEnd() inside a group (whose name is not a marker) prints nothing,
   * keeps the selected group and the same-level flag, steps the indentation
   * back by one level, and marks the group end exactly when no indentation
   * is left.
   */
  lemma GroupEndClosesLevel(k: Markers, st: GroupState)
    requires Consistent(st)
    requires st.selectedGroup != k.group && st.selectedGroup != k.groupCollapsed
    ensures var r := GroupEndStep(k, st);
      && r.emitted == []
      && r.state.selectedGroup == st.selectedGroup
      && r.state.isSameLevel == st.isSameLevel
      && r.state.addSpace == Spaces(if st.addSpace == "" then 0 else |st.addSpace| - 3)
      && (r.state.isGroupEnd <==> r.state.addSpace == "")
  {
  }

  /**
   * Closing an empty group nested in another marks the group end although
   * the outer group is still open: the next log in the outer group is
   * printed with no indentation.
   */
  lemma EmptyNestedGroupEndsNesting(k: Markers, st: GroupState, outer: string, inner: string, message: string)
    requires Consistent(st) && st.isGroupEnd
    requires outer != k.groupEnd && inner != k.groupEnd && message != k.groupEnd
    requires inner != k.group && inner != k.groupCollapsed
    ensures var r1 := GroupStep(k, st, outer);
      var r2 := GroupStep(k, r1.state, inner);
      var r3 := GroupEndStep(k, r2.state);
      var r4 := LogStep(k, r3.state, message);
      && r3.state.isGroupEnd
      && r4.emitted == [Entry(Printed, message)]
  {
  }

  /** The ScriptEngine error for a failed assertion. */
  const AssertionFailed: string := "Assertion failed"

  /**
   * The error text of asserts(false, message): the fixed prefix alone for an
   * empty message, otherwise the prefix, a space and the message, which can
   * be read back from the text.
   */
  function AssertionText(message: string): (r: string)
    ensures AssertionFailed <= r
    ensures r == AssertionFailed <==> message == ""
    ensures message != "" ==> r[|AssertionFailed|] == ' ' && r[|AssertionFailed| + 1..] == message
  {
    if message == "" then AssertionFailed else AssertionFailed + " " + message
  }

  /** Distinct assertion messages give distinct error texts. */
  lemma AssertionTextInjective(m1: string, m2: string)
    requires AssertionText(m1) == AssertionText(m2)
    ensures m1 == m2
  {
  }

  /** QDateTime::secsTo: the whole seconds between two instants given in milliseconds, truncated toward zero. */
  function SecsTo(start: int, now: int): (r: int)
    ensures now >= start ==> r * 1000 <= now - start < r * 1000 + 1000
    ensures now < start ==> r * 1000 - 1000 < now - start <= r * 1000
  {
    TruncDiv(now - start, 1000)
  }

  /**
   * What timeEnd reports after "Time : ": the milliseconds when both instants
   * render alike under TIME_FORMAT (formatTime), the days, hours, minutes and
   * seconds otherwise.
   */
  function ElapsedText(start: int, now: int, formatTime: int -> string): (r: string)
    ensures formatTime(start) == formatTime(now) ==> EndsWith(r, " ms")
    ensures formatTime(start) != formatTime(now) ==> EndsWith(r, " seconds")
  {
    if formatTime(start) == formatTime(now) then IntToString(now - start) + " ms"
    else SecondsToString(SecsTo(start, now))
  }

  /** In the millisecond form the number before " ms" reads back as the elapsed milliseconds. */
  lemma ElapsedTextMilliseconds(start: int, now: int, formatTime: int -> string)
    requires formatTime(start) == formatTime(now)
    ensures var t := ElapsedText(start, now, formatTime);
      && EndsWith(t, " ms")
      && ParseInt(t[..|t| - 3]) == Some(now - start)
  {
    var t := ElapsedText(start, now, formatTime);
    assert t[..|t| - 3] == IntToString(now - start);
    IntToStringRoundTrip(now - start);
  }

  /** In the other form the printed fields add up to the whole seconds elapsed. */
  lemma ElapsedTextSeconds(start: int, now: int, formatTime: int -> string) returns (d: int, h: int, m: int, sec: int)
    requires formatTime(start) != formatTime(now) && start <= now
    ensures d >= 0 && 0 <= h < 24 && 0 <= m < 60 && 0 <= sec < 60
    ensures d * DAY + h * 3600 + m * 60 + sec == (now - start) / 1000
    ensures ElapsedText(start, now, formatTime) == DurationText(d, h, m, sec)
  {
    d, h, m, sec := SecondsToStringFields(SecsTo(start, now));
  }

  class ConsoleScriptingInterface {
    const markers: Markers
    /** QDateTime::toString(TIME_FORMAT) on an instant given in milliseconds. */
    const formatTime: int -> string

    var addSpace: string
    var isSameLevel: bool
    var isGroupEnd: bool
    var selectedGroup: string
    /** _listOfTimeValues: label to the instant, in milliseconds, at which time(labelName) ran. */
    var listOfTimeValues: map<string, int>
    /** Everything handed to the ScriptEngine so far. */
    var output: seq<Entry>

    function State(): GroupState
      reads this
    {
      GroupState(addSpace, isSameLevel, isGroupEnd, selectedGroup)
    }

    ghost predicate Valid()
      reads this
    {
      Consistent(State())
    }

    /** The initial field values come from ConsoleScriptingInterface.h. */
    constructor (markers: Markers, formatTime: int -> string,
                 addSpace: string, isSameLevel: bool, isGroupEnd: bool, selectedGroup: string)
      requires Consistent(GroupState(addSpace, isSameLevel, isGroupEnd, selectedGroup))
      ensures Valid()
      ensures this.markers == markers && this.formatTime == formatTime
      ensures State() == GroupState(addSpace, isSameLevel, isGroupEnd, selectedGroup)
      ensures listOfTimeValues == map[] && output == []
    {
      this.markers := markers;
      this.formatTime := formatTime;
      this.addSpace := addSpace;
      this.isSameLevel := isSameLevel;
      this.isGroupEnd := isGroupEnd;
      this.selectedGroup := selectedGroup;
      listOfTimeValues := map[];
      output := [];
    }

    method Debug(message: string)
      modifies this`output
      ensures output == old(output) + [Entry(Printed, message)]
    {
      output := output + [Entry(Printed, message)];
    }

    method ConsoleGroupLog(currentGroup: string, groupName: string)
      modifies this`addSpace, this`isSameLevel, this`isGroupEnd, this`output
      ensures var r := GroupLogStep(markers, old(State()), currentGroup, groupName);
        State() == r.state && output == old(output) + r.emitted
    {
      ghost var st := State();
      ghost var printed := PrintStep(markers, st, currentGroup, groupName);
      if currentGroup == markers.group || currentGroup == markers.groupCollapsed {
        if isSameLevel {
          addSpace := Mid(addSpace, |addSpace| - 3);
        }
        if isGroupEnd {
          addSpace := "";
          isGroupEnd := false;
        } else {
          addSpace := addSpace + Indent;
        }
        assert addSpace == printed.state.addSpace;
        Debug(Mid(addSpace, |addSpace| - 1) + groupName);
        isSameLevel := false;
      } else if groupName != markers.groupEnd {
        if !isSameLevel {
          addSpace := addSpace + Indent;
          isSameLevel := true;
        }
        assert addSpace == printed.state.addSpace;
        Debug(addSpace + groupName);
      }
      assert State() == printed.state && output == old(output) + printed.emitted;
      CloseLevel(groupName);
    }

    /** The GROUPEND tail of consoleGroupLog. */
    method CloseLevel(groupName: string)
      modifies this`addSpace, this`isGroupEnd
      ensures State() == CloseStep(markers, old(State()), groupName)
    {
      if groupName == markers.groupEnd {
        addSpace := Mid(addSpace, |addSpace| - 3);
        if |addSpace| == 0 {
          isGroupEnd := true;
        }
      }
    }

    method Log(message: string)
      requires Valid()
      modifies this`addSpace, this`isSameLevel, this`isGroupEnd, this`output
      ensures Valid()
      ensures var r := LogStep(markers, old(State()), message);
        State() == r.state && output == old(output) + r.emitted
    {
      StepsKeepConsistent(markers, State(), message);
      if isGroupEnd {
        output := output + [Entry(Printed, message)];
      } else {
        ConsoleGroupLog(selectedGroup, message);
      }
    }

    method Group(name: string)
      requires Valid()
      modifies this`addSpace, this`isSameLevel, this`isGroupEnd, this`selectedGroup, this`output
      ensures Valid()
      ensures var r := GroupStep(markers, old(State()), name);
        State() == r.state && output == old(output) + r.emitted
    {
      StepsKeepConsistent(markers, State(), name);
      selectedGroup := name;
      ConsoleGroupLog(markers.group, name);
    }

    method GroupCollapsed(name: string)
      requires Valid()
      modifies this`addSpace, this`isSameLevel, this`isGroupEnd, this`selectedGroup, this`output
      ensures Valid()
      ensures var r := GroupCollapsedStep(markers, old(State()), name);
        State() == r.state && output == old(output) + r.emitted
    {
      StepsKeepConsistent(markers, State(), name);
      selectedGroup := name;
      ConsoleGroupLog(markers.groupCollapsed, name);
    }

    method GroupEnd()
      requires Valid()
      modifies this`addSpace, this`isSameLevel, this`isGroupEnd, this`output
      ensures Valid()
      ensures var r := GroupEndStep(markers, old(State()));
        State() == r.state && output == old(output) + r.emitted
    {
      StepsKeepConsistent(markers, State(), markers.groupEnd);
      ConsoleGroupLog(selectedGroup, markers.groupEnd);
    }

    /** time(labelName) at instant now: starts (or restarts) the timer of that label. */
    method Time(labelName: string, now: int)
      modifies this`listOfTimeValues
      ensures labelName in listOfTimeValues && listOfTimeValues[labelName] == now
      ensures forall l :: l != labelName ==> (l in listOfTimeValues <==> l in old(listOfTimeValues))
      ensures forall l :: l != labelName && l in listOfTimeValues ==> listOfTimeValues[l] == old(listOfTimeValues)[l]
    {
      listOfTimeValues := listOfTimeValues[labelName := now];
    }

    /**
     * timeEnd(labelName) at instant now: an unknown label is reported as an
     * error and nothing else changes; a known label is removed and the time
     * elapsed since time(labelName) is printed.
     */
    method TimeEnd(labelName: string, now: int)
      modifies this`listOfTimeValues, this`output
      ensures labelName !in old(listOfTimeValues) ==>
        && listOfTimeValues == old(listOfTimeValues)
        && output == old(output) + [Entry(Error, "No such label found " + labelName)]
      ensures labelName in old(listOfTimeValues) ==>
        && listOfTimeValues == old(listOfTimeValues) - {labelName}
        && output == old(output) + [Entry(Printed, "Time : " + ElapsedText(old(listOfTimeValues)[labelName], now, formatTime))]
    {
      if labelName !in listOfTimeValues {
        output := output + [Entry(Error, "No such label found " + labelName)];
        return;
      }
      var start := listOfTimeValues[labelName];
      listOfTimeValues := listOfTimeValues - {labelName};
      var message;
      if formatTime(start) == formatTime(now) {
        message := IntToString(now - start) + " ms";
      } else {
        message := SecondsToString(SecsTo(start, now));
      }
      output := output + [Entry(Printed, "Time : " + message)];
    }

    /** asserts(condition, message): one error when the condition is false, nothing otherwise. */
    method Asserts(condition: bool, message: string)
      modifies this`output
      ensures condition ==> output == old(output)
      ensures !condition ==> output == old(output) + [Entry(Error, AssertionText(message))]
    {
      if !condition {
        var text;
        if message == "" {
          text := AssertionFailed;
        } else {
          text := AssertionFailed + " " + message;
        }
        output := output + [Entry(Error, text)];
      }
    }
  }
}
