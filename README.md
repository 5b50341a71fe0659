# Script console grouping and timers; SpatiallyNestable identity fields

This project models two pieces of the High Fidelity code base in Dafny.

**The script `console` object** (`ConsoleScriptingInterface`). It keeps four fields that decide how `console.group`, `console.groupCollapsed`, `console.groupEnd` and `console.log` indent what they print:
- `_addSpace`, the current indentation;
- `_isSameLevel`, whether a log has already opened the current level;
- `_isGroupEnd`, whether the outermost group has ended;
- `_selectedGroup`, the name of the group opened last.

It also keeps a table of label timers for `console.time` / `console.timeEnd`, writes elapsed times as days, hours, minutes and seconds (`secondsToString`), and builds the error text of `console.assert` (`asserts`).

How the console is modelled:
- Each line handed to the ScriptEngine becomes an `Entry` appended to the `output` field. `scriptPrintedMessage` is the `Printed` channel and `scriptErrorMessage` is the `Error` channel.
- The class `Console.ConsoleScriptingInterface` has the same fields as the source. Its methods follow the C++ statement by statement.
- Each method is proved against a pure function of the old state: `GroupLogStep`, `LogStep`, `GroupStep`, `GroupCollapsedStep`, `GroupEndStep`.
- What the source promises is proved as lemmas about those functions. The main one is the invariant that `_addSpace` is always a run of spaces whose length is a multiple of 3.
- Integers are decimal text as `QString::number` writes it (module `Decimal`). C++ truncating `/` and `%` and the wrap-around of `QTime::addSecs` are written out (module `Durations`).

**`SpatiallyNestable`**. The class holds the object's id, its parent's id and the parent joint index, with their inline getters and setters and the two constructors. The code does only what the inline bodies do:
- `setParentID` stores the id. It does not look the parent up, check for cycles or keep the world pose.
- Neither constructor sets the joint index.
- The joint index is a `quint16`, so it has no `-1` "no joint" value.

Things taken as parameters, because `ConsoleScriptingInterface.h` is not part of this model:
- The marker strings `GROUP`, `GROUPCOLLAPSED` and `GROUPEND` are a `Markers` value given to the constructor. They are not assumed distinct. Each lemma states the conditions it needs, such as "the selected group is not a marker name".
- The initial values of the four group fields are constructor arguments. The constructor requires them to be `Consistent`: the indentation is well formed, and it is empty when `_isGroupEnd` holds.
- `DAY` is 86400.
- Rendering an instant with `TIME_FORMAT` is an arbitrary function `formatTime`. `timeEnd` compares two renderings with it, as line 123 does.
- Instants are integers counting milliseconds. The clock is read by the caller and passed in as `now`.

## Model

| member | source | states |
|---|---|---|
| `Decimal.NatToString` | libraries/script-engine/src/ConsoleScriptingInterface.cpp:142 | `QString::number` of a count is a non-empty run of decimal digits with no leading zero |
| `Decimal.IntToString` | libraries/script-engine/src/ConsoleScriptingInterface.cpp:125 | `QString::number` of a signed value is non-empty and starts with `-` exactly when the value is negative |
| `Decimal.NatToStringValue` | libraries/script-engine/src/ConsoleScriptingInterface.cpp:142 | the digits written for a count read back as that count |
| `Decimal.IntToStringRoundTrip` | libraries/script-engine/src/ConsoleScriptingInterface.cpp:125 | parsing the text written for any integer gives that integer back |
| `Decimal.IntToStringInjective` | libraries/script-engine/src/ConsoleScriptingInterface.cpp:125 | distinct integers are written as distinct texts |
| `Durations.TruncDiv` | libraries/script-engine/src/ConsoleScriptingInterface.cpp:138 | C++ `/` truncates toward zero: the remainder is below the divisor in size and has the dividend's sign |
| `Durations.TruncRem` | libraries/script-engine/src/ConsoleScriptingInterface.cpp:139 | C++ `%` leaves the remainder of `TruncDiv`, with the sign of the dividend |
| `Durations.ClockAfter` | libraries/script-engine/src/ConsoleScriptingInterface.cpp:139 | `QTime(0, 0).addSecs(s)` is a time of day below `DAY` that differs from `s` by whole days (it wraps around midnight) |
| `Durations.DurationText` | libraries/script-engine/src/ConsoleScriptingInterface.cpp:141-142 | the text filled into the `%1 days, %2 hours, %3 minutes, %4 seconds` template starts with the days and ` days, ` and ends in ` seconds` |
| `Durations.SecondsToString` | libraries/script-engine/src/ConsoleScriptingInterface.cpp:136-143 | the text starts with the count divided by 86400 and truncated toward zero, then ` days, `, and ends in ` seconds` |
| `Durations.SecondsToStringOfDecomposition` | libraries/script-engine/src/ConsoleScriptingInterface.cpp:136-143 | for `s >= 0`, any `D, H, M, S` with `D*86400 + H*3600 + M*60 + S == s`, `H < 24`, `M < 60`, `S < 60` is exactly what `secondsToString(s)` prints |
| `Durations.SecondsToStringFields` | libraries/script-engine/src/ConsoleScriptingInterface.cpp:136-143 | for `s >= 0` such `D, H, M, S` exist, so the printed fields always add up to `s` |
| `Durations.SecondsToStringNegative` | libraries/script-engine/src/ConsoleScriptingInterface.cpp:136-143 | for `s < 0` the days are truncated toward zero and the clock wraps back from midnight; the fields add up to `s`, or to `s + 86400` when `s` is not a whole number of days |
| `Console.Mid` | libraries/script-engine/src/ConsoleScriptingInterface.cpp:200 | `QString::mid(0, n)` is a prefix of the string, of length `n` when `0 <= n < length` and the whole string otherwise (negative `n` included) |
| `Console.PrintStep` | libraries/script-engine/src/ConsoleScriptingInterface.cpp:197-217 | the printing half of `consoleGroupLog`: keeps `_selectedGroup`, never sets `_isGroupEnd`, and prints one line, except none when the current group is not a marker and the name is `GROUPEND` |
| `Console.CloseStep` | libraries/script-engine/src/ConsoleScriptingInterface.cpp:219-224 | the closing half: changes nothing unless the name is `GROUPEND`; then it only shortens the indentation (a prefix of the old one), and `_isGroupEnd` ends true exactly when it was already or the indentation is now empty |
| `Console.GroupLogStep` | libraries/script-engine/src/ConsoleScriptingInterface.cpp:191-225 | `consoleGroupLog` keeps `_selectedGroup` and prints one line, on the printed channel, except none when the current group is not a marker and the name is `GROUPEND` |
| `Console.LogStep` | libraries/script-engine/src/ConsoleScriptingInterface.cpp:25-33 | `log` keeps `_selectedGroup`, prints only on the printed channel, and prints exactly one line for any message other than `GROUPEND` |
| `Console.GroupStep` | libraries/script-engine/src/ConsoleScriptingInterface.cpp:177-180 | `group(name)` selects `name` and prints exactly one line |
| `Console.GroupCollapsedStep` | libraries/script-engine/src/ConsoleScriptingInterface.cpp:182-185 | `groupCollapsed(name)` selects `name` and prints exactly one line |
| `Console.GroupEndStep` | libraries/script-engine/src/ConsoleScriptingInterface.cpp:187-189 | `groupEnd` keeps `_selectedGroup` and prints nothing when the selected group is not a marker name |
| `Console.GroupLogStepKeepsIndent` | libraries/script-engine/src/ConsoleScriptingInterface.cpp:191-225 | whatever `consoleGroupLog` is called with, `_addSpace` stays a run of spaces whose length is a multiple of 3 |
| `Console.StepsKeepConsistent` | libraries/script-engine/src/ConsoleScriptingInterface.cpp:25-33 | `log`, `group`, `groupCollapsed` and `groupEnd` keep the indentation well formed, and keep it empty whenever `_isGroupEnd` holds |
| `Console.HeaderStep` | libraries/script-engine/src/ConsoleScriptingInterface.cpp:197-209 | with a group marker: at a group end, the indentation resets to empty, `_isGroupEnd` clears and the name is printed with no indent; otherwise the level deepens by one (after leaving a level a log opened) and the header is printed one space short of the new indentation; `_isSameLevel` ends false |
| `Console.GroupOpensLevel` | libraries/script-engine/src/ConsoleScriptingInterface.cpp:177-185 | `group(name)` and `groupCollapsed(name)` set `_selectedGroup` to `name`, then open a level and print its header as `HeaderStep` states |
| `Console.LogPrints` | libraries/script-engine/src/ConsoleScriptingInterface.cpp:25-33 | after a group end, `log` prints the message verbatim and changes nothing; inside a group it prints the message at the group's content indentation, deepening by one level only if `_isSameLevel` was false, and sets `_isSameLevel` |
| `Console.LogTwiceSameLevel` | libraries/script-engine/src/ConsoleScriptingInterface.cpp:211-217 | two logs in a row inside a group print at the same indentation, and the second changes no state |
| `Console.GroupEndClosesLevel` | libraries/script-engine/src/ConsoleScriptingInterface.cpp:187-189 | `groupEnd` prints nothing, keeps `_selectedGroup` and `_isSameLevel`, removes one level of indentation, and leaves `_isGroupEnd` true exactly when the indentation is empty |
| `Console.EmptyNestedGroupEndsNesting` | libraries/script-engine/src/ConsoleScriptingInterface.cpp:219-224 | starting from a group end, `group(A); group(B); groupEnd()` sets `_isGroupEnd` while A is still open, so the next `log` prints flush left |
| `Console.AssertionText` | libraries/script-engine/src/ConsoleScriptingInterface.cpp:147-158 | the error text is `Assertion failed` alone exactly when the message is empty, otherwise that prefix, a space and the message, which can be read back |
| `Console.AssertionTextInjective` | libraries/script-engine/src/ConsoleScriptingInterface.cpp:147-158 | distinct assertion messages give distinct error texts |
| `Console.SecsTo` | libraries/script-engine/src/ConsoleScriptingInterface.cpp:128 | `secsTo` counts whole seconds, truncated toward zero: the milliseconds elapsed lie within one second of `1000 * r` on the side of zero |
| `Console.ElapsedText` | libraries/script-engine/src/ConsoleScriptingInterface.cpp:123-129 | the report ends in ` ms` when both instants render alike under `TIME_FORMAT`, and in ` seconds` otherwise |
| `Console.ElapsedTextMilliseconds` | libraries/script-engine/src/ConsoleScriptingInterface.cpp:123-125 | when both instants render alike under `TIME_FORMAT`, the report ends in ` ms` and the number before it reads back as the elapsed milliseconds |
| `Console.ElapsedTextSeconds` | libraries/script-engine/src/ConsoleScriptingInterface.cpp:127-129 | otherwise, for a later `now`, the report is days, hours below 24, minutes and seconds below 60, adding up to the whole seconds elapsed |
| `Console.ConsoleScriptingInterface.constructor` | libraries/script-engine/src/ConsoleScriptingInterface.cpp:197-209 | the fields these lines read start from its arguments (their declarations in `ConsoleScriptingInterface.h` are not part of this model): starts with the given markers, `TIME_FORMAT` rendering and initial group fields, an empty label table and no output |
| `Console.ConsoleScriptingInterface.Debug` | libraries/script-engine/src/ConsoleScriptingInterface.cpp:35-39 | appends exactly one printed line, the message |
| `Console.ConsoleScriptingInterface.ConsoleGroupLog` | libraries/script-engine/src/ConsoleScriptingInterface.cpp:191-225 | the new fields and the appended lines are those of `GroupLogStep` on the old fields |
| `Console.ConsoleScriptingInterface.CloseLevel` | libraries/script-engine/src/ConsoleScriptingInterface.cpp:219-224 | the `GROUPEND` tail of `consoleGroupLog`: the new fields are those of `CloseStep` on the old ones |
| `Console.ConsoleScriptingInterface.Log` | libraries/script-engine/src/ConsoleScriptingInterface.cpp:25-33 | keeps `Valid()`; new fields and appended lines are those of `LogStep` |
| `Console.ConsoleScriptingInterface.Group` | libraries/script-engine/src/ConsoleScriptingInterface.cpp:177-180 | keeps `Valid()`; new fields and appended lines are those of `GroupStep` |
| `Console.ConsoleScriptingInterface.GroupCollapsed` | libraries/script-engine/src/ConsoleScriptingInterface.cpp:182-185 | keeps `Valid()`; new fields and appended lines are those of `GroupCollapsedStep` |
| `Console.ConsoleScriptingInterface.GroupEnd` | libraries/script-engine/src/ConsoleScriptingInterface.cpp:187-189 | keeps `Valid()`; new fields and appended lines are those of `GroupEndStep` |
| `Console.ConsoleScriptingInterface.Time` | libraries/script-engine/src/ConsoleScriptingInterface.cpp:95-98 | inserts the label with the current instant, overwriting an earlier one; every other label is unchanged |
| `Console.ConsoleScriptingInterface.TimeEnd` | libraries/script-engine/src/ConsoleScriptingInterface.cpp:100-134 | an absent label: one error `No such label found <label>`, and the table is unchanged; a present label: it is removed, and one printed line `Time : ` followed by the milliseconds or the `secondsToString` form |
| `Console.ConsoleScriptingInterface.Asserts` | libraries/script-engine/src/ConsoleScriptingInterface.cpp:145-163 | a true condition emits nothing; a false one emits exactly one error, `AssertionText(message)` |
| `Nestable.SpatiallyNestable.constructor` | libraries/shared/src/SpatiallyNestable.h:28 | null id, null parent id, identity transform; nothing is promised about the joint index |
| `Nestable.SpatiallyNestable.WithId` | libraries/shared/src/SpatiallyNestable.h:29 | `GetID()` returns the given id; null parent id; identity transform; nothing is promised about the joint index |
| `Nestable.SpatiallyNestable.GetID` | libraries/shared/src/SpatiallyNestable.h:32 | returns the stored id; what it returns is stated in the contracts of the constructors and `SetID` |
| `Nestable.SpatiallyNestable.GetParentID` | libraries/shared/src/SpatiallyNestable.h:35 | returns the stored parent id; stated in the contracts of the constructors and `SetParentID` |
| `Nestable.SpatiallyNestable.GetParentJointIndex` | libraries/shared/src/SpatiallyNestable.h:38 | returns the stored joint index; stated in the contracts of `SetParentID` and `SetParentJointIndex` |
| `Nestable.SpatiallyNestable.SetID` | libraries/shared/src/SpatiallyNestable.h:32-33 | `GetID()` then returns the new id; only the id field may change |
| `Nestable.SpatiallyNestable.SetParentID` | libraries/shared/src/SpatiallyNestable.h:35-36 | `GetParentID()` then returns the new parent id; the id, joint index and transform are untouched |
| `Nestable.SpatiallyNestable.SetParentJointIndex` | libraries/shared/src/SpatiallyNestable.h:38-39 | `GetParentJointIndex()` then returns the new index, a 16-bit value in 0..65535; only that field may change |

## Left out

- The thin forwarders `info`, `warn`, `error`, `exception`, `trace` and `clear`. Each is one call into the ScriptEngine, which is not part of this model.
- `hasCorrectSyntax`. It rests on `QScriptEngine::checkSyntax`, a foreign call.
- `hadUncaughtExceptions`. It reads and clears the script engine's exception state, which is not part of this model.
- The `qobject_cast<ScriptEngine*>(engine())` checks. The model assumes the console is attached to a ScriptEngine, so every message is delivered.
- Reads of `QDateTime::currentDateTime`. The instant is a parameter `now`, counted in milliseconds.
- `TIME_FORMAT`. Only the comparison of two renderings is modelled; the format itself is an arbitrary function.
- The `_dateTimeOfLabel.isNull()` test in `timeEnd`. `time` only stores valid instants, so a found label is always removed.
- The 64-bit width of `qint64`. Elapsed times are unbounded integers, so overflow is not modelled.
- The `typeid` test in `asserts`. The message is always a `QString`, so that branch is dead.
- Console.ConsoleScriptingInterface.constructor: its `Consistent` precondition on the initial fields is an assumption about `ConsoleScriptingInterface.h`, which is not part of this model.
- The world-frame and local-frame transform methods of `SpatiallyNestable`, `getParentPointer` and the `_parent` / `_children` links. They are only declared, rely on float math and on `SpatialParentFinder`, and their bodies are in SpatiallyNestable.cpp, which is not part of this model. The transform is kept as a field only so that the setters can be shown not to touch it.
- `Transform`'s default constructor. It is taken to be the identity; `Transform.h` is not part of this model.
- `Avatar.h`, `lightSaber.js` and `AbstractScriptingServicesInterface.h`. They hold no logic of the modelled core.
