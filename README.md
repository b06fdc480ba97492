# AppenderControl: the dispatch gate in front of one log4j appender

This project models `AppenderControl` from log4j-core, the object that every logger
configuration puts in front of each appender. For one log event, `callAppender` decides
whether the event reaches the appender's `append`, and what happens when it cannot or
when `append` fails. The checks run in a fixed, short-circuiting order:

1. The gate's own filter. A `DENY` drops the event silently.
2. The level. An event whose `intLevel` is above the gate's level (less severe) is
   dropped silently. A gate built without a level gets `Level.ALL`'s `intLevel`, and the
   check is then skipped altogether.
3. The thread-local re-entrancy flag. If it is set, "Recursive call to appender <name>"
   is reported to the appender's error handler and the event is dropped.
4. The guarded section. The flag is set and then cleared on every way out:
   - a non-started appender is reported, and the call throws unless the appender
     ignores exceptions;
   - a `Filterable` appender that filters the event is skipped silently;
   - otherwise `append` is called once. An `Exception` from `append` is reported with
     the exception as cause. The call then rethrows it unless the appender ignores
     exceptions. A `RuntimeException` is rethrown as it is. Any other `Exception` is
     wrapped in an `AppenderLoggingException`. An `Error` is not caught: it propagates
     unreported.

Files:

- `collaborators.dfy` (module `Collaborators`): levels as their `intLevel`, events, the
  filter's three verdicts, the appender as a record, the throwables that can leave
  `append`, the error handler's reports, and `Completion` (normal return or throw).
- `dispatch_spec.dfy` (module `DispatchSpec`): one pure function per step of the Java
  code. `Deliver(c, recursive, e)` is `callAppender` and gives the reports made, the
  events handed to `append`, and the completion. `CreateErrorMsg`,
  `IsFilteredByAppenderControl`, `IsFilteredByLevel` and `IsFilteredByAppender` are the
  Java methods of the same names.
- `gate.dfy` (module `Gate`): class `AppenderControl`. It has the appender, level,
  `intLevel` and filter as constants. Its mutable state is the re-entrancy flag plus
  the reports and `append` invocations seen so far. Each Java method that changes state
  or can throw is a Dafny method. `CallAppender`, `CallAppenderPreventRecursion`,
  `CallAppender0`, `EnsureAppenderStarted` and `TryCallAppender` have an `ensures` that
  ties the new state and the completion to the `DispatchSpec` function of their step.
  `ShouldSkip`, `IsRecursiveCall` and `AppenderErrorHandlerMessage` state their effect
  directly. `HandleError` and `HandleAppenderError` are specified by the `DispatchSpec`
  function of the same name. The three Java predicates and
  `createErrorMsg` exist only as `DispatchSpec` functions, which the methods call.
  Exceptions are returned as a `Completion`, so the `finally` clause of
  `callAppenderPreventRecursion` is the statement after the guarded call.
- `dispatch_properties.dfy` (module `DispatchProperties`): the properties of one call,
  proved about `Deliver`.

The appender is a foreign collaborator and is described by data. Its `append` is a
function from the event to an `AppendCall`. That value lists the events the appender
logs back through the same gate while `append` runs, then says whether `append`
returned or threw. `TryCallAppender` really makes those nested `CallAppender` calls
with the flag still set. This is how same-thread re-entrancy appears in the model.

`CallAppender` leaves the flag as it found it. A top-level call therefore starts and
ends with the flag unset, and two calls in sequence are independent of each other.

Three behaviours of the code that are easy to misread:

- A non-started appender that ignores exceptions is reported, and the event is then
  still appended (AppenderControl.java:111-128), not dropped.
- A `RuntimeException` from `append` is rethrown unwrapped. Only other exceptions get
  the `AppenderLoggingException` wrapper (AppenderControl.java:141-144).
- For a checked exception, the reported cause is the new wrapping
  `AppenderLoggingException`, not the original exception (AppenderControl.java:144, 149).

## Model

| member | source | states |
|---|---|---|
| Gate.AppenderControl.constructor | log4j-core/src/main/java/org/apache/logging/log4j/core/config/AppenderControl.java:48-54 | a gate without a level gets `intLevel` = `Level.ALL` (Integer.MAX_VALUE), otherwise the level's; the flag starts unset |
| Gate.AppenderControl.CallAppender | log4j-core/src/main/java/org/apache/logging/log4j/core/config/AppenderControl.java:68-73 | the reports, `append` invocations and completion of the call are those of `Deliver` for the flag it started with, and the flag is afterwards what it was before |
| Gate.AppenderControl.ShouldSkip | log4j-core/src/main/java/org/apache/logging/log4j/core/config/AppenderControl.java:75-77 | skips exactly when the filter denies, the level rejects or the flag is set; reports the recursive call only if the first two checks did not already reject |
| Gate.AppenderControl.IsRecursiveCall | log4j-core/src/main/java/org/apache/logging/log4j/core/config/AppenderControl.java:87-93 | true exactly when the flag is set, and then "Recursive call to appender <name>" is reported once |
| Gate.AppenderControl.AppenderErrorHandlerMessage | log4j-core/src/main/java/org/apache/logging/log4j/core/config/AppenderControl.java:95-99 | reports prefix + appender name without a cause and returns that message |
| Gate.AppenderControl.CallAppenderPreventRecursion | log4j-core/src/main/java/org/apache/logging/log4j/core/config/AppenderControl.java:101-108 | runs the guarded section with the flag set, and the flag is unset afterwards whether the section returned or threw |
| Gate.AppenderControl.CallAppender0 | log4j-core/src/main/java/org/apache/logging/log4j/core/config/AppenderControl.java:110-115 | a throwing start check ends the call; otherwise the appender's filter decides whether `append` runs |
| Gate.AppenderControl.EnsureAppenderStarted | log4j-core/src/main/java/org/apache/logging/log4j/core/config/AppenderControl.java:117-121 | a started appender changes nothing; a non-started one goes to the error path |
| Gate.AppenderControl.HandleError | log4j-core/src/main/java/org/apache/logging/log4j/core/config/AppenderControl.java:123-128 | reports prefix + name, then throws `AppenderLoggingException` with that message unless the appender ignores exceptions |
| Gate.AppenderControl.TryCallAppender | log4j-core/src/main/java/org/apache/logging/log4j/core/config/AppenderControl.java:138-146 | `append` is invoked once; the appender's own nested calls come back into the gate with the flag set; an `Error` propagates unreported, an `Exception` goes to the failure handling, wrapped if checked |
| Gate.AppenderControl.HandleAppenderError | log4j-core/src/main/java/org/apache/logging/log4j/core/config/AppenderControl.java:148-153 | reports "An exception occurred processing Appender <name>" with the exception as cause, then rethrows it unchanged unless exceptions are ignored |
| DispatchProperties.DeniedIsSilent | log4j-core/src/main/java/org/apache/logging/log4j/core/config/AppenderControl.java:69-81 | a DENY from the gate filter means no report, no `append`, no throw, whether or not the flag is set |
| DispatchProperties.LevelThreshold | log4j-core/src/main/java/org/apache/logging/log4j/core/config/AppenderControl.java:83-85 | the level check rejects exactly the events whose intLevel is above the configured level's; without a level, intLevel is ALL and nothing is rejected; a rejected event is dropped silently |
| DispatchProperties.ReentrantCall | log4j-core/src/main/java/org/apache/logging/log4j/core/config/AppenderControl.java:75-93 | a call with the flag set never appends or throws; it reports "Recursive call to appender <name>" once exactly when neither the filter nor the level rejected the event first |
| DispatchProperties.ReentrantCallsOnlyReport | log4j-core/src/main/java/org/apache/logging/log4j/core/config/AppenderControl.java:87-99 | the calls an appender makes on its own gate during `append` never reach `append`; they produce one "Recursive call" report per event the filter and level let through |
| DispatchProperties.AppendedAtMostOnce | log4j-core/src/main/java/org/apache/logging/log4j/core/config/AppenderControl.java:110-140 | `append` runs at most once per call, and exactly when the call is not re-entrant, the filter and the level pass it, the appender is started or ignores exceptions, and its own filter passes it |
| DispatchProperties.NotStartedThrows | log4j-core/src/main/java/org/apache/logging/log4j/core/config/AppenderControl.java:117-128 | a non-started appender not ignoring exceptions: one report "Attempted to append to non-started appender <name>", no `append`, `AppenderLoggingException` with that message thrown |
| DispatchProperties.NotStartedIgnoredStillAppends | log4j-core/src/main/java/org/apache/logging/log4j/core/config/AppenderControl.java:110-128 | a non-started appender ignoring exceptions is reported first, then still appended to unless its own filter rejects the event |
| DispatchProperties.AppenderFilteredIsSilent | log4j-core/src/main/java/org/apache/logging/log4j/core/config/AppenderControl.java:134-136 | a started `Filterable` appender that filters the event: no report, no `append`, no throw |
| DispatchProperties.AppendSucceeds | log4j-core/src/main/java/org/apache/logging/log4j/core/config/AppenderControl.java:138-140 | a successful `append` on a started appender: appended once, normal return, and only the recursive-call reports of the appender's own nested calls |
| DispatchProperties.AppendFailureReported | log4j-core/src/main/java/org/apache/logging/log4j/core/config/AppenderControl.java:138-153 | an `Exception` from `append` gives exactly one "An exception occurred processing Appender <name>" report, last, with the (wrapped if checked) exception as cause; that exception is thrown unless exceptions are ignored |
| DispatchProperties.ErrorPropagates | log4j-core/src/main/java/org/apache/logging/log4j/core/config/AppenderControl.java:138-146 | an `Error` from `append` is thrown even when exceptions are ignored; the only reports are the non-started one and the nested recursive-call ones, none with a cause and none the exception report |
| DispatchProperties.ThrownFailures | log4j-core/src/main/java/org/apache/logging/log4j/core/config/AppenderControl.java:123-153 | a call throws only a `RuntimeException` when exceptions are not ignored, or an `Error` that `append`, invoked once for this event, threw; a checked exception never leaves the gate |
| DispatchProperties.WarnThresholdScenario | log4j-core/src/main/java/org/apache/logging/log4j/core/config/AppenderControl.java:83-85 | with level WARN: an INFO event is dropped silently, an ERROR event reaches a healthy appender exactly once |

## Left out

- The `ThreadLocal` and concurrent callers: the flag is one boolean, the value for the
  single thread being modelled. Callers on other threads would each have their own flag.
- `start()` in the constructor, `getAppender` and `serialVersionUID`: lifecycle and
  serialization plumbing with nothing to state.
- How a `Filter` reaches its verdict, how an appender appends, and what the error
  handler does with a report. These are collaborators: the filter is a function, the
  appender's behaviour is data, and the handler is the sequence of reports it received.
- Exceptions thrown by the filter, by `isStarted`, `isFiltered` or the error handler, and
  re-entrant logging from anywhere other than `append`. The model assumes these
  collaborators return normally.
- Java's exception hierarchy beyond the four tags the gate distinguishes. The message
  that `AppenderLoggingException(Throwable)` derives from its cause is not modelled.
- `Level` itself: levels are their `intLevel`. The constants are log4j's standard values,
  and `Level.java` is not part of this model.
- The appender's state is constant for the life of the gate: `started`,
  `ignoreExceptions`, its filter and its `append` behaviour are fixed when the class is
  built, whereas Java asks `isStarted()` again on each call and an appender can be
  stopped while its gate exists. Every lemma quantifies over all configurations, so each
  single call is covered. Levels are unbounded integers, where Java's `intLevel` lies in
  0 to Integer.MAX_VALUE; the comparison is the same on that range.
