/** The behaviour of AppenderControl as pure functions: for a gate configuration, the
    state of the re-entrancy flag and an event, what a call of `callAppender` reports
    to the error handler, which events it hands to `append`, and how it completes.
    There is one function per step of the Java code, so that each method of the class
    in module Gate can be specified by the function of its own step. */
module DispatchSpec {
  import opened Collaborators

  const RecursivePrefix: string := "Recursive call to appender "
  const NotStartedPrefix: string := "Attempted to append to non-started appender "
  const ExceptionPrefix: string := "An exception occurred processing Appender "

  /** The immutable part of an AppenderControl: the appender, the optional level, the
      `intLevel` derived from it, and the optional gate filter. */
  datatype Control = Control(
    appender: Appender,
    level: Option<int>,
    intLevel: int,
    filter: Option<Event -> FilterResult>)

  /** The constructor's defaulting: no level means `Level.ALL`. */
  function IntLevelOf(level: Option<int>): int
  {
    if level.None? then ALL else level.value
  }

  /** Every gate the constructor builds has its `intLevel` derived from its level. */
  predicate WellFormed(c: Control)
  {
    c.intLevel == IntLevelOf(c.level)
  }

  /** What one call does: its reports, its `append` invocations, and how it completes. */
  datatype Effect = Effect(reports: seq<Report>, invocations: seq<Event>, result: Completion)

  function CreateErrorMsg(c: Control, prefix: string): string
  {
    prefix + c.appender.name
  }

  predicate IsFilteredByAppenderControl(c: Control, e: Event)
  {
    c.filter.Some? && c.filter.value(e) == Deny
  }

  predicate IsFilteredByLevel(c: Control, e: Event)
  {
    c.level.Some? && c.intLevel < e.level
  }

  /** The first two checks of `shouldSkip`, which report nothing. */
  predicate Screened(c: Control, e: Event)
  {
    IsFilteredByAppenderControl(c, e) || IsFilteredByLevel(c, e)
  }

  predicate IsFilteredByAppender(c: Control, e: Event)
  {
    c.appender.isFiltered.Some? && c.appender.isFiltered.value(e)
  }

  /** `callAppender` on a gate whose flag is `recursive`. */
  function Deliver(c: Control, recursive: bool, e: Event): Effect
    decreases if recursive then 0 else 2, 0
  {
    if Screened(c, e) then Effect([], [], Normal)
    else if recursive then Effect([Report(CreateErrorMsg(c, RecursivePrefix), None)], [], Normal)
    else Guarded(c, e)
  }

  /** `callAppender0`, run with the flag set. */
  function Guarded(c: Control, e: Event): Effect
    decreases 1, 1
  {
    var start := StartCheck(c);
    if start.result.Threw? then start
    else if IsFilteredByAppender(c, e) then start
    else
      var call := TryAppend(c, e);
      Effect(start.reports + call.reports, call.invocations, call.result)
  }

  /** `ensureAppenderStarted`. */
  function StartCheck(c: Control): Effect
  {
    if c.appender.started then Effect([], [], Normal) else HandleError(c, NotStartedPrefix)
  }

  /** `handleError`: report, then throw unless exceptions are ignored. */
  function HandleError(c: Control, prefix: string): Effect
  {
    var msg := CreateErrorMsg(c, prefix);
    Effect([Report(msg, None)], [],
           if c.appender.ignoreExceptions then Normal else Threw(AppenderLogging(Some(msg), None)))
  }

  /** `tryCallAppender`: one `append`, the re-entrant calls it makes, and its failure
      handling. A `java.lang.Error` is not caught by `catch (Exception)`. */
  function TryAppend(c: Control, e: Event): Effect
    decreases 1, 0
  {
    var call := c.appender.append(e);
    var nested := Reentrant(c, call.reentrant);
    var failure := AppendFailure(c, call.outcome);
    Effect(nested.reports + failure.reports, [e] + nested.invocations, failure.result)
  }

  /** The `catch` clauses of `tryCallAppender`, for how `append` ended. */
  function AppendFailure(c: Control, outcome: AppendOutcome): Effect
  {
    match outcome
    case Returned => Effect([], [], Normal)
    case Raised(t) =>
      if !t.IsException() then Effect([], [], Threw(t))
      else HandleAppenderError(c, Wrapped(t))
  }

  /** The exception `tryCallAppender` hands on: a `RuntimeException` as it is, any other
      `Exception` inside a new `AppenderLoggingException`. */
  function Wrapped(t: Throwable): Throwable
  {
    if t.IsRuntimeException() then t else AppenderLogging(None, Some(t))
  }

  /** `handleAppenderError`. */
  function HandleAppenderError(c: Control, ex: Throwable): Effect
  {
    Effect([Report(CreateErrorMsg(c, ExceptionPrefix), Some(ex))], [],
           if c.appender.ignoreExceptions then Normal else Threw(ex))
  }

  /** The `callAppender` calls an appender makes on the same gate, in order, while its
      `append` runs, that is, with the flag set. Their completions are dropped:
      DispatchProperties.ReentrantCall shows they are always normal. */
  function Reentrant(c: Control, events: seq<Event>): Effect
    decreases 0, |events| + 1
  {
    if events == [] then Effect([], [], Normal)
    else
      var before := Reentrant(c, events[..|events| - 1]);
      var last := Deliver(c, true, events[|events| - 1]);
      Effect(before.reports + last.reports, before.invocations + last.invocations, Normal)
  }
}
