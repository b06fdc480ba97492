/** The values AppenderControl works with: levels, events, the gate filter's verdict,
    the appender it guards (a foreign collaborator, described by data), the exceptions
    that can cross it and the reports it makes to the appender's error handler. */
module Collaborators {

  datatype Option<+T> = None | Some(value: T)

  /** Levels are represented by their `intLevel`: the lower, the more severe. */
  const OFF: int := 0
  const FATAL: int := 100
  const ERROR: int := 200
  const WARN: int := 300
  const INFO: int := 400
  const DEBUG: int := 500
  const TRACE: int := 600
  /** `Level.ALL.intLevel()`, which is Java's `Integer.MAX_VALUE`. */
  const ALL: int := 0x7FFF_FFFF

  /** A log event; the gate only ever looks at its level. */
  datatype Event = Event(level: int, message: string)

  /** The three verdicts of a `Filter`. */
  datatype FilterResult = Accept | Neutral | Deny

  /** The throwables that can leave an appender's `append`, tagged by the Java class
      hierarchy only as far as the gate distinguishes them. */
  datatype Throwable =
    | /** `AppenderLoggingException`, built either from a message or around a cause */
      AppenderLogging(message: Option<string>, cause: Option<Throwable>)
    | /** any other `RuntimeException` */
      Runtime(name: string)
    | /** an `Exception` that is not a `RuntimeException` */
      Checked(name: string)
    | /** a `java.lang.Error`: a `Throwable` that is not an `Exception` */
      Fatal(name: string)
  {
    predicate IsRuntimeException() { AppenderLogging? || Runtime? }
    predicate IsException() { !Fatal? }
  }

  /** One call of the error handler's `error(msg)` or `error(msg, cause)`. */
  datatype Report = Report(message: string, cause: Option<Throwable>)

  /** How a call of `append` ends. */
  datatype AppendOutcome = Returned | Raised(thrown: Throwable)

  /** What one call of `append` does: the events the appender logs back through the same
      gate while it runs (in order), then how it ends. */
  datatype AppendCall = AppendCall(reentrant: seq<Event>, outcome: AppendOutcome)

  /** The guarded appender. `isFiltered` is `None` when the appender is not `Filterable`. */
  datatype Appender = Appender(
    name: string,
    started: bool,
    ignoreExceptions: bool,
    isFiltered: Option<Event -> bool>,
    append: Event -> AppendCall)

  /** How a Java call completes: normally, or by throwing. */
  datatype Completion = Normal | Threw(thrown: Throwable)
}
