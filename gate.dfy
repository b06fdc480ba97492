/** The AppenderControl class: the gate in front of one appender. Its only mutable
    state is the re-entrancy flag; the appender's error handler and the appender's
    `append` are modelled by the sequences of reports and invocations they received.
    The methods that make up `callAppender` (CallAppender, CallAppenderPreventRecursion,
    CallAppender0, EnsureAppenderStarted, TryCallAppender) are specified by the
    DispatchSpec function of their step. ShouldSkip, IsRecursiveCall and
    AppenderErrorHandlerMessage state their effect directly; HandleError and
    HandleAppenderError are specified by the DispatchSpec function of the same name.
    The Java predicates and `createErrorMsg` are not repeated here: the methods call
    the DispatchSpec functions. Java's exceptions are returned as a Completion, so a
    `finally` block is the code that runs after the call whatever Completion it
    returned. */
module Gate {
  import opened Collaborators
  import opened DispatchSpec

  class AppenderControl {
    const appender: Appender
    const level: Option<int>
    const intLevel: int
    const filter: Option<Event -> FilterResult>

    /** The current thread's value of the thread-local `recursive`: set while this gate
        is inside its guarded section. */
    var recursive: bool
    /** Every report made to the appender's error handler, oldest first. */
    var reports: seq<Report>
    /** Every event handed to the appender's `append`, oldest first. */
    var invocations: seq<Event>

    function Config(): Control
    {
      Control(appender, level, intLevel, filter)
    }

    constructor (appender: Appender, level: Option<int>, filter: Option<Event -> FilterResult>)
      ensures WellFormed(Config())
      ensures this.appender == appender && this.level == level && this.filter == filter
      ensures level.None? ==> intLevel == ALL
      ensures level.Some? ==> intLevel == level.value
      ensures !recursive && reports == [] && invocations == []
    {
      this.appender := appender;
      this.level := level;
      this.intLevel := if level.None? then ALL else level.value;
      this.filter := filter;
      recursive := false;
      reports := [];
      invocations := [];
    }

    /** `callAppender`. Whatever happens inside, the flag is as it was before. */
    method CallAppender(e: Event) returns (r: Completion)
      modifies this
      decreases if recursive then 0 else 1, 3
      ensures recursive == old(recursive)
      ensures reports == old(reports) + Deliver(Config(), old(recursive), e).reports
      ensures invocations == old(invocations) + Deliver(Config(), old(recursive), e).invocations
      ensures r == Deliver(Config(), old(recursive), e).result
    {
      var skip := ShouldSkip(e);
      if skip {
        return Normal;
      }
      r := CallAppenderPreventRecursion(e);
    }

    /** `shouldSkip`: the filter, then the level, then the flag, stopping at the first
        that rejects; only the flag check reports. */
    method ShouldSkip(e: Event) returns (skip: bool)
      modifies this`reports
      ensures skip == (Screened(Config(), e) || recursive)
      ensures reports == old(reports) +
        (if !Screened(Config(), e) && recursive
         then [Report(RecursivePrefix + appender.name, None)] else [])
    {
      if IsFilteredByAppenderControl(Config(), e) {
        return true;
      }
      if IsFilteredByLevel(Config(), e) {
        return true;
      }
      skip := IsRecursiveCall();
    }

    /** `isRecursiveCall`. */
    method IsRecursiveCall() returns (b: bool)
      modifies this`reports
      ensures b == recursive
      ensures reports == old(reports) +
        (if recursive then [Report(RecursivePrefix + appender.name, None)] else [])
    {
      if recursive {
        var _ := AppenderErrorHandlerMessage(RecursivePrefix);
        return true;
      }
      return false;
    }

    /** `appenderErrorHandlerMessage`: report `prefix` followed by the appender's name. */
    method AppenderErrorHandlerMessage(prefix: string) returns (msg: string)
      modifies this`reports
      ensures msg == prefix + appender.name
      ensures reports == old(reports) + [Report(msg, None)]
    {
      msg := CreateErrorMsg(Config(), prefix);
      reports := reports + [Report(msg, None)];
    }

    /** `callAppenderPreventRecursion`: set the flag, run the guarded section, and clear
        the flag on every way out of it. */
    method CallAppenderPreventRecursion(e: Event) returns (r: Completion)
      requires !recursive
      modifies this
      decreases 1, 2
      ensures !recursive
      ensures reports == old(reports) + Guarded(Config(), e).reports
      ensures invocations == old(invocations) + Guarded(Config(), e).invocations
      ensures r == Guarded(Config(), e).result
    {
      recursive := true;
      r := CallAppender0(e);
      // finally
      recursive := false;
    }

    /** `callAppender0`. */
    method CallAppender0(e: Event) returns (r: Completion)
      requires recursive
      modifies this
      decreases 0, 6
      ensures recursive
      ensures reports == old(reports) + Guarded(Config(), e).reports
      ensures invocations == old(invocations) + Guarded(Config(), e).invocations
      ensures r == Guarded(Config(), e).result
    {
      r := EnsureAppenderStarted();
      if r.Threw? {
        return;
      }
      if !IsFilteredByAppender(Config(), e) {
        r := TryCallAppender(e);
      }
    }

    /** `ensureAppenderStarted`. */
    method EnsureAppenderStarted() returns (r: Completion)
      modifies this`reports
      ensures reports == old(reports) + StartCheck(Config()).reports
      ensures r == StartCheck(Config()).result
    {
      r := Normal;
      if !appender.started {
        r := HandleError(NotStartedPrefix);
      }
    }

    /** `handleError`. */
    method HandleError(prefix: string) returns (r: Completion)
      modifies this`reports
      ensures reports == old(reports) + DispatchSpec.HandleError(Config(), prefix).reports
      ensures r == DispatchSpec.HandleError(Config(), prefix).result
    {
      var msg := AppenderErrorHandlerMessage(prefix);
      r := Normal;
      if !appender.ignoreExceptions {
        r := Threw(AppenderLogging(Some(msg), None));
      }
    }

    /** `tryCallAppender`: invoke `append` once; while it runs, the appender's own
        logging comes back into this gate with the flag still set. */
    method TryCallAppender(e: Event) returns (r: Completion)
      requires recursive
      modifies this
      decreases 0, 5
      ensures recursive
      ensures reports == old(reports) + TryAppend(Config(), e).reports
      ensures invocations == old(invocations) + TryAppend(Config(), e).invocations
      ensures r == TryAppend(Config(), e).result
    {
      invocations := invocations + [e];
      var call := appender.append(e);
      ghost var c := Config();
      ghost var reportsBefore := reports;
      ghost var invocationsBefore := invocations;
      var i := 0;
      while i < |call.reentrant|
        invariant 0 <= i <= |call.reentrant|
        invariant recursive
        invariant reports == reportsBefore + Reentrant(c, call.reentrant[..i]).reports
        invariant invocations == invocationsBefore + Reentrant(c, call.reentrant[..i]).invocations
      {
        ghost var done := Reentrant(c, call.reentrant[..i]);
        ghost var next := Deliver(c, true, call.reentrant[i]);
        assert call.reentrant[..i + 1][..i] == call.reentrant[..i];
        assert Reentrant(c, call.reentrant[..i + 1]).reports == done.reports + next.reports;
        assert Reentrant(c, call.reentrant[..i + 1]).invocations == done.invocations + next.invocations;
        var _ := CallAppender(call.reentrant[i]);
        i := i + 1;
      }
      assert call.reentrant[..i] == call.reentrant;
      match call.outcome
      case Returned =>
        r := Normal;
      case Raised(t) =>
        if !t.IsException() {
          r := Threw(t);
        } else if t.IsRuntimeException() {
          r := HandleAppenderError(t);
        } else {
          r := HandleAppenderError(AppenderLogging(None, Some(t)));
        }
    }

    /** `handleAppenderError`: report with the exception as cause, then rethrow it
        unless exceptions are ignored. */
    method HandleAppenderError(ex: Throwable) returns (r: Completion)
      modifies this`reports
      ensures reports == old(reports) + DispatchSpec.HandleAppenderError(Config(), ex).reports
      ensures r == DispatchSpec.HandleAppenderError(Config(), ex).result
    {
      reports := reports + [Report(CreateErrorMsg(Config(), ExceptionPrefix), Some(ex))];
      r := Normal;
      if !appender.ignoreExceptions {
        r := Threw(ex);
      }
    }
  }
}
