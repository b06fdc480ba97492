/** What AppenderControl promises about one call of `callAppender`, proved of the
    DispatchSpec functions that the methods of Gate.AppenderControl are specified by. */
module DispatchProperties {
  import opened Collaborators
  import opened DispatchSpec

  /** The events among `events` that the gate filter and the level let through, in order. */
  function Passing(c: Control, events: seq<Event>): seq<Event>
  {
    if events == [] then []
    else
      var last := events[|events| - 1];
      Passing(c, events[..|events| - 1]) + (if Screened(c, last) then [] else [last])
  }

  /** A DENY from the gate filter drops the event before anything else is looked at:
      nothing is reported, `append` is not called, nothing is thrown. */
  lemma DeniedIsSilent(c: Control, recursive: bool, e: Event)
    requires c.filter.Some? && c.filter.value(e) == Deny
    ensures Deliver(c, recursive, e) == Effect([], [], Normal)
  {
  }

  /** An event less severe than the configured level is skipped; a gate without a level
      compares against `Level.ALL` and skips nothing. */
  lemma LevelThreshold(c: Control, recursive: bool, e: Event)
    requires WellFormed(c)
    ensures IsFilteredByLevel(c, e) <==> c.level.Some? && c.level.value < e.level
    ensures c.level.None? ==> c.intLevel == ALL
    ensures c.level.Some? && c.level.value < e.level ==> Deliver(c, recursive, e) == Effect([], [], Normal)
  {
  }

  /** A call made while the flag is set appends nothing and throws nothing; it reports
      "Recursive call to appender <name>" exactly once, unless the filter or the level,
      which are checked first, already reject the event, and then it reports nothing. */
  lemma ReentrantCall(c: Control, e: Event)
    ensures Deliver(c, true, e).invocations == []
    ensures Deliver(c, true, e).result == Normal
    ensures Deliver(c, true, e).reports ==
      if (c.filter.Some? && c.filter.value(e) == Deny) || (c.level.Some? && c.intLevel < e.level)
      then []
      else [Report("Recursive call to appender " + c.appender.name, None)]
  {
  }

  /** The calls an appender makes on its own gate while `append` runs never reach
      `append`: each event that the filter and the level let through yields one
      "Recursive call" report, and nothing else happens. */
  lemma {:induction false} ReentrantCallsOnlyReport(c: Control, events: seq<Event>)
    ensures Reentrant(c, events).invocations == []
    ensures |Reentrant(c, events).reports| == |Passing(c, events)|
    ensures forall k :: 0 <= k < |Reentrant(c, events).reports| ==>
      Reentrant(c, events).reports[k] == Report("Recursive call to appender " + c.appender.name, None)
  {
    if events != [] {
      ReentrantCallsOnlyReport(c, events[..|events| - 1]);
      ReentrantCall(c, events[|events| - 1]);
    }
  }

  /** `append` is invoked at most once per call, and exactly when the call is not
      re-entrant, the filter and the level let the event through, the appender is
      started or ignores exceptions, and the appender's own filter does not reject it. */
  lemma AppendedAtMostOnce(c: Control, recursive: bool, e: Event)
    ensures Deliver(c, recursive, e).invocations ==
      if !recursive && !Screened(c, e) && (c.appender.started || c.appender.ignoreExceptions)
         && !IsFilteredByAppender(c, e)
      then [e] else []
  {
    if !recursive && !Screened(c, e) {
      assert Deliver(c, recursive, e) == Guarded(c, e);
      if !StartCheck(c).result.Threw? && !IsFilteredByAppender(c, e) {
        ReentrantCallsOnlyReport(c, c.appender.append(e).reentrant);
        assert Guarded(c, e).invocations == TryAppend(c, e).invocations;
      }
    }
  }

  /** A non-started appender is reported; if it does not ignore exceptions the call
      throws `AppenderLoggingException` with that message and never appends. */
  lemma NotStartedThrows(c: Control, e: Event)
    requires !Screened(c, e) && !c.appender.started && !c.appender.ignoreExceptions
    ensures Deliver(c, false, e) ==
      Effect([Report("Attempted to append to non-started appender " + c.appender.name, None)], [],
             Threw(AppenderLogging(Some("Attempted to append to non-started appender " + c.appender.name), None)))
  {
  }

  /** A non-started appender that ignores exceptions is reported first, and the call then
      goes on to the appender's filter and `append`: the event is not dropped. */
  lemma NotStartedIgnoredStillAppends(c: Control, e: Event)
    requires !Screened(c, e) && !c.appender.started && c.appender.ignoreExceptions
    ensures |Deliver(c, false, e).reports| > 0
    ensures Deliver(c, false, e).reports[0] ==
      Report("Attempted to append to non-started appender " + c.appender.name, None)
    ensures Deliver(c, false, e).invocations == if IsFilteredByAppender(c, e) then [] else [e]
  {
    ReentrantCallsOnlyReport(c, c.appender.append(e).reentrant);
  }

  /** A started appender whose own filter rejects the event is skipped silently. */
  lemma AppenderFilteredIsSilent(c: Control, e: Event)
    requires !Screened(c, e) && c.appender.started
    requires c.appender.isFiltered.Some? && c.appender.isFiltered.value(e)
    ensures Deliver(c, false, e) == Effect([], [], Normal)
  {
  }

  /** When `append` returns normally on a started appender the call returns normally,
      the event was appended once, and the only reports are those of the appender's
      own re-entrant calls. */
  lemma AppendSucceeds(c: Control, e: Event)
    requires !Screened(c, e) && c.appender.started && !IsFilteredByAppender(c, e)
    requires c.appender.append(e).outcome == Returned
    ensures Deliver(c, false, e).result == Normal
    ensures Deliver(c, false, e).invocations == [e]
    ensures |Deliver(c, false, e).reports| == |Passing(c, c.appender.append(e).reentrant)|
    ensures forall k :: 0 <= k < |Deliver(c, false, e).reports| ==>
      Deliver(c, false, e).reports[k] == Report("Recursive call to appender " + c.appender.name, None)
  {
    ReentrantCallsOnlyReport(c, c.appender.append(e).reentrant);
  }

  /** The reports a call makes before `append`'s own failure handling, when the call gets
      as far as `append`: the non-started report, if any, then the nested calls' reports. */
  function ReportsBeforeFailure(c: Control, e: Event): seq<Report>
  {
    StartCheck(c).reports + Reentrant(c, c.appender.append(e).reentrant).reports
  }

  /** A call that gets as far as `append` makes the reports before the failure handling,
      then those of the failure handling, and completes as the failure handling says. */
  lemma ReachesAppend(c: Control, e: Event)
    requires !Screened(c, e) && (c.appender.started || c.appender.ignoreExceptions)
    requires !IsFilteredByAppender(c, e)
    ensures Deliver(c, false, e).reports ==
      ReportsBeforeFailure(c, e) + AppendFailure(c, c.appender.append(e).outcome).reports
    ensures Deliver(c, false, e).invocations == [e] + Reentrant(c, c.appender.append(e).reentrant).invocations
    ensures Deliver(c, false, e).result == AppendFailure(c, c.appender.append(e).outcome).result
  {
    var call := c.appender.append(e);
    assert Deliver(c, false, e) == Guarded(c, e);
    assert !StartCheck(c).result.Threw?;
    assert Guarded(c, e).reports == StartCheck(c).reports + TryAppend(c, e).reports;
    assert TryAppend(c, e).reports ==
      Reentrant(c, call.reentrant).reports + AppendFailure(c, call.outcome).reports;
  }

  /** None of the reports before the failure handling has a cause or carries the
      "An exception occurred processing Appender" message. */
  lemma ReportsBeforeFailureAreCauseless(c: Control, e: Event)
    ensures |ReportsBeforeFailure(c, e)| ==
      (if c.appender.started then 0 else 1) + |Passing(c, c.appender.append(e).reentrant)|
    ensures forall k :: 0 <= k < |ReportsBeforeFailure(c, e)| ==>
      && ReportsBeforeFailure(c, e)[k].cause.None?
      && ReportsBeforeFailure(c, e)[k].message != "An exception occurred processing Appender " + c.appender.name
  {
    var name := c.appender.name;
    var exceptionMsg := "An exception occurred processing Appender " + name;
    var nested := Reentrant(c, c.appender.append(e).reentrant).reports;
    ReentrantCallsOnlyReport(c, c.appender.append(e).reentrant);
    assert ("Recursive call to appender " + name)[0] != exceptionMsg[0];
    assert ("Attempted to append to non-started appender " + name)[1] != exceptionMsg[1];
    forall k | 0 <= k < |nested|
      ensures nested[k].cause.None? && nested[k].message != exceptionMsg
    {
      assert nested[k].message[0] != exceptionMsg[0];
    }
  }

  /** When `append` throws an `Exception`, exactly one report
      "An exception occurred processing Appender <name>" is made, last, with the
      exception as cause: a `RuntimeException` as it was thrown, a checked one inside a
      new `AppenderLoggingException`. That same exception is then thrown, unless the
      appender ignores exceptions, and then the call returns normally. */
  lemma AppendFailureReported(c: Control, e: Event, t: Throwable)
    requires !Screened(c, e) && (c.appender.started || c.appender.ignoreExceptions)
    requires !IsFilteredByAppender(c, e)
    requires c.appender.append(e).outcome == Raised(t) && t.IsException()
    ensures var d := Deliver(c, false, e);
      var ex := if t.Checked? then AppenderLogging(None, Some(t)) else t;
      && |d.reports| == (if c.appender.started then 0 else 1) + |Passing(c, c.appender.append(e).reentrant)| + 1
      && d.reports[|d.reports| - 1] == Report("An exception occurred processing Appender " + c.appender.name, Some(ex))
      && (forall k :: 0 <= k < |d.reports| - 1 ==>
            d.reports[k].message != "An exception occurred processing Appender " + c.appender.name)
      && d.invocations == [e]
      && d.result == if c.appender.ignoreExceptions then Normal else Threw(ex)
  {
    ReachesAppend(c, e);
    ReportsBeforeFailureAreCauseless(c, e);
    ReentrantCallsOnlyReport(c, c.appender.append(e).reentrant);
    var d := Deliver(c, false, e);
    var before := ReportsBeforeFailure(c, e);
    assert d.reports == before + AppendFailure(c, Raised(t)).reports;
    forall k | 0 <= k < |d.reports| - 1
      ensures d.reports[k].message != "An exception occurred processing Appender " + c.appender.name
    {
      assert d.reports[k] == before[k];
    }
  }

  /** A `java.lang.Error` from `append` is not caught: it is not reported and it
      propagates even when the appender ignores exceptions. */
  lemma ErrorPropagates(c: Control, e: Event, t: Throwable)
    requires !Screened(c, e) && (c.appender.started || c.appender.ignoreExceptions)
    requires !IsFilteredByAppender(c, e)
    requires c.appender.append(e).outcome == Raised(t) && t.Fatal?
    ensures Deliver(c, false, e).result == Threw(t)
    ensures |Deliver(c, false, e).reports| ==
      (if c.appender.started then 0 else 1) + |Passing(c, c.appender.append(e).reentrant)|
    ensures forall k :: 0 <= k < |Deliver(c, false, e).reports| ==>
      && Deliver(c, false, e).reports[k].cause.None?
      && Deliver(c, false, e).reports[k].message != "An exception occurred processing Appender " + c.appender.name
  {
    ReachesAppend(c, e);
    ReportsBeforeFailureAreCauseless(c, e);
    assert Deliver(c, false, e).reports == ReportsBeforeFailure(c, e);
  }

  /** What can leave the gate: a checked exception never does, and an `Exception` only
      does when the appender does not ignore exceptions; an `Error` only when `append`
      was invoked for this event and threw it. */
  lemma ThrownFailures(c: Control, recursive: bool, e: Event)
    ensures Deliver(c, recursive, e).result.Threw? ==>
      var t := Deliver(c, recursive, e).result.thrown;
      || (t.IsRuntimeException() && !c.appender.ignoreExceptions)
      || (t.Fatal? && c.appender.append(e).outcome == Raised(t) && Deliver(c, recursive, e).invocations == [e])
  {
    AppendedAtMostOnce(c, recursive, e);
    if !recursive && !Screened(c, e) {
      assert Deliver(c, recursive, e) == Guarded(c, e);
      if !StartCheck(c).result.Threw? && !IsFilteredByAppender(c, e) {
        assert Guarded(c, e).result == TryAppend(c, e).result;
      }
    }
  }

  /** With a WARN threshold and no gate filter, an INFO event is dropped silently and an
      ERROR event reaches a started, unfiltered appender whose `append` succeeds exactly
      once, without reports when the appender does not log through the gate itself. */
  lemma WarnThresholdScenario(c: Control, m: string)
    requires WellFormed(c) && c.level == Some(WARN) && c.filter.None?
    requires c.appender.started && c.appender.isFiltered.None?
    requires c.appender.append(Event(ERROR, m)) == AppendCall([], Returned)
    ensures Deliver(c, false, Event(INFO, m)) == Effect([], [], Normal)
    ensures Deliver(c, false, Event(ERROR, m)) == Effect([], [Event(ERROR, m)], Normal)
  {
    var e := Event(ERROR, m);
    assert Deliver(c, false, e) == Guarded(c, e);
    assert Reentrant(c, []) == Effect([], [], Normal);
    assert Guarded(c, e) == TryAppend(c, e);
  }
}
