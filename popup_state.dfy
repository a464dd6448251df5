/**
 * How the popup reads the background's job state: once when it opens
 * (`checkForOngoingOperation`) and on every tick of the progress poll
 * (`startProgressPolling`), the `progressInterval` timer the poll runs on, and
 * how `updateProgress` lays out a progress message.
 */
module PopupState {
  import opened JsString

  /**
   * The job state the background reports. `hasData` is whether `state.data` is
   * truthy; a missing, null or empty `state.error` is the empty string (all three
   * are falsy).
   */
  datatype JobState = JobState(isRunning: bool, progress: int, message: string, hasData: bool, error: string)

  /** The error text `showError` receives for a failed job. */
  function FailureText(error: string): (r: string)
    ensures |r| > |error| && r[|r| - |error|..] == error
  {
    "Operation failed: " + error
  }

  // ----- checkForOngoingOperation -----

  /** What the popup does with the state it finds when it opens. */
  datatype LoadAction =
    | ResumeProgress(progress: int, message: string)
    | ShowCompleted(state: JobState)
    | ShowFailed(text: string)
    | NoAction

  /**
   * A running job is resumed, whatever else the state says; a stopped job with data
   * and no error completed; a stopped job with an error failed; anything else (no
   * response, no state, nothing to report) changes nothing.
   */
  function OnLoad(response: Option<JobState>): (r: LoadAction)
    ensures response.None? ==> r == NoAction
    ensures response.Some? && response.value.isRunning
      ==> r == ResumeProgress(response.value.progress, response.value.message)
    ensures r.ResumeProgress? <==> response.Some? && response.value.isRunning
    ensures r.NoAction? <==> (response.None? || (!response.value.isRunning
      && !response.value.hasData && response.value.error == ""))
    ensures r.ShowCompleted? <==> (response.Some? && !response.value.isRunning
      && response.value.hasData && response.value.error == "")
    ensures r.ShowCompleted? ==> r.state == response.value
    ensures r.ShowFailed? <==> response.Some? && !response.value.isRunning && response.value.error != ""
    ensures r.ShowFailed? ==> r.text == FailureText(response.value.error)
  {
    match response
    case None => NoAction
    case Some(state) =>
      if state.isRunning then ResumeProgress(state.progress, state.message)
      else if state.hasData && state.error == "" then ShowCompleted(state)
      else if state.error != "" then ShowFailed(FailureText(state.error))
      else NoAction
  }

  // ----- startProgressPolling -----

  /** What one poll tick does with the state it reads. */
  datatype PollAction =
    | UpdateProgress(progress: int, message: string)
    | Completed(state: JobState)
    | ShowCancelled
    | ShowFailure(text: string)
    | NoChange

  /** The tick stops the poll: the job is over, one way or another. */
  predicate Terminal(a: PollAction) {
    a.Completed? || a.ShowCancelled? || a.ShowFailure?
  }

  /**
   * One poll tick: progress while the job runs, whatever else the state says;
   * completion for data without an error; for an error, a cancellation when its
   * text contains `cancelled` and a failure otherwise.
   */
  function OnPoll(response: Option<JobState>): (r: PollAction)
    ensures response.None? ==> r == NoChange
    ensures response.Some? && response.value.isRunning
      ==> r == UpdateProgress(response.value.progress, response.value.message)
    ensures r.UpdateProgress? <==> response.Some? && response.value.isRunning
    ensures r.NoChange? <==> (response.None? || (!response.value.isRunning
      && !response.value.hasData && response.value.error == ""))
    ensures r.Completed? <==> (response.Some? && !response.value.isRunning
      && response.value.hasData && response.value.error == "")
    ensures r.Completed? ==> r.state == response.value
    ensures r.ShowCancelled? <==> (response.Some? && !response.value.isRunning
      && response.value.error != "" && Includes(response.value.error, "cancelled"))
    ensures r.ShowFailure? <==> (response.Some? && !response.value.isRunning
      && response.value.error != "" && !Includes(response.value.error, "cancelled"))
    ensures r.ShowFailure? ==> r.text == FailureText(response.value.error)
  {
    match response
    case None => NoChange
    case Some(state) =>
      if state.isRunning then UpdateProgress(state.progress, state.message)
      else if state.hasData && state.error == "" then Completed(state)
      else if state.error != "" then
        if Includes(state.error, "cancelled") then ShowCancelled
        else ShowFailure(FailureText(state.error))
      else NoChange
  }

  /**
   * The two readings classify a state alike: running, completed, failed (the poll
   * splitting failures into cancellations and others) or nothing; a failure that
   * is not a cancellation is reported with the same text.
   */
  lemma PollAgreesWithLoad(response: Option<JobState>)
    ensures OnPoll(response).UpdateProgress? <==> OnLoad(response).ResumeProgress?
    ensures OnPoll(response).Completed? <==> OnLoad(response).ShowCompleted?
    ensures OnPoll(response).ShowCancelled? || OnPoll(response).ShowFailure? <==> OnLoad(response).ShowFailed?
    ensures OnPoll(response).NoChange? <==> OnLoad(response).NoAction?
    ensures OnPoll(response).ShowFailure? ==> OnPoll(response).text == OnLoad(response).text
  {
  }

  /**
   * A cancelled job is shown as a cancellation only while polling: found when the
   * popup opens, the same state is reported as a failure.
   */
  lemma CancellationOnlyWhilePolling(state: JobState)
    requires !state.isRunning && Includes(state.error, "cancelled")
    ensures OnPoll(Some(state)) == ShowCancelled
    ensures OnLoad(Some(state)) == ShowFailed(FailureText(state.error))
  {
  }

  // ----- progressInterval -----

  /**
   * The popup's poll timer. `interval` is `progressInterval` (`None` for null);
   * `timers` are the interval timers the browser is running for the popup, by
   * handle. Handles from `setInterval` are positive, so a held handle is truthy.
   */
  class ProgressPoller {
    var interval: Option<nat>
    var timers: set<nat>

    /** At most one timer runs, and it is the one `progressInterval` holds. */
    ghost predicate Valid()
      reads this
    {
      (interval.Some? ==> interval.value > 0)
        && timers == (if interval.Some? then {interval.value} else {})
    }

    /** The popup opens with no poll running. */
    constructor ()
      ensures Valid() && interval == None && timers == {}
    {
      interval := None;
      timers := {};
    }

    /**
     * `startProgressPolling`: a poll already running is cleared first, then the new
     * timer, whose fresh handle is `handle`, is stored; no timer is leaked.
     */
    method StartPolling(handle: nat)
      requires Valid() && handle > 0 && handle !in timers
      modifies this
      ensures Valid()
      ensures interval == Some(handle) && timers == {handle}
      ensures old(interval).Some? ==> old(interval).value !in timers
    {
      if interval.Some? {
        timers := timers - {interval.value};
      }
      timers := timers + {handle};
      interval := Some(handle);
    }

    /**
     * The terminal branches of a poll tick, a failed start and a cancellation:
     * clear the timer (clearing null does nothing) and forget its handle.
     */
    method StopPolling()
      requires Valid()
      modifies this
      ensures Valid() && interval == None && timers == {}
    {
      if interval.Some? {
        timers := timers - {interval.value};
      }
      interval := None;
    }

    /** One tick: classify the state, and stop polling exactly when the job is over. */
    method HandlePoll(response: Option<JobState>) returns (action: PollAction)
      requires Valid()
      modifies this
      ensures Valid()
      ensures action == OnPoll(response)
      ensures Terminal(action) ==> interval == None && timers == {}
      ensures !Terminal(action) ==> interval == old(interval) && timers == old(timers)
    {
      action := OnPoll(response);
      if Terminal(action) {
        StopPolling();
      }
    }

    /**
     * `checkForOngoingOperation`: classify the state found on opening; a running
     * job resumes polling on the timer `handle`, anything else leaves the timer alone.
     */
    method CheckForOngoingOperation(response: Option<JobState>, handle: nat) returns (action: LoadAction)
      requires Valid() && handle > 0 && handle !in timers
      modifies this
      ensures Valid()
      ensures action == OnLoad(response)
      ensures action.ResumeProgress? ==> interval == Some(handle) && timers == {handle}
      ensures !action.ResumeProgress? ==> interval == old(interval) && timers == old(timers)
    {
      action := OnLoad(response);
      if action.ResumeProgress? {
        StartPolling(handle);
      }
    }

    /** `beforeunload`: a running timer is cleared; the handle itself is kept. */
    method Unload()
      requires Valid()
      modifies this
      ensures timers == {} && interval == old(interval)
    {
      if interval.Some? {
        timers := timers - {interval.value};
      }
    }
  }

  // ----- updateProgress -----

  /**
   * How a progress message is laid out: as plain text, or as a first line and,
   * when the second line is non-empty, that line beneath it.
   */
  datatype ProgressView = Plain(text: string) | Lines(first: string, second: Option<string>)

  /**
   * A message without a line break is shown as it is. Otherwise the first line is
   * the text before the first break and the second line the text between the
   * first and second breaks (or to the end), shown only when non-empty; later
   * lines are dropped.
   */
  function ProgressMessageView(message: string): (r: ProgressView)
    ensures '\n' !in message <==> r == Plain(message)
    ensures '\n' in message ==> r.Lines? && r.first == BeforeFirst(message, '\n')
    ensures r.Lines? ==> var after := message[|r.first| + 1..];
      (r.second.Some? <==> BeforeFirst(after, '\n') != "")
      && (r.second.Some? ==> r.second.value == BeforeFirst(after, '\n'))
  {
    if '\n' in message then
      var lines := Split(message, '\n');
      SplitFront(message, '\n');
      SplitFront(message[|lines[0]| + 1..], '\n');
      Lines(lines[0], if lines[1] != "" then Some(lines[1]) else None)
    else
      Plain(message)
  }

  /** Neither shown line contains a break, and the lines shown are a prefix of the message. */
  lemma ProgressLinesFromMessage(message: string)
    requires '\n' in message
    ensures var v := ProgressMessageView(message);
      var shown := v.first + "\n" + (if v.second.Some? then v.second.value else "");
      '\n' !in v.first && (v.second.Some? ==> '\n' !in v.second.value && v.second.value != "")
      && shown <= message
  {
    var v := ProgressMessageView(message);
    var after := message[|v.first| + 1..];
    assert message == v.first + "\n" + after;
    var second := BeforeFirst(after, '\n');
    assert second <= after;
  }
}
