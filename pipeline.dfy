/**
 * One run of the script (`main`): gate, download, save, and the ntfy alert
 * sent when a trading-day run ends without a saved file.
 */
module Pipeline {
  import opened Wrappers
  import opened JsonValue
  import Calendar
  import Fetch
  import Persist

  /**
   * The ntfy `Priority` header values: `Default` is `send_ntfy_notification`'s
   * default argument, `High` is what `main` passes for both alerts.
   */
  datatype Priority = Default | High

  datatype Notification = Notification(message: string, title: string, priority: Priority)

  const SaveErrorMessage: string := "Critical error: Successfully downloaded NSE data but FAILED to save the CSV file."
  const SaveErrorTitle: string := "NSE Data - Save Error"
  const DownloadFailedMessage: string := "Critical error: FAILED to download pre-market data. NSE might be down or blocking requests."
  const DownloadFailedTitle: string := "NSE Data - Download Failed"

  /** `NTFY_TOPIC` is set to a non-empty value (`os.getenv` gives None when unset). */
  predicate TopicConfigured(topic: Option<string>)
    // `if not ntfy_topic`: unset and set-but-empty are the two ways to have no topic
    ensures !TopicConfigured(topic) <==> topic == None || topic == Some("")
  {
    topic.Some? && topic.value != ""
  }

  /**
   * `send_ntfy_notification`: the POSTs it makes. Without a topic it only logs
   * a warning; a failed POST is caught and logged, so it still counts as made.
   */
  function SendNotification(topic: Option<string>, message: string, title: string, priority: Priority): (sent: seq<Notification>)
    ensures |sent| <= 1
    ensures sent != [] <==> TopicConfigured(topic)
    ensures forall n :: n in sent ==> n == Notification(message, title, priority)
  {
    if !TopicConfigured(topic) then [] else [Notification(message, title, priority)]
  }

  /** How a run ends. */
  datatype RunOutcome = Skipped | DownloadFailed | SaveFailed | Saved(path: string)

  /**
   * `main`'s branches, given the gate's answer, what the download returned and
   * what the save would return; the save is looked at only after a download.
   */
  function Outcome(tradingDay: bool, download: Option<Json>, saved: Option<Persist.SavedCsv>): (o: RunOutcome)
    ensures o.Skipped? <==> !tradingDay
    // a falsy payload counts as a failed download, like None
    ensures o.DownloadFailed? <==> tradingDay && (download.None? || !Truthy(download.value))
    // saved only after a truthy download, and an empty path counts as a failure
    ensures o.Saved? <==> tradingDay && download.Some? && Truthy(download.value) && saved.Some? && saved.value.path != ""
    ensures o.Saved? ==> o.path == saved.value.path
  {
    if !tradingDay then Skipped
    else if download.None? || !Truthy(download.value) then DownloadFailed   // `if data:`
    else if saved.None? || saved.value.path == "" then SaveFailed           // `if not saved_path:`
    else Saved(saved.value.path)
  }

  /** The notifications `main` sends for an outcome. */
  function Notifications(outcome: RunOutcome, topic: Option<string>): (sent: seq<Notification>)
    // at most one alert, always high priority, and only for a failed trading-day run
    ensures |sent| <= 1
    ensures forall n :: n in sent ==> n.priority == High
    ensures sent != [] ==> (outcome.DownloadFailed? || outcome.SaveFailed?) && TopicConfigured(topic)
  {
    match outcome
    case Skipped => []
    case Saved(_) => []
    case DownloadFailed => SendNotification(topic, DownloadFailedMessage, DownloadFailedTitle, High)
    case SaveFailed => SendNotification(topic, SaveErrorMessage, SaveErrorTitle, High)
  }

  /**
   * Exactly one high-priority alert when a trading-day run ends without a
   * saved file and a topic is set, with the message for the step that failed;
   * none on a skipped day, after a successful save, or without a topic.
   */
  lemma AlertRule(outcome: RunOutcome, topic: Option<string>)
    ensures var sent := Notifications(outcome, topic);
      && (outcome.Skipped? || outcome.Saved? || !TopicConfigured(topic) <==> sent == [])
      && (outcome.DownloadFailed? && TopicConfigured(topic) ==>
            sent == [Notification(DownloadFailedMessage, DownloadFailedTitle, High)])
      && (outcome.SaveFailed? && TopicConfigured(topic) ==>
            sent == [Notification(SaveErrorMessage, SaveErrorTitle, High)])
  {
  }

  /** Which of main's outcomes each combination of step results leads to. */
  lemma OutcomeRule(tradingDay: bool, download: Option<Json>, saved: Option<Persist.SavedCsv>)
    requires download.Some? ==> Fetch.IsValidSnapshot(download.value)
    requires saved.Some? ==> saved.value.path != ""
    ensures var o := Outcome(tradingDay, download, saved);
      && (o.Skipped? <==> !tradingDay)
      && (o.DownloadFailed? <==> tradingDay && download.None?)
      && (o.SaveFailed? <==> tradingDay && download.Some? && saved.None?)
      && (o.Saved? <==> tradingDay && download.Some? && saved.Some?)
  {
    if download.Some? {
      Fetch.ValidSnapshotIsTruthy(download.value);
    }
  }

  /**
   * `main()`: the gate reads the IST clock and the holiday file, the download
   * runs with its defaults, and the file is named after the process-local date.
   * Returns the outcome, the alerts sent, and the download's attempts and sleeps.
   */
  method Run(clock: Calendar.Clock, holidays: Calendar.HolidayFile, attempts: seq<Fetch.AttemptResult>,
             localDate: string, storageOk: bool, topic: Option<string>)
    returns (outcome: RunOutcome, sent: seq<Notification>, made: nat, sleeps: seq<nat>)
    requires Fetch.DefaultMaxRetries <= |attempts|
    ensures outcome == Skipped <==> !Calendar.IsTradingDay(clock, holidays)
    ensures !Calendar.IsTradingDay(clock, holidays) ==> made == 0 && sleeps == []
    // on a trading day the download always runs, with one backoff sleep per failed attempt but the last
    ensures Calendar.IsTradingDay(clock, holidays) ==>
      0 < made <= Fetch.DefaultMaxRetries && sleeps == Fetch.Backoff(Fetch.DefaultRetryDelay, made - 1)
    ensures outcome == DownloadFailed <==>
      Calendar.IsTradingDay(clock, holidays) && forall k :: 0 <= k < Fetch.DefaultMaxRetries ==> !Fetch.Accepted(attempts[k])
    ensures outcome == DownloadFailed ==> made == Fetch.DefaultMaxRetries && sleeps == [5, 10]
    ensures outcome.SaveFailed? || outcome.Saved? ==>
      made == Fetch.FirstAccepted(attempts, Fetch.DefaultMaxRetries) + 1 &&
      (outcome.Saved? <==> Persist.SaveToCsv(attempts[made - 1].body, localDate + ".csv", storageOk).Some?)
    ensures outcome.Saved? ==> outcome.path == Persist.JoinPath(Persist.DataDirectory, localDate + ".csv")
    ensures sent == Notifications(outcome, topic)
  {
    made, sleeps := 0, [];
    if !Calendar.IsTradingDay(clock, holidays) {
      outcome := Skipped;
    } else {
      var data;
      data, made, sleeps := Fetch.DownloadSnapshot(attempts, Fetch.DefaultMaxRetries, Fetch.DefaultRetryDelay);
      var saved := None;
      if data.Some? {
        Fetch.ValidSnapshotIsTruthy(data.value);
        saved := Persist.SaveToCsv(data.value, localDate + ".csv", storageOk);
      } else {
        Fetch.DefaultSchedule();
      }
      outcome := Outcome(true, data, saved);
    }
    sent := Notifications(outcome, topic);
  }
}
