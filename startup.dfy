/** The dashboard's two startup requests joined with `Promise.all`: the
    protected probe and the job list. Both must succeed; the first rejection
    to settle becomes the one error. */
module Startup {
  import opened JsValues
  import opened JobRecords

  const ProbeFailedText := "Failed to fetch protected data"
  const ListFailedText := "Failed to fetch jobs"

  /** The joined outcome: the probe's message and the fetched list, or one
      error message. */
  datatype StartupOutcome = Loaded(message: string, jobsData: seq<Job>) | LoadFailed(reason: string)

  /** `Promise.all([probe, list])` as the mount effect consumes it. The probe's
      body is its `message` field; `probeSettlesFirst` says which request
      settles first and so decides the error when both fail. */
  function JoinStartup(probe: Reply<Option<string>>, list: Reply<seq<Job>>, probeSettlesFirst: bool): (o: StartupOutcome)
    ensures o.Loaded? <==> probe.Ok? && list.Ok?
    ensures o.Loaded? ==> o.message == OrElse(probe.body, "") && o.jobsData == list.body
    ensures o.LoadFailed? ==>
              (!probe.Ok? && o.reason == FailureMessage(probe, ProbeFailedText)) ||
              (!list.Ok? && o.reason == FailureMessage(list, ListFailedText))
    ensures o.LoadFailed? && probe.Ok? ==> o.reason == FailureMessage(list, ListFailedText)
    ensures o.LoadFailed? && list.Ok? ==> o.reason == FailureMessage(probe, ProbeFailedText)
  {
    match (probe, list)
    case (Ok(m), Ok(data)) => Loaded(OrElse(m, ""), data)
    case (Ok(_), _) => LoadFailed(FailureMessage(list, ListFailedText))
    case (_, Ok(_)) => LoadFailed(FailureMessage(probe, ProbeFailedText))
    case _ =>
      if probeSettlesFirst then LoadFailed(FailureMessage(probe, ProbeFailedText))
      else LoadFailed(FailureMessage(list, ListFailedText))
  }
}
