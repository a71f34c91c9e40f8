/** The point-in-time snapshot of monitor/summary.go, with the approximate
    structures replaced by what was fed to them. */
module Report {
  import opened Common

  /** Counts of responses per HTTP status class. */
  datatype StatusFreq = StatusFreq(
    informational: nat,
    successful: nat,
    redirection: nat,
    clientError: nat,
    serverError: nat)

  /** The five status classes, one per hundreds range from 1xx to 5xx. */
  datatype StatusClass = Informational | Successful | Redirection | ClientError | ServerError

  /** The counter of one class. */
  function Count(f: StatusFreq, c: StatusClass): nat {
    match c
    case Informational => f.informational
    case Successful => f.successful
    case Redirection => f.redirection
    case ClientError => f.clientError
    case ServerError => f.serverError
  }

  /** The five counters summed. */
  function Total(f: StatusFreq): nat {
    f.informational + f.successful + f.redirection + f.clientError + f.serverError
  }

  /** A snapshot. The top-sections ranking is given by the multiset of
      sections added (the frequencies the top-k structure estimates), the
      distinct-address estimate by the exact number of distinct addresses,
      and the merged size histogram by the multiset of recorded sizes.
      avgHits is None where Go's average is NaN. */
  datatype Summary = Summary(
    timestamp: Time,
    topSections: multiset<string>,
    distinctIPs: nat,
    sizeHist: multiset<int>,
    statusFreq: StatusFreq,
    hitsPerSecond: nat,
    avgHits: Option<real>,
    window: int)
}
