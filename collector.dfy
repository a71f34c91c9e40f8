/** The statistics collector of monitor/collector.go. The request-line
    regular expression is a parameter of the collector: `requestMatch`
    returns the submatch slice of FindStringSubmatch (empty for no match). */
module Collection {
  import opened Common
  import opened Reader
  import opened Report

  /** Number of captured parts of a request line. */
  const NumRequestParts: nat := 4

  /** Records between two rotations of the size histogram. */
  const RotationInterval: nat := 100000

  /** Buckets of the windowed size histogram: the current one and the two
      rotated out most recently are merged into a snapshot. */
  const HistogramWindows: nat := 3

  // ---------------------------------------------------------------------
  // Sections

  /** The positions of '/' in s, in increasing order. */
  function SlashIndexes(s: string): (r: seq<nat>)
    ensures forall k :: 0 <= k < |r| ==> r[k] < |s| && s[r[k]] == '/'
    ensures forall k, m :: 0 <= k < m < |r| ==> r[k] < r[m]
  {
    if s == [] then []
    else SlashIndexes(s[..|s| - 1]) + (if s[|s| - 1] == '/' then [|s| - 1] else [])
  }

  /** Every '/' of s is listed, and there are as many entries as '/'s. */
  lemma {:induction false} SlashIndexesComplete(s: string)
    ensures forall j :: 0 <= j < |s| && s[j] == '/' ==> j in SlashIndexes(s)
    ensures |SlashIndexes(s)| == multiset(s)['/']
  {
    if s != [] {
      var init := s[..|s| - 1];
      SlashIndexesComplete(init);
      assert s == init + [s[|s| - 1]];
      assert multiset(s) == multiset(init) + multiset{s[|s| - 1]};
      forall j | 0 <= j < |s| && s[j] == '/'
        ensures j in SlashIndexes(s)
      {
        if j < |s| - 1 {
          assert init[j] == '/';
        }
      }
    }
  }

  /** The section of a document: "/" when it holds fewer than two '/',
      otherwise everything before the second '/'. */
  function Section(document: string): (r: string)
    ensures multiset(document)['/'] <= 1 ==> r == "/"
  {
    SlashIndexesComplete(document);
    var slashes := SlashIndexes(document);
    if |slashes| < 2 then "/" else document[..slashes[1]]
  }

  /** The slashes of a prefix are a prefix of the slashes of the whole. */
  lemma {:induction false} SlashIndexesOfPrefix(s: string, n: nat)
    requires n <= |s|
    ensures |SlashIndexes(s[..n])| <= |SlashIndexes(s)|
    ensures SlashIndexes(s[..n]) == SlashIndexes(s)[..|SlashIndexes(s[..n])|]
  {
    if n < |s| {
      var init := s[..|s| - 1];
      assert s[..n] == init[..n];
      SlashIndexesOfPrefix(init, n);
    } else {
      assert s[..n] == s;
    }
  }

  /** A slash of s lies before n exactly when it is among the slashes of
      the prefix of length n. */
  lemma SlashesBelow(s: string, n: nat)
    requires n <= |s|
    ensures forall k :: 0 <= k < |SlashIndexes(s)| ==>
              (SlashIndexes(s)[k] < n <==> k < |SlashIndexes(s[..n])|)
  {
    var slashes := SlashIndexes(s);
    var inner := SlashIndexes(s[..n]);
    SlashIndexesOfPrefix(s, n);
    SlashIndexesComplete(s[..n]);
    forall k | 0 <= k < |inner|
      ensures slashes[k] < n
    {
      assert inner[k] == slashes[k];
    }
    forall k | 0 <= k < |slashes| && slashes[k] < n
      ensures k < |inner|
    {
      var p := s[..n];
      assert p[slashes[k]] == '/';
      assert slashes[k] in inner;
      var j :| 0 <= j < |inner| && inner[j] == slashes[k];
      assert slashes[j] == slashes[k];
    }
  }

  /** With two or more '/', the section is the prefix of the document that
      ends just before its second '/', and it holds exactly one '/'. */
  lemma SectionBeforeSecondSlash(document: string)
    requires multiset(document)['/'] >= 2
    ensures var r := Section(document);
      && |r| < |document| && r == document[..|r|]
      && document[|r|] == '/'
      && multiset(r)['/'] == 1
  {
    SlashIndexesComplete(document);
    var slashes := SlashIndexes(document);
    SlashesBelow(document, slashes[1]);
    SlashIndexesComplete(document[..slashes[1]]);
    assert slashes[0] < slashes[1];
  }

  /** Conversely, the section is the only prefix with that shape: a prefix
      followed by '/' and holding exactly one '/' is the section. */
  lemma SectionUnique(document: string, r: string)
    requires multiset(document)['/'] >= 2
    requires |r| < |document| && r == document[..|r|] && document[|r|] == '/'
    requires multiset(r)['/'] == 1
    ensures r == Section(document)
  {
    SlashIndexesComplete(document);
    SlashIndexesComplete(r);
    var slashes := SlashIndexes(document);
    SlashesBelow(document, |r|);
    assert |r| in slashes;
    var k :| 0 <= k < |slashes| && slashes[k] == |r|;
    assert slashes[0] < |r| && slashes[1] >= |r|;
    assert slashes[1] <= slashes[k];
  }

  /** sectionFromDocument: collects the slash positions, then cuts. */
  method SectionFromDocument(document: string) returns (section: string)
    ensures section == Section(document)
  {
    var slashIndexes: seq<nat> := [];
    var i := 0;
    while i < |document|
      invariant 0 <= i <= |document|
      invariant slashIndexes == SlashIndexes(document[..i])
    {
      assert document[..i + 1][..i] == document[..i];
      if document[i] == '/' {
        slashIndexes := slashIndexes + [i];
      }
      i := i + 1;
    }
    assert document[..i] == document;
    if |slashIndexes| < 2 {
      section := "/";
    } else {
      section := document[..slashIndexes[1]];
    }
  }

  /** The section added to the top-sections structure for a request's
      submatches: none for a malformed request. */
  function RequestSections(parts: seq<string>): seq<string> {
    if |parts| == 0 || |parts| != NumRequestParts + 1 then [] else [Section(parts[2])]
  }

  // ---------------------------------------------------------------------
  // Status classes

  /** The lowest status code of a class. */
  function ClassLow(c: StatusClass): int {
    match c
    case Informational => 100
    case Successful => 200
    case Redirection => 300
    case ClientError => 400
    case ServerError => 500
  }

  /** The class of a status code, None outside 100-599. */
  function ClassOf(status: int): (r: Option<StatusClass>)
    ensures r.Some? <==> 100 <= status < 600
    ensures r.Some? ==> ClassLow(r.value) <= status < ClassLow(r.value) + 100
  {
    if 100 <= status < 200 then Some(Informational)
    else if 200 <= status < 300 then Some(Successful)
    else if 300 <= status < 400 then Some(Redirection)
    else if 400 <= status < 500 then Some(ClientError)
    else if 500 <= status < 600 then Some(ServerError)
    else None
  }

  /** A status code in a class's hundreds range is classified there. */
  lemma ClassOfInRange(status: int, c: StatusClass)
    requires ClassLow(c) <= status < ClassLow(c) + 100
    ensures ClassOf(status) == Some(c)
  {
  }

  /** The counters after one more status code. */
  function Bump(f: StatusFreq, status: int): StatusFreq {
    if 100 <= status < 200 then f.(informational := f.informational + 1)
    else if 200 <= status < 300 then f.(successful := f.successful + 1)
    else if 300 <= status < 400 then f.(redirection := f.redirection + 1)
    else if 400 <= status < 500 then f.(clientError := f.clientError + 1)
    else if 500 <= status < 600 then f.(serverError := f.serverError + 1)
    else f
  }

  /** A status code in 100-599 adds one to the counter of its class and
      leaves the other four alone; any other code changes no counter. */
  lemma BumpCounts(f: StatusFreq, status: int)
    ensures forall c :: Count(Bump(f, status), c) == Count(f, c) + (if ClassOf(status) == Some(c) then 1 else 0)
    ensures Total(Bump(f, status)) == Total(f) + (if 100 <= status < 600 then 1 else 0)
  {
  }

  /** The counters after the given status codes, starting from zero. */
  function Tally(statuses: seq<int>): StatusFreq {
    if statuses == [] then StatusFreq(0, 0, 0, 0, 0)
    else Bump(Tally(statuses[..|statuses| - 1]), statuses[|statuses| - 1])
  }

  /** How many of the status codes lie in 100-599. */
  function Classified(statuses: seq<int>): nat {
    if statuses == [] then 0
    else Classified(statuses[..|statuses| - 1]) + (if ClassOf(statuses[|statuses| - 1]).Some? then 1 else 0)
  }

  /** Each status code in 100-599 adds one to exactly one counter, each other
      code to none: the counters sum to the classified codes, and so to at
      most the number of records. */
  lemma {:induction false} TallyTotal(statuses: seq<int>)
    ensures Total(Tally(statuses)) == Classified(statuses) <= |statuses|
  {
    if statuses != [] {
      TallyTotal(statuses[..|statuses| - 1]);
    }
  }

  // ---------------------------------------------------------------------
  // Logs of what the collector fed to each structure

  function Addrs(records: seq<Log>): seq<string> {
    if records == [] then [] else Addrs(records[..|records| - 1]) + [records[|records| - 1].remoteAddr]
  }

  function Sizes(records: seq<Log>): seq<int> {
    if records == [] then [] else Sizes(records[..|records| - 1]) + [records[|records| - 1].size]
  }

  function Statuses(records: seq<Log>): seq<int> {
    if records == [] then [] else Statuses(records[..|records| - 1]) + [records[|records| - 1].status]
  }

  function Sections(records: seq<Log>, requestMatch: string -> seq<string>): seq<string> {
    if records == [] then []
    else Sections(records[..|records| - 1], requestMatch) + RequestSections(requestMatch(records[|records| - 1].request))
  }

  function Flatten(buckets: seq<seq<int>>): seq<int> {
    if buckets == [] then [] else Flatten(buckets[..|buckets| - 1]) + buckets[|buckets| - 1]
  }

  /** The record count modulo the rotation interval after one more record:
      it wraps to 0 exactly when the bucket was one short of full. */
  lemma RotationStep(c: nat)
    ensures (c + 1) % RotationInterval == 0 ==> c % RotationInterval == RotationInterval - 1
    ensures (c + 1) % RotationInterval != 0 ==> (c + 1) % RotationInterval == c % RotationInterval + 1
    ensures (c + 1) / RotationInterval == c / RotationInterval + (if (c + 1) % RotationInterval == 0 then 1 else 0)
  {
  }

  /** One more record appends one entry to each log, and to the sections
      log the section of its request, if any. */
  lemma LogsOfSnoc(records: seq<Log>, l: Log, requestMatch: string -> seq<string>)
    ensures Addrs(records + [l]) == Addrs(records) + [l.remoteAddr]
    ensures Sizes(records + [l]) == Sizes(records) + [l.size]
    ensures Statuses(records + [l]) == Statuses(records) + [l.status]
    ensures Sections(records + [l], requestMatch) == Sections(records, requestMatch) + RequestSections(requestMatch(l.request))
  {
    assert (records + [l])[..|records|] == records;
  }

  /** Tallying one more status code bumps one counter. */
  lemma TallySnoc(statuses: seq<int>, status: int)
    ensures Tally(statuses + [status]) == Bump(Tally(statuses), status)
  {
    assert (statuses + [status])[..|statuses|] == statuses;
  }

  /** Rotating a full bucket out appends its values to the flattened log. */
  lemma FlattenSnoc(buckets: seq<seq<int>>, b: seq<int>)
    ensures Flatten(buckets + [b]) == Flatten(buckets) + b
  {
    assert (buckets + [b])[..|buckets|] == buckets;
  }

  lemma {:induction false} FlattenLength(buckets: seq<seq<int>>)
    requires forall k :: 0 <= k < |buckets| ==> |buckets[k]| == RotationInterval
    ensures |Flatten(buckets)| == |buckets| * RotationInterval
  {
    if buckets != [] {
      FlattenLength(buckets[..|buckets| - 1]);
    }
  }

  lemma {:induction false} AddrsLength(records: seq<Log>)
    ensures |Addrs(records)| == |records|
  {
    if records != [] {
      AddrsLength(records[..|records| - 1]);
    }
  }

  lemma {:induction false} SizesLength(records: seq<Log>)
    ensures |Sizes(records)| == |records|
  {
    if records != [] {
      SizesLength(records[..|records| - 1]);
    }
  }

  lemma {:induction false} StatusesLength(records: seq<Log>)
    ensures |Statuses(records)| == |records|
  {
    if records != [] {
      StatusesLength(records[..|records| - 1]);
    }
  }

  /** A sequence has at most as many distinct elements as entries. */
  lemma {:induction false} DistinctAtMostLength(q: seq<string>)
    ensures |set a | a in q| <= |q|
  {
    if q != [] {
      var init := q[..|q| - 1];
      DistinctAtMostLength(init);
      assert (set a | a in q) == (set a | a in init) + {q[|q| - 1]};
    }
  }

  /** Flattening distributes over concatenation of bucket lists. */
  lemma {:induction false} FlattenAppend(a: seq<seq<int>>, b: seq<seq<int>>)
    ensures Flatten(a + b) == Flatten(a) + Flatten(b)
  {
    if b == [] {
      assert a + b == a;
    } else {
      var init := b[..|b| - 1];
      assert (a + b)[..|a + b| - 1] == a + init;
      FlattenAppend(a, init);
    }
  }

  /** The sizes the merged histogram covers: the current bucket after the
      last HistogramWindows - 1 rotated buckets (fewer before that many
      rotations). They are the most recent of all sizes held, and all of
      them while fewer than HistogramWindows buckets were rotated out. */
  function Retained(sizeRotated: seq<seq<int>>, sizeCurrent: seq<int>): (r: seq<int>)
    ensures |r| <= |Flatten(sizeRotated) + sizeCurrent|
    ensures r == (Flatten(sizeRotated) + sizeCurrent)[|Flatten(sizeRotated) + sizeCurrent| - |r|..]
    ensures |sizeRotated| < HistogramWindows ==> r == Flatten(sizeRotated) + sizeCurrent
  {
    var keep := if |sizeRotated| < HistogramWindows - 1 then |sizeRotated| else HistogramWindows - 1;
    var older := sizeRotated[..|sizeRotated| - keep];
    var recent := sizeRotated[|sizeRotated| - keep..];
    assert sizeRotated == older + recent;
    FlattenAppend(older, recent);
    assert |sizeRotated| < HistogramWindows ==> older == [];
    Flatten(recent) + sizeCurrent
  }

  /** The aggregates are what the record log `records` fed to each
      structure: the count is its length, the top sections, addresses and
      status counters follow its records in order, and the sizes fill
      rotated buckets of exactly 100000 values each before the current one. */
  ghost predicate Aggregates(records: seq<Log>, requestMatch: string -> seq<string>, count: nat,
                             topSections: seq<string>, ips: seq<string>,
                             sizeRotated: seq<seq<int>>, sizeCurrent: seq<int>, statusFreq: StatusFreq)
  {
    && count == |records|
    && topSections == Sections(records, requestMatch)
    && ips == Addrs(records)
    && Flatten(sizeRotated) + sizeCurrent == Sizes(records)
    && (forall k :: 0 <= k < |sizeRotated| ==> |sizeRotated[k]| == RotationInterval)
    && |sizeCurrent| < RotationInterval
    && statusFreq == Tally(Statuses(records))
  }

  /** The histogram has rotated once per full 100000 records, and the
      current bucket holds the sizes since the last rotation. */
  lemma RotationMatchesCount(records: seq<Log>, requestMatch: string -> seq<string>, count: nat,
                             topSections: seq<string>, ips: seq<string>,
                             sizeRotated: seq<seq<int>>, sizeCurrent: seq<int>, statusFreq: StatusFreq)
    requires Aggregates(records, requestMatch, count, topSections, ips, sizeRotated, sizeCurrent, statusFreq)
    ensures |sizeRotated| == count / RotationInterval
    ensures |sizeCurrent| == count % RotationInterval
  {
    FlattenLength(sizeRotated);
    SizesLength(records);
  }

  /** The merged histogram covers the most recent sizes: a suffix of all
      sizes recorded, and all of them while fewer than 300000 records have
      been processed; after that, the 200000 sizes of the two last full
      buckets and those since the last rotation. */
  lemma RetainedIsRecent(records: seq<Log>, requestMatch: string -> seq<string>, count: nat,
                         topSections: seq<string>, ips: seq<string>,
                         sizeRotated: seq<seq<int>>, sizeCurrent: seq<int>, statusFreq: StatusFreq)
    requires Aggregates(records, requestMatch, count, topSections, ips, sizeRotated, sizeCurrent, statusFreq)
    ensures var r := Retained(sizeRotated, sizeCurrent);
      && |r| <= |Sizes(records)|
      && r == Sizes(records)[|Sizes(records)| - |r|..]
      && (count < HistogramWindows * RotationInterval ==> r == Sizes(records))
      && (count >= HistogramWindows * RotationInterval ==>
            |r| == (HistogramWindows - 1) * RotationInterval + count % RotationInterval)
  {
    RotationMatchesCount(records, requestMatch, count, topSections, ips, sizeRotated, sizeCurrent, statusFreq);
    if count >= HistogramWindows * RotationInterval {
      var recent := sizeRotated[|sizeRotated| - (HistogramWindows - 1)..];
      FlattenLength(recent);
    }
  }

  /** The collector's aggregates as a value. */
  datatype Aggregate = Aggregate(
    count: nat,
    topSections: seq<string>,
    ips: seq<string>,
    sizeRotated: seq<seq<int>>,
    sizeCurrent: seq<int>,
    statusFreq: StatusFreq)

  /** The aggregates of a collector that has processed nothing. */
  const NoAggregate: Aggregate := Aggregate(0, [], [], [], [], StatusFreq(0, 0, 0, 0, 0))

  /** The aggregates after processing one more record: the count goes up,
      the request's section (if any), the address and the size are added,
      the size bucket is rotated out when the new count is a multiple of
      100000, and the status is classified. */
  function StepAggregate(a: Aggregate, l: Log, requestMatch: string -> seq<string>): Aggregate {
    var count := a.count + 1;
    var sizes := a.sizeCurrent + [l.size];
    var rotate := count % RotationInterval == 0;
    Aggregate(
      count,
      a.topSections + RequestSections(requestMatch(l.request)),
      a.ips + [l.remoteAddr],
      if rotate then a.sizeRotated + [sizes] else a.sizeRotated,
      if rotate then [] else sizes,
      Bump(a.statusFreq, l.status))
  }

  /** The aggregates after processing the given records in order. */
  function Replay(records: seq<Log>, requestMatch: string -> seq<string>): Aggregate {
    if records == [] then NoAggregate
    else StepAggregate(Replay(records[..|records| - 1], requestMatch), records[|records| - 1], requestMatch)
  }

  /** One step appends the record's size to the sizes held across all
      buckets, rotated or not, and adds one to the counter of the status's
      class only. */
  lemma StepAggregateCounts(a: Aggregate, l: Log, requestMatch: string -> seq<string>)
    ensures var r := StepAggregate(a, l, requestMatch);
      && Flatten(r.sizeRotated) + r.sizeCurrent == Flatten(a.sizeRotated) + a.sizeCurrent + [l.size]
      && forall c :: Count(r.statusFreq, c) == Count(a.statusFreq, c) + (if ClassOf(l.status) == Some(c) then 1 else 0)
  {
    FlattenSnoc(a.sizeRotated, a.sizeCurrent + [l.size]);
    BumpCounts(a.statusFreq, l.status);
  }

  /** Replaying the records counts them, and feeds the top sections, the
      address estimator and the status counters with the records in order. */
  lemma {:induction false} ReplayLogs(records: seq<Log>, requestMatch: string -> seq<string>)
    ensures var a := Replay(records, requestMatch);
      && a.count == |records|
      && a.topSections == Sections(records, requestMatch)
      && a.ips == Addrs(records)
      && a.statusFreq == Tally(Statuses(records))
  {
    if records != [] {
      var init := records[..|records| - 1];
      var l := records[|records| - 1];
      ReplayLogs(init, requestMatch);
      assert records == init + [l];
      LogsOfSnoc(init, l, requestMatch);
      TallySnoc(Statuses(init), l.status);
    }
  }

  /** Replaying the records fills rotated buckets of exactly 100000 sizes,
      one per full 100000 records, and leaves the sizes since the last
      rotation in the current bucket. */
  lemma {:induction false} ReplayBuckets(records: seq<Log>, requestMatch: string -> seq<string>)
    ensures var a := Replay(records, requestMatch);
      && (forall k :: 0 <= k < |a.sizeRotated| ==> |a.sizeRotated[k]| == RotationInterval)
      && |a.sizeCurrent| == |records| % RotationInterval
  {
    if records != [] {
      var init := records[..|records| - 1];
      ReplayBuckets(init, requestMatch);
      ReplayLogs(init, requestMatch);
      RotationStep(|init|);
    }
  }

  /** The rotated buckets followed by the current one hold every size
      replayed, in order. */
  lemma {:induction false} ReplaySizeLog(records: seq<Log>, requestMatch: string -> seq<string>)
    ensures var a := Replay(records, requestMatch);
      Flatten(a.sizeRotated) + a.sizeCurrent == Sizes(records)
  {
    if records != [] {
      var init := records[..|records| - 1];
      var l := records[|records| - 1];
      ReplaySizeLog(init, requestMatch);
      StepAggregateCounts(Replay(init, requestMatch), l, requestMatch);
      assert records == init + [l];
      LogsOfSnoc(init, l, requestMatch);
    }
  }

  /** The aggregates of a replay are what its records fed to each structure. */
  lemma ReplayAggregates(records: seq<Log>, requestMatch: string -> seq<string>)
    ensures var a := Replay(records, requestMatch);
      Aggregates(records, requestMatch, a.count, a.topSections, a.ips, a.sizeRotated, a.sizeCurrent, a.statusFreq)
  {
    ReplayLogs(records, requestMatch);
    ReplayBuckets(records, requestMatch);
    ReplaySizeLog(records, requestMatch);
  }

  /** The collector. The top-k, HyperLogLog and windowed histogram are given
      by what was added to them: the sections, the addresses, and the sizes
      of the current and of every rotated-out histogram bucket. The ghost
      `records` holds every record processed so far. */
  class Collector {
    const numTopSections: nat
    const requestMatch: string -> seq<string>
    var count: nat
    var topSections: seq<string>
    var ips: seq<string>
    var sizeCurrent: seq<int>
    var sizeRotated: seq<seq<int>>
    var statusFreq: StatusFreq
    ghost var records: seq<Log>

    ghost predicate Valid()
      reads this
    {
      State() == Replay(records, requestMatch)
    }

    /** The aggregates held. */
    ghost function State(): Aggregate
      reads this
    {
      Aggregate(count, topSections, ips, sizeRotated, sizeCurrent, statusFreq)
    }

    /** Every size recorded so far, across rotated and current buckets. */
    ghost function SizeLog(): seq<int>
      reads this
    {
      Flatten(sizeRotated) + sizeCurrent
    }

    /** NewCollector. */
    constructor (numTopSections: nat, requestMatch: string -> seq<string>)
      ensures Valid()
      ensures this.numTopSections == numTopSections && this.requestMatch == requestMatch
      ensures count == 0 && records == []
      ensures topSections == [] && ips == [] && sizeCurrent == [] && sizeRotated == []
      ensures statusFreq == StatusFreq(0, 0, 0, 0, 0)
    {
      this.numTopSections := numTopSections;
      this.requestMatch := requestMatch;
      count := 0;
      topSections := [];
      ips := [];
      sizeCurrent := [];
      sizeRotated := [];
      statusFreq := StatusFreq(0, 0, 0, 0, 0);
      records := [];
    }

    /** process: one record updates every aggregate. */
    method Process(l: Log)
      requires Valid()
      modifies this
      ensures Valid()
      ensures records == old(records) + [l]
      ensures State() == StepAggregate(old(State()), l, requestMatch)
      ensures SizeLog() == old(SizeLog()) + [l.size]
      ensures forall c :: Count(statusFreq, c) == Count(old(statusFreq), c) + (if ClassOf(l.status) == Some(c) then 1 else 0)
    {
      StepAggregateCounts(State(), l, requestMatch);
      count := count + 1;
      ProcessRequest(l.request);
      ProcessIP(l.remoteAddr);
      ProcessSize(l.size);
      ProcessStatus(l.status);
      records := records + [l];
      assert records[..|records| - 1] == old(records);
    }

    /** processRequest: a well-formed request adds its section to the top
        sections; a malformed one adds nothing. */
    method ProcessRequest(request: string)
      modifies this`topSections
      ensures topSections == old(topSections) + RequestSections(requestMatch(request))
    {
      var parts := requestMatch(request);
      if |parts| == 0 {
        return;
      }
      if |parts| != NumRequestParts + 1 {
        return;
      }
      var section := SectionFromDocument(parts[2]);
      topSections := topSections + [section];
    }

    /** processIP: the address is added to the distinct-count estimator. */
    method ProcessIP(ip: string)
      modifies this`ips
      ensures ips == old(ips) + [ip]
    {
      ips := ips + [ip];
    }

    /** processSize: the size goes into the current histogram bucket, which
        is rotated out when the record count is a multiple of 100000. */
    method ProcessSize(size: int)
      modifies this`sizeCurrent, this`sizeRotated
      ensures count % RotationInterval == 0 ==> sizeRotated == old(sizeRotated) + [old(sizeCurrent) + [size]] && sizeCurrent == []
      ensures count % RotationInterval != 0 ==> sizeRotated == old(sizeRotated) && sizeCurrent == old(sizeCurrent) + [size]
    {
      sizeCurrent := sizeCurrent + [size];
      if count % RotationInterval == 0 {
        sizeRotated := sizeRotated + [sizeCurrent];
        sizeCurrent := [];
      }
    }

    /** processStatus: one counter, chosen by the hundreds range, goes up by
        one for a status in 100-599; nothing changes otherwise. */
    method ProcessStatus(status: int)
      modifies this`statusFreq
      ensures statusFreq == Bump(old(statusFreq), status)
      ensures forall c :: Count(statusFreq, c) == Count(old(statusFreq), c) + (if ClassOf(status) == Some(c) then 1 else 0)
    {
      if 100 <= status < 200 {
        statusFreq := statusFreq.(informational := statusFreq.informational + 1);
      } else if 200 <= status < 300 {
        statusFreq := statusFreq.(successful := statusFreq.successful + 1);
      } else if 300 <= status < 400 {
        statusFreq := statusFreq.(redirection := statusFreq.redirection + 1);
      } else if 400 <= status < 500 {
        statusFreq := statusFreq.(clientError := statusFreq.clientError + 1);
      } else if 500 <= status < 600 {
        statusFreq := statusFreq.(serverError := statusFreq.serverError + 1);
      }
      BumpCounts(old(statusFreq), status);
    }

    /** The five status counters sum to at most the record count. */
    lemma StatusTotalAtMostCount()
      requires Valid()
      ensures Total(statusFreq) <= count
    {
      ReplayAggregates(records, requestMatch);
      TallyTotal(Statuses(records));
      StatusesLength(records);
    }

    /** Summary: a snapshot of the aggregates, changing nothing. The fields
        the collector does not own are left at their zero values. */
    method Summary(now: Time) returns (s: Report.Summary)
      requires Valid()
      ensures s.timestamp == now
      ensures s.topSections == multiset(topSections)
      ensures s.distinctIPs == |set a | a in ips| && s.distinctIPs <= count
      ensures s.sizeHist == multiset(Retained(sizeRotated, sizeCurrent))
      ensures s.sizeHist <= multiset(SizeLog())
      ensures count < HistogramWindows * RotationInterval ==> s.sizeHist == multiset(SizeLog()) && |s.sizeHist| == count
      ensures s.statusFreq == statusFreq && Total(s.statusFreq) <= count
      ensures s.hitsPerSecond == 0 && s.avgHits == Some(0.0) && s.window == 0
    {
      s := Report.Summary(
        timestamp := now,
        topSections := multiset(topSections),
        distinctIPs := |set a | a in ips|,
        sizeHist := multiset(Retained(sizeRotated, sizeCurrent)),
        statusFreq := statusFreq,
        hitsPerSecond := 0,
        avgHits := Some(0.0),
        window := 0);
      SnapshotBounds();
    }

    /** What a snapshot reports is bounded by what was processed: at most
        one distinct address and one classified status per record, and the
        merged sizes are among the recorded ones. */
    lemma SnapshotBounds()
      requires Valid()
      ensures |set a | a in ips| <= count
      ensures Total(statusFreq) <= count
      ensures multiset(Retained(sizeRotated, sizeCurrent)) <= multiset(SizeLog())
      ensures count < HistogramWindows * RotationInterval ==>
                Retained(sizeRotated, sizeCurrent) == SizeLog() && |SizeLog()| == count
    {
      ReplayAggregates(records, requestMatch);
      AddrsLength(records);
      SizesLength(records);
      DistinctAtMostLength(ips);
      StatusTotalAtMostCount();
      RetainedIsRecent(records, requestMatch, count, topSections, ips, sizeRotated, sizeCurrent, statusFreq);
      var all := SizeLog();
      var r := Retained(sizeRotated, sizeCurrent);
      assert all == all[..|all| - |r|] + r;
      assert multiset(all) == multiset(all[..|all| - |r|]) + multiset(r);
    }
  }

  /** Two requests under one section and one under another, such as
      "/pages/1", "/pages/2" and "/users/5", rank the first section twice
      and the second once. */
  lemma TwoSectionsRanked(a: string, b: string, t1: string, t2: string, t3: string)
    requires '/' !in a && '/' !in b && a != b
    requires '/' !in t1 && '/' !in t2 && '/' !in t3
    ensures var m := multiset{Section("/" + a + "/" + t1), Section("/" + a + "/" + t2), Section("/" + b + "/" + t3)};
      m["/" + a] == 2 && m["/" + b] == 1
  {
    SectionOfTwoSegments(a, t1);
    SectionOfTwoSegments(a, t2);
    SectionOfTwoSegments(b, t3);
    assert ("/" + a)[1..] == a && ("/" + b)[1..] == b;
  }

  /** A document "/name/tail" with no further '/' in name or tail has the
      section "/name". */
  lemma SectionOfTwoSegments(name: string, tail: string)
    requires '/' !in name && '/' !in tail
    ensures Section("/" + name + "/" + tail) == "/" + name
  {
    var head := "/" + name;
    var d := head + "/" + tail;
    assert multiset(head) == multiset("/") + multiset(name);
    assert multiset(d) == multiset(head) + multiset("/") + multiset(tail);
    assert d[..|head|] == head;
    SectionUnique(d, head);
  }
}
