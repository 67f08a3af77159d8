/**
 The simulator's counters (internal/simulator/traffic.go:108-134) under any interleaving of
 senders, each of whose atomic updates is a separate step, and of the reporter, which loads
 the latency buckets one by one beside them (internal/simulator/reporter.go:93-96).
 */
module Traffic {
  import opened Counting
  import opened Percentiles

  datatype Result = Failed | WithBid | WithoutBid

  /** Where a sender is in sendRequest. */
  datatype Sender =
    | Waiting
    | Answered(latency: nat, result: Result)
    | Timed(latency: nat, result: Result)      // latency added to the total
    | Filed(latency: nat, result: Result)      // and to its bucket
    | Finished(latency: nat, result: Result)   // and its outcome counted

  datatype Stats = Stats(requests: nat, bids: nat, noBids: nat, errors: nat, latencyMs: nat, buckets: seq<nat>)

  /** The reporter's scan. */
  datatype Scan = Scan(
    loaded: seq<nat>,  // the buckets loaded so far
    began: nat,        // auxiliary: how many latencies were filed when it began
    cuts: seq<nat>)    // auxiliary: how many when each bucket was loaded

  datatype State = State(
    stats: Stats,
    senders: seq<Sender>,
    filed: seq<nat>,   // the latencies filed so far, in order
    scan: Scan)

  datatype Action =
    | Start
    | Answer(i: nat, latency: nat, result: Result)
    | AddLatency(i: nat)
    | AddToBucket(i: nat)
    | Classify(i: nat)
    | BeginScan
    | LoadBucket

  function Init(): State {
    State(Stats(0, 0, 0, 0, 0, seq(BUCKETS, _ => 0)), [], [], Scan([], 0, []))
  }

  function Moved(s: State, i: nat, t: Sender): State
    requires i < |s.senders|
  {
    s.(senders := s.senders[i := t])
  }

  function Bumped(buckets: seq<nat>, b: nat): seq<nat> {
    if b < |buckets| then buckets[b := buckets[b] + 1] else buckets
  }

  function Classified(stats: Stats, result: Result): Stats {
    match result
    case Failed => stats.(errors := stats.errors + 1)
    case WithBid => stats.(bids := stats.bids + 1)
    case WithoutBid => stats.(noBids := stats.noBids + 1)
  }

  function Next(s: State, a: Action): State {
    match a
    case Start => s.(stats := s.stats.(requests := s.stats.requests + 1), senders := s.senders + [Waiting])
    case Answer(i, latency, result) =>
      if i < |s.senders| && s.senders[i].Waiting? then Moved(s, i, Answered(latency, result)) else s
    case AddLatency(i) =>
      if i < |s.senders| && s.senders[i].Answered? then
        var t := s.senders[i];
        Moved(s, i, Timed(t.latency, t.result)).(stats := s.stats.(latencyMs := s.stats.latencyMs + t.latency))
      else s
    case AddToBucket(i) =>
      if i < |s.senders| && s.senders[i].Timed? then
        var t := s.senders[i];
        Moved(s, i, Filed(t.latency, t.result))
          .(stats := s.stats.(buckets := Bumped(s.stats.buckets, BucketOf(t.latency))), filed := s.filed + [t.latency])
      else s
    case Classify(i) =>
      if i < |s.senders| && s.senders[i].Filed? then
        var t := s.senders[i];
        Moved(s, i, Finished(t.latency, t.result)).(stats := Classified(s.stats, t.result))
      else s
    case BeginScan => s.(scan := Scan([], |s.filed|, []))
    case LoadBucket =>
      var b := |s.scan.loaded|;
      if b < |s.stats.buckets|
      then s.(scan := Scan(s.scan.loaded + [s.stats.buckets[b]], s.scan.began, s.scan.cuts + [|s.filed|]))
      else s
  }

  function Run(acts: seq<Action>): State {
    if acts == [] then Init() else Next(Run(acts[..|acts| - 1]), acts[|acts| - 1])
  }

  class TrafficController {
    var stats: Stats

    constructor ()
      ensures stats == Init().stats
    {
      stats := Init().stats;
    }

    /** One request after the other: every counter of the request moves once. */
    method SendRequest(latency: nat, result: Result)
      requires |stats.buckets| == BUCKETS
      modifies this
      ensures |stats.buckets| == BUCKETS
      ensures stats.requests == old(stats.requests) + 1 && stats.latencyMs == old(stats.latencyMs) + latency
      ensures forall b | 0 <= b < BUCKETS ::
                stats.buckets[b] == old(stats.buckets)[b]
                  + (if (if latency < 100 then 2 * b <= latency < 2 * b + 2 else b == 49) then 1 else 0)
      ensures stats.errors == old(stats.errors) + (if result == Failed then 1 else 0)
      ensures stats.bids == old(stats.bids) + (if result == WithBid then 1 else 0)
      ensures stats.noBids == old(stats.noBids) + (if result == WithoutBid then 1 else 0)
    {
      stats := stats.(requests := stats.requests + 1);
      stats := stats.(latencyMs := stats.latencyMs + latency);
      var bucket := latency / 2;
      if bucket >= |stats.buckets| {
        bucket := |stats.buckets| - 1;
      }
      stats := stats.(buckets := stats.buckets[bucket := stats.buckets[bucket] + 1]);
      match result {
        case Failed => stats := stats.(errors := stats.errors + 1);
        case WithBid => stats := stats.(bids := stats.bids + 1);
        case WithoutBid => stats := stats.(noBids := stats.noBids + 1);
      }
    }
  }

  // ----- Tests on senders -----

  function IsFinished(result: Result): Sender -> bool {
    (t: Sender) => t.Finished? && t.result == result
  }

  function InFlight(): Sender -> bool {
    (t: Sender) => !t.Finished?
  }

  function PastFiling(): Sender -> bool {
    (t: Sender) => t.Filed? || t.Finished?
  }

  /** The total latency of the senders past the timing step. */
  function TimedTotal(senders: seq<Sender>): nat {
    if senders == [] then 0
    else
      var t := senders[|senders| - 1];
      TimedTotal(senders[..|senders| - 1]) + TimedLatency(t)
  }

  lemma {:induction false} CountMoved(senders: seq<Sender>, i: nat, t: Sender, p: Sender -> bool)
    requires i < |senders|
    ensures Count(senders[i := t], p) == Count(senders, p) - (if p(senders[i]) then 1 else 0) + (if p(t) then 1 else 0)
  {
    assert senders == senders[..i] + [senders[i]] + senders[i + 1..];
    assert senders[i := t] == senders[..i] + [t] + senders[i + 1..];
    CountMiddle(senders[..i], senders[i], senders[i + 1..], p);
    CountMiddle(senders[..i], t, senders[i + 1..], p);
  }

  lemma CountStarted(senders: seq<Sender>, p: Sender -> bool)
    ensures Count(senders + [Waiting], p) == Count(senders, p) + (if p(Waiting) then 1 else 0)
  {
    assert (senders + [Waiting])[..|senders|] == senders;
  }

  lemma {:induction false} TimedTotalMoved(senders: seq<Sender>, i: nat, t: Sender)
    requires i < |senders|
    ensures TimedTotal(senders[i := t]) == TimedTotal(senders) - TimedLatency(senders[i]) + TimedLatency(t)
  {
    var n := |senders| - 1;
    if i == n {
      assert senders[i := t][..n] == senders[..n];
    } else {
      assert senders[i := t][..n] == senders[..n][i := t];
      TimedTotalMoved(senders[..n], i, t);
    }
  }

  // ----- The invariant -----

  ghost predicate CountersOk(s: State) {
    && s.stats.requests == |s.senders|
    && s.stats.errors == Count(s.senders, IsFinished(Failed))
    && s.stats.bids == Count(s.senders, IsFinished(WithBid))
    && s.stats.noBids == Count(s.senders, IsFinished(WithoutBid))
    && |s.filed| == Count(s.senders, PastFiling())
  }

  /** Each loaded bucket counted the latencies filed by the time it was loaded. */
  ghost predicate ScanOk(filed: seq<nat>, scan: Scan) {
    && |scan.loaded| == |scan.cuts| <= BUCKETS && scan.began <= |filed|
    && forall b | 0 <= b < |scan.loaded| ::
         scan.began <= scan.cuts[b] <= |filed| && scan.loaded[b] == Count(filed[..scan.cuts[b]], InBucket(b))
  }

  ghost predicate Inv(s: State) {
    && CountersOk(s) && s.stats.latencyMs == TimedTotal(s.senders)
    && IsHistogram(s.stats.buckets, s.filed) && ScanOk(s.filed, s.scan)
  }

  function One(b: bool): int {
    if b then 1 else 0
  }

  lemma MoveCounts(s: State, i: nat, t: Sender, result: Result)
    requires i < |s.senders|
    ensures Count(s.senders[i := t], IsFinished(result))
            == Count(s.senders, IsFinished(result)) - One(s.senders[i].Finished? && s.senders[i].result == result)
               + One(t.Finished? && t.result == result)
    ensures Count(s.senders[i := t], PastFiling())
            == Count(s.senders, PastFiling()) - One(s.senders[i].Filed? || s.senders[i].Finished?)
               + One(t.Filed? || t.Finished?)
  {
    CountMoved(s.senders, i, t, IsFinished(result));
    CountMoved(s.senders, i, t, PastFiling());
  }

  function TimedLatency(t: Sender): nat {
    if t.Timed? || t.Filed? || t.Finished? then t.latency else 0
  }

  lemma FilingKeepsHistogram(buckets: seq<nat>, filed: seq<nat>, latency: nat)
    requires IsHistogram(buckets, filed)
    ensures IsHistogram(Bumped(buckets, BucketOf(latency)), filed + [latency])
  {
    forall b | 0 <= b < BUCKETS
      ensures Count(filed + [latency], InBucket(b)) == Bumped(buckets, BucketOf(latency))[b]
    {
      assert (filed + [latency])[..|filed|] == filed;
    }
  }

  lemma ScanStays(filed: seq<nat>, later: seq<nat>, scan: Scan)
    requires ScanOk(filed, scan) && filed <= later
    ensures ScanOk(later, scan)
  {
    forall b | 0 <= b < |scan.loaded| ensures later[..scan.cuts[b]] == filed[..scan.cuts[b]] {
    }
  }

  lemma LoadKeepsInv(s: State)
    requires Inv(s)
    ensures Inv(Next(s, LoadBucket))
  {
    assert s.filed[..|s.filed|] == s.filed;
  }

  /** Sender i moves on, and the counters follow. */
  lemma MoveKeepsInv(s: State, i: nat, t: Sender, s': State)
    requires Inv(s) && i < |s.senders| && s'.senders == s.senders[i := t]
    requires s'.stats.requests == s.stats.requests
    requires !s.senders[i].Finished?
    requires s'.stats.errors == s.stats.errors + One(t.Finished? && t.result == Failed)
    requires s'.stats.bids == s.stats.bids + One(t.Finished? && t.result == WithBid)
    requires s'.stats.noBids == s.stats.noBids + One(t.Finished? && t.result == WithoutBid)
    requires |s'.filed| == |s.filed| - One(s.senders[i].Filed?) + One(t.Filed? || t.Finished?)
    requires s'.stats.latencyMs == s.stats.latencyMs - TimedLatency(s.senders[i]) + TimedLatency(t)
    requires IsHistogram(s'.stats.buckets, s'.filed)
    requires s'.scan == s.scan && s.filed <= s'.filed
    ensures Inv(s')
  {
    ScanStays(s.filed, s'.filed, s.scan);
    MoveCounts(s, i, t, Failed);
    MoveCounts(s, i, t, WithBid);
    MoveCounts(s, i, t, WithoutBid);
    TimedTotalMoved(s.senders, i, t);
  }

  lemma StartKeepsInv(s: State)
    requires Inv(s)
    ensures Inv(Next(s, Start))
  {
    CountStarted(s.senders, IsFinished(Failed));
    CountStarted(s.senders, IsFinished(WithBid));
    CountStarted(s.senders, IsFinished(WithoutBid));
    CountStarted(s.senders, PastFiling());
    assert (s.senders + [Waiting])[..|s.senders|] == s.senders;
  }

  lemma StepKeepsInv(s: State, a: Action)
    requires Inv(s)
    ensures Inv(Next(s, a))
  {
    if a.Start? {
      StartKeepsInv(s);
    } else if a.LoadBucket? {
      LoadKeepsInv(s);
    } else if a.BeginScan? {
    } else if Next(s, a) != s {
      var t := Next(s, a).senders[a.i];
      if a.AddToBucket? {
        FilingKeepsHistogram(s.stats.buckets, s.filed, t.latency);
      }
      MoveKeepsInv(s, a.i, t, Next(s, a));
    }
  }

  lemma {:induction false} RunKeepsInv(acts: seq<Action>)
    ensures Inv(Run(acts))
  {
    if acts != [] {
      RunKeepsInv(acts[..|acts| - 1]);
      StepKeepsInv(Run(acts[..|acts| - 1]), acts[|acts| - 1]);
    }
  }

  // ----- Theorems -----

  lemma {:induction false} OutcomesPartition(senders: seq<Sender>)
    ensures |senders| == Count(senders, IsFinished(Failed)) + Count(senders, IsFinished(WithBid))
                         + Count(senders, IsFinished(WithoutBid)) + Count(senders, InFlight())
  {
    if senders != [] {
      OutcomesPartition(senders[..|senders| - 1]);
    }
  }

  /** However senders interleave: requests are bids plus no-bids plus errors plus those still
      in flight; the buckets sum to the requests past the bucketing step and are exactly the
      histogram of the latencies filed; the latency total is that of the senders past timing. */
  lemma CountersBalance(acts: seq<Action>)
    ensures var s := Run(acts);
            && s.stats.requests == s.stats.bids + s.stats.noBids + s.stats.errors + Count(s.senders, InFlight())
            && s.stats.bids == Count(s.senders, IsFinished(WithBid))
            && s.stats.noBids == Count(s.senders, IsFinished(WithoutBid))
            && s.stats.errors == Count(s.senders, IsFinished(Failed))
            && Sum(s.stats.buckets) == Count(s.senders, PastFiling())
            && IsHistogram(s.stats.buckets, s.filed)
            && s.stats.latencyMs == TimedTotal(s.senders)
  {
    RunKeepsInv(acts);
    OutcomesPartition(Run(acts).senders);
    SumIsTotal(Run(acts).stats.buckets, Run(acts).filed);
  }

  /** The latencies that a finished scan saw: each up to the moment its bucket was loaded. */
  function Seen(filed: seq<nat>, cuts: seq<nat>): seq<nat>
    requires |cuts| == BUCKETS
  {
    if filed == [] then []
    else
      var n := |filed| - 1;
      Seen(filed[..n], cuts) + (if n < cuts[BucketOf(filed[n])] then [filed[n]] else [])
  }

  /** The first cut latencies, or all there are. */
  function Upto(filed: seq<nat>, cut: nat): seq<nat> {
    if cut <= |filed| then filed[..cut] else filed
  }

  lemma UptoSnoc(filed: seq<nat>, latency: nat, cut: nat)
    ensures Upto(filed + [latency], cut) == if |filed| < cut then Upto(filed, cut) + [latency] else Upto(filed, cut)
    ensures |filed| < cut ==> Upto(filed, cut) == filed
  {
  }

  lemma SeenSnoc(filed: seq<nat>, latency: nat, cuts: seq<nat>)
    requires |cuts| == BUCKETS
    ensures Seen(filed + [latency], cuts)
            == if |filed| < cuts[BucketOf(latency)] then Seen(filed, cuts) + [latency] else Seen(filed, cuts)
  {
    assert (filed + [latency])[..|filed|] == filed;
    assert Seen(filed, cuts) + [] == Seen(filed, cuts);
  }

  lemma SeenCountSnoc(filed: seq<nat>, latency: nat, cuts: seq<nat>, b: nat)
    requires |cuts| == BUCKETS && b < BUCKETS
    requires Count(Seen(filed, cuts), InBucket(b)) == Count(Upto(filed, cuts[b]), InBucket(b))
    ensures Count(Seen(filed + [latency], cuts), InBucket(b)) == Count(Upto(filed + [latency], cuts[b]), InBucket(b))
  {
    hide Count, Seen, BucketOf, Upto;
    SeenSnoc(filed, latency, cuts);
    UptoSnoc(filed, latency, cuts[b]);
    CountSnoc(Seen(filed, cuts), latency, InBucket(b));
    CountSnoc(Upto(filed, cuts[b]), latency, InBucket(b));
  }

  lemma {:induction false} SeenCount(filed: seq<nat>, cuts: seq<nat>, b: nat)
    requires |cuts| == BUCKETS && b < BUCKETS
    ensures Count(Seen(filed, cuts), InBucket(b)) == Count(Upto(filed, cuts[b]), InBucket(b))
  {
    if filed == [] {
      assert filed[..0] == [];
    } else {
      hide Count, Seen, Upto, InBucket;
      var n := |filed| - 1;
      SeenCount(filed[..n], cuts, b);
      SeenCountSnoc(filed[..n], filed[n], cuts, b);
      assert filed == filed[..n] + [filed[n]];
    }
  }

  lemma SeenSnocFiled(filed: seq<nat>, latency: nat, cuts: seq<nat>)
    requires |cuts| == BUCKETS && multiset(Seen(filed, cuts)) <= multiset(filed)
    ensures multiset(Seen(filed + [latency], cuts)) <= multiset(filed + [latency])
  {
    hide Seen, BucketOf;
    SeenSnoc(filed, latency, cuts);
    var seen := Seen(filed, cuts);
    assert multiset(filed + [latency]) == multiset(filed) + multiset{latency};
    assert multiset(seen + [latency]) == multiset(seen) + multiset{latency};
  }

  /** A scan sees only latencies that were filed. */
  lemma {:induction false} SeenWereFiled(filed: seq<nat>, cuts: seq<nat>)
    requires |cuts| == BUCKETS
    ensures multiset(Seen(filed, cuts)) <= multiset(filed)
  {
    if filed != [] {
      hide Seen;
      var n := |filed| - 1;
      SeenWereFiled(filed[..n], cuts);
      SeenSnocFiled(filed[..n], filed[n], cuts);
      assert filed == filed[..n] + [filed[n]];
    }
  }

  lemma {:induction false} AllSeen(filed: seq<nat>, cuts: seq<nat>)
    requires |cuts| == BUCKETS && forall b | 0 <= b < BUCKETS :: cuts[b] >= |filed|
    ensures Seen(filed, cuts) == filed
  {
    if filed != [] {
      hide BucketOf;
      var n := |filed| - 1;
      AllSeen(filed[..n], cuts);
      assert filed == filed[..n] + [filed[n]];
    }
  }

  /** A scan sees all latencies filed before it began, first and in order. */
  lemma {:induction false} EarlierAreSeen(filed: seq<nat>, cuts: seq<nat>, began: nat)
    requires |cuts| == BUCKETS && forall b | 0 <= b < BUCKETS :: cuts[b] >= began
    requires began <= |filed|
    ensures filed[..began] <= Seen(filed, cuts)
  {
    if began == |filed| {
      AllSeen(filed, cuts);
      assert filed[..began] == filed;
    } else {
      hide BucketOf;
      var n := |filed| - 1;
      EarlierAreSeen(filed[..n], cuts, began);
      assert filed[..n][..began] == filed[..began];
    }
  }

  /** However senders and reporter interleave, the fifty counters loaded one by one are the
      exact histogram of some of the latencies filed, among them all that were filed before
      the scan began. */
  lemma ScanIsHistogram(acts: seq<Action>)
    requires |Run(acts).scan.loaded| == BUCKETS
    ensures var s := Run(acts);
            && |s.scan.cuts| == BUCKETS && s.scan.began <= |s.filed|
            && var seen := Seen(s.filed, s.scan.cuts);
            && IsHistogram(s.scan.loaded, seen)
            && multiset(seen) <= multiset(s.filed) && s.filed[..s.scan.began] <= seen
  {
    RunKeepsInv(acts);
    var s := Run(acts);
    SeenWereFiled(s.filed, s.scan.cuts);
    EarlierAreSeen(s.filed, s.scan.cuts, s.scan.began);
    hide Seen;
    forall b | 0 <= b < BUCKETS ensures s.scan.loaded[b] == Count(Seen(s.filed, s.scan.cuts), InBucket(b)) {
      SeenCount(s.filed, s.scan.cuts, b);
    }
  }

  /** So the percentiles computed from a scan are the order statistics of the latencies it saw. */
  lemma ReportedPercentiles(acts: seq<Action>, sorted: seq<nat>, k: nat, v: nat) returns (r: nat)
    requires |Run(acts).scan.loaded| == BUCKETS && |Run(acts).scan.cuts| == BUCKETS
    requires var seen := Seen(Run(acts).filed, Run(acts).scan.cuts);
             |seen| > 0 && |sorted| == |seen| && multiset(sorted) == multiset(seen) && Ascending(sorted)
    requires k < 3 && Found(Run(acts).scan.loaded, k, v)
    ensures IsRank(r, |sorted|, if k == 0 then 0.50 else if k == 1 then 0.95 else 0.99)
    ensures var latency := sorted[r - 1]; if latency < 100 then v <= latency < v + 2 else v == 98
  {
    ScanIsHistogram(acts);
    var s := Run(acts);
    r := PercentileValue(s.scan.loaded, Seen(s.filed, s.scan.cuts), sorted, k, v);
  }
}
