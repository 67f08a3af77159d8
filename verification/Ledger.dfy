/**
 The budget ledger under concurrent auctions (internal/budget/service.go,
 internal/bidding/service.go).

 A run is any sequence of the actions below: each is one atomic Redis command or one
 local step of one of arbitrarily many bid requests, campaign synchronisations,
 deletions and clock ticks. An action that is not enabled changes nothing, so every
 sequence is a run and every interleaving is covered. Budget keys expire lazily, as the
 clock passes their deadline.
 */
module Ledger {
  import opened Wrappers
  import opened Models
  import opened Auction
  import opened BudgetStore
  import Redis
  import Scoring
  import Pacing

  // ----- State -----

  /** The history of the budget keys, oldest first. */
  datatype Event =
    | Opened(campaign: string, budget: real, expiresAt: Option<int>)
    | Deleted(campaign: string)
    | Deducted(campaign: string, amount: real)
    | Counted(campaign: string, amount: real)  // an increment of an hourly bucket

  /** A candidate, and what its budget check met: the length of the history, the clock, an
      error, a reached cap, and the two rates of pacing. */
  datatype Checked = Checked(
    candidate: BidCandidate, mark: nat, at: int, fails: bool, capped: bool, spendRate: real, targetRate: real)

  /** The bidding side of a request. */
  datatype Client = Checking | Deducting | Served | NoBid

  /** The budget side of its deduct call. The client may give up at any time. */
  datatype Server = Idle | Called | Charged | Answered(counted: bool) | Refused

  datatype Request = Request(
    floor: real,
    auctionType: int,
    active: seq<string>,                  // the active set, as read
    cache: map<string, CampaignCache>,    // the campaign configurations, as read
    scores: seq<Scoring.AdScore>,
    checks: seq<Checked>,
    winner: Option<BidCandidate>,
    client: Client,
    server: Server)

  datatype State = State(
    now: int,
    daily: DailyKeys,
    syncing: set<(string, real)>,  // consumers between Exists and SetNX
    requests: seq<Request>,        // every request so far
    log: seq<Event>)

  datatype Action =
    | Tick(d: nat)
    | SyncExists(campaign: string, budget: real)
    | SyncSetNX(campaign: string, budget: real)
    | Delete(campaign: string)
    | Begin(floor: real, auctionType: int, active: seq<string>, cache: map<string, CampaignCache>,
            ctr: Scoring.Predictor, cvr: Scoring.Predictor, scoringFails: bool)
    | Check(r: nat, fails: bool, capped: bool, spendRate: real, targetRate: real)
    | Clearing(r: nat, ranking: seq<BidCandidate>)
    | GiveUp(r: nat)                    // the deduct call times out or fails on the client
    | Script(r: nat, fails: bool)       // the Lua script, or an error instead of it
    | Count(r: nat, fails: bool)        // the hourly increment, whose error is ignored
    | Reply(r: nat)

  const Init := State(0, map[], {}, [], [])

  // ----- Steps -----

  /** How ProcessBidRequest turns a score and a budget answer into a candidate. */
  function CandidateOf(score: Scoring.AdScore, budgetOk: bool, multiplier: real): BidCandidate {
    var effectiveBid := if budgetOk && multiplier > 0.0 then score.effectiveBid * multiplier else score.effectiveBid;
    BidCandidate(score.campaignId, score.adId, score.effectiveBid, effectiveBid, 0.0, score.predictedCtr, budgetOk)
  }

  function Candidates(checks: seq<Checked>): seq<BidCandidate> {
    seq(|checks|, i requires 0 <= i < |checks| => checks[i].candidate)
  }

  /** CPM to the cost of one impression. */
  function Cost(price: real): real {
    price / 1000.0
  }

  function AfterBegin(a: Action): Request
    requires a.Begin?
  {
    if a.active == [] || a.scoringFails
    then Request(a.floor, a.auctionType, a.active, a.cache, [], [], None, NoBid, Idle)
    else Request(a.floor, a.auctionType, a.active, a.cache,
                 Scoring.ScoresOf(a.cache, a.active, a.ctr, a.cvr), [], None, Checking, Idle)
  }

  function AfterCheck(s: State, q: Request, a: Action): Request
    requires a.Check? && |q.checks| < |q.scores|
  {
    var score := q.scores[|q.checks|];
    var ok := !a.fails && !a.capped && Affordable(s.daily, score.campaignId, score.effectiveBid, s.now);
    var multiplier := Pacing.Multiplier(a.spendRate, a.targetRate);
    q.(checks := q.checks + [CheckedNow(s, a, CandidateOf(score, ok, multiplier))])
  }

  function CheckedNow(s: State, a: Action, candidate: BidCandidate): Checked
    requires a.Check?
  {
    Checked(candidate, |s.log|, s.now, a.fails, a.capped, a.spendRate, a.targetRate)
  }

  function AfterClearing(q: Request, ranking: seq<BidCandidate>): Request {
    var winner := Clear(ranking, q.auctionType, q.floor);
    if winner.None? then q.(client := NoBid)
    else q.(winner := winner, client := Deducting, server := Called)
  }

  predicate CanCheck(q: Request) {
    q.client.Checking? && |q.checks| < |q.scores|
  }

  predicate CanClear(q: Request, ranking: seq<BidCandidate>) {
    q.client.Checking? && |q.checks| == |q.scores| && Ranking(ranking, Candidates(q.checks), q.floor)
  }

  function AfterScript(s: State, r: nat): State
    requires r < |s.requests| && s.requests[r].winner.Some?
  {
    var q := s.requests[r];
    var c, amount := q.winner.value.campaignId, Cost(q.winner.value.clearingPrice);
    var (daily, ok) := BudgetStore.Deducted(s.daily, c, amount, s.now);
    if !ok then s.(requests := s.requests[r := q.(server := Refused)])
    else
      var opening := if Redis.Exists(s.daily, c, s.now) then [] else [Opened(c, 0.0, None)];
      s.(daily := daily,
         requests := s.requests[r := q.(server := Charged)],
         log := s.log + opening + [Deducted(c, amount)])
  }

  function AfterCount(s: State, r: nat, fails: bool): State
    requires r < |s.requests| && s.requests[r].winner.Some?
  {
    var q := s.requests[r];
    var c, amount := q.winner.value.campaignId, Cost(q.winner.value.clearingPrice);
    s.(requests := s.requests[r := q.(server := Answered(!fails))],
       log := if fails then s.log else s.log + [Counted(c, amount)])
  }

  function AfterReply(q: Request): Request {
    if q.server.Answered? then q.(client := Served)
    else if q.server.Refused? then q.(client := NoBid)
    else q
  }

  function Next(s: State, a: Action): State {
    match a
    case Tick(d) => s.(now := s.now + d)
    case SyncExists(c, budget) =>
      if Redis.Exists(s.daily, c, s.now) then s else s.(syncing := s.syncing + {(c, budget)})
    case SyncSetNX(c, budget) =>
      if (c, budget) !in s.syncing then s
      else
        s.(syncing := s.syncing - {(c, budget)},
           daily := Redis.SetNX(s.daily, c, budget, DAILY_TTL, s.now),
           log := if Redis.Exists(s.daily, c, s.now) then s.log
                  else s.log + [Opened(c, budget, Some(s.now + DAILY_TTL))])
    case Delete(c) => s.(daily := Redis.Del(s.daily, c), log := s.log + [Deleted(c)])
    case Begin(_, _, _, _, _, _, _) => s.(requests := s.requests + [AfterBegin(a)])
    case Check(r, _, _, _, _) =>
      if r < |s.requests| && CanCheck(s.requests[r])
      then s.(requests := s.requests[r := AfterCheck(s, s.requests[r], a)]) else s
    case Clearing(r, ranking) =>
      if r < |s.requests| && CanClear(s.requests[r], ranking)
      then s.(requests := s.requests[r := AfterClearing(s.requests[r], ranking)]) else s
    case GiveUp(r) =>
      if r < |s.requests| && s.requests[r].client.Deducting?
      then s.(requests := s.requests[r := s.requests[r].(client := NoBid)]) else s
    case Script(r, fails) =>
      if r < |s.requests| && s.requests[r].server.Called? && s.requests[r].winner.Some?
      then (if fails then s.(requests := s.requests[r := s.requests[r].(server := Refused)]) else AfterScript(s, r))
      else s
    case Count(r, fails) =>
      if r < |s.requests| && s.requests[r].server.Charged? && s.requests[r].winner.Some?
      then AfterCount(s, r, fails) else s
    case Reply(r) =>
      if r < |s.requests| && s.requests[r].client.Deducting?
      then s.(requests := s.requests[r := AfterReply(s.requests[r])]) else s
  }

  function RunFrom(s: State, acts: seq<Action>): State {
    if acts == [] then s
    else Next(RunFrom(s, acts[..|acts| - 1]), acts[|acts| - 1])
  }

  function Run(acts: seq<Action>): State {
    RunFrom(Init, acts)
  }

  /** What the rest of the system guarantees: campaign validation keeps budgets and base
      bids positive (internal/campaign/service.go:173-178), predicted rates are rates. */
  ghost predicate Sound(a: Action) {
    match a
    case SyncExists(_, budget) => budget > 0.0
    case Begin(_, _, _, cache, ctr, _, _) => Scoring.IsRate(ctr) && forall id | id in cache :: cache[id].baseBid > 0.0
    case _ => true
  }

  ghost predicate SoundRun(acts: seq<Action>) {
    forall i | 0 <= i < |acts| :: Sound(acts[i])
  }

  // ----- Reading the history -----

  /** The sum of campaign c's deductions (or of its hourly increments) in a stretch of history. */
  function Spent(log: seq<Event>, c: string): real {
    if log == [] then 0.0
    else
      var e := log[|log| - 1];
      Spent(log[..|log| - 1], c) + (if e.Deducted? && e.campaign == c then e.amount else 0.0)
  }

  function CountedTotal(log: seq<Event>, c: string): real {
    if log == [] then 0.0
    else
      var e := log[|log| - 1];
      CountedTotal(log[..|log| - 1], c) + (if e.Counted? && e.campaign == c then e.amount else 0.0)
  }

  predicate Boundary(e: Event, c: string) {
    (e.Opened? || e.Deleted?) && e.campaign == c
  }

  /** The key of campaign c opened by history entry i and not deleted or reopened by entry j. */
  predicate Epoch(log: seq<Event>, c: string, i: int, j: int) {
    && 0 <= i < j <= |log| && log[i].Opened? && log[i].campaign == c
    && forall k | i < k < j :: !Boundary(log[k], c)
  }

  /** The balance the history leaves in campaign c's key. */
  function Balance(log: seq<Event>, c: string): Option<Redis.Stored<real>> {
    if log == [] then None
    else
      var e := log[|log| - 1];
      var before := Balance(log[..|log| - 1], c);
      if e.campaign != c then before
      else match e
        case Opened(_, budget, expiresAt) => Some(Redis.Stored(budget, expiresAt))
        case Deleted(_) => None
        case Deducted(_, amount) =>
          if before.Some? then Some(before.value.(value := before.value.value - amount)) else None
        case Counted(_, _) => before
  }

  lemma Snoc(log: seq<Event>, e: Event, c: string)
    ensures Spent(log + [e], c) == Spent(log, c) + (if e.Deducted? && e.campaign == c then e.amount else 0.0)
    ensures CountedTotal(log + [e], c) == CountedTotal(log, c) + (if e.Counted? && e.campaign == c then e.amount else 0.0)
    ensures Balance(log + [e], c) ==
            if e.campaign != c then Balance(log, c)
            else match e
              case Opened(_, budget, expiresAt) => Some(Redis.Stored(budget, expiresAt))
              case Deleted(_) => None
              case Deducted(_, amount) =>
                if Balance(log, c).Some? then Some(Balance(log, c).value.(value := Balance(log, c).value.value - amount)) else None
              case Counted(_, _) => Balance(log, c)
  {
    assert (log + [e])[..|log|] == log;
  }

  lemma OneLonger(log: seq<Event>, m: nat, n: nat)
    requires m < n <= |log|
    ensures log[..n] == log[..n - 1] + [log[n - 1]] && log[m..n] == log[m..n - 1] + [log[n - 1]]
  {
  }

  /** The balance after log is what was there before, less what the stretch of it spent. */
  predicate Fell(before: Option<Redis.Stored<real>>, log: seq<Event>, stretch: seq<Event>, c: string) {
    && (before.Some? <==> Balance(log, c).Some?)
    && (before.Some? ==> Balance(log, c).value == before.value.(value := before.value.value - Spent(stretch, c)))
  }

  lemma FallsFurther(before: Option<Redis.Stored<real>>, log: seq<Event>, stretch: seq<Event>, e: Event, c: string)
    requires Fell(before, log, stretch, c) && !Boundary(e, c)
    ensures Fell(before, log + [e], stretch + [e], c)
  {
    Snoc(log, e, c);
    Snoc(stretch, e, c);
  }

  /** Between two points without a boundary, a balance falls by exactly what was spent. */
  lemma {:induction false} BalanceFalls(log: seq<Event>, c: string, m: nat, n: nat)
    requires m <= n <= |log| && forall k | m <= k < n :: !Boundary(log[k], c)
    ensures Balance(log[..m], c).Some? <==> Balance(log[..n], c).Some?
    ensures Balance(log[..m], c).Some? ==>
            Balance(log[..n], c).value
            == Balance(log[..m], c).value.(value := Balance(log[..m], c).value.value - Spent(log[m..n], c))
  {
    if m == n {
      assert log[m..n] == [];
    } else {
      hide Balance, Spent;
      BalanceFalls(log, c, m, n - 1);
      OneLonger(log, m, n);
      FallsFurther(Balance(log[..m], c), log[..n - 1], log[m..n - 1], log[n - 1], c);
    }
  }

  /** Within an epoch the balance is the opening budget minus the deductions since. */
  lemma EpochBalance(log: seq<Event>, c: string, i: int, j: int)
    requires Epoch(log, c, i, j)
    ensures Balance(log[..j], c) == Some(Redis.Stored(log[i].budget - Spent(log[i + 1..j], c), log[i].expiresAt))
  {
    assert log[..i + 1] == log[..i] + [log[i]];
    Snoc(log[..i], log[i], c);
    BalanceFalls(log, c, i + 1, j);
  }

  lemma {:induction false} BalanceHasEpoch(log: seq<Event>, c: string) returns (i: nat)
    requires Balance(log, c).Some?
    ensures Epoch(log, c, i, |log|)
  {
    var n := |log| - 1;
    if Boundary(log[n], c) {
      i := n;
    } else {
      i := BalanceHasEpoch(log[..n], c);
      assert forall k | i < k < n :: log[..n][k] == log[k];
    }
  }

  // ----- Totals over requests -----

  datatype Kind = All | ServedOnly | Unserved | CountedOnly | Uncounted

  predicate WasCharged(q: Request) {
    q.winner.Some? && (q.server.Charged? || q.server.Answered?)
  }

  predicate InKind(q: Request, kind: Kind) {
    WasCharged(q) &&
    match kind
    case All => true
    case ServedOnly => q.client.Served?
    case Unserved => !q.client.Served?
    case CountedOnly => q.server == Answered(true)
    case Uncounted => q.server != Answered(true)
  }

  function ChargeOf(q: Request, kind: Kind, c: string): real {
    if InKind(q, kind) && q.winner.value.campaignId == c then q.winner.value.clearingPrice / 1000.0 else 0.0
  }

  /** What the requests of one kind cost campaign c. */
  function Total(qs: seq<Request>, kind: Kind, c: string): real {
    if qs == [] then 0.0
    else Total(qs[..|qs| - 1], kind, c) + ChargeOf(qs[|qs| - 1], kind, c)
  }

  lemma {:induction false} TotalUpdated(qs: seq<Request>, r: nat, q: Request, kind: Kind, c: string)
    requires r < |qs|
    ensures Total(qs[r := q], kind, c) == Total(qs, kind, c) - ChargeOf(qs[r], kind, c) + ChargeOf(q, kind, c)
  {
    var n := |qs| - 1;
    if r == n {
      assert qs[r := q][..n] == qs[..n];
    } else {
      assert qs[r := q][..n] == qs[..n][r := q];
      TotalUpdated(qs[..n], r, q, kind, c);
    }
  }

  lemma TotalAppended(qs: seq<Request>, q: Request, kind: Kind, c: string)
    ensures Total(qs + [q], kind, c) == Total(qs, kind, c) + ChargeOf(q, kind, c)
  {
    assert (qs + [q])[..|qs|] == qs;
  }

  // ----- The invariants -----

  /** The store is what the history says. */
  ghost predicate StoreOk(s: State) {
    forall c :: Balance(s.log, c) == Held(s.daily, c)
  }

  /** What the store holds under a campaign's key, expired or not. */
  function Held(daily: DailyKeys, c: string): Option<Redis.Stored<real>> {
    if c in daily then Some(daily[c]) else None
  }

  /** No key was ever overdrawn, at any point of the history. */
  ghost predicate Solvent(log: seq<Event>) {
    forall n, c | 0 <= n <= |log| && Balance(log[..n], c).Some? :: Balance(log[..n], c).value.value >= 0.0
  }

  ghost predicate AccountsOk(s: State) {
    forall c :: AccountOk(s.log, s.requests, c)
  }

  /** The history charges and counts campaign c as the requests do. */
  predicate AccountOk(log: seq<Event>, qs: seq<Request>, c: string) {
    Spent(log, c) == Total(qs, All, c) && CountedTotal(log, c) == Total(qs, CountedOnly, c)
  }

  ghost predicate CheckOk(log: seq<Event>, k: Checked, score: Scoring.AdScore) {
    && k.mark <= |log|
    && k.candidate.campaignId == score.campaignId && k.candidate.adId == score.adId
    && k.candidate.rawBid == score.effectiveBid && k.candidate.clearingPrice == 0.0
    && k.candidate.predictedCtr == score.predictedCtr
    && 0.0 < k.candidate.effectiveBid <= k.candidate.rawBid
    && (k.candidate.budgetOk <==> !k.fails && !k.capped && Covers(log[..k.mark], k.candidate.campaignId, k.at, k.candidate.rawBid))
    && (if k.candidate.budgetOk then Paces(k.candidate, k.spendRate, k.targetRate)
        else k.candidate.effectiveBid == k.candidate.rawBid)
  }

  /** The history leaves campaign c a key that is alive at the given time and holds the bid. */
  ghost predicate Covers(log: seq<Event>, c: string, at: int, bid: real) {
    var balance := Balance(log, c);
    && balance.Some? && balance.value.value >= bid
    && (balance.value.expiresAt.Some? ==> at <= balance.value.expiresAt.value)
  }

  /** The candidate bids its raw bid times the multiplier documented for these rates. */
  ghost predicate Paces(c: BidCandidate, spendRate: real, targetRate: real) {
    exists m | m == 0.3 || m == 0.7 || m == 1.0 :: c.effectiveBid == c.rawBid * m && Pacing.InBand(m, spendRate, targetRate)
  }

  ghost predicate ScoresOk(q: Request) {
    forall i | 0 <= i < |q.scores| ::
      var a := q.scores[i];
      && a.campaignId in q.active && a.campaignId in q.cache && a.adId in q.cache[a.campaignId].adIds
      && 0.0 < a.effectiveBid
      && (q.cache[a.campaignId].bidCeiling > 0.0 ==> a.effectiveBid <= q.cache[a.campaignId].bidCeiling)
  }

  ghost predicate RequestOk(log: seq<Event>, q: Request) {
    && |q.checks| <= |q.scores|
    && ScoresOk(q)
    && (forall i | 0 <= i < |q.checks| :: CheckOk(log, q.checks[i], q.scores[i]))
    && (q.client.Checking? ==> q.winner.None? && q.server.Idle?)
    && (q.winner.None? ==> q.server.Idle? && !q.client.Deducting?)
    && (q.winner.Some? ==> Outcome(Candidates(q.checks), q.auctionType, q.floor, q.winner))
    && (q.client.Served? ==> q.winner.Some? && q.server.Answered?)
  }

  ghost predicate Inv(s: State) {
    && StoreOk(s)
    && Solvent(s.log)
    && AccountsOk(s)
    && (forall p | p in s.syncing :: p.1 > 0.0)
    && (forall r | 0 <= r < |s.requests| :: RequestOk(s.log, s.requests[r]))
  }

  // ----- Growing the history -----

  lemma CheckOkGrows(log: seq<Event>, more: seq<Event>, k: Checked, score: Scoring.AdScore)
    requires CheckOk(log, k, score)
    ensures CheckOk(log + more, k, score)
  {
    assert (log + more)[..k.mark] == log[..k.mark];
  }

  lemma RequestOkGrows(log: seq<Event>, more: seq<Event>, q: Request)
    requires RequestOk(log, q)
    ensures RequestOk(log + more, q)
  {
    forall i | 0 <= i < |q.checks| ensures CheckOk(log + more, q.checks[i], q.scores[i]) {
      CheckOkGrows(log, more, q.checks[i], q.scores[i]);
    }
  }

  lemma RequestsGrow(s: State, more: seq<Event>)
    requires Inv(s)
    ensures forall r | 0 <= r < |s.requests| :: RequestOk(s.log + more, s.requests[r])
  {
    forall r | 0 <= r < |s.requests| ensures RequestOk(s.log + more, s.requests[r]) {
      RequestOkGrows(s.log, more, s.requests[r]);
    }
  }

  lemma SolventSnoc(log: seq<Event>, e: Event)
    requires Solvent(log)
    requires Balance(log + [e], e.campaign).Some? ==> Balance(log + [e], e.campaign).value.value >= 0.0
    ensures Solvent(log + [e])
  {
    var log' := log + [e];
    forall n, c | 0 <= n <= |log'| && Balance(log'[..n], c).Some? ensures Balance(log'[..n], c).value.value >= 0.0 {
      if n <= |log| {
        assert log'[..n] == log[..n];
      } else {
        assert log'[..n] == log' && log[..|log|] == log;
        Snoc(log, e, c);
      }
    }
  }

  // ----- Each step keeps the invariant -----

  lemma EventKeepsInv(s: State, s': State, e: Event)
    requires Inv(s)
    requires s'.requests == s.requests && s'.log == s.log + [e] && s'.syncing <= s.syncing
    requires e.Opened? || e.Deleted?
    requires StoreOk(s') && (e.Opened? ==> e.budget >= 0.0)
    ensures Inv(s')
  {
    forall c ensures AccountOk(s'.log, s'.requests, c) {
      assert AccountOk(s.log, s.requests, c);
      Snoc(s.log, e, c);
    }
    Snoc(s.log, e, e.campaign);
    SolventSnoc(s.log, e);
    RequestsGrow(s, [e]);
  }

  lemma SetNXKeepsInv(s: State, c: string, budget: real)
    requires Inv(s)
    ensures Inv(Next(s, SyncSetNX(c, budget)))
  {
    var s' := Next(s, SyncSetNX(c, budget));
    if (c, budget) in s.syncing && !Redis.Exists(s.daily, c, s.now) {
      var e := Opened(c, budget, Some(s.now + DAILY_TTL));
      forall d ensures Balance(s'.log, d) == Held(s'.daily, d) {
        Snoc(s.log, e, d);
      }
      EventKeepsInv(s, s', e);
    }
  }

  lemma DeleteKeepsInv(s: State, c: string)
    requires Inv(s)
    ensures Inv(Next(s, Delete(c)))
  {
    var s' := Next(s, Delete(c));
    forall d ensures Balance(s'.log, d) == Held(s'.daily, d) {
      Snoc(s.log, Deleted(c), d);
    }
    EventKeepsInv(s, s', Deleted(c));
  }

  lemma BeginKeepsInv(s: State, a: Action)
    requires Inv(s) && a.Begin? && Sound(a)
    ensures Inv(Next(s, a))
  {
    var q := AfterBegin(a);
    forall i | 0 <= i < |q.scores|
      ensures var x := q.scores[i];
              && x.campaignId in q.active && x.campaignId in q.cache && x.adId in q.cache[x.campaignId].adIds
              && 0.0 < x.effectiveBid
              && (q.cache[x.campaignId].bidCeiling > 0.0 ==> x.effectiveBid <= q.cache[x.campaignId].bidCeiling)
    {
      Scoring.ScoreBounds(a.cache, a.active, a.ctr, a.cvr, q.scores[i]);
    }
    assert RequestOk(s.log, q);
    var requests := s.requests + [q];
    forall c ensures AccountOk(s.log, requests, c) {
      assert AccountOk(s.log, s.requests, c);
      TotalAppended(s.requests, q, All, c);
      TotalAppended(s.requests, q, CountedOnly, c);
    }
  }

  /** A step of one request that neither touches the store nor changes what it was charged. */
  lemma LocalStepKeepsInv(s: State, r: nat, q: Request)
    requires Inv(s) && r < |s.requests| && RequestOk(s.log, q)
    requires forall kind, c | kind == All || kind == CountedOnly :: ChargeOf(q, kind, c) == ChargeOf(s.requests[r], kind, c)
    ensures Inv(s.(requests := s.requests[r := q]))
  {
    var requests := s.requests[r := q];
    forall c ensures AccountOk(s.log, requests, c) {
      assert AccountOk(s.log, s.requests, c);
      TotalUpdated(s.requests, r, q, All, c);
      TotalUpdated(s.requests, r, q, CountedOnly, c);
    }
  }

  /** What a request was charged and counted does not depend on its client. */
  lemma SameCharges(q: Request, q': Request)
    requires q'.winner == q.winner && q'.server == q.server
    ensures forall kind, c | kind == All || kind == CountedOnly :: ChargeOf(q', kind, c) == ChargeOf(q, kind, c)
  {
  }

  lemma PacedBid(bid: real, spendRate: real, targetRate: real)
    requires bid > 0.0
    ensures 0.0 < bid * Pacing.Multiplier(spendRate, targetRate) <= bid
  {
    var m := Pacing.Multiplier(spendRate, targetRate);
    assert m == 0.3 || m == 0.7 || m == 1.0;
  }

  lemma CheckedIsOk(s: State, q: Request, a: Action)
    requires StoreOk(s) && a.Check? && CanCheck(q) && q.scores[|q.checks|].effectiveBid > 0.0
    ensures CheckOk(s.log, AfterCheck(s, q, a).checks[|q.checks|], q.scores[|q.checks|])
  {
    var score := q.scores[|q.checks|];
    var k := AfterCheck(s, q, a).checks[|q.checks|];
    assert s.log[..|s.log|] == s.log;
    assert Balance(s.log, score.campaignId) == Held(s.daily, score.campaignId);
    PacedBid(score.effectiveBid, a.spendRate, a.targetRate);
    Pacing.MultiplierInBand(a.spendRate, a.targetRate);
    if k.candidate.budgetOk {
      var m := Pacing.Multiplier(a.spendRate, a.targetRate);
      assert k.candidate.effectiveBid == k.candidate.rawBid * m && Pacing.InBand(m, a.spendRate, a.targetRate);
    }
  }

  lemma CheckKeepsInv(s: State, a: Action)
    requires Inv(s) && a.Check?
    ensures Inv(Next(s, a))
  {
    if a.r < |s.requests| && CanCheck(s.requests[a.r]) {
      var q := s.requests[a.r];
      var score := q.scores[|q.checks|];
      var q' := AfterCheck(s, q, a);
      CheckedIsOk(s, q, a);
      LocalStepKeepsInv(s, a.r, q');
    }
  }

  lemma ClearingKeepsInv(s: State, a: Action)
    requires Inv(s) && a.Clearing?
    ensures Inv(Next(s, a))
  {
    if a.r < |s.requests| && CanClear(s.requests[a.r], a.ranking) {
      var q := s.requests[a.r];
      ClearingKeepsRequest(s.log, q, a.ranking);
      LocalStepKeepsInv(s, a.r, AfterClearing(q, a.ranking));
    }
  }

  lemma ClearingKeepsRequest(log: seq<Event>, q: Request, ranking: seq<BidCandidate>)
    requires RequestOk(log, q) && CanClear(q, ranking)
    ensures RequestOk(log, AfterClearing(q, ranking)) && !WasCharged(q) && !WasCharged(AfterClearing(q, ranking))
  {
    hide CheckOk, Eligible;
    assert Outcome(Candidates(q.checks), q.auctionType, q.floor, Clear(ranking, q.auctionType, q.floor));
  }

  lemma ScriptKeepsInv(s: State, r: nat)
    requires Inv(s) && r < |s.requests| && s.requests[r].server.Called? && s.requests[r].winner.Some?
    ensures Inv(AfterScript(s, r))
  {
    var q := s.requests[r];
    var c, amount := q.winner.value.campaignId, Cost(q.winner.value.clearingPrice);
    var s' := AfterScript(s, r);
    hide RequestOk, Solvent, AccountOk;
    if BudgetStore.Deducted(s.daily, c, amount, s.now).1 {
      var s1 := s;
      if !Redis.Exists(s.daily, c, s.now) {
        var e := Opened(c, 0.0, None);
        s1 := s.(daily := s.daily[c := Redis.Stored(0.0, None)], log := s.log + [e]);
        forall d ensures Balance(s1.log, d) == Held(s1.daily, d) {
          Snoc(s.log, e, d);
        }
        EventKeepsInv(s, s1, e);
      } else {
        assert s.log + [] == s.log;
      }
      ChargeKeepsInv(s1, s', r);
    } else {
      RefusalKeepsInv(s, r);
    }
  }

  lemma RefusalKeepsInv(s: State, r: nat)
    requires Inv(s) && r < |s.requests| && s.requests[r].server.Called? && s.requests[r].winner.Some?
    ensures Inv(s.(requests := s.requests[r := s.requests[r].(server := Refused)]))
  {
    hide CheckOk, Outcome, Candidates;
    LocalStepKeepsInv(s, r, s.requests[r].(server := Refused));
  }

  lemma ChargeKeepsInv(s: State, s': State, r: nat)
    requires Inv(s) && r < |s.requests| && s.requests[r].server.Called? && s.requests[r].winner.Some?
    requires var c, amount := s.requests[r].winner.value.campaignId, Cost(s.requests[r].winner.value.clearingPrice);
             && c in s.daily && s.daily[c].value >= amount
             && s' == s.(daily := s.daily[c := s.daily[c].(value := s.daily[c].value - amount)],
                         requests := s.requests[r := s.requests[r].(server := Charged)],
                         log := s.log + [Deducted(c, amount)])
    ensures Inv(s')
  {
    var q := s.requests[r];
    var e := Deducted(q.winner.value.campaignId, Cost(q.winner.value.clearingPrice));
    assert Balance(s.log, e.campaign) == Held(s.daily, e.campaign);
    forall d ensures Balance(s'.log, d) == Held(s'.daily, d) {
      Snoc(s.log, e, d);
    }
    SolventSnoc(s.log, e);
    forall d ensures AccountOk(s'.log, s'.requests, d) {
      assert AccountOk(s.log, s.requests, d);
      ChargeBooked(s.log, s.requests, r, d);
    }
    RequestsGrow(s, [e]);
  }

  lemma ChargeBooked(log: seq<Event>, qs: seq<Request>, r: nat, c: string)
    requires r < |qs| && qs[r].server.Called? && qs[r].winner.Some? && AccountOk(log, qs, c)
    ensures var w := qs[r].winner.value;
            AccountOk(log + [Deducted(w.campaignId, Cost(w.clearingPrice))], qs[r := qs[r].(server := Charged)], c)
  {
    Snoc(log, Deducted(qs[r].winner.value.campaignId, Cost(qs[r].winner.value.clearingPrice)), c);
    TotalUpdated(qs, r, qs[r].(server := Charged), All, c);
    TotalUpdated(qs, r, qs[r].(server := Charged), CountedOnly, c);
  }

  lemma CountBooked(log: seq<Event>, qs: seq<Request>, r: nat, c: string)
    requires r < |qs| && qs[r].server.Charged? && qs[r].winner.Some? && AccountOk(log, qs, c)
    ensures var w := qs[r].winner.value;
            AccountOk(log + [Counted(w.campaignId, Cost(w.clearingPrice))], qs[r := qs[r].(server := Answered(true))], c)
  {
    Snoc(log, Counted(qs[r].winner.value.campaignId, Cost(qs[r].winner.value.clearingPrice)), c);
    TotalUpdated(qs, r, qs[r].(server := Answered(true)), All, c);
    TotalUpdated(qs, r, qs[r].(server := Answered(true)), CountedOnly, c);
  }

  lemma CountKeepsInv(s: State, r: nat, fails: bool)
    requires Inv(s) && r < |s.requests| && s.requests[r].server.Charged? && s.requests[r].winner.Some?
    ensures Inv(AfterCount(s, r, fails))
  {
    var q := s.requests[r];
    var q' := q.(server := Answered(!fails));
    if fails {
      LocalStepKeepsInv(s, r, q');
    } else {
      var s' := AfterCount(s, r, fails);
      var e := Counted(q.winner.value.campaignId, Cost(q.winner.value.clearingPrice));
      forall d ensures Balance(s'.log, d) == Balance(s.log, d) && AccountOk(s'.log, s'.requests, d) {
        Snoc(s.log, e, d);
        assert AccountOk(s.log, s.requests, d);
        CountBooked(s.log, s.requests, r, d);
      }
      assert s.log[..|s.log|] == s.log;
      SolventSnoc(s.log, e);
      RequestsGrow(s, [e]);
    }
  }

  lemma GiveUpKeepsInv(s: State, r: nat)
    requires Inv(s)
    ensures Inv(Next(s, GiveUp(r)))
  {
    if r < |s.requests| && s.requests[r].client.Deducting? {
      LocalStepKeepsInv(s, r, s.requests[r].(client := NoBid));
    }
  }

  lemma ScriptStepKeepsInv(s: State, r: nat, fails: bool)
    requires Inv(s)
    ensures Inv(Next(s, Script(r, fails)))
  {
    if r < |s.requests| && s.requests[r].server.Called? && s.requests[r].winner.Some? {
      if fails {
        RefusalKeepsInv(s, r);
      } else {
        ScriptKeepsInv(s, r);
      }
    }
  }

  lemma ReplyKeepsRequest(log: seq<Event>, q: Request)
    requires RequestOk(log, q) && q.client.Deducting?
    ensures var q' := AfterReply(q); RequestOk(log, q') && q'.winner == q.winner && q'.server == q.server
  {
    hide CheckOk, Outcome, Candidates;
  }

  lemma ReplyKeepsInv(s: State, r: nat)
    requires Inv(s)
    ensures Inv(Next(s, Reply(r)))
  {
    if r < |s.requests| && s.requests[r].client.Deducting? {
      hide RequestOk, AfterReply;
      ReplyKeepsRequest(s.log, s.requests[r]);
      SameCharges(s.requests[r], AfterReply(s.requests[r]));
      LocalStepKeepsInv(s, r, AfterReply(s.requests[r]));
    }
  }

  lemma StepKeepsInv(s: State, a: Action)
    requires Inv(s) && Sound(a)
    ensures Inv(Next(s, a))
  {
    match a {
      case Tick(d) =>
      case SyncExists(c, budget) =>
      case SyncSetNX(c, budget) => SetNXKeepsInv(s, c, budget);
      case Delete(c) => DeleteKeepsInv(s, c);
      case Begin(_, _, _, _, _, _, _) => BeginKeepsInv(s, a);
      case Check(_, _, _, _, _) => CheckKeepsInv(s, a);
      case Clearing(_, _) => ClearingKeepsInv(s, a);
      case GiveUp(r) => GiveUpKeepsInv(s, r);
      case Script(r, fails) => ScriptStepKeepsInv(s, r, fails);
      case Count(r, fails) =>
        if r < |s.requests| && s.requests[r].server.Charged? && s.requests[r].winner.Some? {
          CountKeepsInv(s, r, fails);
        }
      case Reply(r) => ReplyKeepsInv(s, r);
    }
  }

  lemma {:induction false} RunKeepsInv(acts: seq<Action>)
    requires SoundRun(acts)
    ensures Inv(Run(acts))
  {
    if acts != [] {
      var n := |acts| - 1;
      RunKeepsInv(acts[..n]);
      StepKeepsInv(Run(acts[..n]), acts[n]);
    }
  }
}
