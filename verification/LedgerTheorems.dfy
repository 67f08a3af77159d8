/** What holds in every run of the concurrent ledger. */
module LedgerTheorems {
  import opened Wrappers
  import opened Models
  import opened Auction
  import opened BudgetStore
  import opened Ledger
  import Redis
  import Pacing
  import Scoring

  // ----- No overspend -----

  /** The key that history entry i opened is still there at time now. */
  predicate OpenEpoch(log: seq<Event>, c: string, i: int, now: int) {
    Epoch(log, c, i, |log|) && Redis.Stored(log[i].budget, log[i].expiresAt).Live(now)
  }

  /** In every run: a campaign has a budget key exactly while an epoch of its is open; the key
      holds the opening budget minus every deduction since; and in every epoch, open or past,
      and at every moment of it, the deductions stay within the opening budget. */
  lemma NoOverspend(acts: seq<Action>, c: string)
    requires SoundRun(acts)
    ensures var s := Run(acts);
            && (Redis.Exists(s.daily, c, s.now) <==> exists i :: OpenEpoch(s.log, c, i, s.now))
            && (forall i | OpenEpoch(s.log, c, i, s.now) ::
                  c in s.daily && s.daily[c].value == s.log[i].budget - Spent(s.log[i + 1..], c))
            && (forall i, j | Epoch(s.log, c, i, j) :: Spent(s.log[i + 1..j], c) <= s.log[i].budget)
  {
    RunKeepsInv(acts);
    var s := Run(acts);
    var log := s.log;
    assert log[..|log|] == log;
    assert Balance(log, c) == Held(s.daily, c);
    if Redis.Exists(s.daily, c, s.now) {
      var i := BalanceHasEpoch(log, c);
      EpochBalance(log, c, i, |log|);
      assert OpenEpoch(log, c, i, s.now);
    }
    forall i | OpenEpoch(log, c, i, s.now)
      ensures Redis.Exists(s.daily, c, s.now) && s.daily[c].value == log[i].budget - Spent(log[i + 1..], c)
    {
      EpochBalance(log, c, i, |log|);
      assert log[i + 1..|log|] == log[i + 1..];
    }
    forall i, j | Epoch(log, c, i, j) ensures Spent(log[i + 1..j], c) <= log[i].budget {
      EpochBalance(log, c, i, j);
    }
  }

  /** A step opens a key with the budget of a consumer under way, or with nothing. */
  lemma StepAnnounces(s: State, a: Action)
    ensures forall p | p in Next(s, a).syncing :: p in s.syncing || a == SyncExists(p.0, p.1)
    ensures forall e | e in Next(s, a).log && e.Opened? && e.budget != 0.0 :: e in s.log || (e.campaign, e.budget) in s.syncing
  {
    hide BudgetStore.Deducted, AfterBegin, AfterCheck, AfterClearing, CanClear, Cost;
  }

  /** Every positive opening budget was announced for that very campaign. */
  lemma {:induction false} BudgetsAreAnnounced(acts: seq<Action>)
    ensures forall p | p in Run(acts).syncing :: SyncExists(p.0, p.1) in acts
    ensures forall e | e in Run(acts).log && e.Opened? && e.budget != 0.0 :: SyncExists(e.campaign, e.budget) in acts
  {
    if acts != [] {
      var n := |acts| - 1;
      BudgetsAreAnnounced(acts[..n]);
      assert acts == acts[..n] + [acts[n]];
      StepAnnounces(Run(acts[..n]), acts[n]);
    }
  }

  /** Consumers that see an event again leave every live key as it is. */
  lemma {:induction false} ResyncKeepsLiveKeys(s: State, acts: seq<Action>, c: string)
    requires forall i | 0 <= i < |acts| :: acts[i].SyncExists? || acts[i].SyncSetNX?
    requires Redis.Exists(s.daily, c, s.now)
    ensures var s' := RunFrom(s, acts); s'.now == s.now && c in s'.daily && s'.daily[c] == s.daily[c]
  {
    if acts != [] {
      ResyncKeepsLiveKeys(s, acts[..|acts| - 1], c);
    }
  }

  // ----- Conservation -----

  lemma {:induction false} KindsPartition(qs: seq<Request>, c: string)
    requires forall r | 0 <= r < |qs| && qs[r].client.Served? :: WasCharged(qs[r])
    ensures Total(qs, All, c) == Total(qs, ServedOnly, c) + Total(qs, Unserved, c)
    ensures Total(qs, All, c) == Total(qs, CountedOnly, c) + Total(qs, Uncounted, c)
    ensures (forall r | 0 <= r < |qs| :: !InKind(qs[r], Unserved)) ==> Total(qs, Unserved, c) == 0.0
  {
    if qs != [] {
      KindsPartition(qs[..|qs| - 1], c);
    }
  }

  lemma {:induction false} ChargesNonNegative(log: seq<Event>, qs: seq<Request>, kind: Kind, c: string)
    requires forall r | 0 <= r < |qs| :: RequestOk(log, qs[r]) && qs[r].floor >= 0.0
    ensures Total(qs, kind, c) >= 0.0
  {
    if qs != [] {
      var n := |qs| - 1;
      ChargesNonNegative(log, qs[..n], kind, c);
      if qs[n].winner.Some? {
        PriceBounds(Candidates(qs[n].checks), qs[n].auctionType, qs[n].floor, qs[n].winner);
      }
    }
  }

  /** In every run, for every campaign: what was deducted is what was served plus what was
      charged but not (or not yet) served; it is also what the hourly buckets counted plus
      what they missed (or have not counted yet). */
  lemma Conservation(acts: seq<Action>, c: string)
    requires SoundRun(acts)
    ensures var s := Run(acts);
            && Spent(s.log, c) == Total(s.requests, ServedOnly, c) + Total(s.requests, Unserved, c)
            && Spent(s.log, c) == CountedTotal(s.log, c) + Total(s.requests, Uncounted, c)
  {
    RunKeepsInv(acts);
    var s := Run(acts);
    assert AccountOk(s.log, s.requests, c);
    forall r | 0 <= r < |s.requests| && s.requests[r].client.Served? ensures WasCharged(s.requests[r]) {
      assert RequestOk(s.log, s.requests[r]);
    }
    KindsPartition(s.requests, c);
  }

  /** With non-negative floors the served bids never cost more than was deducted, and they
      cost exactly that when every deduction has been answered to a waiting client. */
  lemma ServedWithinDeducted(acts: seq<Action>, c: string)
    requires SoundRun(acts)
    requires forall r | 0 <= r < |Run(acts).requests| :: Run(acts).requests[r].floor >= 0.0
    ensures var s := Run(acts);
            && Total(s.requests, ServedOnly, c) <= Spent(s.log, c)
            && ((forall r | 0 <= r < |s.requests| :: !InKind(s.requests[r], Unserved)) ==>
                  Total(s.requests, ServedOnly, c) == Spent(s.log, c))
  {
    RunKeepsInv(acts);
    var s := Run(acts);
    Conservation(acts, c);
    ChargesNonNegative(s.log, s.requests, Unserved, c);
    KindsPartition(s.requests, c);
  }

  // ----- Served bids -----

  /** In every run a budget check approves its candidate if and only if it did not fail, the cap
      was not reached, and the history up to then left a live key that holds the raw bid. An
      approved candidate bids its raw bid times the multiplier its rates call for, a refused one
      its raw bid. */
  lemma ChecksFollowHistory(acts: seq<Action>, r: nat, i: nat)
    requires SoundRun(acts) && r < |Run(acts).requests| && i < |Run(acts).requests[r].checks|
    ensures var s := Run(acts);
            var k := s.requests[r].checks[i];
            var c := k.candidate;
            && k.mark <= |s.log|
            && (c.budgetOk <==> !k.fails && !k.capped && Covers(s.log[..k.mark], c.campaignId, k.at, c.rawBid))
            && (if c.budgetOk then Paces(c, k.spendRate, k.targetRate) else c.effectiveBid == c.rawBid)
  {
    RunKeepsInv(acts);
    var s := Run(acts);
    var q := s.requests[r];
    assert RequestOk(s.log, q);
    assert CheckOk(s.log, q.checks[i], q.scores[i]);
  }

  /** The winner of a request is one of its checked candidates, apart from the price. */
  lemma WinnerWasChecked(log: seq<Event>, q: Request) returns (i: nat)
    requires RequestOk(log, q) && q.winner.Some?
    ensures i < |q.checks| && q.checks[i].candidate == q.winner.value.(clearingPrice := 0.0)
    ensures q.checks[i].candidate.budgetOk && !q.checks[i].fails && !q.checks[i].capped
    ensures Paces(q.winner.value, q.checks[i].spendRate, q.checks[i].targetRate)
    ensures q.floor <= q.winner.value.clearingPrice <= q.winner.value.effectiveBid <= q.winner.value.rawBid
  {
    hide Covers, Paces, Outcome, ScoresOk;
    var cs := Candidates(q.checks);
    var w := q.winner.value;
    assert forall k | 0 <= k < |cs| :: cs[k] == q.checks[k].candidate && CheckOk(log, q.checks[k], q.scores[k]);
    PriceBounds(cs, q.auctionType, q.floor, q.winner);
    var c :| c in cs && w == c.(clearingPrice := w.clearingPrice);
    i :| 0 <= i < |cs| && cs[i] == c;
    PriceIsApart(c, w, q.checks[i].spendRate, q.checks[i].targetRate);
  }

  lemma PriceIsApart(c: BidCandidate, w: BidCandidate, spendRate: real, targetRate: real)
    requires Paces(c, spendRate, targetRate) && w == c.(clearingPrice := w.clearingPrice)
    ensures Paces(w, spendRate, targetRate)
  {
  }

  /** Every served bid: floor <= price <= paced bid <= raw bid, raw bid within the ceiling
      when one is set, and campaign and ad among those the request read. */
  lemma ServedBids(acts: seq<Action>, r: nat)
    requires SoundRun(acts) && r < |Run(acts).requests| && Run(acts).requests[r].client.Served?
    ensures var q := Run(acts).requests[r];
            && q.winner.Some?
            && var w := q.winner.value;
            && q.floor <= w.clearingPrice <= w.effectiveBid <= w.rawBid
            && w.campaignId in q.active && w.campaignId in q.cache && w.adId in q.cache[w.campaignId].adIds
            && (q.cache[w.campaignId].bidCeiling > 0.0 ==> w.rawBid <= q.cache[w.campaignId].bidCeiling)
            && WasCharged(q)
            && exists i :: 0 <= i < |q.checks| && q.checks[i].candidate == w.(clearingPrice := 0.0)
                           && Paces(w, q.checks[i].spendRate, q.checks[i].targetRate)
  {
    RunKeepsInv(acts);
    var s := Run(acts);
    var q := s.requests[r];
    assert RequestOk(s.log, q);
    var i := WinnerWasChecked(s.log, q);
    assert CheckOk(s.log, q.checks[i], q.scores[i]);
  }

  lemma RefusedIsShort(s: State, r: nat)
    requires r < |s.requests| && s.requests[r].winner.Some? && s.requests[r].server.Called?
    requires Next(s, Script(r, false)).requests[r].server.Refused?
    ensures var w := s.requests[r].winner.value; Redis.Amount(s.daily, w.campaignId, s.now) < Cost(w.clearingPrice)
  {
  }

  /** A winner whose key stayed in place since its check can be refused only if, in between,
      other requests deducted more than 99.9 percent of its raw bid. */
  lemma RefusalNeedsCompetition(acts: seq<Action>, r: nat, i: nat)
    requires SoundRun(acts) && r < |Run(acts).requests|
    requires var q := Run(acts).requests[r];
             && q.winner.Some? && q.server.Called?
             && i < |q.checks| && q.checks[i].candidate == q.winner.value.(clearingPrice := 0.0)
    requires var s := Run(acts);
             var q := s.requests[r];
             var c := q.winner.value.campaignId;
             && Redis.Exists(s.daily, c, s.now)
             && q.checks[i].mark <= |s.log|
             && (forall k | q.checks[i].mark <= k < |s.log| :: !Boundary(s.log[k], c))
    requires Next(Run(acts), Script(r, false)).requests[r].server.Refused?
    ensures var s := Run(acts);
            var q := s.requests[r];
            Spent(s.log[q.checks[i].mark..], q.winner.value.campaignId) > 0.999 * q.winner.value.rawBid
  {
    hide Run, SoundRun, Next, Ledger.Spent, Balance;
    RunKeepsInv(acts);
    var s := Run(acts);
    RefusedIsShort(s, r);
    var q := s.requests[r];
    var c, m := q.winner.value.campaignId, q.checks[i].mark;
    assert RequestOk(s.log, q);
    var j := WinnerWasChecked(s.log, q);
    assert CheckOk(s.log, q.checks[i], q.scores[i]);
    BalanceFalls(s.log, c, m, |s.log|);
    assert s.log[..|s.log|] == s.log && s.log[m..|s.log|] == s.log[m..];
    assert Balance(s.log, c) == Held(s.daily, c);
  }

  // ----- No bid, but charged -----

  /** The client of request r stops waiting for its deduct call. */
  predicate GivesUp(s: State, a: Action, r: nat) {
    a == GiveUp(r) && r < |s.requests| && s.requests[r].client.Deducting?
  }

  /** The script of request r runs and takes the price. */
  predicate Deducts(s: State, a: Action, r: nat) {
    && a == Script(r, false) && r < |s.requests| && s.requests[r].server.Called? && s.requests[r].winner.Some?
    && var w := s.requests[r].winner.value;
    BudgetStore.Deducted(s.daily, w.campaignId, Cost(w.clearingPrice), s.now).1
  }

  ghost predicate GaveUp(acts: seq<Action>, r: nat) {
    acts != [] && (GaveUp(acts[..|acts| - 1], r) || GivesUp(Run(acts[..|acts| - 1]), acts[|acts| - 1], r))
  }

  ghost predicate HasDeducted(acts: seq<Action>, r: nat) {
    acts != [] && (HasDeducted(acts[..|acts| - 1], r) || Deducts(Run(acts[..|acts| - 1]), acts[|acts| - 1], r))
  }

  /** How a request stands, given whether its client gave up and its script deducted. */
  predicate Stands(q: Request, gaveUp: bool, deducted: bool) {
    && (WasCharged(q) <==> deducted)
    && (gaveUp ==> q.client.NoBid?)
    && (q.client.NoBid? && q.winner.Some? && !q.server.Refused? ==> gaveUp)
    && (q.winner.None? ==> q.server.Idle? && !q.client.Deducting?)
    && (q.client.Checking? ==> q.winner.None?)
    && (q.winner.Some? ==> !q.server.Idle?)
  }

  predicate AllStand(s: State, r: nat, gaveUp: bool, deducted: bool) {
    if r < |s.requests| then Stands(s.requests[r], gaveUp, deducted) else !gaveUp && !deducted
  }

  lemma StandsStep(s: State, a: Action, r: nat, gaveUp: bool, deducted: bool)
    requires AllStand(s, r, gaveUp, deducted)
    ensures AllStand(Next(s, a), r, gaveUp || GivesUp(s, a, r), deducted || Deducts(s, a, r))
  {
    hide Clear, Ranking, Candidates, BudgetStore.Deducted, CandidateOf, Scoring.ScoresOf, Cost;
  }

  lemma {:induction false} RunStands(acts: seq<Action>, r: nat)
    ensures AllStand(Run(acts), r, GaveUp(acts, r), HasDeducted(acts, r))
  {
    if acts != [] {
      hide Next;
      var n := |acts| - 1;
      RunStands(acts[..n], r);
      StandsStep(Run(acts[..n]), acts[n], r, GaveUp(acts[..n], r), HasDeducted(acts[..n], r));
    }
  }

  /** No bid does not mean no charge. In every run, a request ended without a bid and yet was
      charged if and only if its client gave up while its script, before that or after, took
      the price. */
  lemma NoBidButCharged(acts: seq<Action>, r: nat)
    requires r < |Run(acts).requests|
    ensures var q := Run(acts).requests[r];
            q.client.NoBid? && WasCharged(q) <==> GaveUp(acts, r) && HasDeducted(acts, r)
  {
    RunStands(acts, r);
  }

  // A run in which this happens: one campaign, one ad, one request.

  const CACHED := CampaignCache("c", STATUS_ACTIVE, 10.0, 0.0, 0.0, 0.002, "cpm",
                                Targeting(0, 0, [], [], [], [], [], []), ["a"], 0, 0)
  const SCORE := Scoring.AdScore("c", "a", 0.5, 0.5, 1.0, 0.5)
  const CANDIDATE := BidCandidate("c", "a", 1.0, 1.0, 0.0, 0.5, true)
  const REQUEST := Request(0.5, SECOND_PRICE, ["c"], map["c" := CACHED], [SCORE], [], None, Checking, Idle)

  function Setup(): seq<Action> {
    [SyncExists("c", 10.0), SyncSetNX("c", 10.0),
     Begin(0.5, SECOND_PRICE, ["c"], map["c" := CACHED], (_, _) => 0.5, (_, _) => 0.5, false)]
  }

  lemma After(acts: seq<Action>, a: Action) returns (s: State)
    ensures s == Run(acts + [a]) == Next(Run(acts), a)
  {
    assert (acts + [a])[..|acts|] == acts;
    s := Run(acts + [a]);
  }

  lemma Scored()
    ensures Scoring.ScoresOf(map["c" := CACHED], ["c"], (_, _) => 0.5, (_, _) => 0.5) == [SCORE]
  {
    var p: Scoring.Predictor := (_, _) => 0.5;
    assert ["a"][..0] == [] && ["c"][..0] == [];
    assert Scoring.ScoresOfAds(CACHED, "c", [], p, p) == [];
    assert Scoring.ScoresOfAds(CACHED, "c", ["a"], p, p) == [] + [Scoring.ScoreOf(CACHED, "c", "a", p, p)];
  }

  lemma SetUp() returns (s: State)
    ensures s == Run(Setup())
    ensures s.now == 0 && s.daily == map["c" := Redis.Stored(10.0, Some(DAILY_TTL))] && s.requests == [REQUEST]
  {
    var s1 := After([], SyncExists("c", 10.0));
    var s2 := After([] + [SyncExists("c", 10.0)], SyncSetNX("c", 10.0));
    Scored();
    var acts := [] + [SyncExists("c", 10.0)] + [SyncSetNX("c", 10.0)];
    s := After(acts, Setup()[2]);
    assert acts + [Setup()[2]] == Setup();
  }

  lemma CheckedOnce(s: State)
    requires s.now == 0 && s.daily == map["c" := Redis.Stored(10.0, Some(DAILY_TTL))]
    ensures AfterCheck(s, REQUEST, Check(0, false, false, 0.0, 0.0))
            == REQUEST.(checks := [Checked(CANDIDATE, |s.log|, 0, false, false, 0.0, 0.0)])
  {
    var k := Checked(CANDIDATE, |s.log|, 0, false, false, 0.0, 0.0);
    assert REQUEST.checks + [k] == [k];
  }

  lemma ClearedOnce(mark: nat) returns (q: Request)
    ensures var checked := REQUEST.(checks := [Checked(CANDIDATE, mark, 0, false, false, 0.0, 0.0)]);
            CanClear(checked, [CANDIDATE]) && q == AfterClearing(checked, [CANDIDATE])
    ensures q.client.Deducting? && q.server.Called? && q.winner == Some(CANDIDATE.(clearingPrice := 0.5))
  {
    assert Candidates([Checked(CANDIDATE, mark, 0, false, false, 0.0, 0.0)]) == [CANDIDATE] && [CANDIDATE][..0] == [];
    assert Eligible([CANDIDATE], 0.5) == [] + [CANDIDATE];
    q := AfterClearing(REQUEST.(checks := [Checked(CANDIDATE, mark, 0, false, false, 0.0, 0.0)]), [CANDIDATE]);
  }

  /** The request checks its candidate, which wins at the floor. */
  lemma Won() returns (acts: seq<Action>, q: Request)
    ensures var s := Run(acts);
            s.now == 0 && s.daily == map["c" := Redis.Stored(10.0, Some(DAILY_TTL))] && s.requests == [q]
    ensures q.client.Deducting? && q.server.Called? && q.winner == Some(CANDIDATE.(clearingPrice := 0.5))
  {
    hide AfterCheck, AfterClearing, Candidates, Ranking, Setup;
    var s0 := SetUp();
    var s1 := After(Setup(), Check(0, false, false, 0.0, 0.0));
    CheckedOnce(s0);
    q := ClearedOnce(|s0.log|);
    acts := Setup() + [Check(0, false, false, 0.0, 0.0)];
    var s2 := After(acts, Clearing(0, [CANDIDATE]));
    acts := acts + [Clearing(0, [CANDIDATE])];
  }

  /** It happens: the client stops waiting, and then the price is taken all the same. */
  lemma NoBidCanBeCharged() returns (acts: seq<Action>)
    ensures var s := Run(acts);
            && |s.requests| == 1 && s.requests[0].client.NoBid? && WasCharged(s.requests[0])
            && "c" in s.daily && s.daily["c"].value == 10.0 - 0.0005
  {
    var q;
    acts, q := Won();
    var s1 := After(acts, GiveUp(0));
    assert s1.requests == [q.(client := Ledger.NoBid)];
    acts := acts + [GiveUp(0)];
    var s2 := After(acts, Script(0, false));
    acts := acts + [Script(0, false)];
  }
}
