/** The bidding service (internal/bidding/service.go): one bid request from end to end. */
module Bidding {
  import opened Wrappers
  import opened Models
  import opened Auction
  import opened BudgetStore
  import Redis
  import Pacing
  import Scoring
  import Budget
  import Ledger
  import Limiter

  // No-bid reasons (pkg/models/openrtb.go)
  const NBR_TECHNICAL_ERROR := 1
  const NBR_NO_AD_FOUND := 7
  const NBR_BUDGET_CONSTRAINTS := 9

  datatype Imp = Imp(id: string, bidFloor: real)

  datatype BidRequest = BidRequest(id: string, imps: seq<Imp>, userId: string)

  datatype Response =
    | NoBid(id: string, nbr: int)
    | Bid(id: string, impId: string, price: real, adId: string, campaignId: string)

  /** Which remote calls fail. A lost reply is a deduct call whose answer does not arrive,
      whatever the budget service did. */
  datatype Faults = Faults(
    redis: bool, scoring: bool, check: nat -> bool, inCheck: nat -> Budget.CheckFaults,
    deduct: DeductFaults, replyLost: bool)

  function ApplyToActive(active: set<string>, e: CampaignEvent): set<string> {
    if !e.eventType.CampaignDeleted? && e.campaign.Some? && e.campaign.value.status == STATUS_ACTIVE
    then active + {e.campaignId}
    else active - {e.campaignId}
  }

  /** SMEMBERS: the members, in an order of Redis's choosing. */
  method SMembers(members: set<string>) returns (ids: seq<string>)
    ensures forall id :: id in ids <==> id in members
    ensures |ids| == |members|
  {
    ids := [];
    var rest := members;
    while rest != {}
      invariant rest <= members
      invariant forall id :: id in ids <==> id in members - rest
      invariant |ids| + |rest| == |members|
      decreases |rest|
    {
      var id :| id in rest;
      ids := ids + [id];
      rest := rest - {id};
    }
  }

  class BiddingService {
    const auctionType: int
    const scoring: Scoring.ScoringService
    const budget: Budget.BudgetService
    var activeCampaigns: set<string>  // bidding:active_campaigns

    constructor (auctionType: int, scoring: Scoring.ScoringService, budget: Budget.BudgetService)
      ensures this.auctionType == auctionType && this.scoring == scoring && this.budget == budget
      ensures activeCampaigns == {}
    {
      this.auctionType := auctionType;
      this.scoring := scoring;
      this.budget := budget;
      activeCampaigns := {};
    }

    method SyncCampaignIDs(event: CampaignEvent)
      modifies this`activeCampaigns
      ensures activeCampaigns == ApplyToActive(old(activeCampaigns), event)
      ensures event.campaignId in activeCampaigns <==>
              !event.eventType.CampaignDeleted? && event.campaign.Some? && event.campaign.value.status == "active"
      ensures forall id | id != event.campaignId :: id in activeCampaigns <==> id in old(activeCampaigns)
    {
      match event.eventType {
        case CampaignCreated | CampaignUpdated =>
          if event.campaign.Some? && event.campaign.value.status == STATUS_ACTIVE {
            activeCampaigns := activeCampaigns + {event.campaignId};
          } else {
            activeCampaigns := activeCampaigns - {event.campaignId};
          }
        case CampaignDeleted =>
          activeCampaigns := activeCampaigns - {event.campaignId};
      }
    }

    /** The active set in some order; nothing if it cannot be read. */
    method GetActiveCampaignIDs(fails: bool) returns (ids: seq<string>)
      ensures forall id :: id in ids <==> !fails && id in activeCampaigns
      ensures |ids| == if fails then 0 else |activeCampaigns|
      ensures ids == [] <==> fails || activeCampaigns == {}
    {
      if fails {
        return [];
      }
      ids := SMembers(activeCampaigns);
    }

    /** The state of the concurrent ledger in which a request that runs alone starts. */
    ghost function LedgerNow(): Ledger.State
      reads budget.db
    {
      Ledger.State(budget.db.now, budget.db.daily, {}, [], [])
    }

    /** The user's cap for the campaign is reached, and the check gets to see it. */
    ghost predicate Capped(userId: string, campaign: string, faults: Budget.CheckFaults)
      reads budget.db, budget.limiter
    {
      userId != "" && !faults.prune && !faults.count && budget.CapReached(campaign, userId)
    }

    /** The ledger step that begins this request: its own floor, the service's auction type, and
        what the scoring service knows; no campaign at all if the active set cannot be read. */
    ghost predicate Begins(a: Ledger.Action, req: BidRequest, ctr: Scoring.Predictor, cvr: Scoring.Predictor, faults: Faults)
      requires |req.imps| > 0
      reads this, scoring
    {
      && a.Begin? && a.floor == req.imps[0].bidFloor && a.auctionType == auctionType
      && (forall id :: id in a.active <==> !faults.redis && id in activeCampaigns)
      && |a.active| == (if faults.redis then 0 else |activeCampaigns|)
      && a.cache == scoring.cache && a.ctr == ctr && a.cvr == cvr && a.scoringFails == faults.scoring
    }

    /** For each score, whether the user's cap is reached and the check gets to see it. */
    ghost function Caps(userId: string, scores: seq<Scoring.AdScore>, faults: Faults): (caps: seq<bool>)
      reads budget.db, budget.limiter
    {
      seq(|scores|, i requires 0 <= i < |scores| reads budget.db, budget.limiter =>
        Capped(userId, scores[i].campaignId, faults.inCheck(i)))
    }

    /** Run alone, the request is one particular run of the concurrent ledger (the ghost result
        steps), with the same effect on the budget keys and the same answer.

        In its own terms: unless it has nothing to offer or scoring fails, every ad of the
        active, cached campaigns is checked, and winner is what an auction over the checked
        candidates may yield at the floor of the first impression. The price is charged exactly
        when there is a winner, the script runs and the key covers it. The answer is a bid
        exactly when, besides, the reply to the deduct call arrives. */
    method ProcessBidRequest(req: BidRequest, ctr: Scoring.Predictor, cvr: Scoring.Predictor, faults: Faults)
      returns (resp: Response, ghost steps: seq<Ledger.Action>, ghost checked: seq<BidCandidate>, ghost winner: Option<BidCandidate>)
      requires |req.imps| > 0 && budget.Valid()
      modifies budget.db`daily, budget.db`hourly, budget.limiter`keys
      ensures budget.Valid()
      ensures var s := Ledger.RunFrom(old(LedgerNow()), steps);
              && s.daily == budget.db.daily
              && Answers(req, resp, s)
      ensures steps != [] && Begins(steps[0], req, ctr, cvr, faults)
      ensures if faults.redis || activeCampaigns == {} || faults.scoring then checked == [] && winner.None?
              else
                && Outcome(checked, auctionType, req.imps[0].bidFloor, winner)
                && |checked| < |steps|
                && var scores := Scoring.ScoresOf(scoring.cache, steps[0].active, ctr, cvr);
                Checks(checked, steps[1..1 + |checked|], scores, faults, old(Caps(req.userId, scores, faults)),
                       old(budget.db.daily), old(budget.db.hourly), budget.db.now)
      ensures resp == if winner.Some? && !faults.replyLost
                         && Chargeable(old(budget.db.daily), winner.value, faults.deduct, budget.db.now)
                      then Bid(req.id, req.imps[0].id, winner.value.clearingPrice, winner.value.adId, winner.value.campaignId)
                      else if faults.redis || activeCampaigns == {} then NoBid(req.id, 7)
                      else if faults.scoring then NoBid(req.id, 1)
                      else NoBid(req.id, 9)
      ensures if winner.Some? && Chargeable(old(budget.db.daily), winner.value, faults.deduct, budget.db.now)
              then Charges(old(budget.db.daily), budget.db.daily, old(budget.db.hourly), budget.db.hourly,
                           winner.value, faults.deduct, budget.db.now)
              else budget.db.daily == old(budget.db.daily) && budget.db.hourly == old(budget.db.hourly)
    {
      ghost var s0 := LedgerNow();
      checked, winner := [], None;
      var floor := req.imps[0].bidFloor;
      var ids := GetActiveCampaignIDs(faults.redis);
      ghost var begin := Ledger.Begin(floor, auctionType, ids, scoring.cache, ctr, cvr, faults.scoring);
      steps := [begin];
      BeginTaken(s0, begin);
      BeginsWith(begin);
      hide Caps, Capped, Answers, Ledger.AfterBegin, Ledger.Next, Ledger.RunFrom, Clear, Ledger.Candidates,
        Scoring.ScoresOf, Checks, Charges, Chargeable, Outcome;
      if |ids| == 0 {
        resp := NoBid(req.id, NBR_NO_AD_FOUND);
        NothingOffered(req, s0, begin, NBR_NO_AD_FOUND);
      } else if faults.scoring {
        resp := NoBid(req.id, NBR_TECHNICAL_ERROR);
        NothingOffered(req, s0, begin, NBR_TECHNICAL_ERROR);
      } else {
        var scores := scoring.ScoreAds(ids, ctr, cvr);
        resp, steps, checked, winner := BidOnScores(req, scores, faults, s0, Ledger.AfterBegin(begin), steps);
      }
    }

    /** From the scores on: budget checks, auction, deduction and answer. */
    method BidOnScores(req: BidRequest, scores: seq<Scoring.AdScore>, faults: Faults,
                       ghost s0: Ledger.State, ghost q0: Ledger.Request, ghost before: seq<Ledger.Action>)
      returns (resp: Response, ghost steps: seq<Ledger.Action>, ghost checked: seq<BidCandidate>, ghost winner: Option<BidCandidate>)
      requires |req.imps| > 0 && budget.Valid() && s0 == LedgerNow()
      requires q0.client.Checking? && q0.checks == [] && q0.scores == scores && q0.winner.None?
      requires q0.auctionType == auctionType && q0.floor == req.imps[0].bidFloor
      requires Ledger.RunFrom(s0, before) == s0.(requests := [q0])
      modifies budget.db`daily, budget.db`hourly, budget.limiter`keys
      ensures budget.Valid()
      ensures Ledger.RunFrom(s0, steps).daily == budget.db.daily && Answers(req, resp, Ledger.RunFrom(s0, steps))
      ensures |before| + |checked| < |steps| && before == steps[..|before|]
      ensures Checks(checked, steps[|before|..|before| + |checked|], scores, faults, old(Caps(req.userId, scores, faults)),
                     old(budget.db.daily), old(budget.db.hourly), budget.db.now)
      ensures Outcome(checked, auctionType, req.imps[0].bidFloor, winner)
      ensures resp == if winner.Some? && !faults.replyLost
                         && Chargeable(old(budget.db.daily), winner.value, faults.deduct, budget.db.now)
                      then Bid(req.id, req.imps[0].id, winner.value.clearingPrice, winner.value.adId, winner.value.campaignId)
                      else NoBid(req.id, 9)
      ensures if winner.Some? && Chargeable(old(budget.db.daily), winner.value, faults.deduct, budget.db.now)
              then Charges(old(budget.db.daily), budget.db.daily, old(budget.db.hourly), budget.db.hourly,
                           winner.value, faults.deduct, budget.db.now)
              else budget.db.daily == old(budget.db.daily) && budget.db.hourly == old(budget.db.hourly)
    {
      hide Ledger.Next, Ledger.RunFrom, Ledger.Candidates, CheckIs, Charges, Chargeable, Outcome;
      var candidates;
      ghost var q, checks;
      candidates, q, checks := CheckCandidates(req.userId, scores, faults, s0, q0, before);
      var won;
      won, q, steps := Award(candidates, req.imps[0].bidFloor, s0, q, before + checks);
      checked, winner := candidates, won;
      assert before == steps[..|before|] && checks == steps[|before|..|before| + |checks|];
      if won.None? {
        return NoBid(req.id, NBR_BUDGET_CONSTRAINTS), steps, checked, winner;
      }
      ghost var awarded := steps;
      resp, steps := Settle(req, won.value, faults, s0, q, steps);
      assert steps[..|awarded|] == awarded;
      assert steps[..|before|] == awarded[..|before|];
      assert steps[|before|..|before| + |checks|] == awarded[|before|..|before| + |checks|];
    }

    /** Runs the auction over the checked candidates. */
    method Award(candidates: seq<BidCandidate>, floor: real,
                 ghost s0: Ledger.State, ghost q0: Ledger.Request, ghost before: seq<Ledger.Action>)
      returns (winner: Option<BidCandidate>, ghost q: Ledger.Request, ghost steps: seq<Ledger.Action>)
      requires q0.client.Checking? && |q0.checks| == |q0.scores| && q0.winner.None?
      requires candidates == Ledger.Candidates(q0.checks) && auctionType == q0.auctionType && floor == q0.floor
      requires Ledger.RunFrom(s0, before) == s0.(requests := [q0])
      ensures Outcome(candidates, auctionType, floor, winner)
      ensures q == q0.(winner := winner, client := q.client, server := q.server)
      ensures if winner.None? then q.client.NoBid? else q.client.Deducting? && q.server.Called?
      ensures before < steps && Ledger.RunFrom(s0, steps) == s0.(requests := [q])
    {
      hide Ledger.Next, Ledger.RunFrom, Clear, Ledger.Candidates;
      winner := RunAuction(candidates, auctionType, floor);
      ghost var ranking :| Ranking(ranking, candidates, floor) && winner == Clear(ranking, auctionType, floor);
      OneMore(s0, before, Ledger.Clearing(0, ranking));
      ClearingStep(s0.(requests := [q0]), ranking);
      q, steps := Ledger.AfterClearing(q0, ranking), before + [Ledger.Clearing(0, ranking)];
    }

    /** Checks the budget of every scored ad and paces the bids that pass. */
    method CheckCandidates(userId: string, scores: seq<Scoring.AdScore>, faults: Faults,
                           ghost s0: Ledger.State, ghost q0: Ledger.Request, ghost before: seq<Ledger.Action>)
      returns (candidates: seq<BidCandidate>, ghost q: Ledger.Request, ghost steps: seq<Ledger.Action>)
      requires budget.Valid() && s0 == LedgerNow()
      requires q0.client.Checking? && q0.checks == [] && q0.scores == scores
      requires Ledger.RunFrom(s0, before) == s0.(requests := [q0])
      modifies budget.limiter`keys
      ensures budget.Valid()
      ensures |candidates| == |steps| == |scores|
      ensures Checks(candidates, steps, scores, faults, old(Caps(userId, scores, faults)),
                     budget.db.daily, budget.db.hourly, budget.db.now)
      ensures q == q0.(checks := q.checks) && |q.checks| == |scores| && candidates == Ledger.Candidates(q.checks)
      ensures Ledger.RunFrom(s0, before + steps) == s0.(requests := [q])
    {
      hide Ledger.Next, Ledger.RunFrom, CheckIs, Checks;
      ghost var caps := Caps(userId, scores, faults);
      candidates := [];
      q, steps := q0, [];
      NothingChecked(faults, budget.db.daily, budget.db.hourly, budget.db.now);
      assert before + [] == before;
      var i := 0;
      while i < |scores|
        invariant 0 <= i <= |scores| && budget.Valid()
        invariant forall c, u :: budget.CapReached(c, u) == old(budget.CapReached(c, u))
        invariant |candidates| == |steps| == i
        invariant Checks(candidates, steps, scores[..i], faults, caps[..i], budget.db.daily, budget.db.hourly, budget.db.now)
        invariant q == q0.(checks := q.checks) && |q.checks| == i && candidates == Ledger.Candidates(q.checks)
        invariant Ledger.RunFrom(s0, before + steps) == s0.(requests := [q])
      {
        var candidate;
        ghost var check;
        candidate, check := CheckScore(userId, scores[i], faults.check(i), faults.inCheck(i), s0, q);
        OneMoreCheck(candidates, steps, scores, faults, caps, budget.db.daily, budget.db.hourly, budget.db.now, candidate, check);
        candidates := candidates + [candidate];
        OneMore(s0, before + steps, check);
        assert before + steps + [check] == before + (steps + [check]);
        steps := steps + [check];
        q := q.(checks := q.checks + [Ledger.CheckedNow(s0, check, candidate)]);
        i := i + 1;
      }
      assert scores[..i] == scores && caps[..i] == caps;
    }

    /** One round of the candidate loop. */
    method CheckScore(userId: string, score: Scoring.AdScore, checkFails: bool, faults: Budget.CheckFaults,
                      ghost s0: Ledger.State, ghost q: Ledger.Request)
      returns (candidate: BidCandidate, ghost check: Ledger.Action)
      requires budget.Valid() && s0 == LedgerNow()
      requires Ledger.CanCheck(q) && q.scores[|q.checks|] == score
      modifies budget.limiter`keys
      ensures budget.Valid()
      ensures forall c, u :: budget.CapReached(c, u) == old(budget.CapReached(c, u))
      ensures check.Check?
      ensures CheckIs(candidate, check, score, checkFails || faults.read, old(Capped(userId, score.campaignId, faults)),
                      budget.db.daily, budget.db.hourly, budget.db.now)
      ensures Ledger.Next(s0.(requests := [q]), check)
              == s0.(requests := [q.(checks := q.checks + [Ledger.CheckedNow(s0, check, candidate)])])
    {
      hide CheckIs, Ledger.Next, Ledger.CheckedNow, Pacing.ThreeBuckets, Pacing.MinutesLeft, Pacing.CampaignMultiplier, Limiter.Pruned;
      ghost var capped := Capped(userId, score.campaignId, faults);
      var allowed, reason, remaining, multiplier :=
        budget.CheckBudget(score.campaignId, userId, score.effectiveBid, faults);
      var budgetOk := !checkFails && allowed;
      var effectiveBid := score.effectiveBid;
      if budgetOk && multiplier > 0.0 {
        effectiveBid := effectiveBid * multiplier;
      }
      candidate := BidCandidate(score.campaignId, score.adId, score.effectiveBid, effectiveBid, 0.0,
                                score.predictedCtr, budgetOk);
      check := CheckAction(checkFails || faults.read, capped, score.campaignId, s0.daily, budget.db.hourly, budget.db.now);
      CheckTaken(s0, q, checkFails || faults.read, capped, budget.db.hourly, budgetOk, multiplier, candidate);
      CheckShown(score, checkFails || faults.read, capped, s0.daily, budget.db.hourly, budget.db.now, multiplier, candidate);
    }

    /** Deducts the clearing price from the winner's budget and answers. */
    method Settle(req: BidRequest, w: BidCandidate, faults: Faults,
                  ghost s0: Ledger.State, ghost q: Ledger.Request, ghost before: seq<Ledger.Action>)
      returns (resp: Response, ghost steps: seq<Ledger.Action>)
      requires |req.imps| > 0 && s0 == LedgerNow()
      requires q.winner == Some(w) && q.client.Deducting? && q.server.Called?
      requires Ledger.RunFrom(s0, before) == s0.(requests := [q])
      modifies budget.db`daily, budget.db`hourly
      ensures before <= steps
      ensures Ledger.RunFrom(s0, steps).daily == budget.db.daily && Answers(req, resp, Ledger.RunFrom(s0, steps))
      ensures resp == if !faults.replyLost && Chargeable(old(budget.db.daily), w, faults.deduct, budget.db.now)
                      then Bid(req.id, req.imps[0].id, w.clearingPrice, w.adId, w.campaignId) else NoBid(req.id, 9)
      ensures if Chargeable(old(budget.db.daily), w, faults.deduct, budget.db.now)
              then Charges(old(budget.db.daily), budget.db.daily, old(budget.db.hourly), budget.db.hourly,
                           w, faults.deduct, budget.db.now)
              else budget.db.daily == old(budget.db.daily) && budget.db.hourly == old(budget.db.hourly)
    {
      hide Ledger.Next, Ledger.RunFrom, RecordedUnder, Budget.CountsHour;
      var success, remaining := budget.DeductBudget(w.campaignId, w.clearingPrice / 1000.0, faults.deduct);
      steps := Settled(s0, q, before, success, faults.deduct, faults.replyLost);
      if faults.replyLost || !success {
        return NoBid(req.id, NBR_BUDGET_CONSTRAINTS), steps;
      }
      return Bid(req.id, req.imps[0].id, w.clearingPrice, w.adId, w.campaignId), steps;
    }
  }

  // ----- What the contracts speak of -----

  /** The answer to one score: its own campaign, ad and raw bid; approved if and only if the
      check did not fail, the cap is not reached and the key holds the raw bid; the raw bid
      paced by what the database shows if approved, as it is otherwise. The ledger step says
      what the check met. */
  ghost predicate CheckIs(c: BidCandidate, a: Ledger.Action, score: Scoring.AdScore, failed: bool, capped: bool,
                          daily: DailyKeys, hourly: HourlyKeys, now: int)
  {
    var balance := Redis.Get(daily, score.campaignId, now);
    var spend, minutes := Pacing.ThreeBuckets(hourly, score.campaignId, now), Pacing.MinutesLeft(now);
    && c.campaignId == score.campaignId && c.adId == score.adId && c.rawBid == score.effectiveBid
    && c.predictedCtr == score.predictedCtr && c.clearingPrice == 0.0
    && (c.budgetOk <==> !failed && !capped && balance.Some? && balance.value >= score.effectiveBid)
    && (if c.budgetOk then PacedBy(c, spend, balance.value, minutes) else c.effectiveBid == c.rawBid)
    && a.Check? && a.r == 0 && a.fails == failed && a.capped == capped
    && a.spendRate * 3.0 == spend && a.targetRate * minutes as real == 60.0 * balance.GetOr(0.0)
  }

  /** Candidates and ledger steps are the answers to these scores, one by one. */
  ghost predicate Checks(candidates: seq<BidCandidate>, steps: seq<Ledger.Action>, scores: seq<Scoring.AdScore>, faults: Faults,
                         caps: seq<bool>, daily: DailyKeys, hourly: HourlyKeys, now: int)
  {
    && |candidates| == |steps| == |scores| == |caps|
    && forall i | 0 <= i < |scores| ::
         CheckIs(candidates[i], steps[i], scores[i], faults.check(i) || faults.inCheck(i).read, caps[i], daily, hourly, now)
  }

  lemma NothingChecked(faults: Faults, daily: DailyKeys, hourly: HourlyKeys, now: int)
    ensures Checks([], [], [], faults, [], daily, hourly, now)
  {
  }

  lemma OneMoreCheck(candidates: seq<BidCandidate>, steps: seq<Ledger.Action>, scores: seq<Scoring.AdScore>, faults: Faults,
                     caps: seq<bool>, daily: DailyKeys, hourly: HourlyKeys, now: int, c: BidCandidate, a: Ledger.Action)
    requires |candidates| < |scores| == |caps|
    requires Checks(candidates, steps, scores[..|candidates|], faults, caps[..|candidates|], daily, hourly, now)
    requires var i := |candidates|;
             CheckIs(c, a, scores[i], faults.check(i) || faults.inCheck(i).read, caps[i], daily, hourly, now)
    ensures var i := |candidates| + 1;
            Checks(candidates + [c], steps + [a], scores[..i], faults, caps[..i], daily, hourly, now)
  {
    hide CheckIs;
    var n := |candidates|;
    forall i | 0 <= i <= n
      ensures CheckIs((candidates + [c])[i], (steps + [a])[i], scores[..n + 1][i], faults.check(i) || faults.inCheck(i).read,
                      caps[..n + 1][i], daily, hourly, now)
    {
      if i < n {
        assert scores[..n][i] == scores[i] && caps[..n][i] == caps[i];
      }
    }
  }

  /** The candidate bids 0.3, 0.7 or all of its raw bid, as three hours of spend, the remaining
      budget and the minutes left of the day demand. */
  ghost predicate PacedBy(c: BidCandidate, spend: real, remaining: real, minutes: int) {
    exists m | m == 0.3 || m == 0.7 || m == 1.0 :: c.effectiveBid == c.rawBid * m && Pacing.Throttles(m, spend, remaining, minutes)
  }

  /** The script runs and the key covers a thousandth of the price. */
  ghost predicate Chargeable(daily: DailyKeys, w: BidCandidate, faults: DeductFaults, now: int) {
    !faults.script && Redis.Get(daily, w.campaignId, now).GetOr(0.0) >= w.clearingPrice / 1000.0
  }

  /** A thousandth of the price has left the winner's key, and no other, and has been counted
      in the bucket of the hour as far as that did not fail. */
  ghost predicate Charges(daily: DailyKeys, daily': DailyKeys, hourly: HourlyKeys, hourly': HourlyKeys,
                          w: BidCandidate, faults: DeductFaults, now: int)
  {
    && Budget.OthersKept(daily, daily', w.campaignId)
    && Redis.Get(daily', w.campaignId, now) == Some(Redis.Get(daily, w.campaignId, now).GetOr(0.0) - w.clearingPrice / 1000.0)
    && Budget.CountsHour(hourly, hourly', w.campaignId, w.clearingPrice / 1000.0, faults, now)
  }

  ghost function LastStep(replyLost: bool): Ledger.Action {
    if replyLost then Ledger.GiveUp(0) else Ledger.Reply(0)
  }

  lemma Settled(s0: Ledger.State, q: Ledger.Request, before: seq<Ledger.Action>, success: bool, faults: DeductFaults, replyLost: bool)
    returns (steps: seq<Ledger.Action>)
    requires q.winner.Some? && q.client.Deducting? && q.server.Called?
    requires Ledger.RunFrom(s0, before) == s0.(requests := [q])
    requires var w := q.winner.value;
             success <==> !faults.script && Deducted(s0.daily, w.campaignId, Ledger.Cost(w.clearingPrice), s0.now).1
    ensures before <= steps
    ensures var w := q.winner.value;
            var s := Ledger.RunFrom(s0, steps);
            && s.daily == (if success then Deducted(s0.daily, w.campaignId, Ledger.Cost(w.clearingPrice), s0.now).0 else s0.daily)
            && |s.requests| == 1 && s.requests[0].winner == q.winner
            && s.requests[0].client == if success && !replyLost then Ledger.Served else Ledger.NoBid
  {
    steps := before + [Ledger.Script(0, faults.script)];
    var s := ScriptTaken(s0, q, before, success, faults.script);
    if success {
      s := CountTaken(s0, s, steps, faults.increment);
      steps := steps + [Ledger.Count(0, faults.increment)];
    }
    s := LastTaken(s0, s, steps, replyLost);
    steps := steps + [LastStep(replyLost)];
  }

  lemma ScriptTaken(s0: Ledger.State, q: Ledger.Request, before: seq<Ledger.Action>, success: bool, scriptFails: bool)
    returns (s: Ledger.State)
    requires Ledger.RunFrom(s0, before) == s0.(requests := [q])
    requires q.winner.Some? && q.server.Called?
    requires var w := q.winner.value;
             success <==> !scriptFails && Deducted(s0.daily, w.campaignId, Ledger.Cost(w.clearingPrice), s0.now).1
    ensures s == Ledger.RunFrom(s0, before + [Ledger.Script(0, scriptFails)])
    ensures s.requests == [q.(server := if success then Ledger.Charged else Ledger.Refused)]
    ensures var w := q.winner.value;
            s.daily == if success then Deducted(s0.daily, w.campaignId, Ledger.Cost(w.clearingPrice), s0.now).0 else s0.daily
  {
    OneMore(s0, before, Ledger.Script(0, scriptFails));
    s := Ledger.Next(s0.(requests := [q]), Ledger.Script(0, scriptFails));
  }

  lemma CountTaken(s0: Ledger.State, s: Ledger.State, before: seq<Ledger.Action>, fails: bool) returns (s': Ledger.State)
    requires s == Ledger.RunFrom(s0, before)
    requires |s.requests| == 1 && s.requests[0].server.Charged? && s.requests[0].winner.Some?
    ensures s' == Ledger.RunFrom(s0, before + [Ledger.Count(0, fails)])
    ensures s'.daily == s.daily && s'.requests == [s.requests[0].(server := Ledger.Answered(!fails))]
  {
    OneMore(s0, before, Ledger.Count(0, fails));
    s' := Ledger.Next(s, Ledger.Count(0, fails));
  }

  lemma LastTaken(s0: Ledger.State, s: Ledger.State, before: seq<Ledger.Action>, replyLost: bool) returns (s': Ledger.State)
    requires s == Ledger.RunFrom(s0, before)
    requires |s.requests| == 1 && s.requests[0].client.Deducting?
    requires s.requests[0].server.Answered? || s.requests[0].server.Refused?
    ensures s' == Ledger.RunFrom(s0, before + [LastStep(replyLost)])
    ensures s'.daily == s.daily && |s'.requests| == 1 && s'.requests[0].winner == s.requests[0].winner
    ensures s'.requests[0].client == if s.requests[0].server.Answered? && !replyLost then Ledger.Served else Ledger.NoBid
  {
    OneMore(s0, before, LastStep(replyLost));
    s' := Ledger.Next(s, LastStep(replyLost));
  }

  lemma BeginTaken(s0: Ledger.State, begin: Ledger.Action)
    requires begin.Begin? && s0.requests == []
    ensures Ledger.RunFrom(s0, [begin]) == s0.(requests := [Ledger.AfterBegin(begin)])
  {
    OneMore(s0, [], begin);
    assert [] + [begin] == [begin];
  }

  lemma BeginsWith(begin: Ledger.Action)
    requires begin.Begin?
    ensures var q := Ledger.AfterBegin(begin);
            && q.checks == [] && q.winner.None? && q.auctionType == begin.auctionType && q.floor == begin.floor
            && (begin.active != [] && !begin.scoringFails ==>
                  q.client.Checking? && q.scores == Scoring.ScoresOf(begin.cache, begin.active, begin.ctr, begin.cvr))
  {
  }

  lemma NothingOffered(req: BidRequest, s0: Ledger.State, begin: Ledger.Action, nbr: int)
    requires begin.Begin? && s0.requests == [] && |req.imps| > 0 && (begin.active == [] || begin.scoringFails)
    ensures var s := Ledger.RunFrom(s0, [begin]); s.daily == s0.daily && Answers(req, NoBid(req.id, nbr), s)
  {
    BeginTaken(s0, begin);
  }

  lemma ClearingStep(s: Ledger.State, ranking: seq<BidCandidate>)
    requires |s.requests| > 0 && Ledger.CanClear(s.requests[0], ranking)
    ensures Ledger.Next(s, Ledger.Clearing(0, ranking))
            == s.(requests := s.requests[0 := Ledger.AfterClearing(s.requests[0], ranking)])
  {
  }

  lemma OneMore(s0: Ledger.State, steps: seq<Ledger.Action>, a: Ledger.Action)
    ensures Ledger.RunFrom(s0, steps + [a]) == Ledger.Next(Ledger.RunFrom(s0, steps), a)
  {
    assert (steps + [a])[..|steps|] == steps;
  }

  /** The ledger step of a budget check, with the rates pacing computes from its buckets. */
  ghost function CheckAction(fails: bool, capped: bool, campaign: string, daily: DailyKeys,
                             hourly: HourlyKeys, now: int): Ledger.Action
  {
    Ledger.Check(0, fails, capped, Pacing.RecentSpend(hourly, campaign, now, 3) / 3.0,
                 Redis.Amount(daily, campaign, now) / Pacing.RemainingHours(now))
  }

  lemma CheckTaken(s0: Ledger.State, q: Ledger.Request, fails: bool, capped: bool,
                   hourly: HourlyKeys, budgetOk: bool, multiplier: real, candidate: BidCandidate)
    requires Ledger.CanCheck(q)
    requires var score := q.scores[|q.checks|];
             && (budgetOk <==> !fails && !capped && Redis.Exists(s0.daily, score.campaignId, s0.now)
                               && s0.daily[score.campaignId].value >= score.effectiveBid)
             && (budgetOk ==> multiplier == Pacing.CampaignMultiplier(hourly, score.campaignId, s0.now,
                                                                      Redis.Amount(s0.daily, score.campaignId, s0.now)))
             && candidate == Ledger.CandidateOf(score, budgetOk, multiplier)
    ensures var score := q.scores[|q.checks|];
            var a := CheckAction(fails, capped, score.campaignId, s0.daily, hourly, s0.now);
            Ledger.Next(s0.(requests := [q]), a)
            == s0.(requests := [q.(checks := q.checks + [Ledger.CheckedNow(s0, a, candidate)])])
  {
    var score := q.scores[|q.checks|];
    var a := CheckAction(fails, capped, score.campaignId, s0.daily, hourly, s0.now);
    var s := s0.(requests := [q]);
    assert Ledger.AfterCheck(s, q, a) == q.(checks := q.checks + [Ledger.CheckedNow(s0, a, candidate)]);
    assert Ledger.Next(s, a) == s.(requests := [q][0 := Ledger.AfterCheck(s, q, a)]);
  }

  lemma CheckShown(score: Scoring.AdScore, failed: bool, capped: bool, daily: DailyKeys, hourly: HourlyKeys, now: int,
                   m: real, c: BidCandidate)
    requires var balance := Redis.Get(daily, score.campaignId, now);
             && c.campaignId == score.campaignId && c.adId == score.adId && c.rawBid == score.effectiveBid
             && c.predictedCtr == score.predictedCtr && c.clearingPrice == 0.0
             && (c.budgetOk <==> !failed && !capped && balance.Some? && balance.value >= score.effectiveBid)
             && (c.budgetOk ==>
                   Pacing.Throttles(m, Pacing.ThreeBuckets(hourly, score.campaignId, now), balance.value, Pacing.MinutesLeft(now)))
             && c.effectiveBid == if c.budgetOk && m > 0.0 then score.effectiveBid * m else score.effectiveBid
    ensures CheckIs(c, CheckAction(failed, capped, score.campaignId, daily, hourly, now), score, failed, capped, daily, hourly, now)
  {
    hide Pacing.ThreeBuckets, Pacing.MinutesLeft, Pacing.RecentSpend, Pacing.RemainingHours;
    Pacing.RatesOfDatabase(hourly, score.campaignId, now, Redis.Amount(daily, score.campaignId, now));
    if c.budgetOk {
      assert m == 0.3 || m == 0.7 || m == 1.0;
    }
  }

  /** resp is the answer of the only request of ledger state s. */
  ghost predicate Answers(req: BidRequest, resp: Response, s: Ledger.State)
    requires |req.imps| > 0
  {
    && |s.requests| == 1
    && var q := s.requests[0];
    match resp
    case Bid(id, impId, price, adId, campaignId) =>
      && q.client.Served? && q.winner.Some? && id == req.id && impId == req.imps[0].id
      && var w := q.winner.value;
      && price == w.clearingPrice && adId == w.adId && campaignId == w.campaignId
    case NoBid(id, _) => q.client.NoBid? && id == req.id
  }
}
