/** Candidate scoring (internal/scoring/service.go). The predictors are parameters. */
module Scoring {
  import opened Wrappers
  import opened Models
  import opened Counting

  datatype AdScore = AdScore(
    campaignId: string, adId: string, predictedCtr: real, predictedCvr: real,
    effectiveBid: real, qualityScore: real)

  /** A predictor, from campaign and ad to a rate. */
  type Predictor = (string, string) -> real

  ghost predicate IsRate(p: Predictor) {
    forall campaignId, adId :: 0.0 < p(campaignId, adId) < 1.0
  }

  // ----- What the contracts speak of -----

  /** What a thousand impressions are expected to earn. */
  function Earnings(c: CampaignCache, rate: real): real {
    c.baseBid * rate * 1000.0
  }

  /** The bid exceeds neither the expected earnings per thousand impressions nor a set ceiling. */
  predicate WithinLimits(c: CampaignCache, rate: real, bid: real) {
    bid <= Earnings(c, rate) && (c.bidCeiling > 0.0 ==> bid <= c.bidCeiling)
  }

  /** a scores its ad for campaign configuration c, with the largest bid within the limits. */
  predicate IsScore(c: CampaignCache, a: AdScore, ctr: Predictor, cvr: Predictor) {
    && a.predictedCtr == ctr(a.campaignId, a.adId) && a.predictedCvr == cvr(a.campaignId, a.adId)
    && WithinLimits(c, a.predictedCtr, a.effectiveBid)
    && (a.effectiveBid == Earnings(c, a.predictedCtr) || (c.bidCeiling > 0.0 && a.effectiveBid == c.bidCeiling))
    && a.qualityScore == a.predictedCtr * a.effectiveBid
  }

  // ----- Scores -----

  function ScoreOf(c: CampaignCache, campaignId: string, adId: string, ctr: Predictor, cvr: Predictor): AdScore {
    var rate := ctr(campaignId, adId);
    var bid := c.baseBid * rate * 1000.0;
    var capped := if c.bidCeiling > 0.0 && bid > c.bidCeiling then c.bidCeiling else bid;
    AdScore(campaignId, adId, rate, cvr(campaignId, adId), capped, rate * capped)
  }

  function ScoresOfAds(c: CampaignCache, campaignId: string, adIds: seq<string>, ctr: Predictor, cvr: Predictor): seq<AdScore> {
    if adIds == [] then []
    else ScoresOfAds(c, campaignId, adIds[..|adIds| - 1], ctr, cvr)
         + [ScoreOf(c, campaignId, adIds[|adIds| - 1], ctr, cvr)]
  }

  /** The scores of the campaigns ids, in order; campaigns that are not cached are skipped. */
  function ScoresOf(cache: map<string, CampaignCache>, ids: seq<string>, ctr: Predictor, cvr: Predictor): seq<AdScore> {
    if ids == [] then []
    else
      var id := ids[|ids| - 1];
      ScoresOf(cache, ids[..|ids| - 1], ctr, cvr)
      + (if id in cache then ScoresOfAds(cache[id], id, cache[id].adIds, ctr, cvr) else [])
  }

  class ScoringService {
    // campaign:<id> keys, which never expire
    var cache: map<string, CampaignCache>

    method ScoreAds(ids: seq<string>, ctr: Predictor, cvr: Predictor) returns (scores: seq<AdScore>)
      ensures scores == ScoresOf(cache, ids, ctr, cvr)
    {
      scores := [];
      var i := 0;
      while i < |ids|
        invariant 0 <= i <= |ids|
        invariant scores == ScoresOf(cache, ids[..i], ctr, cvr)
      {
        var campaignId := ids[i];
        assert ids[..i + 1][..i] == ids[..i];
        i := i + 1;
        if campaignId !in cache {
          continue;
        }
        var campaign := cache[campaignId];
        ghost var done := scores;
        var j := 0;
        while j < |campaign.adIds|
          invariant 0 <= j <= |campaign.adIds|
          invariant scores == done + ScoresOfAds(campaign, campaignId, campaign.adIds[..j], ctr, cvr)
        {
          hide ScoresOf, ScoresOfAds, ScoreOf;
          var score := ScoreAd(campaign, campaignId, campaign.adIds[j], ctr, cvr);
          NextAdScored(done, campaign, campaignId, j, ctr, cvr);
          scores := scores + [score];
          j := j + 1;
        }
        assert campaign.adIds[..j] == campaign.adIds;
      }
      assert ids[..i] == ids;
    }

    method ScoreAd(campaign: CampaignCache, campaignId: string, adId: string, ctr: Predictor, cvr: Predictor)
      returns (score: AdScore)
      ensures score == ScoreOf(campaign, campaignId, adId, ctr, cvr)
      ensures score.campaignId == campaignId && score.adId == adId && IsScore(campaign, score, ctr, cvr)
    {
      var predictedCtr := ctr(campaignId, adId);
      var predictedCvr := cvr(campaignId, adId);
      var effectiveBid := campaign.baseBid * predictedCtr * 1000.0;
      if campaign.bidCeiling > 0.0 && effectiveBid > campaign.bidCeiling {
        effectiveBid := campaign.bidCeiling;
      }
      var qualityScore := predictedCtr * effectiveBid;
      score := AdScore(campaignId, adId, predictedCtr, predictedCvr, effectiveBid, qualityScore);
      ScoreOfIsScore(campaign, score, ctr, cvr);
    }

    /** Folds one campaign event into the cache. */
    method SyncCampaign(event: CampaignEvent)
      modifies this
      ensures cache == ApplyToCache(old(cache), event)
      ensures if event.eventType.CampaignDeleted? then cache == old(cache) - {event.campaignId}
              else match event.campaign
                case None => cache == old(cache)
                case Some(c) =>
                  c.id in cache && Mirrors(cache[c.id], c)
                  && forall id | id != c.id :: (id in cache <==> id in old(cache)) && (id in cache ==> cache[id] == old(cache)[id])
    {
      if event.eventType.CampaignDeleted? {
        cache := cache - {event.campaignId};
        return;
      }
      if event.campaign.None? {
        return;
      }
      var c := event.campaign.value;
      cache := cache[c.id := CampaignCache(c.id, c.status, c.dailyBudget, c.totalBudget, c.bidCeiling, c.baseBid,
                                           c.bidStrategy, c.targeting, c.adIds, c.startDate / 1000, c.endDate / 1000)];
    }
  }

  lemma NextAdScored(done: seq<AdScore>, c: CampaignCache, campaignId: string, j: nat, ctr: Predictor, cvr: Predictor)
    requires j < |c.adIds|
    ensures done + ScoresOfAds(c, campaignId, c.adIds[..j + 1], ctr, cvr)
            == done + ScoresOfAds(c, campaignId, c.adIds[..j], ctr, cvr) + [ScoreOf(c, campaignId, c.adIds[j], ctr, cvr)]
  {
    assert c.adIds[..j + 1][..j] == c.adIds[..j];
  }

  function ApplyToCache(cache: map<string, CampaignCache>, e: CampaignEvent): map<string, CampaignCache> {
    if e.eventType.CampaignDeleted? then cache - {e.campaignId}
    else if e.campaign.None? then cache
    else cache[e.campaign.value.id := Project(e.campaign.value)]
  }

  lemma {:induction false} AdsScored(c: CampaignCache, campaignId: string, adIds: seq<string>, ctr: Predictor, cvr: Predictor,
                                     a: AdScore)
    ensures a in ScoresOfAds(c, campaignId, adIds, ctr, cvr) <==>
            a.adId in adIds && a == ScoreOf(c, campaignId, a.adId, ctr, cvr)
  {
    if adIds != [] {
      var n := |adIds| - 1;
      AdsScored(c, campaignId, adIds[..n], ctr, cvr, a);
      assert adIds == adIds[..n] + [adIds[n]];
    }
  }

  lemma ScoreOfIsScore(c: CampaignCache, a: AdScore, ctr: Predictor, cvr: Predictor)
    ensures a == ScoreOf(c, a.campaignId, a.adId, ctr, cvr) <==> IsScore(c, a, ctr, cvr)
  {
  }

  /** Exactly the ads of the requested, cached campaigns are scored, each with its rates, its
      quality, and the largest bid that exceeds neither its earnings nor a set ceiling. */
  lemma {:induction false} ScoredExactly(cache: map<string, CampaignCache>, ids: seq<string>, ctr: Predictor, cvr: Predictor,
                                         a: AdScore)
    ensures a in ScoresOf(cache, ids, ctr, cvr) <==>
            a.campaignId in ids && a.campaignId in cache && a.adId in cache[a.campaignId].adIds &&
            IsScore(cache[a.campaignId], a, ctr, cvr)
  {
    if ids != [] {
      hide IsScore, ScoreOf;
      var n := |ids| - 1;
      ScoredExactly(cache, ids[..n], ctr, cvr, a);
      assert ids == ids[..n] + [ids[n]];
      if ids[n] in cache {
        AdsScored(cache[ids[n]], ids[n], cache[ids[n]].adIds, ctr, cvr, a);
        ScoreOfIsScore(cache[ids[n]], a, ctr, cvr);
        AdsKeepCampaign(cache[ids[n]], ids[n], cache[ids[n]].adIds, ctr, cvr);
      }
    }
  }

  lemma {:induction false} AdsKeepCampaign(c: CampaignCache, campaignId: string, adIds: seq<string>, ctr: Predictor, cvr: Predictor)
    ensures forall a | a in ScoresOfAds(c, campaignId, adIds, ctr, cvr) :: a.campaignId == campaignId
  {
    if adIds != [] {
      AdsKeepCampaign(c, campaignId, adIds[..|adIds| - 1], ctr, cvr);
    }
  }

  /** Scores come in the order of the requested campaigns, and of the ads within each. */
  lemma {:induction false} ScoresInOrder(cache: map<string, CampaignCache>, ids: seq<string>, more: seq<string>,
                                         ctr: Predictor, cvr: Predictor)
    ensures ScoresOf(cache, ids + more, ctr, cvr) == ScoresOf(cache, ids, ctr, cvr) + ScoresOf(cache, more, ctr, cvr)
  {
    if more == [] {
      assert ids + more == ids;
    } else {
      var n := |more| - 1;
      ScoresInOrder(cache, ids, more[..n], ctr, cvr);
      assert (ids + more)[..|ids + more| - 1] == ids + more[..n];
    }
  }

  lemma {:induction false} AdsInOrder(c: CampaignCache, campaignId: string, adIds: seq<string>, ctr: Predictor, cvr: Predictor)
    ensures var scores := ScoresOfAds(c, campaignId, adIds, ctr, cvr);
            |scores| == |adIds| && forall j | 0 <= j < |adIds| :: scores[j].adId == adIds[j]
  {
    if adIds != [] {
      AdsInOrder(c, campaignId, adIds[..|adIds| - 1], ctr, cvr);
    }
  }

  function Of(campaignId: string, adId: string): AdScore -> bool {
    (a: AdScore) => a.campaignId == campaignId && a.adId == adId
  }

  lemma {:induction false} AdsScoredOnce(c: CampaignCache, campaignId: string, adIds: seq<string>, ctr: Predictor, cvr: Predictor,
                                         other: string, adId: string)
    ensures Count(ScoresOfAds(c, campaignId, adIds, ctr, cvr), Of(other, adId))
            == if campaignId == other then multiset(adIds)[adId] else 0
  {
    if adIds != [] {
      var n := |adIds| - 1;
      AdsScoredOnce(c, campaignId, adIds[..n], ctr, cvr, other, adId);
      CountSnoc(ScoresOfAds(c, campaignId, adIds[..n], ctr, cvr), ScoreOf(c, campaignId, adIds[n], ctr, cvr), Of(other, adId));
      assert adIds == adIds[..n] + [adIds[n]];
    }
  }

  /** The scores of one requested campaign. */
  function AdsOf(cache: map<string, CampaignCache>, id: string, ctr: Predictor, cvr: Predictor): seq<AdScore> {
    if id in cache then ScoresOfAds(cache[id], id, cache[id].adIds, ctr, cvr) else []
  }

  lemma AdsOfOnce(cache: map<string, CampaignCache>, id: string, ctr: Predictor, cvr: Predictor, campaignId: string, adId: string)
    ensures Count(AdsOf(cache, id, ctr, cvr), Of(campaignId, adId))
            == if id == campaignId && id in cache then multiset(cache[id].adIds)[adId] else 0
  {
    if id in cache {
      AdsScoredOnce(cache[id], id, cache[id].adIds, ctr, cvr, campaignId, adId);
    }
  }

  /** A campaign that is requested once has each of its ads scored as often as it lists it, so
      it does not compete against itself. */
  lemma {:induction false} ScoredOnce(cache: map<string, CampaignCache>, ids: seq<string>, ctr: Predictor, cvr: Predictor,
                                      campaignId: string, adId: string)
    requires multiset(ids)[campaignId] <= 1
    ensures Count(ScoresOf(cache, ids, ctr, cvr), Of(campaignId, adId))
            == if campaignId in ids && campaignId in cache then multiset(cache[campaignId].adIds)[adId] else 0
  {
    if ids != [] {
      hide Of, Count;
      var n := |ids| - 1;
      assert ids == ids[..n] + [ids[n]];
      RequestedOnceMore(ids[..n], ids[n], campaignId);
      ScoredOnce(cache, ids[..n], ctr, cvr, campaignId, adId);
      AdsOfOnce(cache, ids[n], ctr, cvr, campaignId, adId);
      CountConcat(ScoresOf(cache, ids[..n], ctr, cvr), AdsOf(cache, ids[n], ctr, cvr), Of(campaignId, adId));
    }
  }

  lemma RequestedOnceMore(ids: seq<string>, id: string, campaignId: string)
    ensures multiset(ids + [id])[campaignId] == multiset(ids)[campaignId] + (if id == campaignId then 1 else 0)
    ensures multiset(ids)[campaignId] == 0 <==> campaignId !in ids
  {
  }

  /** With positive base bids and rates strictly between zero and one, every score bids a
      positive amount below a thousand base bids, and the largest within its limits. */
  lemma ScoreBounds(cache: map<string, CampaignCache>, ids: seq<string>, ctr: Predictor, cvr: Predictor, a: AdScore)
    requires IsRate(ctr) && (forall id | id in cache :: cache[id].baseBid > 0.0)
    requires a in ScoresOf(cache, ids, ctr, cvr)
    ensures a.campaignId in ids && a.campaignId in cache && a.adId in cache[a.campaignId].adIds
    ensures var c := cache[a.campaignId];
            && 0.0 < a.effectiveBid < c.baseBid * 1000.0
            && WithinLimits(c, a.predictedCtr, a.effectiveBid)
            && (forall bid | WithinLimits(c, a.predictedCtr, bid) :: bid <= a.effectiveBid)
            && a.predictedCtr == ctr(a.campaignId, a.adId)
  {
    hide IsScore, WithinLimits, ScoresOf;
    ScoredExactly(cache, ids, ctr, cvr, a);
    IsScoreBounds(cache[a.campaignId], a, ctr, cvr);
  }

  lemma IsScoreBounds(c: CampaignCache, a: AdScore, ctr: Predictor, cvr: Predictor)
    requires IsScore(c, a, ctr, cvr) && c.baseBid > 0.0 && 0.0 < ctr(a.campaignId, a.adId) < 1.0
    ensures 0.0 < a.effectiveBid < c.baseBid * 1000.0
    ensures WithinLimits(c, a.predictedCtr, a.effectiveBid) && a.predictedCtr == ctr(a.campaignId, a.adId)
    ensures forall bid | WithinLimits(c, a.predictedCtr, bid) :: bid <= a.effectiveBid
  {
    hide Earnings;
    EarningsBounds(c, a.predictedCtr);
  }

  lemma EarningsBounds(c: CampaignCache, rate: real)
    requires c.baseBid > 0.0 && 0.0 < rate < 1.0
    ensures 0.0 < Earnings(c, rate) < c.baseBid * 1000.0
  {
    Scaled(c.baseBid, rate);
    assert Earnings(c, rate) == c.baseBid * rate * 1000.0;
    assert c.baseBid * rate * 1000.0 < c.baseBid * 1000.0;
    assert Earnings(c, rate) < c.baseBid * 1000.0;
  }

  lemma Scaled(base: real, rate: real)
    requires base > 0.0 && 0.0 < rate < 1.0
    ensures 0.0 < base * rate * 1000.0 < base * 1000.0
  {
    assert base * rate > 0.0;
    assert base * (1.0 - rate) > 0.0;
  }
}
