/**
 The campaign service's event log (internal/campaign/service.go) as the source of what the
 ledger's steps assume: consumers open keys for published campaigns, delete them for
 published deletions, and bid requests read caches folded from the same log.
 */
module EndToEnd {
  import opened Wrappers
  import opened Models
  import CampaignCatalog
  import Replication
  import Ledger
  import LedgerTheorems
  import Scoring
  import Budget
  import Redis

  /** The log holds a version of campaign c with this daily budget. */
  ghost predicate Announced(events: seq<CampaignEvent>, c: string, budget: real) {
    exists e | e in events :: !e.eventType.CampaignDeleted? && e.campaign.Some?
                              && e.campaign.value.id == c && e.campaign.value.dailyBudget == budget
  }

  /** The configurations some delivery of some of the events leaves in the cache. */
  ghost predicate CacheFrom(events: seq<CampaignEvent>, cache: map<string, CampaignCache>) {
    exists delivery | (forall e | e in delivery :: e in events) :: cache == Replication.Fold(Replication.Empty, delivery).cache
  }

  /** The step of the ledger takes what it needs from the event log. */
  ghost predicate Fed(events: seq<CampaignEvent>, a: Ledger.Action) {
    match a
    case SyncExists(c, budget) => Announced(events, c, budget)
    case Delete(c) => exists e | e in events :: e.eventType.CampaignDeleted? && e.campaignId == c
    case Begin(_, _, _, cache, ctr, _, _) => Scoring.IsRate(ctr) && CacheFrom(events, cache)
    case _ => true
  }

  ghost predicate FedRun(events: seq<CampaignEvent>, acts: seq<Ledger.Action>) {
    forall i | 0 <= i < |acts| :: Fed(events, acts[i])
  }

  /** What the ledger assumes of its steps is what campaign validation guarantees. */
  lemma FedIsSound(requests: seq<CampaignCatalog.Request>, acts: seq<Ledger.Action>)
    requires FedRun(CampaignCatalog.Run(requests).events, acts)
    ensures Ledger.SoundRun(acts)
  {
    var events := CampaignCatalog.Run(requests).events;
    Replication.PublishedCampaignsAreValid(requests);
    forall i | 0 <= i < |acts| ensures Ledger.Sound(acts[i]) {
      assert Fed(events, acts[i]);
      if acts[i].Begin? {
        var delivery :| (forall e | e in delivery :: e in events)
                        && acts[i].cache == Replication.Fold(Replication.Empty, delivery).cache;
        Replication.CachedBidsArePositive(delivery);
      }
    }
  }

  /** In any run fed by the campaign service, no key is ever overdrawn: the deductions of every
      epoch of a campaign stay within a daily budget that was published for that campaign, or
      are nothing at all if the deduction script opened the key by itself. */
  lemma SpendWithinPublishedBudget(requests: seq<CampaignCatalog.Request>, acts: seq<Ledger.Action>, c: string, i: int, j: int)
    requires FedRun(CampaignCatalog.Run(requests).events, acts) && Ledger.Epoch(Ledger.Run(acts).log, c, i, j)
    ensures var log := Ledger.Run(acts).log;
            && Ledger.Spent(log[i + 1..j], c) <= log[i].budget
            && (log[i].budget == 0.0 || Announced(CampaignCatalog.Run(requests).events, c, log[i].budget))
  {
    hide Ledger.Run, CampaignCatalog.Run;
    var events, e := CampaignCatalog.Run(requests).events, Ledger.Run(acts).log[i];
    FedIsSound(requests, acts);
    LedgerTheorems.NoOverspend(acts, c);
    LedgerTheorems.BudgetsAreAnnounced(acts);
    if e.budget != 0.0 {
      assert e in Ledger.Run(acts).log;
      var k :| 0 <= k < |acts| && acts[k] == Ledger.SyncExists(c, e.budget);
      assert Fed(events, acts[k]);
    }
  }

  // ----- The budget service's consumer -----

  /** Handling an event, run alone, is the ledger's Delete, or its SyncExists and SyncSetNX with
      the campaign and daily budget of the event, where SyncExists ends it if the key is live;
      and the event feeds these steps. */
  lemma HandlingIsLedgerSteps(s: Ledger.State, e: CampaignEvent)
    ensures var after := Budget.ApplyToBudget(s.daily, e, s.now);
            if e.eventType.CampaignDeleted? then
              Ledger.Next(s, Ledger.Delete(e.campaignId)).daily == after && Fed([e], Ledger.Delete(e.campaignId))
            else match e.campaign
              case None => after == s.daily
              case Some(x) =>
                var exists' := Ledger.SyncExists(x.id, x.dailyBudget);
                && Ledger.Next(Ledger.Next(s, exists'), Ledger.SyncSetNX(x.id, x.dailyBudget)).daily == after
                && (Redis.Exists(s.daily, x.id, s.now) ==> Ledger.Next(s, exists') == s)
                && Fed([e], exists')
  {
    assert e in [e];
  }

  // ----- Configurations and bids -----

  /** The event changes what caches hold for campaign id. */
  predicate Concerns(e: CampaignEvent, id: string) {
    if e.eventType.CampaignDeleted? then e.campaignId == id else e.campaign.Some? && e.campaign.value.id == id
  }

  /** Event k carries the version of campaign id that the delivery leaves current. */
  predicate Latest(delivery: seq<CampaignEvent>, id: string, k: nat) {
    && k < |delivery| && !delivery[k].eventType.CampaignDeleted? && Concerns(delivery[k], id)
    && forall j | k < j < |delivery| :: !Concerns(delivery[j], id)
  }

  /** A cached configuration is the latest delivered version of its campaign, field by field. */
  lemma {:induction false} CacheHoldsLatest(delivery: seq<CampaignEvent>, id: string) returns (k: nat)
    requires id in Replication.Fold(Replication.Empty, delivery).cache
    ensures Latest(delivery, id, k)
    ensures Mirrors(Replication.Fold(Replication.Empty, delivery).cache[id], delivery[k].campaign.value)
  {
    var n := |delivery| - 1;
    if Concerns(delivery[n], id) {
      k := n;
    } else {
      k := CacheHoldsLatest(delivery[..n], id);
    }
  }

  /** What campaign version x allows for an ad at this rate: one of its own ads, at most what a
      thousand impressions should earn and, if it sets a ceiling, at most that. */
  predicate Allows(x: Campaign, adId: string, rate: real, bid: real) {
    adId in x.adIds && bid <= x.baseBid * rate * 1000.0 && (x.bidCeiling > 0.0 ==> bid <= x.bidCeiling)
  }

  /** Every score bids the most that the latest delivered version of its campaign allows. */
  lemma BidsFollowLatest(delivery: seq<CampaignEvent>, ids: seq<string>, ctr: Scoring.Predictor, cvr: Scoring.Predictor,
                         a: Scoring.AdScore) returns (k: nat)
    requires a in Scoring.ScoresOf(Replication.Fold(Replication.Empty, delivery).cache, ids, ctr, cvr)
    ensures Latest(delivery, a.campaignId, k)
    ensures var x, rate := delivery[k].campaign.value, ctr(a.campaignId, a.adId);
            && Allows(x, a.adId, rate, a.effectiveBid)
            && (a.effectiveBid == x.baseBid * rate * 1000.0 || (x.bidCeiling > 0.0 && a.effectiveBid == x.bidCeiling))
  {
    var cache := Replication.Fold(Replication.Empty, delivery).cache;
    Scoring.ScoredExactly(cache, ids, ctr, cvr, a);
    k := CacheHoldsLatest(delivery, a.campaignId);
  }

  /** A step begins requests with a cache from the log and leaves the others' as they are. */
  lemma StepKeepsCaches(events: seq<CampaignEvent>, s: Ledger.State, a: Ledger.Action)
    requires Fed(events, a) && forall r | 0 <= r < |s.requests| :: CacheFrom(events, s.requests[r].cache)
    ensures forall r | 0 <= r < |Ledger.Next(s, a).requests| :: CacheFrom(events, Ledger.Next(s, a).requests[r].cache)
  {
    hide CacheFrom, Ledger.CandidateOf, Ledger.Cost, Ledger.CanClear;
  }

  lemma {:induction false} RequestsReadTheLog(events: seq<CampaignEvent>, acts: seq<Ledger.Action>)
    requires FedRun(events, acts)
    ensures forall r | 0 <= r < |Ledger.Run(acts).requests| :: CacheFrom(events, Ledger.Run(acts).requests[r].cache)
  {
    if acts != [] {
      hide CacheFrom, Ledger.Next;
      var n := |acts| - 1;
      RequestsReadTheLog(events, acts[..n]);
      assert Fed(events, acts[n]);
      StepKeepsCaches(events, Ledger.Run(acts[..n]), acts[n]);
    }
  }

  /** In any run fed by the campaign service, a served bid is for an ad of a published version
      of its campaign, and its price, at most its raw bid, stays within that version's ceiling. */
  lemma ServedBidsWerePublished(requests: seq<CampaignCatalog.Request>, acts: seq<Ledger.Action>, r: nat)
    returns (x: Campaign)
    requires FedRun(CampaignCatalog.Run(requests).events, acts)
    requires r < |Ledger.Run(acts).requests| && Ledger.Run(acts).requests[r].client.Served?
    ensures Ledger.Run(acts).requests[r].winner.Some?
    ensures exists e | e in CampaignCatalog.Run(requests).events :: !e.eventType.CampaignDeleted? && e.campaign == Some(x)
    ensures var w := Ledger.Run(acts).requests[r].winner.value;
            && x.id == w.campaignId && w.adId in x.adIds && w.clearingPrice <= w.rawBid
            && (x.bidCeiling > 0.0 ==> w.rawBid <= x.bidCeiling)
  {
    hide Ledger.Run, CampaignCatalog.Run;
    var events := CampaignCatalog.Run(requests).events;
    FedIsSound(requests, acts);
    LedgerTheorems.ServedBids(acts, r);
    RequestsReadTheLog(events, acts);
    var q := Ledger.Run(acts).requests[r];
    assert CacheFrom(events, q.cache);
    var delivery: seq<CampaignEvent> :| (forall e | e in delivery :: e in events)
                    && q.cache == Replication.Fold(Replication.Empty, delivery).cache;
    var k := CacheHoldsLatest(delivery, q.winner.value.campaignId);
    x := delivery[k].campaign.value;
    assert delivery[k] in delivery;
  }
}
