/**
 The replicas that fold the campaign-updates log: the bidding service's active set
 (internal/bidding/service.go:213-226) and the scoring service's configuration cache
 (internal/scoring/service.go:78-103).

 Kafka keeps the order of events with the same key, and the key is the campaign; events
 of different campaigns may reach a replica in any order.
 */
module Replication {
  import opened Wrappers
  import opened Models
  import opened CampaignCatalog
  import Bidding
  import Scoring

  datatype Replica = Replica(active: set<string>, cache: map<string, CampaignCache>)

  const Empty := Replica({}, map[])

  function Apply(r: Replica, e: CampaignEvent): Replica {
    Replica(Bidding.ApplyToActive(r.active, e), Scoring.ApplyToCache(r.cache, e))
  }

  function Fold(r: Replica, log: seq<CampaignEvent>): Replica {
    if log == [] then r
    else Apply(Fold(r, log[..|log| - 1]), log[|log| - 1])
  }

  /** The events of one campaign, in order. */
  function Of(log: seq<CampaignEvent>, id: string): seq<CampaignEvent> {
    if log == [] then []
    else
      var e := log[|log| - 1];
      Of(log[..|log| - 1], id) + (if e.campaignId == id then [e] else [])
  }

  /** A delivery that keeps the order of every single campaign's events. */
  ghost predicate SamePerCampaign(log: seq<CampaignEvent>, delivery: seq<CampaignEvent>) {
    forall id :: Of(log, id) == Of(delivery, id)
  }

  /** Events carry the campaign they are filed under. */
  predicate WellFiled(log: seq<CampaignEvent>) {
    forall i | 0 <= i < |log| :: log[i].campaign.Some? ==> log[i].campaign.value.id == log[i].campaignId
  }

  /** Two replicas agree on one campaign. */
  predicate AgreeOn(r: Replica, t: Replica, id: string) {
    && (id in r.active <==> id in t.active)
    && (id in r.cache <==> id in t.cache)
    && (id in r.cache ==> r.cache[id] == t.cache[id])
  }

  lemma AgreeEverywhere(r: Replica, t: Replica)
    requires forall id :: AgreeOn(r, t, id)
    ensures r == t
  {
    assert forall id :: AgreeOn(r, t, id) ==> (id in r.active <==> id in t.active);
    assert r.active == t.active;
    assert r.cache == t.cache by {
      forall id ensures id in r.cache <==> id in t.cache {
        assert AgreeOn(r, t, id);
      }
      forall id | id in r.cache ensures r.cache[id] == t.cache[id] {
        assert AgreeOn(r, t, id);
      }
    }
  }

  lemma {:induction false} FoldConcat(r: Replica, log: seq<CampaignEvent>, more: seq<CampaignEvent>)
    ensures Fold(r, log + more) == Fold(Fold(r, log), more)
  {
    if more == [] {
      assert log + more == log;
    } else {
      assert (log + more)[..|log + more| - 1] == log + more[..|more| - 1];
      FoldConcat(r, log, more[..|more| - 1]);
    }
  }

  lemma {:induction false} OnlyOwnEventsMatter(r: Replica, log: seq<CampaignEvent>, id: string)
    requires WellFiled(log)
    ensures AgreeOn(Fold(r, log), Fold(r, Of(log, id)), id)
  {
    if log != [] {
      var n := |log| - 1;
      var own := Of(log[..n], id);
      OnlyOwnEventsMatter(r, log[..n], id);
      if log[n].campaignId == id {
        assert (own + [log[n]])[..|own|] == own;
      } else {
        assert own + [] == own;
      }
    }
  }

  lemma {:induction false} WellFiledOf(log: seq<CampaignEvent>, delivery: seq<CampaignEvent>)
    requires SamePerCampaign(log, delivery) && WellFiled(log)
    ensures WellFiled(delivery)
  {
    forall i | 0 <= i < |delivery|
      ensures delivery[i].campaign.Some? ==> delivery[i].campaign.value.id == delivery[i].campaignId
    {
      var id := delivery[i].campaignId;
      OfMembers(delivery, id, delivery[i]);
      OfMembers(log, id, delivery[i]);
      assert Of(log, id) == Of(delivery, id);
      var j :| 0 <= j < |log| && log[j] == delivery[i];
    }
  }

  lemma {:induction false} OfMembers(log: seq<CampaignEvent>, id: string, e: CampaignEvent)
    ensures e in Of(log, id) <==> e in log && e.campaignId == id
  {
    if log != [] {
      var n := |log| - 1;
      OfMembers(log[..n], id, e);
      assert log == log[..n] + [log[n]];
    }
  }

  // ----- Theorems -----

  /** Confluence: deliveries that keep each campaign's order lead any replica to the same state. */
  lemma Confluence(r: Replica, log: seq<CampaignEvent>, delivery: seq<CampaignEvent>)
    requires SamePerCampaign(log, delivery) && WellFiled(log)
    ensures Fold(r, log) == Fold(r, delivery)
  {
    WellFiledOf(log, delivery);
    forall id ensures AgreeOn(Fold(r, log), Fold(r, delivery), id) {
      OnlyOwnEventsMatter(r, log, id);
      OnlyOwnEventsMatter(r, delivery, id);
      assert Of(log, id) == Of(delivery, id);
    }
    AgreeEverywhere(Fold(r, log), Fold(r, delivery));
  }

  /** A stretch of log either overwrites what a replica holds for a campaign or leaves it. */
  lemma {:induction false} OverwriteOrKeep(r: Replica, t: Replica, log: seq<CampaignEvent>, id: string)
    ensures (id in Fold(r, log).active <==> id in Fold(t, log).active)
            || ((id in Fold(r, log).active <==> id in r.active) && (id in Fold(t, log).active <==> id in t.active))
    ensures SameEntry(Fold(r, log), Fold(t, log), id) || (SameEntry(Fold(r, log), r, id) && SameEntry(Fold(t, log), t, id))
  {
    if log != [] {
      OverwriteOrKeep(r, t, log[..|log| - 1], id);
    }
  }

  predicate SameEntry(r: Replica, t: Replica, id: string) {
    (id in r.cache <==> id in t.cache) && (id in r.cache ==> r.cache[id] == t.cache[id])
  }

  /** Replay: consuming any suffix of the consumed log again changes nothing. */
  lemma ReplayIsHarmless(r: Replica, log: seq<CampaignEvent>, k: nat)
    requires k <= |log|
    ensures Fold(r, log + log[k..]) == Fold(r, log)
  {
    assert log == log[..k] + log[k..];
    FoldConcat(r, log[..k], log[k..]);
    FoldConcat(r, log, log[k..]);
    var before, after := Fold(r, log[..k]), Fold(r, log);
    forall id ensures AgreeOn(Fold(after, log[k..]), after, id) {
      OverwriteOrKeep(before, after, log[k..], id);
    }
    AgreeEverywhere(Fold(after, log[k..]), after);
  }

  /** What the replicas should hold for the stored campaigns. */
  function View(campaigns: map<string, Campaign>): Replica {
    Replica(set id | id in campaigns && campaigns[id].status == STATUS_ACTIVE,
            map id | id in campaigns :: Project(campaigns[id]))
  }

  ghost predicate Consistent(s: Catalog) {
    && Fold(Empty, s.events) == View(s.campaigns)
    && WellFiled(s.events)
    && forall id | id in s.campaigns :: s.campaigns[id].id == id
  }

  lemma StoredConsistent(s: Catalog, eventType: EventType, c: Campaign, publishFails: bool)
    requires Consistent(s) && !eventType.CampaignDeleted?
    ensures Consistent(Stored(s, eventType, c, publishFails)) <==>
            !publishFails || (c.id in s.campaigns && Project(s.campaigns[c.id]) == Project(c))
  {
    var s' := Stored(s, eventType, c, publishFails);
    if publishFails {
      ViewChanges(s.campaigns, c);
    } else {
      assert s'.events[..|s.events|] == s.events;
      var r := Fold(Empty, s'.events);
      forall id ensures AgreeOn(r, View(s'.campaigns), id) {
      }
      AgreeEverywhere(r, View(s'.campaigns));
    }
  }

  /** Storing a campaign changes what replicas should hold unless its projection stays. */
  lemma ViewChanges(campaigns: map<string, Campaign>, c: Campaign)
    ensures View(campaigns[c.id := c]) == View(campaigns) <==> c.id in campaigns && Project(campaigns[c.id]) == Project(c)
  {
    var v, v' := View(campaigns), View(campaigns[c.id := c]);
    assert c.id in v'.cache && v'.cache[c.id] == Project(c);
    if c.id in campaigns && Project(campaigns[c.id]) == Project(c) {
      assert v'.cache == v.cache && v'.active == v.active;
    }
  }

  lemma DeletedConsistent(s: Catalog, id: string, publishFails: bool)
    requires Consistent(s) && id in s.campaigns
    ensures Consistent(Next(s, Delete(id, false, publishFails))) <==> !publishFails
  {
    var s' := Next(s, Delete(id, false, publishFails));
    if publishFails {
      assert id in View(s.campaigns).cache && id !in View(s'.campaigns).cache;
    } else {
      assert s'.events[..|s.events|] == s.events;
      var r := Fold(Empty, s'.events);
      forall x ensures AgreeOn(r, View(s'.campaigns), x) {
      }
      AgreeEverywhere(r, View(s'.campaigns));
    }
  }

  /** An ad is linked in the store but not announced, or announced but not linked. */
  lemma LinkedConsistent(s: Catalog, r: Request)
    requires Consistent(s) && r.AddAd? && Next(s, r) != s
    ensures Consistent(Next(s, r)) <==> r.updateFails == r.publishFails
  {
    var c := s.campaigns[r.ad.campaignId];
    var linked := c.(adIds := c.adIds + [r.id]);
    var stored := s.(ads := s.ads[r.id := r.ad.(id := r.id)]);
    assert |linked.adIds| != |c.adIds|;
    if r.updateFails {
      assert Next(s, r) == stored.(events := Published(s.events, CampaignUpdated, c.id, Some(linked), r.publishFails));
      if !r.publishFails {
        AnnouncedOnlyIsInconsistent(s, Next(s, r), c, linked);
      }
    } else {
      assert Next(s, r) == Stored(stored, CampaignUpdated, linked, r.publishFails);
      StoredConsistent(stored, CampaignUpdated, linked, r.publishFails);
    }
  }

  lemma AnnouncedOnlyIsInconsistent(s: Catalog, s': Catalog, c: Campaign, announced: Campaign)
    requires c.id in s.campaigns && s.campaigns[c.id] == c && announced.id == c.id && announced.adIds != c.adIds
    requires s'.campaigns == s.campaigns
    requires s'.events == s.events + [CampaignEvent(CampaignUpdated, c.id, Some(announced))]
    ensures !Consistent(s')
  {
    assert s'.events[..|s.events|] == s.events;
    assert Fold(Empty, s'.events).cache[c.id].adIds == announced.adIds;
    assert View(s'.campaigns).cache[c.id].adIds == c.adIds;
  }

  /** The request changes what the replicas should hold and what the log tells them, but not both alike. */
  predicate Splits(s: Catalog, r: Request) {
    Next(s, r) != s &&
    match r
    case Create(_, _, _, _, publishFails) => publishFails
    case Update(id, c, _, _, publishFails) =>
      publishFails && (id in s.campaigns ==> Project(s.campaigns[id]) != Project(c.(id := id)))
    case Delete(_, _, publishFails) => publishFails
    case AddAd(_, _, _, _, updateFails, publishFails) => updateFails != publishFails
  }

  /** One request keeps replicas and store together if and only if it does not lose an event
      that would have changed a replica, and does not announce an ad whose link was lost. */
  lemma StepConsistent(s: Catalog, r: Request)
    requires Consistent(s)
    ensures Consistent(Next(s, r)) <==> !Splits(s, r)
  {
    if Next(s, r) != s {
      match r {
        case Create(c, id, now, repoFails, publishFails) =>
          StoredConsistent(s, CampaignCreated, c.(id := id, status := if c.status == "" then STATUS_DRAFT else c.status), publishFails);
        case Update(id, c, now, repoFails, publishFails) =>
          StoredConsistent(s, CampaignUpdated, c.(id := id), publishFails);
        case Delete(id, repoFails, publishFails) =>
          DeletedConsistent(s, id, publishFails);
        case AddAd(ad, id, getFails, createFails, updateFails, publishFails) =>
          LinkedConsistent(s, r);
      }
    }
  }

  /** Convergence: after any run of campaign requests that split nothing, and
      after any delivery of the whole log that keeps each campaign's order, the active set
      is exactly the stored active campaigns and the cache exactly the stored configurations. */
  lemma Convergence(requests: seq<Request>, delivery: seq<CampaignEvent>)
    requires forall i | 0 <= i < |requests| :: !Splits(Run(requests[..i]), requests[i])
    requires SamePerCampaign(Run(requests).events, delivery)
    ensures var r, campaigns := Fold(Empty, delivery), Run(requests).campaigns;
            && r == View(campaigns)
            && (forall id :: id in r.active <==> id in campaigns && campaigns[id].status == "active")
            && (forall id :: id in r.cache <==> id in campaigns)
            && (forall id | id in campaigns :: Mirrors(r.cache[id], campaigns[id]))
  {
    RunConsistent(requests);
    Confluence(Empty, Run(requests).events, delivery);
    ProjectionsMirror(Run(requests).campaigns);
  }

  lemma ProjectionsMirror(campaigns: map<string, Campaign>)
    ensures forall id | id in campaigns :: Mirrors(View(campaigns).cache[id], campaigns[id])
  {
  }

  lemma {:induction false} RunConsistent(requests: seq<Request>)
    requires forall i | 0 <= i < |requests| :: !Splits(Run(requests[..i]), requests[i])
    ensures Consistent(Run(requests))
  {
    if requests != [] {
      var n := |requests| - 1;
      assert forall i | 0 <= i < n :: requests[..n][..i] == requests[..i];
      RunConsistent(requests[..n]);
      StepConsistent(Run(requests[..n]), requests[n]);
    }
  }

  /** Every campaign that a replica ever hears of passed validation: budget and base bid are positive. */
  lemma {:induction false} PublishedCampaignsAreValid(requests: seq<Request>)
    ensures forall id | id in Run(requests).campaigns :: Positive(Run(requests).campaigns[id])
    ensures forall e | e in Run(requests).events && e.campaign.Some? :: Positive(e.campaign.value)
  {
    if requests != [] {
      PublishedCampaignsAreValid(requests[..|requests| - 1]);
      StepIsValid(Run(requests[..|requests| - 1]), requests[|requests| - 1]);
    }
  }

  lemma StepIsValid(s: Catalog, r: Request)
    requires forall id | id in s.campaigns :: Positive(s.campaigns[id])
    requires forall e | e in s.events && e.campaign.Some? :: Positive(e.campaign.value)
    ensures forall id | id in Next(s, r).campaigns :: Positive(Next(s, r).campaigns[id])
    ensures forall e | e in Next(s, r).events && e.campaign.Some? :: Positive(e.campaign.value)
  {
  }

  predicate Positive(c: Campaign) {
    c.dailyBudget > 0.0 && c.baseBid > 0.0
  }

  /** Hence the scoring cache never holds a base bid that is not positive. */
  lemma {:induction false} CachedBidsArePositive(log: seq<CampaignEvent>)
    requires forall e | e in log && e.campaign.Some? :: Positive(e.campaign.value)
    ensures forall id | id in Fold(Empty, log).cache :: Fold(Empty, log).cache[id].baseBid > 0.0
  {
    if log != [] {
      CachedBidsArePositive(log[..|log| - 1]);
    }
  }
}
