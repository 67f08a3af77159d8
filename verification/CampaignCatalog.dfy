/** The campaign service (internal/campaign/service.go): the source of the event log. */
module CampaignCatalog {
  import opened Wrappers
  import opened Models

  datatype Error = BadRequest(message: string) | NotFound | Backend

  datatype Result<+T> = Ok(value: T) | Err(error: Error)

  /** What the service writes: the documents and the campaign-updates log. */
  datatype Catalog = Catalog(campaigns: map<string, Campaign>, ads: map<string, Ad>, events: seq<CampaignEvent>)

  /** The mutating requests, with the identifiers drawn and the calls that fail. A failed
      publication is logged by the source and otherwise ignored. */
  datatype Request =
    | Create(campaign: Campaign, id: string, now: int, repoFails: bool, publishFails: bool)
    | Update(id: string, campaign: Campaign, now: int, repoFails: bool, publishFails: bool)
    | Delete(id: string, repoFails: bool, publishFails: bool)
    | AddAd(ad: Ad, id: string, getFails: bool, createFails: bool, updateFails: bool, publishFails: bool)

  function Validate(c: Campaign, now: int): Option<Error> {
    if c.name == "" then Some(BadRequest("name required"))
    else if c.advertiserId == "" then Some(BadRequest("advertiser_id required"))
    else if c.dailyBudget <= 0.0 then Some(BadRequest("daily_budget must be positive"))
    else if c.baseBid <= 0.0 then Some(BadRequest("base_bid must be positive"))
    else if c.endDate < now then Some(BadRequest("end_date must be in the future"))
    else None
  }

  function Published(events: seq<CampaignEvent>, eventType: EventType, id: string, c: Option<Campaign>, fails: bool):
    seq<CampaignEvent>
  {
    if fails then events else events + [CampaignEvent(eventType, id, c)]
  }

  /** An upsert and its event, as one step. */
  function Stored(s: Catalog, eventType: EventType, c: Campaign, publishFails: bool): Catalog {
    s.(campaigns := s.campaigns[c.id := c], events := Published(s.events, eventType, c.id, Some(c), publishFails))
  }

  function Next(s: Catalog, r: Request): Catalog {
    match r
    case Create(c, id, now, repoFails, publishFails) =>
      if Validate(c, now).Some? || repoFails || id in s.campaigns then s
      else Stored(s, CampaignCreated, c.(id := id, status := if c.status == "" then STATUS_DRAFT else c.status), publishFails)
    case Update(id, c, now, repoFails, publishFails) =>
      if Validate(c, now).Some? || repoFails || id !in s.campaigns then s
      else Stored(s, CampaignUpdated, c.(id := id), publishFails)
    case Delete(id, repoFails, publishFails) =>
      if repoFails || id !in s.campaigns then s
      else s.(campaigns := s.campaigns - {id}, events := Published(s.events, CampaignDeleted, id, None, publishFails))
    case AddAd(ad, id, getFails, createFails, updateFails, publishFails) =>
      if ad.landingUrl == "" || getFails || ad.campaignId !in s.campaigns || createFails || id in s.ads then s
      else
        var c := s.campaigns[ad.campaignId];
        var linked := c.(adIds := c.adIds + [id]);
        Catalog(if updateFails then s.campaigns else s.campaigns[linked.id := linked],
                s.ads[id := ad.(id := id)],
                Published(s.events, CampaignUpdated, linked.id, Some(linked), publishFails))
  }

  function Run(requests: seq<Request>): Catalog {
    if requests == [] then Catalog(map[], map[], [])
    else Next(Run(requests[..|requests| - 1]), requests[|requests| - 1])
  }

  /** A refusal names the first rule that the campaign breaks. */
  lemma ValidationNamesTheRule(c: Campaign, now: int)
    ensures Validate(c, now).None? <==> Acceptable(c, now)
    ensures Validate(c, now).Some? ==> Validate(c, now).value.BadRequest?
    ensures var message := if Validate(c, now).Some? then Validate(c, now).value.message else "";
            && (message == "name required" <==> c.name == "")
            && (message == "advertiser_id required" ==> c.advertiserId == "")
            && (message == "daily_budget must be positive" ==> c.dailyBudget <= 0.0)
            && (message == "base_bid must be positive" ==> c.baseBid <= 0.0)
            && (message == "end_date must be in the future" ==> c.endDate < now)
            && (message == "" || message == "name required" || message == "advertiser_id required"
                || message == "daily_budget must be positive" || message == "base_bid must be positive"
                || message == "end_date must be in the future")
  {
  }

  // ----- What the contracts speak of -----

  /** A campaign the service accepts. */
  predicate Acceptable(c: Campaign, now: int) {
    c.name != "" && c.advertiserId != "" && c.dailyBudget > 0.0 && c.baseBid > 0.0 && c.endDate >= now
  }

  /** What a publication adds to the log. */
  function Announcement(eventType: EventType, id: string, c: Option<Campaign>, fails: bool): seq<CampaignEvent> {
    if fails then [] else [CampaignEvent(eventType, id, c)]
  }

  class CampaignService {
    var campaigns: map<string, Campaign>
    var ads: map<string, Ad>
    var events: seq<CampaignEvent>

    constructor ()
      ensures Contents() == Run([])
    {
      campaigns, ads, events := map[], map[], [];
    }

    ghost function Contents(): Catalog
      reads this
    {
      Catalog(campaigns, ads, events)
    }

    /** Every stored campaign is filed under its own identifier. */
    ghost predicate Valid()
      reads this
    {
      forall id | id in campaigns :: campaigns[id].id == id
    }

    /** Appends the event to the log; a failure is swallowed. */
    method PublishEvent(eventType: EventType, campaignId: string, campaign: Option<Campaign>, fails: bool)
      modifies this`events
      ensures events == Published(old(events), eventType, campaignId, campaign, fails)
    {
      if !fails {
        events := events + [CampaignEvent(eventType, campaignId, campaign)];
      }
    }

    method CreateCampaign(req: Campaign, uuid: string, now: int, repoFails: bool, publishFails: bool) returns (r: Result<Campaign>)
      requires Valid()
      modifies this
      ensures Valid() && Contents() == Next(old(Contents()), Create(req, uuid, now, repoFails, publishFails))
      ensures r.Ok? <==> Acceptable(req, now) && !repoFails && uuid !in old(campaigns)
      ensures !Acceptable(req, now) ==> r.error.BadRequest?
      ensures r.Ok? ==>
                && r.value == req.(id := uuid, status := if req.status == "" then "draft" else req.status)
                && campaigns == old(campaigns)[uuid := r.value] && ads == old(ads)
                && events == old(events) + Announcement(CampaignCreated, uuid, Some(r.value), publishFails)
      ensures r.Err? ==> Contents() == old(Contents())
    {
      var invalid := Validate(req, now);
      if invalid.Some? {
        return Err(invalid.value);
      }
      var c := req.(id := uuid);
      if c.status == "" {
        c := c.(status := STATUS_DRAFT);
      }
      if repoFails || c.id in campaigns {
        return Err(Backend);
      }
      campaigns := campaigns[c.id := c];
      PublishEvent(CampaignCreated, c.id, Some(c), publishFails);
      return Ok(c);
    }

    method UpdateCampaign(id: string, req: Campaign, now: int, repoFails: bool, publishFails: bool) returns (r: Result<Campaign>)
      requires Valid()
      modifies this
      ensures Valid() && Contents() == Next(old(Contents()), Update(id, req, now, repoFails, publishFails))
      ensures r.Ok? <==> Acceptable(req, now) && !repoFails && id in old(campaigns)
      ensures !Acceptable(req, now) ==> r.error.BadRequest?
      ensures Acceptable(req, now) && !repoFails && id !in old(campaigns) ==> r.error.NotFound?
      ensures r.Ok? ==>
                && r.value == req.(id := id) && campaigns == old(campaigns)[id := r.value] && ads == old(ads)
                && events == old(events) + Announcement(CampaignUpdated, id, Some(r.value), publishFails)
      ensures r.Err? ==> Contents() == old(Contents())
    {
      var invalid := Validate(req, now);
      if invalid.Some? {
        return Err(invalid.value);
      }
      var c := req.(id := id);
      if repoFails {
        return Err(Backend);
      }
      if id !in campaigns {
        return Err(NotFound);
      }
      campaigns := campaigns[id := c];
      PublishEvent(CampaignUpdated, id, Some(c), publishFails);
      return Ok(c);
    }

    method DeleteCampaign(id: string, repoFails: bool, publishFails: bool) returns (r: Result<()>)
      requires Valid()
      modifies this
      ensures Valid() && Contents() == Next(old(Contents()), Delete(id, repoFails, publishFails))
      ensures r.Ok? <==> id in old(campaigns) && !repoFails
      ensures r.Ok? ==>
                && campaigns == old(campaigns) - {id} && ads == old(ads)
                && events == old(events) + Announcement(CampaignDeleted, id, None, publishFails)
      ensures r.Err? ==> Contents() == old(Contents())
    {
      if repoFails {
        return Err(Backend);
      }
      if id !in campaigns {
        return Err(NotFound);
      }
      campaigns := campaigns - {id};
      PublishEvent(CampaignDeleted, id, None, publishFails);
      return Ok(());
    }

    /** The result of the campaign update is ignored: the event is published either way. */
    method CreateAd(req: Ad, uuid: string, getFails: bool, createFails: bool, updateFails: bool, publishFails: bool)
      returns (r: Result<Ad>)
      requires Valid()
      modifies this
      ensures Valid() && Contents() == Next(old(Contents()), AddAd(req, uuid, getFails, createFails, updateFails, publishFails))
      ensures r.Ok? <==> req.landingUrl != "" && !getFails && req.campaignId in old(campaigns) && !createFails && uuid !in old(ads)
      ensures r.Ok? ==>
                var linked := old(campaigns)[req.campaignId].(adIds := old(campaigns)[req.campaignId].adIds + [uuid]);
                && r.value == req.(id := uuid) && ads == old(ads)[uuid := r.value]
                && campaigns == (if updateFails then old(campaigns) else old(campaigns)[req.campaignId := linked])
                && events == old(events) + Announcement(CampaignUpdated, req.campaignId, Some(linked), publishFails)
      ensures r.Err? ==> Contents() == old(Contents())
    {
      if req.landingUrl == "" {
        return Err(BadRequest("landing_url required"));
      }
      var ad := req.(id := uuid);
      if getFails {
        return Err(Backend);
      }
      if ad.campaignId !in campaigns {
        return Err(NotFound);
      }
      var campaign := campaigns[ad.campaignId];
      if createFails || ad.id in ads {
        return Err(Backend);
      }
      ads := ads[ad.id := ad];
      campaign := campaign.(adIds := campaign.adIds + [ad.id]);
      if !updateFails {
        campaigns := campaigns[campaign.id := campaign];
      }
      PublishEvent(CampaignUpdated, campaign.id, Some(campaign), publishFails);
      return Ok(ad);
    }
  }
}
