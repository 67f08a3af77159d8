/** Shared records (pkg/models/campaign.go). Times are Unix milliseconds. */
module Models {
  import opened Wrappers

  const STATUS_ACTIVE := "active"
  const STATUS_DRAFT := "draft"

  datatype Targeting = Targeting(
    ageMin: int, ageMax: int, genders: seq<string>, interests: seq<string>, geos: seq<string>,
    deviceTypes: seq<string>, osTypes: seq<string>, adTypes: seq<string>)

  datatype Campaign = Campaign(
    id: string, advertiserId: string, name: string, status: string, bidStrategy: string,
    dailyBudget: real, totalBudget: real, bidCeiling: real, baseBid: real,
    targeting: Targeting, adIds: seq<string>, startDate: int, endDate: int, dayParting: seq<int>)

  datatype Ad = Ad(
    id: string, campaignId: string, advertiserId: string, adType: string, title: string, landingUrl: string)

  datatype EventType = CampaignCreated | CampaignUpdated | CampaignDeleted

  datatype CampaignEvent = CampaignEvent(eventType: EventType, campaignId: string, campaign: Option<Campaign>)

  /** The cached form used on the hot path; dates are in seconds. */
  datatype CampaignCache = CampaignCache(
    id: string, status: string, dailyBudget: real, totalBudget: real, bidCeiling: real, baseBid: real,
    bidStrategy: string, targeting: Targeting, adIds: seq<string>, startDate: int, endDate: int)

  /** The entry holds what the hot path needs of the campaign, field by field. */
  predicate Mirrors(entry: CampaignCache, c: Campaign) {
    && entry.id == c.id && entry.status == c.status
    && entry.dailyBudget == c.dailyBudget && entry.totalBudget == c.totalBudget
    && entry.bidCeiling == c.bidCeiling && entry.baseBid == c.baseBid && entry.bidStrategy == c.bidStrategy
    && entry.targeting == c.targeting && entry.adIds == c.adIds
    && entry.startDate * 1000 <= c.startDate < (entry.startDate + 1) * 1000
    && entry.endDate * 1000 <= c.endDate < (entry.endDate + 1) * 1000
  }

  function Project(c: Campaign): CampaignCache {
    CampaignCache(c.id, c.status, c.dailyBudget, c.totalBudget, c.bidCeiling, c.baseBid,
                  c.bidStrategy, c.targeting, c.adIds, c.startDate / 1000, c.endDate / 1000)
  }
}
