/** The budget service (internal/budget/service.go), command by command on its database. */
module Budget {
  import opened Wrappers
  import opened Models
  import opened BudgetStore
  import opened Pacing
  import Limiter
  import Redis

  /** Opens the key of the event's campaign, if there is a campaign and no key yet. */
  function Synced(daily: DailyKeys, e: CampaignEvent, now: int): DailyKeys {
    if e.campaign.None? then daily
    else Redis.SetNX(daily, e.campaign.value.id, e.campaign.value.dailyBudget, DAILY_TTL, now)
  }

  /** What a campaign event does to the daily keys. */
  function ApplyToBudget(daily: DailyKeys, e: CampaignEvent, now: int): DailyKeys {
    if e.eventType.CampaignDeleted? then Redis.Del(daily, e.campaignId) else Synced(daily, e, now)
  }

  // ----- What the contracts speak of -----

  /** No key but c's has changed. */
  ghost predicate OthersKept(before: DailyKeys, after: DailyKeys, c: string) {
    forall k | k != c :: (k in after <==> k in before) && (k in before ==> after[k] == before[k])
  }

  /** A live key stays; an absent one is opened with the daily budget for 26 hours. */
  ghost predicate Opens(before: DailyKeys, after: DailyKeys, c: Campaign, now: int) {
    && OthersKept(before, after, c.id) && c.id in after
    && after[c.id] == if Redis.Exists(before, c.id, now) then before[c.id]
                      else Redis.Stored(c.dailyBudget, Some(now + 26 * 3_600_000))
  }

  /** The event's own effect on the keys: a deletion removes one, an event without a campaign
      does nothing, any other opens the campaign's key unless it is live. */
  ghost predicate Handles(before: DailyKeys, after: DailyKeys, e: CampaignEvent, now: int) {
    if e.eventType.CampaignDeleted? then e.campaignId !in after && OthersKept(before, after, e.campaignId)
    else match e.campaign
      case None => after == before
      case Some(c) => Opens(before, after, c, now)
  }

  /** The bucket of the hour the clock shows has grown by the amount and lives two more hours,
      as far as the two commands did not fail; no other bucket has changed. */
  ghost predicate CountsHour(before: HourlyKeys, after: HourlyKeys, campaign: string, amount: real, faults: DeductFaults, now: int) {
    var key := (campaign, now / 3_600_000 % 24);
    && (forall k | k != key :: (k in after <==> k in before) && (k in before ==> after[k] == before[k]))
    && Redis.Amount(after, key, now) == Redis.Amount(before, key, now) + (if faults.increment then 0.0 else amount)
    && (Redis.Exists(after, key, now) <==> Redis.Exists(before, key, now) || !faults.increment)
    && (Redis.Exists(after, key, now) ==>
          after[key].expiresAt == if !faults.expire then Some(now + 2 * 3_600_000)
                                  else if Redis.Exists(before, key, now) then before[key].expiresAt else None)
  }

  lemma RecordedCounts(hourly: HourlyKeys, campaign: string, amount: real, faults: DeductFaults, now: int)
    ensures CountsHour(hourly, RecordedUnder(faults, hourly, campaign, amount, now), campaign, amount, faults, now)
  {
  }

  /** Which store commands of a budget check fail. */
  datatype CheckFaults = CheckFaults(read: bool, prune: bool, count: bool)

  class BudgetService {
    const db: Db
    const pacing: PacingController
    const limiter: Limiter.FrequencyLimiter

    constructor (db: Db, limiter: Limiter.FrequencyLimiter)
      requires limiter.now == db.now
      ensures this.db == db && this.limiter == limiter && Valid()
    {
      var controller := new PacingController(db);
      this.db := db;
      this.limiter := limiter;
      pacing := controller;
    }

    /** All parts look at the same clock. */
    ghost predicate Valid()
      reads db, limiter
    {
      pacing.db == db && limiter.now == db.now
    }

    /** The user has seen five impressions or more of the campaign in the last 24 hours. */
    predicate CapReached(campaign: string, user: string)
      reads db, limiter
    {
      Limiter.AtLeastFive(Limiter.Members(limiter.Key(campaign, user), db.now), db.now)
    }

    method SyncCampaign(event: CampaignEvent)
      modifies db`daily
      ensures db.daily == Synced(old(db.daily), event, db.now)
      ensures match event.campaign
              case None => db.daily == old(db.daily)
              case Some(c) => Opens(old(db.daily), db.daily, c, db.now)
    {
      if event.campaign.None? {
        return;
      }
      var c := event.campaign.value;
      var present := Redis.Exists(db.daily, c.id, db.now);
      if !present {
        db.daily := Redis.SetNX(db.daily, c.id, c.dailyBudget, DAILY_TTL, db.now);
      }
    }

    method HandleKafkaRecord(event: CampaignEvent)
      modifies db`daily
      ensures db.daily == ApplyToBudget(old(db.daily), event, db.now)
      ensures Handles(old(db.daily), db.daily, event, db.now)
    {
      if event.eventType.CampaignDeleted? {
        db.daily := Redis.Del(db.daily, event.campaignId);
        return;
      }
      SyncCampaign(event);
    }

    /** A bid passes exactly when the key can be read and holds at least its amount, and the
        user's cap is not reached; an anonymous user and a failing cap check count as not capped. */
    method CheckBudget(campaign: string, user: string, bid: real, faults: CheckFaults)
      returns (allowed: bool, reason: string, remaining: real, multiplier: real)
      requires Valid()
      modifies limiter`keys
      ensures Valid()
      ensures var balance := Redis.Get(db.daily, campaign, db.now);
              && (allowed <==> !faults.read && balance.Some? && balance.value >= bid
                               && !(user != "" && !faults.prune && !faults.count && old(CapReached(campaign, user))))
              && reason == (if faults.read then "internal error"
                            else if balance.None? then "no budget configured"
                            else if balance.value < bid then "insufficient daily budget"
                            else if allowed then "" else "frequency cap reached")
              && remaining == (if faults.read then 0.0 else balance.GetOr(0.0))
              && limiter.Key(campaign, user)
                 == if !faults.read && balance.Some? && balance.value >= bid && user != "" && !faults.prune
                    then Limiter.Pruned(old(limiter.Key(campaign, user)), db.now) else old(limiter.Key(campaign, user))
      ensures if allowed
              then multiplier == CampaignMultiplier(db.hourly, campaign, db.now, remaining)
                   && Throttles(multiplier, ThreeBuckets(db.hourly, campaign, db.now), remaining, MinutesLeft(db.now))
              else multiplier == 0.0
      ensures forall c, u | (c, u) != (campaign, user) :: limiter.Key(c, u) == old(limiter.Key(c, u))
      ensures forall c, u :: CapReached(c, u) == old(CapReached(c, u))
    {
      Limiter.PrunedKeepsRecent(limiter.Key(campaign, user), db.now);
      Limiter.RecentStaysCapped(Limiter.Members(limiter.Key(campaign, user), db.now),
                                Limiter.Members(Limiter.Pruned(limiter.Key(campaign, user), db.now), db.now), db.now);
      if faults.read {
        return false, "internal error", 0.0, 0.0;
      }
      var value := Redis.Get(db.daily, campaign, db.now);
      if value.None? {
        return false, "no budget configured", 0.0, 0.0;
      }
      remaining := value.value;
      if remaining < bid {
        return false, "insufficient daily budget", remaining, 0.0;
      }
      if user != "" {
        var capped, failed := limiter.IsCapped(campaign, user, faults.prune, faults.count);
        if !failed && capped {
          return false, "frequency cap reached", remaining, 0.0;
        }
      }
      multiplier := pacing.GetMultiplier(campaign, remaining);
      return true, "", remaining, multiplier;
    }

    /** The Lua script, run atomically by the server. */
    method RunDeductScript(campaign: string, amount: real) returns (code: int)
      modifies db`daily
      ensures code == 1 <==> old(Redis.Amount(db.daily, campaign, db.now)) >= amount
      ensures code == 1 ==> Redis.Amount(db.daily, campaign, db.now) == old(Redis.Amount(db.daily, campaign, db.now)) - amount
      ensures code != 1 ==> db.daily == old(db.daily)
      ensures OthersKept(old(db.daily), db.daily, campaign)
      ensures code == 1 ==>
                campaign in db.daily
                && db.daily[campaign].expiresAt
                   == if old(Redis.Exists(db.daily, campaign, db.now)) then old(db.daily)[campaign].expiresAt else None
      ensures (db.daily, code == 1) == Deducted(old(db.daily), campaign, amount, db.now)
    {
      var current := Redis.Get(db.daily, campaign, db.now).GetOr(0.0);
      if current < amount {
        return 0;
      }
      db.daily := Redis.IncrByFloat(db.daily, campaign, -amount, db.now);
      return 1;
    }

    /** Reports failure only of the script; failures after it are ignored. */
    method DeductBudget(campaign: string, amount: real, faults: DeductFaults) returns (success: bool, remaining: real)
      modifies db`daily, db`hourly
      ensures success <==> !faults.script && old(Redis.Amount(db.daily, campaign, db.now)) >= amount
      ensures success ==>
                && remaining == (if faults.read then 0.0 else Redis.Amount(db.daily, campaign, db.now))
                && Redis.Amount(db.daily, campaign, db.now) == old(Redis.Amount(db.daily, campaign, db.now)) - amount
                && db.daily == Deducted(old(db.daily), campaign, amount, db.now).0
                && db.hourly == RecordedUnder(faults, old(db.hourly), campaign, amount, db.now)
                && CountsHour(old(db.hourly), db.hourly, campaign, amount, faults, db.now)
      ensures OthersKept(old(db.daily), db.daily, campaign)
      ensures !success ==> remaining == 0.0 && db.daily == old(db.daily) && db.hourly == old(db.hourly)
    {
      if faults.script {
        return false, 0.0;
      }
      var result := RunDeductScript(campaign, amount);
      if result != 1 {
        return false, 0.0;
      }
      remaining := 0.0;
      if !faults.read {
        remaining := Redis.Get(db.daily, campaign, db.now).GetOr(0.0);
      }
      RecordedCounts(db.hourly, campaign, amount, faults, db.now);
      hide CountsHour;
      var hourKey := (campaign, HourOfDay(db.now));
      if !faults.increment {
        db.hourly := Redis.IncrByFloat(db.hourly, hourKey, amount, db.now);
      }
      if !faults.expire {
        db.hourly := Redis.Expire(db.hourly, hourKey, HOURLY_TTL, db.now);
      }
      success := true;
    }
  }

  /** Hearing create and update events again never alters a live key, however often. */
  lemma {:induction false} ReplayKeepsLiveKeys(daily: DailyKeys, events: seq<CampaignEvent>, c: string, now: int)
    requires forall i | 0 <= i < |events| :: !events[i].eventType.CampaignDeleted?
    requires Redis.Exists(daily, c, now)
    ensures var after := Replayed(daily, events, now); c in after && after[c] == daily[c]
  {
    if events != [] {
      ReplayKeepsLiveKeys(daily, events[..|events| - 1], c, now);
    }
  }

  function Replayed(daily: DailyKeys, events: seq<CampaignEvent>, now: int): DailyKeys {
    if events == [] then daily
    else ApplyToBudget(Replayed(daily, events[..|events| - 1], now), events[|events| - 1], now)
  }
}
