/** The budget service's Redis database (key formats of internal/budget/service.go). */
module BudgetStore {
  import opened Wrappers
  import Redis

  type DailyKeys = map<string, Redis.Stored<real>>          // budget:daily:<campaign>
  type HourlyKeys = map<(string, int), Redis.Stored<real>>  // budget:hourly:<campaign>:<hour>

  const DAILY_TTL := 26 * Redis.HOUR
  const HOURLY_TTL := 2 * Redis.HOUR

  /** Hours since the epoch; the wall clock shows this modulo 24. */
  function HourIndex(now: int): int {
    now / Redis.HOUR
  }

  function HourOfDay(now: int): int {
    HourIndex(now) % 24
  }

  function MinuteOfHour(now: int): int {
    now % Redis.HOUR / Redis.MINUTE
  }

  /** The bucket pacing reads for i hours ago. */
  function HourBack(now: int, i: int): int {
    (HourOfDay(now) - i + 24) % 24
  }

  /** Which store commands of a deduct call fail. Only the script's failure is reported; the
      others are ignored. */
  datatype DeductFaults = DeductFaults(script: bool, read: bool, increment: bool, expire: bool)

  /** What a successful deduct call does to the hourly buckets when commands may fail. */
  function RecordedUnder(faults: DeductFaults, hourly: HourlyKeys, campaign: string, amount: real, now: int): HourlyKeys {
    var key := (campaign, HourOfDay(now));
    var counted := if faults.increment then hourly else Redis.IncrByFloat(hourly, key, amount, now);
    if faults.expire then counted else Redis.Expire(counted, key, HOURLY_TTL, now)
  }

  /** The same when no command fails: increment, then expiry. */
  function Recorded(hourly: HourlyKeys, campaign: string, amount: real, now: int): HourlyKeys {
    RecordedUnder(DeductFaults(false, false, false, false), hourly, campaign, amount, now)
  }

  /** The Lua script: the new keys, and whether the deduction was made. */
  function Deducted(daily: DailyKeys, campaign: string, amount: real, now: int): (DailyKeys, bool) {
    if Redis.Amount(daily, campaign, now) < amount then (daily, false)
    else (Redis.IncrByFloat(daily, campaign, -amount, now), true)
  }

  /** The first test of CheckBudget: the key is there and holds at least the bid. */
  predicate Affordable(daily: DailyKeys, campaign: string, bid: real, now: int) {
    Redis.Exists(daily, campaign, now) && daily[campaign].value >= bid
  }

  class Db {
    var now: int
    var daily: DailyKeys
    var hourly: HourlyKeys
  }
}
