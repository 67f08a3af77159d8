/**
 Budget pacing (internal/budget/pacing.go, README.md:670-686).

 In the source, GetMultiplier and getPacingInfo call each other: pacing.go:97 computes a
 field of the record that GetMultiplier is waiting for. CallsNeverReturn below shows what
 that does. Everything else models the form the README describes, in which the multiplier
 is a function of the two rates.
 */
module Pacing {
  import opened Wrappers
  import Redis
  import opened BudgetStore
  import Ring

  datatype PacingInfo = PacingInfo(
    spendRate: real, targetRate: real, pacingMultiplier: real, dailySpendSoFar: real, dailyBudget: real)

  function Multiplier(spendRate: real, targetRate: real): real {
    if targetRate == 0.0 then 1.0
    else
      var ratio := spendRate / targetRate;
      if ratio > 1.2 then 0.3
      else if ratio > 1.05 then 0.7
      else 1.0
  }

  function RemainingHours(now: int): real {
    var hours := (24 - HourOfDay(now)) as real - MinuteOfHour(now) as real / 60.0;
    if hours <= 0.0 then 0.5 else hours
  }

  /** What pacing reads of the last n hours. */
  function RecentSpend(hourly: HourlyKeys, campaign: string, now: int, n: nat): real {
    if n == 0 then 0.0
    else RecentSpend(hourly, campaign, now, n - 1)
         + Redis.Amount(hourly, (campaign, HourBack(now, n - 1)), now)
  }

  /** The multiplier of a campaign whose budget key is present. */
  function CampaignMultiplier(hourly: HourlyKeys, campaign: string, now: int, remaining: real): real {
    Multiplier(RecentSpend(hourly, campaign, now, 3) / 3.0, remaining / RemainingHours(now))
  }

  // ----- What the contracts speak of -----

  /** The minutes left until midnight. */
  function MinutesLeft(now: int): int {
    1440 - now / 60_000 % 1440
  }

  /** The buckets of this hour and the two before. */
  function ThreeBuckets(hourly: HourlyKeys, campaign: string, now: int): real {
    var hour := now / 3_600_000;
    Redis.Amount(hourly, (campaign, hour % 24), now)
    + Redis.Amount(hourly, (campaign, (hour - 1) % 24), now)
    + Redis.Amount(hourly, (campaign, (hour - 2) % 24), now)
  }

  /** m is the multiplier the README documents for these two rates. */
  predicate InBand(m: real, spendRate: real, targetRate: real) {
    m == if (targetRate > 0.0 && spendRate > 1.2 * targetRate) || (targetRate < 0.0 && spendRate < 1.2 * targetRate) then 0.3
         else if (targetRate > 0.0 && spendRate > 1.05 * targetRate) || (targetRate < 0.0 && spendRate < 1.05 * targetRate) then 0.7
         else 1.0
  }

  /** m is that multiplier for what was spent in three hours, what remains of the budget and
      the minutes left of the day: 1.2 and 1.05 times remaining/(minutes/60) against spend/3. */
  predicate Throttles(m: real, spend: real, remaining: real, minutes: int) {
    var x := spend * minutes as real;
    m == if (remaining > 0.0 && x > 216.0 * remaining) || (remaining < 0.0 && x < 216.0 * remaining) then 0.3
         else if (remaining > 0.0 && x > 189.0 * remaining) || (remaining < 0.0 && x < 189.0 * remaining) then 0.7
         else 1.0
  }

  /** The two rates per hour and the multiplier, for the same figures. */
  predicate Shows(info: PacingInfo, spend: real, remaining: real, minutes: int) {
    && info.spendRate * 3.0 == spend
    && info.targetRate * minutes as real == 60.0 * remaining
    && Throttles(info.pacingMultiplier, spend, remaining, minutes)
  }

  class PacingController {
    const db: Db

    constructor (db: Db)
      ensures this.db == db
    {
      this.db := db;
    }

    method GetPacingInfo(campaign: string, remaining: real) returns (info: Option<PacingInfo>)
      ensures info.Some? <==> Redis.Exists(db.daily, campaign, db.now)
      ensures info.Some? ==>
                && info.value.spendRate == RecentSpend(db.hourly, campaign, db.now, 3) / 3.0
                && info.value.targetRate == remaining / RemainingHours(db.now)
                && info.value.pacingMultiplier == CampaignMultiplier(db.hourly, campaign, db.now, remaining)
                && info.value.dailyBudget == Redis.Amount(db.daily, campaign, db.now)
                && info.value.dailySpendSoFar + remaining == info.value.dailyBudget
      ensures info.Some? ==> Shows(info.value, ThreeBuckets(db.hourly, campaign, db.now), remaining, MinutesLeft(db.now))
    {
      var dailyBudget := Redis.Get(db.daily, campaign, db.now);
      if dailyBudget.None? {
        return None;
      }
      hide ThreeBuckets, MinutesLeft, Shows, Multiplier;
      var currentHour := HourOfDay(db.now);
      var minutesIntoHour := MinuteOfHour(db.now) as real;
      var recentSpend := 0.0;
      for i := 0 to 3
        invariant recentSpend == RecentSpend(db.hourly, campaign, db.now, i)
      {
        var h := (currentHour - i + 24) % 24;
        recentSpend := recentSpend + Redis.Amount(db.hourly, (campaign, h), db.now);
      }
      var spendRate := recentSpend / 3.0;
      var remainingHours := (24 - currentHour) as real - minutesIntoHour / 60.0;
      if remainingHours <= 0.0 {
        remainingHours := 0.5;
      }
      var targetRate := remaining / remainingHours;
      info := Some(PacingInfo(spendRate, targetRate, Multiplier(spendRate, targetRate),
                              dailyBudget.value - remaining, dailyBudget.value));
      InfoOfDatabase(info.value, db.hourly, campaign, db.now, remaining);
    }

    method GetMultiplier(campaign: string, remaining: real) returns (multiplier: real)
      ensures multiplier == if Redis.Exists(db.daily, campaign, db.now)
                            then CampaignMultiplier(db.hourly, campaign, db.now, remaining) else 1.0
      ensures if Redis.Exists(db.daily, campaign, db.now)
              then Throttles(multiplier, ThreeBuckets(db.hourly, campaign, db.now), remaining, MinutesLeft(db.now))
              else multiplier == 1.0
    {
      var info := GetPacingInfo(campaign, remaining);
      if info.None? {
        return 1.0;
      }
      multiplier := Multiplier(info.value.spendRate, info.value.targetRate);
    }
  }

  // ----- Theorems -----

  /** The remaining hours are the whole minutes left until midnight, never none. */
  lemma RemainingHoursPositive(now: int)
    ensures 0.0 < RemainingHours(now) <= 24.0
    ensures RemainingHours(now) * 60.0 == MinutesLeft(now) as real
  {
    MinuteOfDay(now);
    var h, m := HourOfDay(now), MinuteOfHour(now);
    assert RemainingHours(now) == (24 - h) as real - m as real / 60.0;
  }

  lemma MinuteOfDay(now: int)
    ensures 0 <= HourOfDay(now) < 24 && 0 <= MinuteOfHour(now) < 60
    ensures now / 60_000 % 1440 == 60 * HourOfDay(now) + MinuteOfHour(now)
  {
    MinutesInHours(now);
    MinutesInDays(HourIndex(now), MinuteOfHour(now));
  }

  lemma MinutesInHours(now: int)
    ensures now / 60_000 == 60 * HourIndex(now) + MinuteOfHour(now)
    ensures 0 <= MinuteOfHour(now) < 60
  {
    assert now == Redis.HOUR * HourIndex(now) + now % Redis.HOUR;
  }

  lemma MinutesInDays(hour: int, minute: int)
    requires 0 <= minute < 60
    ensures (60 * hour + minute) % 1440 == 60 * (hour % 24) + minute
  {
    var d := hour / 24;
    assert 60 * hour + minute == 1440 * d + (60 * (hour % 24) + minute);
  }

  lemma RatioExceeds(spend: real, target: real, k: real)
    requires target > 0.0
    ensures spend / target > k <==> spend > k * target
  {
    var q := spend / target;
    assert q * target == spend;
    if q > k {
      assert (q - k) * target > 0.0;
    } else {
      assert (k - q) * target >= 0.0;
    }
  }

  /** The README's table: throttling starts at 1.05 and tightens at 1.2 times the target. */
  lemma MultiplierBands(spendRate: real, targetRate: real)
    requires targetRate > 0.0
    ensures Multiplier(spendRate, targetRate) == 0.3 <==> spendRate > 1.2 * targetRate
    ensures Multiplier(spendRate, targetRate) == 0.7 <==> 1.05 * targetRate < spendRate <= 1.2 * targetRate
    ensures Multiplier(spendRate, targetRate) == 1.0 <==> spendRate <= 1.05 * targetRate
  {
    RatioExceeds(spendRate, targetRate, 1.2);
    RatioExceeds(spendRate, targetRate, 1.05);
  }

  /** The same for every pair of rates, also when nothing or less than nothing remains. */
  lemma MultiplierInBand(spendRate: real, targetRate: real)
    ensures InBand(Multiplier(spendRate, targetRate), spendRate, targetRate)
  {
    if targetRate > 0.0 {
      MultiplierBands(spendRate, targetRate);
    } else if targetRate < 0.0 {
      RatioExceeds(-spendRate, -targetRate, 1.2);
      RatioExceeds(-spendRate, -targetRate, 1.05);
      NegatedRatio(spendRate, targetRate);
    }
  }

  lemma NegatedRatio(x: real, y: real)
    requires y != 0.0
    ensures x / y == (-x) / (-y)
  {
    var q := x / y;
    assert q * y == x;
    assert q * (-y) == -x;
  }

  /** The two rates in terms of what the database holds. */
  lemma RatesOfDatabase(hourly: HourlyKeys, campaign: string, now: int, remaining: real)
    ensures RecentSpend(hourly, campaign, now, 3) == ThreeBuckets(hourly, campaign, now)
    ensures remaining / RemainingHours(now) * MinutesLeft(now) as real == 60.0 * remaining
  {
    ThreeHours(hourly, campaign, now);
    BucketsBack(now);
    RemainingHoursPositive(now);
    var hours := RemainingHours(now);
    var rate := remaining / hours;
    assert rate * hours == remaining;
    assert rate * (hours * 60.0) == 60.0 * remaining;
  }

  lemma BucketsBack(now: int)
    ensures HourBack(now, 0) == now / 3_600_000 % 24
    ensures HourBack(now, 1) == (now / 3_600_000 - 1) % 24
    ensures HourBack(now, 2) == (now / 3_600_000 - 2) % 24
  {
    Ring.HourBackMod(now, 0);
    Ring.HourBackMod(now, 1);
    Ring.HourBackMod(now, 2);
  }

  /** A campaign's multiplier is decided by three buckets, the remaining budget and the clock. */
  lemma MultiplierOfDatabase(hourly: HourlyKeys, campaign: string, now: int, remaining: real)
    ensures Throttles(CampaignMultiplier(hourly, campaign, now, remaining), ThreeBuckets(hourly, campaign, now),
                      remaining, MinutesLeft(now))
  {
    hide RecentSpend, RemainingHours, ThreeBuckets, MinutesLeft, Multiplier, InBand, Throttles;
    RatesOfDatabase(hourly, campaign, now, remaining);
    RemainingHoursPositive(now);
    MultiplierInBand(RecentSpend(hourly, campaign, now, 3) / 3.0, remaining / RemainingHours(now));
    BandsScale(CampaignMultiplier(hourly, campaign, now, remaining), ThreeBuckets(hourly, campaign, now), remaining,
               RemainingHours(now), MinutesLeft(now));
  }

  lemma InfoOfDatabase(info: PacingInfo, hourly: HourlyKeys, campaign: string, now: int, remaining: real)
    requires info.spendRate == RecentSpend(hourly, campaign, now, 3) / 3.0
    requires info.targetRate == remaining / RemainingHours(now)
    requires info.pacingMultiplier == CampaignMultiplier(hourly, campaign, now, remaining)
    ensures Shows(info, ThreeBuckets(hourly, campaign, now), remaining, MinutesLeft(now))
  {
    hide RecentSpend, RemainingHours, ThreeBuckets, MinutesLeft, CampaignMultiplier, Throttles;
    RatesOfDatabase(hourly, campaign, now, remaining);
    MultiplierOfDatabase(hourly, campaign, now, remaining);
  }

  lemma BandsScale(m: real, spend: real, remaining: real, hours: real, minutes: int)
    requires hours > 0.0 && hours * 60.0 == minutes as real
    requires InBand(m, spend / 3.0, remaining / hours)
    ensures Throttles(m, spend, remaining, minutes)
  {
    var rate, x := remaining / hours, spend * minutes as real;
    CrossMultiplied(spend, remaining, hours, rate, x, 1.2, 216.0);
    CrossMultiplied(spend, remaining, hours, rate, x, 1.05, 189.0);
  }

  lemma CrossMultiplied(spend: real, remaining: real, hours: real, rate: real, x: real, k: real, factor: real)
    requires hours > 0.0 && rate * hours == remaining && x == spend * (hours * 60.0) && factor == 180.0 * k
    ensures spend / 3.0 > k * rate <==> x > factor * remaining
    ensures spend / 3.0 < k * rate <==> x < factor * remaining
    ensures (rate > 0.0 <==> remaining > 0.0) && (rate < 0.0 <==> remaining < 0.0)
  {
    var d := spend / 3.0 - k * rate;
    SameSign(rate, hours);
    SameSign(d, hours);
    assert d * hours == (spend * hours) / 3.0 - k * remaining by {
      assert (k * rate) * hours == k * (rate * hours);
    }
    assert x == 60.0 * (spend * hours);
    assert 180.0 * (d * hours) == x - factor * remaining;
  }

  lemma SameSign(x: real, y: real)
    requires y > 0.0
    ensures (x * y > 0.0 <==> x > 0.0) && (x * y < 0.0 <==> x < 0.0)
  {
  }

  lemma MultiplierAntitone(spend: real, target: real, spend': real, target': real)
    requires 0.0 <= spend <= spend' && 0.0 < target' <= target
    ensures Multiplier(spend', target') <= Multiplier(spend, target)
  {
    MultiplierBands(spend, target);
    MultiplierBands(spend', target');
  }

  /** Recording a deduction raises what pacing reads by exactly the amount. */
  lemma RecordingRaisesRecentSpend(hourly: HourlyKeys, campaign: string, amount: real, now: int)
    ensures RecentSpend(Recorded(hourly, campaign, amount, now), campaign, now, 3)
            == RecentSpend(hourly, campaign, now, 3) + amount
  {
    var after := Recorded(hourly, campaign, amount, now);
    HoursApart(now);
    forall i | 0 <= i < 3
      ensures Redis.Amount(after, (campaign, HourBack(now, i)), now)
              == Redis.Amount(hourly, (campaign, HourBack(now, i)), now) + (if i == 0 then amount else 0.0)
    {
    }
    ThreeHours(hourly, campaign, now);
    ThreeHours(after, campaign, now);
  }

  lemma HoursApart(now: int)
    ensures HourBack(now, 0) == HourOfDay(now)
    ensures HourBack(now, 1) != HourOfDay(now) && HourBack(now, 2) != HourOfDay(now)
  {
  }

  lemma ThreeHours(hourly: HourlyKeys, campaign: string, now: int)
    ensures RecentSpend(hourly, campaign, now, 3)
            == Redis.Amount(hourly, (campaign, HourBack(now, 0)), now)
               + Redis.Amount(hourly, (campaign, HourBack(now, 1)), now)
               + Redis.Amount(hourly, (campaign, HourBack(now, 2)), now)
  {
    assert RecentSpend(hourly, campaign, now, 0) == 0.0;
    assert RecentSpend(hourly, campaign, now, 1) == Redis.Amount(hourly, (campaign, HourBack(now, 0)), now);
    assert RecentSpend(hourly, campaign, now, 2)
           == RecentSpend(hourly, campaign, now, 1) + Redis.Amount(hourly, (campaign, HourBack(now, 1)), now);
  }

  /** With the clock fixed, a recorded deduction within the remaining budget does not raise
      the campaign's multiplier, unless it uses the budget up to the last cent while the
      campaign is throttled: the target rate is then zero and the throttle comes off. */
  lemma DeductionNeverRaisesMultiplier(hourly: HourlyKeys, campaign: string, now: int, remaining: real, amount: real)
    requires 0.0 <= amount <= remaining
    requires forall key | key in hourly :: hourly[key].value >= 0.0
    ensures var before := CampaignMultiplier(hourly, campaign, now, remaining);
            var after := CampaignMultiplier(Recorded(hourly, campaign, amount, now), campaign, now, remaining - amount);
            after <= before <==> remaining - amount > 0.0 || before == 1.0
  {
    var hours := RemainingHours(now);
    RemainingHoursPositive(now);
    RecordingRaisesRecentSpend(hourly, campaign, amount, now);
    ThreeHours(hourly, campaign, now);
    if remaining - amount > 0.0 {
      Quotients(remaining - amount, remaining, hours);
      MultiplierAntitone(RecentSpend(hourly, campaign, now, 3) / 3.0, remaining / hours,
                         (RecentSpend(hourly, campaign, now, 3) + amount) / 3.0, (remaining - amount) / hours);
    } else {
      assert (remaining - amount) / hours == 0.0;
    }
  }

  lemma Quotients(x: real, y: real, hours: real)
    requires 0.0 < x <= y && hours > 0.0
    ensures 0.0 < x / hours <= y / hours
  {
    var p, q := x / hours, y / hours;
    assert p * hours == x && q * hours == y;
  }

  /** In any interleaving of recorders and clock ticks that misfiles nothing, the sum behind the
      spend rate is the logged spend of this hour, the last, and the one before if still alive. */
  lemma SpendRateFollowsLog(start: nat, acts: seq<Ring.Action>, campaign: string)
    requires Ring.Clean(start, acts, 3)
    ensures var s := Ring.Run(start, acts);
            RecentSpend(s.hourly, campaign, s.now, 3)
            == Ring.Logged(s, campaign, 0) + Ring.Logged(s, campaign, 1) + Ring.Logged(s, campaign, 2)
  {
    var s := Ring.Run(start, acts);
    ThreeHours(s.hourly, campaign, s.now);
    Ring.PacingReadsSpend(start, acts, campaign, 0);
    Ring.PacingReadsSpend(start, acts, campaign, 1);
    Ring.PacingReadsSpend(start, acts, campaign, 2);
  }

  // ----- The calls as written -----

  /** GetMultiplier and getPacingInfo exactly as they call each other, with room for fuel
      nested calls; None means the stack ran out first. */
  function CallMultiplier(fuel: nat, keyExists: bool, spendRate: real, targetRate: real): Option<real> {
    if fuel == 0 then None
    else
      match CallInfo(fuel - 1, keyExists, spendRate, targetRate)
      case None => None
      case Some(None) => Some(1.0)
      case Some(Some(info)) => Some(Multiplier(info.spendRate, info.targetRate))
  }

  function CallInfo(fuel: nat, keyExists: bool, spendRate: real, targetRate: real): Option<Option<PacingInfo>> {
    if fuel == 0 then None
    else if !keyExists then Some(None)
    else
      match CallMultiplier(fuel - 1, keyExists, spendRate, targetRate)
      case None => None
      case Some(m) => Some(Some(PacingInfo(spendRate, targetRate, m, 0.0, 0.0)))
  }

  /** As written, the call returns, given room for two frames, exactly when the budget key
      is absent; when it is present no stack is deep enough. */
  lemma {:induction false} CallsNeverReturn(fuel: nat, keyExists: bool, spendRate: real, targetRate: real)
    ensures CallMultiplier(fuel, keyExists, spendRate, targetRate)
            == if keyExists || fuel < 2 then None else Some(1.0)
    ensures keyExists ==> CallInfo(fuel, keyExists, spendRate, targetRate) == None
  {
    if fuel >= 2 {
      CallsNeverReturn(fuel - 1, keyExists, spendRate, targetRate);
    }
  }
}
