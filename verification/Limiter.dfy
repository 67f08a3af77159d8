/**
 Frequency capping (internal/budget/limiter.go): one sorted set per campaign and user,
 pruned on every check and expiring an hour after the window, against the full history
 of impressions.
 */
module Limiter {
  import opened Wrappers
  import Redis

  const CAP := 5
  const WINDOW := 24 * Redis.HOUR
  const KEY_TTL := WINDOW + Redis.HOUR

  // ----- Sorted-set commands on one key (impression id -> timestamp) -----

  type ZSet = Option<Redis.Stored<map<string, int>>>

  function Members(z: ZSet, now: int): map<string, int> {
    if z.Some? && z.value.Live(now) then z.value.value else map[]
  }

  function ZAdd(z: ZSet, now: int, score: int, id: string): ZSet {
    if z.Some? && z.value.Live(now) then Some(z.value.(value := z.value.value[id := score]))
    else Some(Redis.Stored(map[id := score], None))
  }

  /** Redis drops a key whose last member is removed. */
  function ZRemRangeByScore(z: ZSet, now: int, min: int, max: int): ZSet {
    var m := Members(z, now);
    var kept := map id | id in m && !(min <= m[id] <= max) :: m[id];
    if kept == map[] then None else Some(z.value.(value := kept))
  }

  function ZExpire(z: ZSet, now: int, ttl: int): ZSet {
    if z.Some? && z.value.Live(now) then Some(z.value.(expiresAt := Some(now + ttl))) else z
  }

  function Pruned(z: ZSet, now: int): ZSet {
    ZRemRangeByScore(z, now, 0, now - WINDOW)
  }

  function Recorded(z: ZSet, now: int, id: string): ZSet {
    ZExpire(ZAdd(z, now, now, id), now, KEY_TTL)
  }

  // ----- What the contracts speak of -----

  /** The impression is no longer of the last 24 hours. */
  predicate Outdated(at: int, now: int) {
    0 <= at <= now - 24 * 3_600_000
  }

  /** The cap of five is reached among the impressions that are not outdated. */
  predicate AtLeastFive(m: map<string, int>, now: int) {
    |set id | id in m && !Outdated(m[id], now)| >= 5
  }

  /** after is before without its outdated impressions. */
  ghost predicate KeepsRecent(before: map<string, int>, after: map<string, int>, now: int) {
    && (forall id :: id in after <==> id in before && !Outdated(before[id], now))
    && (forall id | id in after :: after[id] == before[id])
  }

  lemma PrunedKeepsRecent(z: ZSet, now: int)
    ensures KeepsRecent(Members(z, now), Members(Pruned(z, now), now), now)
    ensures |Members(Pruned(z, now), now)| >= CAP <==> AtLeastFive(Members(z, now), now)
  {
    var m, m' := Members(z, now), Members(Pruned(z, now), now);
    PrunedMembers(z, now, now - WINDOW);
    assert m'.Keys == set id | id in m && !Outdated(m[id], now);
    assert |m'| == |m'.Keys|;
  }

  lemma RecentStaysCapped(before: map<string, int>, after: map<string, int>, now: int)
    requires KeepsRecent(before, after, now)
    ensures AtLeastFive(before, now) <==> AtLeastFive(after, now)
  {
    assert (set id | id in before && !Outdated(before[id], now)) == (set id | id in after && !Outdated(after[id], now));
  }

  class FrequencyLimiter {
    var now: int
    var keys: map<(string, string), Redis.Stored<map<string, int>>>  // freqcap:<campaign>:<user>

    function Key(campaign: string, user: string): ZSet
      reads this
    {
      if (campaign, user) in keys then Some(keys[(campaign, user)]) else None
    }

    predicate Alive(campaign: string, user: string)
      reads this
    {
      Key(campaign, user).Some? && Key(campaign, user).value.Live(now)
    }

    method Store(campaign: string, user: string, z: ZSet)
      modifies this`keys
      ensures Key(campaign, user) == z
      ensures forall c, u | (c, u) != (campaign, user) :: Key(c, u) == old(Key(c, u))
    {
      keys := if z.Some? then keys[(campaign, user) := z.value] else keys - {(campaign, user)};
    }

    /** A failing command ends the check with an error, before or after the prune. */
    method IsCapped(campaign: string, user: string, pruneFails: bool, countFails: bool) returns (capped: bool, failed: bool)
      modifies this`keys
      ensures Key(campaign, user) == if pruneFails then old(Key(campaign, user)) else Pruned(old(Key(campaign, user)), now)
      ensures forall c, u | (c, u) != (campaign, user) :: Key(c, u) == old(Key(c, u))
      ensures failed <==> pruneFails || countFails
      ensures capped <==> !failed && AtLeastFive(old(Members(Key(campaign, user), now)), now)
      ensures Key(campaign, user).Some? ==>
                old(Key(campaign, user)).Some? && Key(campaign, user).value.expiresAt == old(Key(campaign, user)).value.expiresAt
      ensures !pruneFails ==> KeepsRecent(old(Members(Key(campaign, user), now)), Members(Key(campaign, user), now), now)
    {
      PrunedKeepsRecent(Key(campaign, user), now);
      var windowStart := now - WINDOW;
      if pruneFails {
        return false, true;
      }
      Store(campaign, user, ZRemRangeByScore(Key(campaign, user), now, 0, windowStart));
      if countFails {
        return false, true;
      }
      var count := |Members(Key(campaign, user), now)|;
      return count >= CAP, false;
    }

    method RecordImpression(campaign: string, user: string, impressionId: string, addFails: bool, expireFails: bool)
      returns (failed: bool)
      modifies this`keys
      ensures Key(campaign, user)
              == if addFails then old(Key(campaign, user))
                 else if expireFails then ZAdd(old(Key(campaign, user)), now, now, impressionId)
                 else Recorded(old(Key(campaign, user)), now, impressionId)
      ensures forall c, u | (c, u) != (campaign, user) :: Key(c, u) == old(Key(c, u))
      ensures failed <==> addFails || expireFails
      ensures !addFails ==> Members(Key(campaign, user), now) == old(Members(Key(campaign, user), now))[impressionId := now]
      ensures !addFails ==>
                Key(campaign, user).Some?
                && Key(campaign, user).value.expiresAt
                   == if !expireFails then Some(now + 25 * 3_600_000)
                      else if old(Alive(campaign, user)) then old(Key(campaign, user)).value.expiresAt else None
    {
      var score := now;
      if addFails {
        return true;
      }
      Store(campaign, user, ZAdd(Key(campaign, user), now, score, impressionId));
      if expireFails {
        return true;
      }
      Store(campaign, user, ZExpire(Key(campaign, user), now, KEY_TTL));
      return false;
    }
  }

  // ----- The key under any interleaving -----

  datatype Impression = Impression(id: string, at: int)

  /** A check between its commands; windowStart comes from its clock reading. */
  datatype Checker = Pruning(windowStart: int) | Counting(windowStart: int) | Answered(capped: bool)

  datatype State = State(
    now: int,
    key: ZSet,
    checkers: seq<Checker>,
    pending: nat,           // recorders between ZADD and EXPIRE
    log: seq<Impression>,   // the unpruned history
    outstanding: int)       // checks that passed minus impressions recorded

  datatype Action =
    | ReadClock
    | Prune(i: nat)
    | Count(i: nat)
    | Add(id: string)
    | Renew
    | Tick(d: nat)

  predicate CountsCapped(s: State) {
    |Members(s.key, s.now)| >= CAP
  }

  function Moved(s: State, i: nat, c: Checker): State
    requires i < |s.checkers|
  {
    s.(checkers := s.checkers[i := c])
  }

  function Next(s: State, a: Action): State {
    match a
    case ReadClock => s.(checkers := s.checkers + [Pruning(s.now - WINDOW)])
    case Prune(i) =>
      if i < |s.checkers| && s.checkers[i].Pruning? then
        var windowStart := s.checkers[i].windowStart;
        Moved(s, i, Counting(windowStart)).(key := ZRemRangeByScore(s.key, s.now, 0, windowStart))
      else s
    case Count(i) =>
      if i < |s.checkers| && s.checkers[i].Counting?
      then Moved(s, i, Answered(CountsCapped(s))).(outstanding := s.outstanding + (if CountsCapped(s) then 0 else 1))
      else s
    case Add(id) =>
      s.(key := ZAdd(s.key, s.now, s.now, id), pending := s.pending + 1,
         log := s.log + [Impression(id, s.now)], outstanding := s.outstanding - 1)
    case Renew =>
      if s.pending == 0 then s
      else s.(key := ZExpire(s.key, s.now, KEY_TTL), pending := s.pending - 1)
    case Tick(d) => s.(now := s.now + d)
  }

  function Run(start: nat, acts: seq<Action>): State {
    if acts == [] then State(start, None, [], 0, [], 0)
    else Next(Run(start, acts[..|acts| - 1]), acts[|acts| - 1])
  }

  /** The impressions seen after from and up to t, each id counted once. */
  function Between(log: seq<Impression>, from: int, t: int): set<string> {
    set i | 0 <= i < |log| && from < log[i].at <= t :: log[i].id
  }

  /** The impressions seen in the 24 hours up to t. */
  function InWindow(log: seq<Impression>, t: int): set<string> {
    Between(log, t - 24 * 3_600_000, t)
  }

  /** The key shows exactly the impressions of the last 24 hours. */
  ghost predicate Agrees(s: State) {
    forall id :: (id in Members(s.key, s.now) && Members(s.key, s.now)[id] > s.now - WINDOW) <==> id in InWindow(s.log, s.now)
  }

  /** The tick carries the clock past the key's expiry less than a window after the last impression. */
  predicate LosesLast(s: State, a: Action) {
    a.Tick? && s.log != [] && s.key.Some? && !s.key.value.Live(s.now + a.d) && s.key.value.Live(s.now)
    && s.log[|s.log| - 1].at > s.now + a.d - WINDOW
  }

  /** No tick so far lost anything. */
  ghost predicate Smooth(start: nat, acts: seq<Action>) {
    acts != [] ==>
      Smooth(start, acts[..|acts| - 1]) && !LosesLast(Run(start, acts[..|acts| - 1]), acts[|acts| - 1])
  }

  /** The key agrees with the history now and did so after every earlier step. */
  ghost predicate AlwaysAgrees(start: nat, acts: seq<Action>) {
    && Agrees(Run(start, acts))
    && (acts != [] ==> AlwaysAgrees(start, acts[..|acts| - 1]))
  }

  // ----- The invariant -----

  function Latest(log: seq<Impression>, id: string): Option<int> {
    if log == [] then None
    else if log[|log| - 1].id == id then Some(log[|log| - 1].at)
    else Latest(log[..|log| - 1], id)
  }

  ghost predicate Chronological(log: seq<Impression>, now: int) {
    && (forall i | 0 <= i < |log| :: 0 <= log[i].at <= now)
    && (forall i, j | 0 <= i <= j < |log| :: log[i].at <= log[j].at)
  }

  ghost predicate MemberOk(s: State, id: string) {
    var m := Members(s.key, s.now);
    && (id in m ==> Latest(s.log, id) == Some(m[id]) && m[id] >= 0)
    && (Latest(s.log, id).Some? && Latest(s.log, id).value > s.now - WINDOW ==> id in m)
  }

  /** No check uses a window that starts less than 24 hours ago, and between prune and count
      the key holds nothing from before its start. */
  ghost predicate CheckerOk(s: State, c: Checker) {
    match c
    case Pruning(windowStart) => windowStart <= s.now - WINDOW
    case Counting(windowStart) =>
      windowStart <= s.now - WINDOW &&
      forall id | id in Members(s.key, s.now) :: Members(s.key, s.now)[id] > windowStart
    case Answered(_) => true
  }

  ghost predicate Inv(s: State) {
    && Chronological(s.log, s.now) && 0 <= s.now
    && (forall id :: MemberOk(s, id))
    && (forall i | 0 <= i < |s.checkers| :: CheckerOk(s, s.checkers[i]))
  }

  lemma {:induction false} LatestIsMaximal(log: seq<Impression>, now: int, id: string)
    requires Chronological(log, now)
    ensures forall i | 0 <= i < |log| && log[i].id == id :: Latest(log, id).Some? && log[i].at <= Latest(log, id).value
    ensures Latest(log, id).Some? ==> exists i :: 0 <= i < |log| && log[i].id == id && log[i].at == Latest(log, id).value
  {
    if log != [] && log[|log| - 1].id != id {
      var n := |log| - 1;
      LatestIsMaximal(log[..n], now, id);
      forall i | 0 <= i < |log| && log[i].id == id ensures Latest(log, id).Some? && log[i].at <= Latest(log, id).value {
        assert log[..n][i] == log[i];
      }
    }
  }

  lemma BetweenByLatest(log: seq<Impression>, from: int, now: int, id: string)
    requires Chronological(log, now)
    ensures id in Between(log, from, now) <==> Latest(log, id).Some? && Latest(log, id).value > from
  {
    LatestIsMaximal(log, now, id);
  }

  lemma InvAgrees(s: State)
    requires Inv(s)
    ensures Agrees(s)
  {
    forall id ensures (id in Members(s.key, s.now) && Members(s.key, s.now)[id] > s.now - WINDOW) <==> id in InWindow(s.log, s.now) {
      BetweenByLatest(s.log, s.now - WINDOW, s.now, id);
      assert MemberOk(s, id);
    }
  }

  lemma StepKeepsInv(s: State, a: Action)
    requires Inv(s) && !LosesLast(s, a)
    ensures Inv(Next(s, a))
  {
    hide MemberOk, CheckerOk;
    var s' := Next(s, a);
    forall id ensures MemberOk(s', id) {
      MemberStaysOk(s, a, id);
    }
    forall i | 0 <= i < |s'.checkers| ensures CheckerOk(s', s'.checkers[i]) {
      CheckerStaysOk(s, a, i);
    }
  }

  lemma MemberStaysOk(s: State, a: Action, id: string)
    requires Inv(s) && !LosesLast(s, a)
    ensures MemberOk(Next(s, a), id)
  {
    assert MemberOk(s, id);
    LatestIsMaximal(s.log, s.now, id);
    if a.Add? {
      assert Next(s, a).log[..|s.log|] == s.log;
    } else if a.Prune? && a.i < |s.checkers| {
      assert CheckerOk(s, s.checkers[a.i]);
    }
  }

  lemma CheckerStaysOk(s: State, a: Action, i: nat)
    requires Inv(s) && i < |Next(s, a).checkers|
    ensures CheckerOk(Next(s, a), Next(s, a).checkers[i])
  {
    if i < |s.checkers| {
      assert CheckerOk(s, s.checkers[i]);
      if a.Prune? && a.i < |s.checkers| && s.checkers[a.i].Pruning? {
        var windowStart := s.checkers[a.i].windowStart;
        PrunedMembers(s.key, s.now, windowStart);
        forall id | id in Members(Next(s, a).key, s.now)
          ensures Members(Next(s, a).key, s.now)[id] == Members(s.key, s.now)[id] > windowStart
        {
          assert MemberOk(s, id);
        }
      } else if a.Add? {
        AddedMembers(s.key, s.now, a.id);
      } else {
        forall id | id in Members(Next(s, a).key, Next(s, a).now)
          ensures id in Members(s.key, s.now) && Members(Next(s, a).key, Next(s, a).now)[id] == Members(s.key, s.now)[id]
        {
        }
      }
    }
  }

  /** A prune keeps the members outside its range as they are. */
  lemma PrunedMembers(z: ZSet, now: int, max: int)
    ensures var m, m' := Members(z, now), Members(ZRemRangeByScore(z, now, 0, max), now);
            forall id :: (id in m' <==> id in m && !(0 <= m[id] <= max)) && (id in m' ==> m'[id] == m[id])
  {
    var m := Members(z, now);
    var kept := map id | id in m && !(0 <= m[id] <= max) :: m[id];
    assert Members(ZRemRangeByScore(z, now, 0, max), now) == kept;
  }

  lemma AddedMembers(z: ZSet, now: int, id: string)
    ensures Members(ZAdd(z, now, now, id), now) == Members(z, now)[id := now]
  {
  }

  lemma {:induction false} RunKeepsInv(start: nat, acts: seq<Action>)
    requires Smooth(start, acts)
    ensures Inv(Run(start, acts))
  {
    if acts != [] {
      var n := |acts| - 1;
      RunKeepsInv(start, acts[..n]);
      StepKeepsInv(Run(start, acts[..n]), acts[n]);
    }
  }

  // ----- Theorems -----

  /** The pruned, expiring key agrees with the full history at every point of a run if and
      only if no tick of the run expires the key within a window of the last impression. */
  lemma {:induction false} AgreesIffNothingLost(start: nat, acts: seq<Action>)
    ensures AlwaysAgrees(start, acts) <==> Smooth(start, acts)
  {
    if Smooth(start, acts) {
      RunKeepsInv(start, acts);
      InvAgrees(Run(start, acts));
    }
    if acts != [] {
      hide Next, Agrees, LosesLast;
      var n := |acts| - 1;
      AgreesIffNothingLost(start, acts[..n]);
      if Smooth(start, acts[..n]) && LosesLast(Run(start, acts[..n]), acts[n]) {
        RunKeepsInv(start, acts[..n]);
        LossShows(Run(start, acts[..n]), acts[n]);
      }
    }
  }

  lemma LossShows(s: State, a: Action)
    requires Inv(s) && LosesLast(s, a)
    ensures !Agrees(Next(s, a))
  {
    var s', last := Next(s, a), s.log[|s.log| - 1];
    assert last.id in InWindow(s'.log, s'.now);
    assert last.id !in Members(s'.key, s'.now);
  }

  lemma {:induction false} RunClock(start: nat, acts: seq<Action>)
    ensures forall i | 0 <= i < |Run(start, acts).log| :: Run(start, acts).log[i].at <= Run(start, acts).now
  {
    if acts != [] {
      RunClock(start, acts[..|acts| - 1]);
    }
  }

  ghost predicate Covered(s: State) {
    s.pending == 0 && s.log != [] && s.key.Some? && s.key.value.Live(s.now) ==>
      s.key.value.expiresAt.Some? && s.key.value.expiresAt.value >= s.log[|s.log| - 1].at + KEY_TTL
  }

  /** The 25-hour expiry itself never removes an impression of the last 24 hours: that takes
      a recorder still between ZADD and EXPIRE when an older deadline passes. */
  lemma OnlyHalfDoneRecordersLose(start: nat, acts: seq<Action>, a: Action)
    requires LosesLast(Run(start, acts), a)
    ensures Run(start, acts).pending > 0
  {
    RunCovered(start, acts);
  }

  lemma {:induction false} RunCovered(start: nat, acts: seq<Action>)
    ensures Covered(Run(start, acts))
  {
    if acts != [] {
      var n := |acts| - 1;
      RunCovered(start, acts[..n]);
      RunClock(start, acts[..n]);
    }
  }

  /** No tick so far found a recorder between its two commands. */
  ghost predicate QuickRecorders(start: nat, acts: seq<Action>) {
    acts != [] ==>
      && QuickRecorders(start, acts[..|acts| - 1])
      && (acts[|acts| - 1].Tick? ==> Run(start, acts[..|acts| - 1]).pending == 0)
  }

  /** So recorders that finish within one clock reading never lose anything. */
  lemma {:induction false} QuickRecordersLoseNothing(start: nat, acts: seq<Action>)
    requires QuickRecorders(start, acts)
    ensures Smooth(start, acts)
  {
    if acts != [] {
      var n := |acts| - 1;
      QuickRecordersLoseNothing(start, acts[..n]);
      if LosesLast(Run(start, acts[..n]), acts[n]) {
        OnlyHalfDoneRecordersLose(start, acts[..n], acts[n]);
      }
    }
  }

  /** RecordImpression, run alone, is two steps of the key. */
  lemma RecordingIsTwoSteps(s: State, id: string)
    ensures Next(Next(s, Add(id)), Renew).key == Recorded(s.key, s.now, id)
    ensures Next(Next(s, Add(id)), Renew).pending == s.pending
  {
  }

  /** IsCapped, run alone, is three steps of the key. */
  lemma CheckingIsThreeSteps(s: State)
    ensures var i := |s.checkers|;
            var s' := Next(Next(Next(s, ReadClock), Prune(i)), Count(i));
            && s'.key == Pruned(s.key, s.now)
            && s'.checkers == s.checkers + [Answered(AtLeastFive(Members(s.key, s.now), s.now))]
  {
    PrunedKeepsRecent(s.key, s.now);
  }

  /** What a check that has pruned will count. */
  lemma CountedMembers(s: State, i: nat)
    requires Inv(s) && i < |s.checkers| && s.checkers[i].Counting?
    ensures InWindow(s.log, s.now) <= Members(s.key, s.now).Keys
            <= Between(s.log, s.checkers[i].windowStart, s.now)
    ensures s.checkers[i].windowStart <= s.now - WINDOW
  {
    assert CheckerOk(s, s.checkers[i]);
    forall id ensures id in InWindow(s.log, s.now) ==> id in Members(s.key, s.now)
      ensures id in Members(s.key, s.now) ==> id in Between(s.log, s.checkers[i].windowStart, s.now)
    {
      assert MemberOk(s, id);
      BetweenByLatest(s.log, s.now - WINDOW, s.now, id);
      BetweenByLatest(s.log, s.checkers[i].windowStart, s.now, id);
    }
  }

  lemma CountedAnswer(s: State, i: nat)
    requires Inv(s) && i < |s.checkers| && s.checkers[i].Counting?
    ensures |InWindow(s.log, s.now)| >= CAP ==> CountsCapped(s)
    ensures CountsCapped(s) ==> |Between(s.log, s.checkers[i].windowStart, s.now)| >= CAP
  {
    hide InWindow, Between;
    CountedMembers(s, i);
    Subset(InWindow(s.log, s.now), Members(s.key, s.now).Keys);
    Subset(Members(s.key, s.now).Keys, Between(s.log, s.checkers[i].windowStart, s.now));
    assert |Members(s.key, s.now)| == |Members(s.key, s.now).Keys|;
  }

  /** A check answers by the full history, whatever happens between its three steps: capped if
      at least five different impressions were recorded in the last 24 hours, and only if so
      many were recorded since its window started; so exactly then, if the clock stood still. */
  lemma CappedByHistory(start: nat, acts: seq<Action>, i: nat)
    requires Smooth(start, acts) && i < |Run(start, acts).checkers| && Run(start, acts).checkers[i].Counting?
    ensures var s := Run(start, acts);
            var windowStart := s.checkers[i].windowStart;
            var capped := Next(s, Count(i)).checkers[i] == Answered(true);
            && (|InWindow(s.log, s.now)| >= 5 ==> capped)
            && (capped ==> |Between(s.log, windowStart, s.now)| >= 5)
            && (windowStart == s.now - 24 * 3_600_000 ==> (capped <==> |InWindow(s.log, s.now)| >= 5))
  {
    hide Between, Run;
    RunKeepsInv(start, acts);
    CountedAnswer(Run(start, acts), i);
  }

  /** Each impression follows a check of its own that passed, and no more than k checked
      requests were ever waiting to record. */
  ghost predicate Disciplined(start: nat, acts: seq<Action>, k: nat) {
    && 0 <= Run(start, acts).outstanding <= k
    && (acts != [] ==> Disciplined(start, acts[..|acts| - 1], k))
  }

  ghost predicate Bounded(s: State, k: nat) {
    && |InWindow(s.log, s.now)| + s.outstanding <= 4 + k
    && forall t :: |InWindow(s.log, t)| <= 4 + k
  }

  lemma Subset<T>(a: set<T>, b: set<T>)
    requires a <= b
    ensures |a| <= |b|
  {
    assert b == a + (b - a);
  }

  /** A new impression enters the window that is open now, and no later window holds more. */
  lemma AddedInWindow(log: seq<Impression>, now: int, id: string, t: int)
    requires Chronological(log, now)
    ensures var log' := log + [Impression(id, now)];
            if t < now then InWindow(log', t) == InWindow(log, t)
            else InWindow(log', t) <= InWindow(log, now) + {id}
  {
    var log' := log + [Impression(id, now)];
    assert forall i | 0 <= i < |log| :: log'[i] == log[i];
    assert log'[|log|].at == now;
  }

  lemma AddKeepsBound(s: State, id: string, k: nat)
    requires Inv(s) && Bounded(s, k) && s.outstanding >= 1
    ensures Bounded(Next(s, Add(id)), k)
  {
    hide InWindow;
    var s' := Next(s, Add(id));
    assert |InWindow(s.log, s.now) + {id}| <= |InWindow(s.log, s.now)| + 1;
    forall t ensures t >= s.now ==> |InWindow(s'.log, t)| <= |InWindow(s.log, s.now)| + 1
      ensures |InWindow(s'.log, t)| <= 4 + k
    {
      AddedInWindow(s.log, s.now, id, t);
      if t >= s.now {
        Subset(InWindow(s'.log, t), InWindow(s.log, s.now) + {id});
      }
    }
  }

  lemma CountKeepsBound(s: State, i: nat, k: nat)
    requires Inv(s) && Bounded(s, k) && Next(s, Count(i)).outstanding <= k
    ensures Bounded(Next(s, Count(i)), k)
  {
    if i < |s.checkers| && s.checkers[i].Counting? {
      CountedMembers(s, i);
      Subset(InWindow(s.log, s.now), Members(s.key, s.now).Keys);
      assert |Members(s.key, s.now)| == |Members(s.key, s.now).Keys|;
    }
  }

  lemma TickKeepsBound(s: State, d: nat, k: nat)
    requires Inv(s) && Bounded(s, k)
    ensures Bounded(Next(s, Tick(d)), k)
  {
    Subset(InWindow(s.log, s.now + d), InWindow(s.log, s.now));
  }

  lemma StepKeepsBound(s: State, a: Action, k: nat)
    requires Inv(s) && Bounded(s, k) && 0 <= Next(s, a).outstanding <= k
    ensures Bounded(Next(s, a), k)
  {
    match a {
      case Count(i) => CountKeepsBound(s, i, k);
      case Add(id) => AddKeepsBound(s, id, k);
      case Tick(d) => TickKeepsBound(s, d, k);
      case _ =>
    }
  }

  /** If every impression follows its own passed check and at most k checked requests wait
      at once, no 24-hour window anywhere holds more than 4 + k different impressions,
      whatever is recorded between a check's prune and its count. */
  lemma {:induction false} FrequencyBound(start: nat, acts: seq<Action>, k: nat)
    requires Smooth(start, acts) && Disciplined(start, acts, k)
    ensures Bounded(Run(start, acts), k)
  {
    if acts == [] {
      assert forall t :: InWindow([], t) == {};
    } else {
      var n := |acts| - 1;
      FrequencyBound(start, acts[..n], k);
      RunKeepsInv(start, acts[..n]);
      StepKeepsBound(Run(start, acts[..n]), acts[n], k);
    }
  }

  /** With one request at a time the cap of five is never exceeded. */
  lemma SerialRequestsKeepTheCap(start: nat, acts: seq<Action>, t: int)
    requires Smooth(start, acts) && Disciplined(start, acts, 1)
    ensures |InWindow(Run(start, acts).log, t)| <= 5
  {
    FrequencyBound(start, acts, 1);
  }
}
