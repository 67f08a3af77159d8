/**
 The hourly spend ring (internal/budget/service.go:123-127 writing,
 internal/budget/pacing.go:78-86 reading) against the full log of increments.

 Any number of recorders run side by side. Each reads the hour from the clock, increments
 that hour's bucket and renews its expiry, as three separate steps with any delay between
 them; either command may fail, and the service ignores that. A run is any sequence of
 such steps and clock ticks.
 */
module Ring {
  import opened Wrappers
  import Redis
  import opened BudgetStore

  datatype Stage = Incrementing | Expiring | Done

  /** hour is the hour index its clock reading fell into. */
  datatype Recorder = Recorder(campaign: string, hour: int, amount: real, stage: Stage)

  /** An increment that reached the store. */
  datatype Spend = Spend(campaign: string, hour: int, amount: real)

  datatype State = State(
    now: int,
    hourly: HourlyKeys,
    recorders: seq<Recorder>,
    log: seq<Spend>,                          // every increment so far
    contents: map<(string, int), seq<Spend>>) // auxiliary: the increments a bucket adds up

  datatype Action =
    | Begin(campaign: string, amount: real)
    | Increment(i: nat, fails: bool)
    | Renew(i: nat, fails: bool)
    | Tick(d: nat)

  predicate At(s: State, i: nat, stage: Stage) {
    i < |s.recorders| && s.recorders[i].stage == stage
  }

  function KeyOf(r: Recorder): (string, int) {
    (r.campaign, r.hour % 24)
  }

  function Moved(s: State, i: nat, stage: Stage): State
    requires i < |s.recorders|
  {
    s.(recorders := s.recorders[i := s.recorders[i].(stage := stage)])
  }

  /** The increments a bucket shows now. */
  function Shown(s: State, key: (string, int)): seq<Spend> {
    if Redis.Exists(s.hourly, key, s.now) && key in s.contents then s.contents[key] else []
  }

  function Incremented(s: State, r: Recorder): State {
    var spend := Spend(r.campaign, r.hour, r.amount);
    s.(hourly := Redis.IncrByFloat(s.hourly, KeyOf(r), r.amount, s.now),
       log := s.log + [spend],
       contents := s.contents[KeyOf(r) := Shown(s, KeyOf(r)) + [spend]])
  }

  function Next(s: State, a: Action): State {
    match a
    case Begin(c, amount) =>
      s.(recorders := s.recorders + [Recorder(c, HourIndex(s.now), amount, Incrementing)])
    case Increment(i, fails) =>
      if !At(s, i, Incrementing) then s
      else if fails then Moved(s, i, Expiring)
      else Moved(Incremented(s, s.recorders[i]), i, Expiring)
    case Renew(i, fails) =>
      if !At(s, i, Expiring) then s
      else if fails then Moved(s, i, Done)
      else Moved(s, i, Done).(hourly := Redis.Expire(s.hourly, KeyOf(s.recorders[i]), HOURLY_TTL, s.now))
    case Tick(d) => s.(now := s.now + d)
  }

  function Run(start: nat, acts: seq<Action>): State {
    if acts == [] then State(start, map[], [], [], map[])
    else Next(Run(start, acts[..|acts| - 1]), acts[|acts| - 1])
  }

  // ----- The log's own answers -----

  /** The increments of campaign c for hour index h. */
  function SpendsOf(log: seq<Spend>, c: string, h: int): seq<Spend> {
    if log == [] then []
    else
      var e := log[|log| - 1];
      SpendsOf(log[..|log| - 1], c, h) + (if e.campaign == c && e.hour == h then [e] else [])
  }

  function Total(spends: seq<Spend>): real {
    if spends == [] then 0.0 else Total(spends[..|spends| - 1]) + spends[|spends| - 1].amount
  }

  /** What campaign c spent in hour index h. */
  function Spent(log: seq<Spend>, c: string, h: int): real {
    Total(SpendsOf(log, c, h))
  }

  /** h is one of the last hours many hour indices. */
  predicate Recent(s: State, h: int, hours: nat) {
    HourIndex(s.now) - hours < h <= HourIndex(s.now)
  }

  /** The bucket of hour index h shows exactly the increments of that hour; if h is two hours
      past it may instead have lapsed. */
  predicate Exact(s: State, c: string, h: int) {
    Shown(s, (c, h % 24)) == SpendsOf(s.log, c, h)
    || (h == HourIndex(s.now) - 2 && Shown(s, (c, h % 24)) == [])
  }

  /** Pacing reads the buckets of three hours; the last hours many of them are exact. */
  ghost predicate Faithful(s: State, hours: nat) {
    forall c, h | Recent(s, h, hours) :: Exact(s, c, h)
  }

  // ----- What can go wrong -----

  /** The clock enters hour index h while the bucket that hour will use is still alive. */
  predicate Overtaken(s: State, d: nat, c: string, h: int) {
    HourIndex(s.now) < h && Redis.Exists(s.hourly, (c, h % 24), s.now + d)
  }

  /** The bucket of recorder r's hour is gone, and earlier increments with it. */
  predicate Lapsed(s: State, r: Recorder) {
    !Redis.Exists(s.hourly, KeyOf(r), s.now) && SpendsOf(s.log, r.campaign, r.hour) != []
  }

  /** Recorder r increments a bucket that pacing now reads as hour h, although that is not its
      hour (so it is a day or more late), or although the hour is two past and has lapsed. */
  predicate Late(s: State, r: Recorder, h: int) {
    r.hour % 24 == h % 24 && (r.hour != h || (h == HourIndex(s.now) - 2 && Lapsed(s, r)))
  }

  ghost predicate Misfiles(s: State, a: Action, hours: nat) {
    match a
    case Tick(d) => exists c, h | Recent(Next(s, a), h, hours) :: Overtaken(s, d, c, h)
    case Increment(i, false) => At(s, i, Incrementing) && exists h | Recent(s, h, hours) :: Late(s, s.recorders[i], h)
    case _ => false
  }

  /** No step so far misfiled. */
  ghost predicate Clean(start: nat, acts: seq<Action>, hours: nat) {
    acts != [] ==>
      && Clean(start, acts[..|acts| - 1], hours)
      && !Misfiles(Run(start, acts[..|acts| - 1]), acts[|acts| - 1], hours)
  }

  /** The reads are exact now and were so after every earlier step. */
  ghost predicate AlwaysFaithful(start: nat, acts: seq<Action>, hours: nat) {
    && Faithful(Run(start, acts), hours)
    && (acts != [] ==> AlwaysFaithful(start, acts[..|acts| - 1], hours))
  }

  // ----- What holds in every run -----

  ghost predicate BucketOk(s: State, key: (string, int)) {
    && (key in s.hourly <==> key in s.contents)
    && (key in s.hourly ==> s.contents[key] != [] && s.hourly[key].value == Total(s.contents[key]))
  }

  ghost predicate HoursOk(s: State) {
    && (forall k | 0 <= k < |s.log| :: s.log[k].hour <= HourIndex(s.now))
    && (forall k | 0 <= k < |s.recorders| :: s.recorders[k].hour <= HourIndex(s.now))
  }

  ghost predicate Inv(s: State) {
    HoursOk(s) && forall key :: BucketOk(s, key)
  }

  lemma HoursMonotone(now: int, d: nat)
    ensures HourIndex(now) <= HourIndex(now + d)
  {
  }

  lemma TotalSnoc(spends: seq<Spend>, e: Spend)
    ensures Total(spends + [e]) == Total(spends) + e.amount
  {
    assert (spends + [e])[..|spends|] == spends;
  }

  lemma SpendsSnoc(log: seq<Spend>, e: Spend, c: string, h: int)
    ensures SpendsOf(log + [e], c, h) == SpendsOf(log, c, h) + (if e.campaign == c && e.hour == h then [e] else [])
  {
    assert (log + [e])[..|log|] == log;
  }

  lemma {:induction false} SpendsOwn(log: seq<Spend>, c: string, h: int)
    ensures forall e | e in SpendsOf(log, c, h) :: e in log && e.hour == h
  {
    if log != [] {
      SpendsOwn(log[..|log| - 1], c, h);
    }
  }

  /** Nothing is logged for an hour that has not begun. */
  lemma {:induction false} NothingAhead(log: seq<Spend>, c: string, h: int)
    requires forall k | 0 <= k < |log| :: log[k].hour < h
    ensures SpendsOf(log, c, h) == []
  {
    if log != [] {
      NothingAhead(log[..|log| - 1], c, h);
    }
  }

  lemma IncrementedKeepsInv(s: State, r: Recorder)
    requires Inv(s) && r.hour <= HourIndex(s.now)
    ensures Inv(Incremented(s, r))
  {
    forall key ensures BucketOk(Incremented(s, r), key) {
      assert BucketOk(s, key);
      TotalSnoc(Shown(s, key), Spend(r.campaign, r.hour, r.amount));
    }
  }

  lemma StepKeepsInv(s: State, a: Action)
    requires Inv(s)
    ensures Inv(Next(s, a))
  {
    var s' := Next(s, a);
    if a.Increment? && At(s, a.i, Incrementing) && !a.fails {
      IncrementedKeepsInv(s, s.recorders[a.i]);
      SameBuckets(Incremented(s, s.recorders[a.i]), s');
    } else {
      SameBuckets(s, s');
    }
    if a.Tick? {
      HoursMonotone(s.now, a.d);
    }
  }

  /** Buckets do not depend on the clock or the recorders, nor their sums on the deadlines. */
  lemma SameBuckets(s: State, s': State)
    requires (forall key :: BucketOk(s, key)) && s'.contents == s.contents && s'.hourly.Keys == s.hourly.Keys
    requires forall key | key in s.hourly :: s'.hourly[key].value == s.hourly[key].value
    ensures forall key :: BucketOk(s', key)
  {
    forall key ensures BucketOk(s', key) {
      assert BucketOk(s, key);
      assert key in s'.hourly <==> key in s'.hourly.Keys;
      assert key in s.hourly <==> key in s.hourly.Keys;
    }
  }

  lemma {:induction false} RunKeepsInv(start: nat, acts: seq<Action>)
    ensures Inv(Run(start, acts))
  {
    if acts != [] {
      RunKeepsInv(start, acts[..|acts| - 1]);
      StepKeepsInv(Run(start, acts[..|acts| - 1]), acts[|acts| - 1]);
    }
  }

  // ----- What holds while the reads are exact -----

  /** A bucket in use this hour or the last stays until its hour is two hours past. */
  predicate Lasting(s: State, c: string, h: int) {
    var key := (c, h % 24);
    Redis.Exists(s.hourly, key, s.now) && s.hourly[key].expiresAt.Some? ==>
      s.hourly[key].expiresAt.value >= (h + 2) * Redis.HOUR
  }

  ghost predicate AllLasting(s: State) {
    forall c, h | Recent(s, h, 2) :: Lasting(s, c, h)
  }

  /** One hour after a tick: an old hour stays as it was or, two hours past, lapses; a new
      hour is exact if and only if its bucket is dead. */
  lemma TickExact(s: State, d: nat, hours: nat, c: string, h: int)
    requires Inv(s) && AllLasting(s) && Faithful(s, hours) && 2 <= hours <= 3
    requires Recent(Next(s, Tick(d)), h, hours)
    ensures Exact(Next(s, Tick(d)), c, h) <==> !Overtaken(s, d, c, h)
  {
    HoursMonotone(s.now, d);
    if h > HourIndex(s.now) {
      NewHourExact(s, d, c, h);
    } else {
      assert Recent(s, h, hours);
      assert h > HourIndex(s.now + d) - 2 ==> Recent(s, h, 2);
      assert Exact(s, c, h) && (Recent(s, h, 2) ==> Lasting(s, c, h));
      OldHourExact(s, d, c, h);
    }
  }

  lemma NewHourExact(s: State, d: nat, c: string, h: int)
    requires Inv(s) && h > HourIndex(s.now)
    ensures Exact(Next(s, Tick(d)), c, h) <==> !Overtaken(s, d, c, h)
  {
    assert BucketOk(s, (c, h % 24));
    NothingAhead(s.log, c, h);
  }

  lemma OldHourExact(s: State, d: nat, c: string, h: int)
    requires Exact(s, c, h) && HourIndex(s.now + d) - 3 < h <= HourIndex(s.now) <= HourIndex(s.now + d)
    requires h > HourIndex(s.now + d) - 2 ==> Lasting(s, c, h)
    ensures Exact(Next(s, Tick(d)), c, h)
  {
    hide HourIndex;
    if h > HourIndex(s.now + d) - 2 {
      HourEnds(s.now + d, h);
    }
  }

  lemma HourEnds(now: int, h: int)
    requires HourIndex(now) < h + 2
    ensures now < (h + 2) * Redis.HOUR
  {
  }

  lemma HourBegins(now: int, h: int)
    requires h <= HourIndex(now)
    ensures h * Redis.HOUR <= now
  {
  }

  lemma TickLasting(s: State, d: nat, hours: nat)
    requires Inv(s) && AllLasting(s) && 2 <= hours && !Misfiles(s, Tick(d), hours)
    ensures AllLasting(Next(s, Tick(d)))
  {
    var s' := Next(s, Tick(d));
    HoursMonotone(s.now, d);
    forall c, h | Recent(s', h, 2) ensures Lasting(s', c, h) {
      assert Recent(s', h, hours);
      assert !Overtaken(s, d, c, h);
      if h <= HourIndex(s.now) {
        assert Recent(s, h, 2);
        assert Lasting(s, c, h);
      }
    }
  }

  lemma TickStep(s: State, d: nat, hours: nat)
    requires Inv(s) && AllLasting(s) && Faithful(s, hours) && 2 <= hours <= 3
    ensures Faithful(Next(s, Tick(d)), hours) <==> !Misfiles(s, Tick(d), hours)
  {
    var s' := Next(s, Tick(d));
    forall c, h | Recent(s', h, hours) ensures Exact(s', c, h) <==> !Overtaken(s, d, c, h) {
      TickExact(s, d, hours, c, h);
    }
  }

  /** Recorder r's bucket, when pacing reads it as hour h. */
  lemma IncrementExactHere(s: State, r: Recorder, h: int)
    requires Exact(s, r.campaign, h) && r.hour % 24 == h % 24 && BucketOk(s, KeyOf(r))
    ensures Exact(Incremented(s, r), r.campaign, h) <==> !Late(s, r, h)
  {
    var shown, e := Shown(s, KeyOf(r)), Spend(r.campaign, r.hour, r.amount);
    assert Shown(Incremented(s, r), KeyOf(r)) == shown + [e];
    SpendsSnoc(s.log, e, r.campaign, h);
    if r.hour != h {
      NotAmong(s.log, r.campaign, h, shown, e);
    } else if shown == [] && SpendsOf(s.log, r.campaign, h) != [] {
      assert |SpendsOf(s.log, r.campaign, h) + [e]| > 1;
    }
  }

  lemma NotAmong(log: seq<Spend>, c: string, h: int, shown: seq<Spend>, e: Spend)
    requires e.hour != h
    ensures shown + [e] != SpendsOf(log, c, h)
  {
    SpendsOwn(log, c, h);
    assert (shown + [e])[|shown|] == e;
  }

  lemma IncrementExactElsewhere(s: State, r: Recorder, c: string, h: int)
    requires Exact(s, c, h) && (c, h % 24) != KeyOf(r)
    ensures Exact(Incremented(s, r), c, h)
  {
    SpendsSnoc(s.log, Spend(r.campaign, r.hour, r.amount), c, h);
  }

  lemma IncrementStep(s: State, r: Recorder, hours: nat)
    requires Inv(s) && Faithful(s, hours)
    ensures Faithful(Incremented(s, r), hours) <==> !exists h | Recent(s, h, hours) :: Late(s, r, h)
  {
    var s' := Incremented(s, r);
    forall c, h | Recent(s, h, hours) && (c, h % 24) != KeyOf(r) ensures Exact(s', c, h) {
      assert Exact(s, c, h);
      IncrementExactElsewhere(s, r, c, h);
    }
    forall h | Recent(s, h, hours) && r.hour % 24 == h % 24 ensures Exact(s', r.campaign, h) <==> !Late(s, r, h) {
      assert Exact(s, r.campaign, h) && BucketOk(s, KeyOf(r));
      IncrementExactHere(s, r, h);
    }
  }

  lemma IncrementLasting(s: State, r: Recorder)
    requires AllLasting(s)
    ensures AllLasting(Incremented(s, r))
  {
    var s' := Incremented(s, r);
    forall c, h | Recent(s', h, 2) ensures Lasting(s', c, h) {
      assert Recent(s, h, 2);
      assert Lasting(s, c, h);
    }
  }

  lemma RenewStep(s: State, key: (string, int), hours: nat)
    requires AllLasting(s) && Faithful(s, hours)
    ensures var s' := s.(hourly := Redis.Expire(s.hourly, key, HOURLY_TTL, s.now)); Faithful(s', hours) && AllLasting(s')
  {
    var s' := s.(hourly := Redis.Expire(s.hourly, key, HOURLY_TTL, s.now));
    forall c, h | Recent(s', h, hours) ensures Exact(s', c, h) {
      assert Recent(s, h, hours);
      assert Exact(s, c, h);
    }
    forall c, h | Recent(s', h, 2) ensures Lasting(s', c, h) {
      assert Recent(s, h, 2);
      assert Lasting(s, c, h);
      HourBegins(s.now, h);
    }
  }

  /** Nothing depends on the recorders' stages. */
  lemma SameReads(s: State, s': State, hours: nat)
    requires s' == s.(recorders := s'.recorders)
    ensures (Faithful(s, hours) <==> Faithful(s', hours)) && (AllLasting(s) <==> AllLasting(s'))
  {
    forall c, h ensures (Exact(s, c, h) <==> Exact(s', c, h)) && (Lasting(s, c, h) <==> Lasting(s', c, h)) {
    }
    assert forall h, m :: Recent(s, h, m) <==> Recent(s', h, m);
  }

  /** From a state whose reads are exact, a step keeps them so if and only if it does not misfile. */
  lemma StepExact(s: State, a: Action, hours: nat)
    requires Inv(s) && AllLasting(s) && Faithful(s, hours) && 2 <= hours <= 3
    ensures Faithful(Next(s, a), hours) <==> !Misfiles(s, a, hours)
    ensures !Misfiles(s, a, hours) ==> AllLasting(Next(s, a))
  {
    match a {
      case Tick(d) =>
        TickStep(s, d, hours);
        if !Misfiles(s, a, hours) {
          TickLasting(s, d, hours);
        }
      case Increment(i, fails) =>
        if At(s, i, Incrementing) && !fails {
          IncrementStep(s, s.recorders[i], hours);
          IncrementLasting(s, s.recorders[i]);
          SameReads(Incremented(s, s.recorders[i]), Next(s, a), hours);
        } else {
          SameReads(s, Next(s, a), hours);
        }
      case Renew(i, fails) =>
        if At(s, i, Expiring) && !fails {
          RenewStep(s, KeyOf(s.recorders[i]), hours);
          SameReads(s.(hourly := Next(s, a).hourly), Next(s, a), hours);
        } else {
          SameReads(s, Next(s, a), hours);
        }
      case Begin(_, _) => SameReads(s, Next(s, a), hours);
    }
  }

  // ----- Theorems -----

  /** Whatever the interleaving, delays and failed commands: every campaign's bucket of this
      hour and the last always shows exactly that hour's increments, and (for hours == 3) the
      one before shows exactly that or has lapsed, if and only if no step of the run misfiles.
      In particular no bucket then ever shows another day's spend. */
  lemma {:induction false} ExactIffNothingMisfiled(start: nat, acts: seq<Action>, hours: nat)
    requires 2 <= hours <= 3
    ensures AlwaysFaithful(start, acts, hours) <==> Clean(start, acts, hours)
    ensures Clean(start, acts, hours) ==> AllLasting(Run(start, acts))
  {
    if acts != [] {
      var n := |acts| - 1;
      ExactIffNothingMisfiled(start, acts[..n], hours);
      RunKeepsInv(start, acts[..n]);
      if Clean(start, acts[..n], hours) {
        StepExact(Run(start, acts[..n]), acts[n], hours);
      }
    }
  }

  // ----- In amounts -----

  lemma HourBackMod(now: int, i: int)
    requires 0 <= i < 3
    ensures HourBack(now, i) == (HourIndex(now) - i) % 24
  {
    var n := HourIndex(now);
    assert n - i + 24 == 24 * (n / 24) + (n % 24 - i + 24);
  }

  /** What the clock reads in the bucket of hour index h. */
  function Read(s: State, c: string, h: int): real {
    Redis.Amount(s.hourly, (c, h % 24), s.now)
  }

  lemma ReadIsShown(s: State, c: string, h: int)
    requires Inv(s)
    ensures Read(s, c, h) == Total(Shown(s, (c, h % 24)))
  {
    assert BucketOk(s, (c, h % 24));
  }

  /** What the log says was spent i hours ago; two hours back, only while the bucket is alive. */
  function Logged(s: State, c: string, i: int): real {
    if i < 2 || Redis.Exists(s.hourly, (c, HourBack(s.now, i)), s.now) then Spent(s.log, c, HourIndex(s.now) - i) else 0.0
  }

  /** After a clean run pacing reads what the log says was spent. */
  lemma PacingReadsSpend(start: nat, acts: seq<Action>, c: string, i: int)
    requires Clean(start, acts, 3) && 0 <= i < 3
    ensures var s := Run(start, acts);
            Redis.Amount(s.hourly, (c, HourBack(s.now, i)), s.now) == Logged(s, c, i)
  {
    ExactIffNothingMisfiled(start, acts, 3);
    RunKeepsInv(start, acts);
    FaithfulReads(Run(start, acts), c, i);
  }

  lemma FaithfulReads(s: State, c: string, i: int)
    requires Inv(s) && Faithful(s, 3) && 0 <= i < 3
    ensures Redis.Amount(s.hourly, (c, HourBack(s.now, i)), s.now) == Logged(s, c, i)
  {
    var h := HourIndex(s.now) - i;
    HourBackMod(s.now, i);
    assert Recent(s, h, 3);
    assert Exact(s, c, h);
    ExactRead(s, c, h);
  }

  lemma ExactRead(s: State, c: string, h: int)
    requires Inv(s) && Exact(s, c, h)
    ensures Read(s, c, h)
            == if h != HourIndex(s.now) - 2 || Redis.Exists(s.hourly, (c, h % 24), s.now) then Spent(s.log, c, h) else 0.0
  {
    assert BucketOk(s, (c, h % 24));
    ReadIsShown(s, c, h);
  }

  predicate AmountOk(s: State, c: string, h: int) {
    Read(s, c, h) == Spent(s.log, c, h) || (h == HourIndex(s.now) - 2 && Read(s, c, h) == 0.0)
  }

  ghost predicate AmountsOk(s: State, hours: nat) {
    forall c, h | Recent(s, h, hours) :: AmountOk(s, c, h)
  }

  /** The amounts read are right now and were so after every earlier step. */
  ghost predicate AmountsAlwaysOk(start: nat, acts: seq<Action>, hours: nat) {
    && AmountsOk(Run(start, acts), hours)
    && (acts != [] ==> AmountsAlwaysOk(start, acts[..|acts| - 1], hours))
  }

  predicate Positive(a: Action) {
    a.Begin? ==> a.amount > 0.0
  }

  /** The recorder increments less than a day after its clock reading. */
  predicate SameDay(s: State, a: Action) {
    a.Increment? && At(s, a.i, Incrementing) ==> HourIndex(s.now) < s.recorders[a.i].hour + 24
  }

  ghost predicate AllSameDay(start: nat, acts: seq<Action>) {
    acts != [] ==>
      AllSameDay(start, acts[..|acts| - 1]) && SameDay(Run(start, acts[..|acts| - 1]), acts[|acts| - 1])
  }

  predicate AllPositive(spends: seq<Spend>) {
    forall k | 0 <= k < |spends| :: spends[k].amount > 0.0
  }

  ghost predicate PositiveInv(s: State) {
    && AllPositive(s.log)
    && (forall k | 0 <= k < |s.recorders| :: s.recorders[k].amount > 0.0)
    && (forall key | key in s.contents :: AllPositive(s.contents[key]))
  }

  lemma {:induction false} RunPositive(start: nat, acts: seq<Action>)
    requires forall k | 0 <= k < |acts| :: Positive(acts[k])
    ensures PositiveInv(Run(start, acts))
  {
    if acts != [] {
      RunPositive(start, acts[..|acts| - 1]);
      assert Positive(acts[|acts| - 1]);
    }
  }

  lemma {:induction false} TotalPositive(spends: seq<Spend>)
    requires AllPositive(spends)
    ensures Total(spends) >= 0.0 && (spends != [] ==> Total(spends) > 0.0)
  {
    if spends != [] {
      TotalPositive(spends[..|spends| - 1]);
    }
  }

  lemma SpendsPositive(log: seq<Spend>, c: string, h: int)
    requires AllPositive(log)
    ensures AllPositive(SpendsOf(log, c, h))
  {
    SpendsOwn(log, c, h);
    var own := SpendsOf(log, c, h);
    forall k | 0 <= k < |own| ensures own[k].amount > 0.0 {
      assert own[k] in own;
    }
  }

  /** An overtaken bucket shows spend in an hour that has had none. */
  lemma OvertakenShows(s: State, d: nat, c: string, h: int)
    requires Inv(s) && PositiveInv(s) && Overtaken(s, d, c, h)
    ensures !AmountOk(Next(s, Tick(d)), c, h)
  {
    assert BucketOk(s, (c, h % 24));
    NothingAhead(s.log, c, h);
    TotalPositive(s.contents[(c, h % 24)]);
  }

  /** An increment adds to its own hour only. */
  lemma SpentSnoc(log: seq<Spend>, e: Spend, c: string, h: int)
    ensures Spent(log + [e], c, h) == Spent(log, c, h) + (if e.campaign == c && e.hour == h then e.amount else 0.0)
  {
    SpendsSnoc(log, e, c, h);
    TotalSnoc(SpendsOf(log, c, h), e);
    assert SpendsOf(log, c, h) + [] == SpendsOf(log, c, h);
  }

  /** What an increment adds to its bucket. */
  lemma ReadSnoc(s: State, r: Recorder)
    requires Inv(s) && r.hour <= HourIndex(s.now)
    ensures Read(Incremented(s, r), r.campaign, r.hour) == Total(Shown(s, KeyOf(r))) + r.amount
  {
    IncrementedKeepsInv(s, r);
    ReadIsShown(Incremented(s, r), r.campaign, r.hour);
    TotalSnoc(Shown(s, KeyOf(r)), Spend(r.campaign, r.hour, r.amount));
  }

  /** A late increment goes missing in its own hour or shows in another. */
  lemma LateShows(s: State, r: Recorder, h: int)
    requires Inv(s) && PositiveInv(s) && r.amount > 0.0 && r.hour <= HourIndex(s.now)
    requires Late(s, r, h) && Exact(s, r.campaign, h)
    requires h != HourIndex(s.now) - 2 || r.hour == h
    ensures !AmountOk(Incremented(s, r), r.campaign, h)
  {
    assert Read(Incremented(s, r), r.campaign, h) == Read(Incremented(s, r), r.campaign, r.hour);
    ReadSnoc(s, r);
    SpentSnoc(s.log, Spend(r.campaign, r.hour, r.amount), r.campaign, h);
    SpendsPositive(s.log, r.campaign, h);
    TotalPositive(SpendsOf(s.log, r.campaign, h));
  }

  lemma MisfilingShows(s: State, a: Action, hours: nat)
    requires Inv(s) && PositiveInv(s) && Faithful(s, hours) && hours <= 3
    requires Misfiles(s, a, hours) && (hours == 2 || SameDay(s, a))
    ensures !AmountsOk(Next(s, a), hours)
  {
    if a.Tick? {
      var c, h :| Recent(Next(s, a), h, hours) && Overtaken(s, a.d, c, h);
      OvertakenShows(s, a.d, c, h);
    } else {
      var r := s.recorders[a.i];
      var h :| Recent(s, h, hours) && Late(s, r, h);
      assert Exact(s, r.campaign, h);
      if hours != 2 && r.hour != h {
        SameBucket(r.hour, h);
      }
      LateShows(s, r, h);
      assert !AmountOk(Next(s, a), r.campaign, h);
      assert Recent(Next(s, a), h, hours);
    }
  }

  lemma SameBucket(g: int, h: int)
    requires g % 24 == h % 24
    ensures g == h || g <= h - 24 || g >= h + 24
  {
  }

  lemma FaithfulAmounts(s: State, hours: nat)
    requires Inv(s) && Faithful(s, hours)
    ensures AmountsOk(s, hours)
  {
    forall c, h | Recent(s, h, hours) ensures AmountOk(s, c, h) {
      assert Exact(s, c, h);
      ReadIsShown(s, c, h);
    }
  }

  /** With positive amounts a misfiling always shows in a sum. So the amounts of this hour and
      the last are right throughout if and only if nothing is misfiled among them; and, unless
      an increment is a day late, the same holds with the third hour, right or zero. */
  lemma {:induction false} AmountsIffNothingMisfiled(start: nat, acts: seq<Action>, hours: nat)
    requires 2 <= hours <= 3 && (forall k | 0 <= k < |acts| :: Positive(acts[k]))
    requires hours == 2 || AllSameDay(start, acts)
    ensures AmountsAlwaysOk(start, acts, hours) <==> Clean(start, acts, hours)
  {
    RunKeepsInv(start, acts);
    ExactIffNothingMisfiled(start, acts, hours);
    if Clean(start, acts, hours) {
      FaithfulAmounts(Run(start, acts), hours);
    }
    if acts != [] {
      var n := |acts| - 1;
      AmountsIffNothingMisfiled(start, acts[..n], hours);
      if Clean(start, acts[..n], hours) && Misfiles(Run(start, acts[..n]), acts[n], hours) {
        ExactIffNothingMisfiled(start, acts[..n], hours);
        RunKeepsInv(start, acts[..n]);
        RunPositive(start, acts[..n]);
        MisfilingShows(Run(start, acts[..n]), acts[n], hours);
      }
    }
  }

  // ----- Prompt recorders -----

  /** Nobody's expiry fails, and time leaves no recorder behind: each increments by the end of
      the next hour and renews within 22 hours of the start of its own. */
  ghost predicate Prompt(s: State, a: Action) {
    match a
    case Tick(d) =>
      forall k | 0 <= k < |s.recorders| :: InTime(s.recorders[k], s.now + d)
    case Renew(i, fails) => At(s, i, Expiring) ==> !fails
    case _ => true
  }

  predicate InTime(r: Recorder, now: int) {
    && (r.stage.Incrementing? ==> HourIndex(now) <= r.hour + 1)
    && (r.stage.Expiring? ==> now < (r.hour + 22) * Redis.HOUR)
  }

  ghost predicate PromptRun(start: nat, acts: seq<Action>) {
    acts != [] ==>
      PromptRun(start, acts[..|acts| - 1]) && Prompt(Run(start, acts[..|acts| - 1]), acts[|acts| - 1])
  }

  /** A live bucket belongs to one hour g, and it dies before hour g + 24, or a recorder that
      will see to it is under way. */
  ghost predicate Owned(s: State, key: (string, int)) {
    Redis.Exists(s.hourly, key, s.now) && key in s.contents && s.contents[key] != [] ==>
      var g := s.contents[key][0].hour;
      && key.1 == g % 24 && g <= HourIndex(s.now)
      && (match s.hourly[key].expiresAt
          case None => exists k :: RenewsFor(s, k, key.0, g)
          case Some(t) => t < (g + 24) * Redis.HOUR)
  }

  ghost predicate RenewsFor(s: State, k: nat, c: string, g: int) {
    At(s, k, Expiring) && s.recorders[k].campaign == c && s.recorders[k].hour == g
  }

  ghost predicate PromptInv(s: State) {
    && (forall key :: Owned(s, key))
    && (forall k | 0 <= k < |s.recorders| :: InTime(s.recorders[k], s.now))
  }

  /** A live bucket dies before its number comes up again. */
  lemma OwnedDies(s: State, d: nat, key: (string, int), h: int)
    requires Inv(s) && PromptInv(s) && Prompt(s, Tick(d))
    requires key.1 == h % 24 && HourIndex(s.now) < h <= HourIndex(s.now + d)
    ensures !Redis.Exists(s.hourly, key, s.now + d)
  {
    assert Owned(s, key) && BucketOk(s, key);
    if Redis.Exists(s.hourly, key, s.now) {
      var g := s.contents[key][0].hour;
      SameBucket(g, h);
      HourBegins(s.now + d, h);
    }
  }

  lemma PromptNotMisfiled(s: State, a: Action)
    requires Inv(s) && PromptInv(s) && Prompt(s, a)
    ensures !Misfiles(s, a, 3)
  {
    if a.Tick? {
      forall c, h | Recent(Next(s, a), h, 3) ensures !Overtaken(s, a.d, c, h) {
        if HourIndex(s.now) < h {
          OwnedDies(s, a.d, (c, h % 24), h);
        }
      }
    } else if a.Increment? && At(s, a.i, Incrementing) {
      var r := s.recorders[a.i];
      assert InTime(r, s.now);
      forall h | Recent(s, h, 3) && r.hour % 24 == h % 24 ensures !Late(s, r, h) {
        SameBucket(r.hour, h);
      }
    }
  }

  lemma IncrementOwned(s: State, i: nat, key: (string, int))
    requires Inv(s) && PromptInv(s) && Faithful(s, 3) && At(s, i, Incrementing)
    ensures Owned(Next(s, Increment(i, false)), key)
  {
    var r, s' := s.recorders[i], Next(s, Increment(i, false));
    assert Owned(s, key) && BucketOk(s, key) && InTime(r, s.now);
    if key == KeyOf(r) {
      assert RenewsFor(s', i, r.campaign, r.hour);
      assert Recent(s, r.hour, 3) && Exact(s, r.campaign, r.hour);
      SpendsOwn(s.log, r.campaign, r.hour);
      if Shown(s, key) != [] {
        assert Shown(s, key)[0] in Shown(s, key);
      }
    } else {
      StillRenews(s, s', i, key);
    }
  }

  /** Another recorder's step leaves the one that sees to a bucket alone. */
  lemma StillRenews(s: State, s': State, i: nat, key: (string, int))
    requires |s'.recorders| >= |s.recorders|
    requires forall k | 0 <= k < |s.recorders| && k != i :: s'.recorders[k] == s.recorders[k]
    requires i < |s.recorders| ==> s.recorders[i].stage != Expiring || KeyOf(s.recorders[i]) != key
    ensures forall k, g | RenewsFor(s, k, key.0, g) && g % 24 == key.1 :: RenewsFor(s', k, key.0, g)
  {
  }

  /** A renewal in time finds its own hour's bucket. */
  lemma RenewOwned(s: State, i: nat, key: (string, int))
    requires Inv(s) && PromptInv(s) && At(s, i, Expiring)
    ensures Owned(Next(s, Renew(i, false)), key)
  {
    var r, s' := s.recorders[i], Next(s, Renew(i, false));
    assert Owned(s, key) && BucketOk(s, key) && InTime(r, s.now);
    if key != KeyOf(r) {
      StillRenews(s, s', i, key);
    } else if Redis.Exists(s.hourly, key, s.now) {
      var g := s.contents[key][0].hour;
      SameBucket(g, r.hour);
      HourBegins(s.now, r.hour);
      OwnHour(s, key, r.hour);
    }
  }

  lemma OwnHour(s: State, key: (string, int), g: int)
    requires Inv(s) && PromptInv(s) && Redis.Exists(s.hourly, key, s.now) && key in s.contents && s.contents[key] != []
    requires key.1 == g % 24 && g * Redis.HOUR <= s.now < (g + 22) * Redis.HOUR
    ensures s.contents[key][0].hour == g
  {
    var own := s.contents[key][0].hour;
    assert Owned(s, key);
    SameBucket(own, g);
    HourBegins(s.now, own);
  }

  lemma PromptStep(s: State, a: Action)
    requires Inv(s) && PromptInv(s) && Prompt(s, a) && Faithful(s, 3)
    ensures PromptInv(Next(s, a))
  {
    var s' := Next(s, a);
    forall key ensures Owned(s', key) {
      assert Owned(s, key) && BucketOk(s, key);
      match a {
        case Begin(_, _) => StillRenews(s, s', |s.recorders|, key);
        case Increment(i, fails) =>
          if At(s, i, Incrementing) {
            if fails {
              StillRenews(s, s', i, key);
            } else {
              IncrementOwned(s, i, key);
            }
          }
        case Renew(i, _) =>
          if At(s, i, Expiring) {
            RenewOwned(s, i, key);
          }
        case Tick(d) =>
          HoursMonotone(s.now, d);
          StillRenews(s, s', |s.recorders|, key);
      }
    }
    PromptRecorders(s, a);
  }

  lemma PromptRecorders(s: State, a: Action)
    requires Inv(s) && PromptInv(s) && Prompt(s, a)
    ensures forall k | 0 <= k < |Next(s, a).recorders| :: InTime(Next(s, a).recorders[k], Next(s, a).now)
  {
    var s' := Next(s, a);
    forall k | 0 <= k < |s'.recorders| ensures InTime(s'.recorders[k], s'.now) {
      if k < |s.recorders| {
        assert InTime(s.recorders[k], s.now);
        if s.recorders[k].stage.Incrementing? {
          HourEnds(s.now, s.recorders[k].hour);
        }
      }
    }
  }

  /** Prompt recorders never misfile, however their steps interleave. */
  lemma {:induction false} PromptIsClean(start: nat, acts: seq<Action>)
    requires PromptRun(start, acts)
    ensures Clean(start, acts, 3) && PromptInv(Run(start, acts))
  {
    if acts != [] {
      var n := |acts| - 1;
      PromptIsClean(start, acts[..n]);
      ExactIffNothingMisfiled(start, acts[..n], 3);
      RunKeepsInv(start, acts[..n]);
      PromptNotMisfiled(Run(start, acts[..n]), acts[n]);
      PromptStep(Run(start, acts[..n]), acts[n]);
    }
  }

  // ----- One recorder -----

  /** The steps of one deduction, run back to back, are what DeductBudget does. */
  lemma RecordingIsThreeSteps(s: State, c: string, amount: real)
    ensures var i := |s.recorders|;
            Next(Next(Next(s, Begin(c, amount)), Increment(i, false)), Renew(i, false)).hourly
            == Recorded(s.hourly, c, amount, s.now)
  {
  }

  /** Nothing in the service makes recorders prompt: one that stops before its EXPIRE, or whose
      EXPIRE fails, leaves a bucket that a day later shows yesterday's spend as today's. */
  lemma StalledRecorderLeaksYesterday(c: string)
    ensures var s := Run(0, [Begin(c, 5.0), Increment(0, false), Tick(24 * Redis.HOUR)]);
            Read(s, c, HourIndex(s.now)) == 5.0 && Spent(s.log, c, HourIndex(s.now)) == 0.0
  {
    var s1 := After(0, [], Begin(c, 5.0));
    var s2 := After(0, [Begin(c, 5.0)], Increment(0, false));
    assert [Begin(c, 5.0)] + [Increment(0, false)] == [Begin(c, 5.0), Increment(0, false)];
    var s := After(0, [Begin(c, 5.0), Increment(0, false)], Tick(24 * Redis.HOUR));
    assert [Begin(c, 5.0), Increment(0, false)] + [Tick(24 * Redis.HOUR)]
           == [Begin(c, 5.0), Increment(0, false), Tick(24 * Redis.HOUR)];
    assert s.log == [Spend(c, 0, 5.0)];
    NothingAhead(s.log, c, HourIndex(s.now));
  }

  lemma After(start: nat, acts: seq<Action>, a: Action) returns (s: State)
    ensures s == Run(start, acts + [a]) == Next(Run(start, acts), a)
  {
    assert (acts + [a])[..|acts|] == acts;
    s := Run(start, acts + [a]);
  }
}
