/**
 The concurrent ledger and the hourly ring together: a deduct call that took the price
 (internal/budget/service.go:110-119) goes on to read the hour, count the amount in that
 hour's bucket and renew its expiry (internal/budget/service.go:123-127), each step
 interleaved with everything else. What pacing reads is then accounted for in the ledger.
 */
module Spending {
  import opened Wrappers
  import opened BudgetStore
  import Redis
  import Ledger
  import LedgerTheorems
  import Ring
  import Pacing

  datatype State = State(
    ledger: Ledger.State,
    ring: Ring.State,
    recorders: map<nat, nat>)  // which recorder of the ring a request's deduct call became

  datatype Action =
    | Bid(a: Ledger.Action)              // any step of the ledger but the next four
    | ReadHour(r: nat)
    | Count(r: nat, fails: bool)
    | Renew(r: nat, fails: bool)
    | Tick(d: nat)

  function Init(): State {
    State(Ledger.Init, Ring.Run(0, []), map[])
  }

  /** What request r was charged, and for which campaign. */
  predicate Charging(s: Ledger.State, r: nat) {
    r < |s.requests| && s.requests[r].server.Charged? && s.requests[r].winner.Some?
  }

  function CampaignOf(s: Ledger.State, r: nat): string
    requires r < |s.requests| && s.requests[r].winner.Some?
  {
    s.requests[r].winner.value.campaignId
  }

  function CostOf(s: Ledger.State, r: nat): real
    requires r < |s.requests| && s.requests[r].winner.Some?
  {
    Ledger.Cost(s.requests[r].winner.value.clearingPrice)
  }

  predicate CanRead(s: State, r: nat) {
    Charging(s.ledger, r) && r !in s.recorders
  }

  predicate CanCount(s: State, r: nat) {
    Charging(s.ledger, r) && r in s.recorders && Ring.At(s.ring, s.recorders[r], Ring.Incrementing)
  }

  /** The ledger's share of a step, if any. */
  function LedgerStep(s: State, a: Action): Option<Ledger.Action> {
    match a
    case Bid(b) => if b.Tick? || b.Count? then None else Some(b)
    case Count(r, fails) => if CanCount(s, r) then Some(Ledger.Count(r, fails)) else None
    case Tick(d) => Some(Ledger.Tick(d))
    case _ => None
  }

  /** The ring's share of a step, if any. */
  function RingStep(s: State, a: Action): Option<Ring.Action> {
    match a
    case ReadHour(r) => if CanRead(s, r) then Some(Ring.Begin(CampaignOf(s.ledger, r), CostOf(s.ledger, r))) else None
    case Count(r, fails) => if CanCount(s, r) then Some(Ring.Increment(s.recorders[r], fails)) else None
    case Renew(r, fails) => if r in s.recorders then Some(Ring.Renew(s.recorders[r], fails)) else None
    case Tick(d) => Some(Ring.Tick(d))
    case _ => None
  }

  function Next(s: State, a: Action): State {
    var l, g := LedgerStep(s, a), RingStep(s, a);
    State(if l.Some? then Ledger.Next(s.ledger, l.value) else s.ledger,
          if g.Some? then Ring.Next(s.ring, g.value) else s.ring,
          if a.ReadHour? && CanRead(s, a.r) then s.recorders[a.r := |s.ring.recorders|] else s.recorders)
  }

  function Run(acts: seq<Action>): State {
    if acts == [] then Init() else Next(Run(acts[..|acts| - 1]), acts[|acts| - 1])
  }

  function Opt<T>(o: Option<T>): seq<T> {
    if o.Some? then [o.value] else []
  }

  /** The run of the ledger alone. */
  function LedgerActs(acts: seq<Action>): seq<Ledger.Action> {
    if acts == [] then []
    else LedgerActs(acts[..|acts| - 1]) + Opt(LedgerStep(Run(acts[..|acts| - 1]), acts[|acts| - 1]))
  }

  /** The run of the ring alone. */
  function RingActs(acts: seq<Action>): seq<Ring.Action> {
    if acts == [] then []
    else RingActs(acts[..|acts| - 1]) + Opt(RingStep(Run(acts[..|acts| - 1]), acts[|acts| - 1]))
  }

  lemma LedgerMore(before: seq<Ledger.Action>, o: Option<Ledger.Action>)
    ensures Ledger.Run(before + Opt(o)) == if o.Some? then Ledger.Next(Ledger.Run(before), o.value) else Ledger.Run(before)
  {
    if o.Some? {
      assert (before + [o.value])[..|before|] == before;
    } else {
      assert before + [] == before;
    }
  }

  lemma RingMore(before: seq<Ring.Action>, o: Option<Ring.Action>)
    ensures Ring.Run(0, before + Opt(o)) == if o.Some? then Ring.Next(Ring.Run(0, before), o.value) else Ring.Run(0, before)
  {
    if o.Some? {
      assert (before + [o.value])[..|before|] == before;
    } else {
      assert before + [] == before;
    }
  }

  /** Both halves of a joint run are runs of their own. */
  lemma {:induction false} Projects(acts: seq<Action>)
    ensures Run(acts).ledger == Ledger.Run(LedgerActs(acts))
    ensures Run(acts).ring == Ring.Run(0, RingActs(acts))
  {
    if acts != [] {
      hide Ledger.Next, Ring.Next, Ledger.Run, Ring.Run, LedgerStep, RingStep;
      var n := |acts| - 1;
      Projects(acts[..n]);
      LedgerMore(LedgerActs(acts[..n]), LedgerStep(Run(acts[..n]), acts[n]));
      RingMore(RingActs(acts[..n]), RingStep(Run(acts[..n]), acts[n]));
    } else {
      assert Ledger.Run([]) == Ledger.Init;
    }
  }

  // ----- What was counted -----

  /** Everything the ring's log holds for campaign c. */
  function Counted(log: seq<Ring.Spend>, c: string): real {
    if log == [] then 0.0
    else
      var e := log[|log| - 1];
      Counted(log[..|log| - 1], c) + (if e.campaign == c then e.amount else 0.0)
  }

  /** What it holds for hours before hour index h. */
  function CountedBefore(log: seq<Ring.Spend>, c: string, h: int): real {
    if log == [] then 0.0
    else
      var e := log[|log| - 1];
      CountedBefore(log[..|log| - 1], c, h) + (if e.campaign == c && e.hour < h then e.amount else 0.0)
  }

  lemma CountedSnoc(log: seq<Ring.Spend>, e: Ring.Spend, c: string)
    ensures Counted(log + [e], c) == Counted(log, c) + (if e.campaign == c then e.amount else 0.0)
  {
    assert (log + [e])[..|log|] == log;
  }

  /** One hour at a time. */
  lemma {:induction false} CountedByHour(log: seq<Ring.Spend>, c: string, h: int)
    ensures CountedBefore(log, c, h + 1) == CountedBefore(log, c, h) + Ring.Spent(log, c, h)
  {
    if log != [] {
      var n := |log| - 1;
      CountedByHour(log[..n], c, h);
      assert log == log[..n] + [log[n]];
      Ring.SpentSnoc(log[..n], log[n], c, h);
    }
  }

  lemma {:induction false} AllCountedBefore(log: seq<Ring.Spend>, c: string, h: int)
    requires forall k | 0 <= k < |log| :: log[k].hour < h
    ensures CountedBefore(log, c, h) == Counted(log, c)
  {
    if log != [] {
      AllCountedBefore(log[..|log| - 1], c, h);
    }
  }

  // ----- The invariant -----

  /** Request r's deduct call and its recorder are about the same campaign and amount, and are
      equally far. */
  predicate Paired(s: State, r: nat, i: nat) {
    && r < |s.ledger.requests| && i < |s.ring.recorders|
    && var q, x := s.ledger.requests[r], s.ring.recorders[i];
    && Ledger.WasCharged(q)
    && x.campaign == q.winner.value.campaignId && x.amount == Ledger.Cost(q.winner.value.clearingPrice)
    && (x.stage.Incrementing? <==> q.server.Charged?)
  }

  ghost predicate Inv(s: State) {
    && s.ledger.now == s.ring.now
    && (forall r | r in s.recorders :: Paired(s, r, s.recorders[r]))
    && (forall r, x | r in s.recorders && x in s.recorders && r != x :: s.recorders[r] != s.recorders[x])
  }

  ghost predicate Booked(s: State, c: string) {
    Counted(s.ring.log, c) == Ledger.CountedTotal(s.ledger.log, c)
  }

  ghost predicate ClientsOk(s: Ledger.State) {
    forall r | 0 <= r < |s.requests| && s.requests[r].client.Checking? :: s.requests[r].winner.None?
  }

  /** Only Count changes what the deduct call of a charged request has done. */
  lemma OtherStepsLeaveCharges(s: Ledger.State, b: Ledger.Action)
    requires ClientsOk(s) && !b.Count?
    ensures var s' := Ledger.Next(s, b);
            && |s.requests| <= |s'.requests|
            && (forall r | 0 <= r < |s.requests| && Ledger.WasCharged(s.requests[r]) ::
                  s'.requests[r].winner == s.requests[r].winner && s'.requests[r].server == s.requests[r].server)
            && (!b.Tick? ==> s'.now == s.now)
  {
    hide Ledger.Cost, Ledger.CandidateOf, Ledger.Candidates, BudgetStore.Deducted;
  }

  /** Only Count counts. */
  lemma OtherStepsCountNothing(s: Ledger.State, b: Ledger.Action, c: string)
    requires !b.Count?
    ensures Ledger.CountedTotal(Ledger.Next(s, b).log, c) == Ledger.CountedTotal(s.log, c)
  {
    var s' := Ledger.Next(s, b);
    match b {
      case SyncSetNX(d, budget) =>
        Ledger.Snoc(s.log, Ledger.Opened(d, budget, Some(s.now + DAILY_TTL)), c);
      case Delete(d) =>
        Ledger.Snoc(s.log, Ledger.Deleted(d), c);
      case Script(r, fails) =>
        if s'.log != s.log {
          ScriptCountsNothing(s, r, c);
        }
      case _ =>
    }
  }

  lemma ScriptCountsNothing(s: Ledger.State, r: nat, c: string)
    requires r < |s.requests| && s.requests[r].winner.Some?
    ensures Ledger.CountedTotal(Ledger.AfterScript(s, r).log, c) == Ledger.CountedTotal(s.log, c)
  {
    var e, f := Ledger.Opened(CampaignOf(s, r), 0.0, None), Ledger.Deducted(CampaignOf(s, r), CostOf(s, r));
    Ledger.Snoc(s.log, e, c);
    Ledger.Snoc(s.log + [e], f, c);
    Ledger.Snoc(s.log, f, c);
    assert s.log + [] == s.log;
  }

  lemma BidKeepsInv(s: State, b: Ledger.Action, c: string)
    requires Inv(s) && Booked(s, c) && ClientsOk(s.ledger)
    ensures Inv(Next(s, Bid(b))) && Booked(Next(s, Bid(b)), c)
  {
    if !b.Tick? && !b.Count? {
      hide Ledger.Next;
      OtherStepsLeaveCharges(s.ledger, b);
      OtherStepsCountNothing(s.ledger, b, c);
      forall r | r in s.recorders ensures Paired(Next(s, Bid(b)), r, s.recorders[r]) {
        assert Paired(s, r, s.recorders[r]);
      }
    }
  }

  lemma TickKeepsInv(s: State, d: nat, c: string)
    requires Inv(s) && Booked(s, c) && ClientsOk(s.ledger)
    ensures Inv(Next(s, Tick(d))) && Booked(Next(s, Tick(d)), c)
  {
    forall r | r in s.recorders ensures Paired(Next(s, Tick(d)), r, s.recorders[r]) {
      assert Paired(s, r, s.recorders[r]);
    }
  }

  lemma ReadHourKeepsInv(s: State, r: nat, c: string)
    requires Inv(s) && Booked(s, c)
    ensures Inv(Next(s, ReadHour(r))) && Booked(Next(s, ReadHour(r)), c)
  {
    hide Ledger.Cost, Counted, Ledger.CountedTotal;
    var s' := Next(s, ReadHour(r));
    if CanRead(s, r) {
      forall x | x in s'.recorders ensures Paired(s', x, s'.recorders[x]) {
        if x != r {
          assert Paired(s, x, s.recorders[x]);
        }
      }
      forall x | x in s.recorders ensures s.recorders[x] < |s.ring.recorders| {
        assert Paired(s, x, s.recorders[x]);
      }
    }
  }

  lemma RenewKeepsInv(s: State, r: nat, fails: bool, c: string)
    requires Inv(s) && Booked(s, c)
    ensures Inv(Next(s, Renew(r, fails))) && Booked(Next(s, Renew(r, fails)), c)
  {
    hide Redis.Expire, Ledger.Cost, Counted, Ledger.CountedTotal;
    forall x | x in s.recorders ensures Paired(Next(s, Renew(r, fails)), x, s.recorders[x]) {
      assert Paired(s, x, s.recorders[x]);
    }
  }

  /** What Count does to each half. */
  lemma CountHalves(s: State, r: nat, fails: bool)
    requires CanCount(s, r) && Paired(s, r, s.recorders[r])
    ensures var s', i := Next(s, Count(r, fails)), s.recorders[r];
            var x := s.ring.recorders[i];
            && s'.recorders == s.recorders && s'.ledger.now == s.ledger.now && s'.ring.now == s.ring.now
            && s'.ledger.requests == s.ledger.requests[r := s.ledger.requests[r].(server := Ledger.Answered(!fails))]
            && s'.ring.recorders == s.ring.recorders[i := x.(stage := Ring.Expiring)]
            && s'.ledger.log == s.ledger.log + (if fails then [] else [Ledger.Counted(x.campaign, x.amount)])
            && s'.ring.log == s.ring.log + (if fails then [] else [Ring.Spend(x.campaign, x.hour, x.amount)])
  {
    hide Redis.IncrByFloat, Ring.Shown;
  }

  lemma CountKeepsClocks(s: State, r: nat, fails: bool)
    requires CanCount(s, r)
    ensures var s' := Next(s, Count(r, fails));
            s'.recorders == s.recorders && s'.ledger.now == s.ledger.now && s'.ring.now == s.ring.now
  {
    hide Redis.IncrByFloat, Ring.Shown;
  }

  lemma CountPairs(s: State, r: nat, fails: bool, y: nat)
    requires Inv(s) && CanCount(s, r) && y in s.recorders
    ensures Paired(Next(s, Count(r, fails)), y, s.recorders[y])
  {
    hide Next;
    assert Paired(s, r, s.recorders[r]) && Paired(s, y, s.recorders[y]);
    CountHalves(s, r, fails);
  }

  lemma CountBooks(s: State, r: nat, fails: bool, c: string)
    requires Booked(s, c) && CanCount(s, r) && Paired(s, r, s.recorders[r])
    ensures Booked(Next(s, Count(r, fails)), c)
  {
    hide Next, Counted, Ledger.CountedTotal;
    var x := s.ring.recorders[s.recorders[r]];
    CountHalves(s, r, fails);
    assert s.ring.log + [] == s.ring.log && s.ledger.log + [] == s.ledger.log;
    CountedSnoc(s.ring.log, Ring.Spend(x.campaign, x.hour, x.amount), c);
    Ledger.Snoc(s.ledger.log, Ledger.Counted(x.campaign, x.amount), c);
  }

  lemma CountKeepsInv(s: State, r: nat, fails: bool, c: string)
    requires Inv(s) && Booked(s, c)
    ensures Inv(Next(s, Count(r, fails))) && Booked(Next(s, Count(r, fails)), c)
  {
    if CanCount(s, r) {
      hide Next, Paired, Booked;
      CountKeepsClocks(s, r, fails);
      CountBooks(s, r, fails, c);
      forall y | y in s.recorders ensures Paired(Next(s, Count(r, fails)), y, s.recorders[y]) {
        CountPairs(s, r, fails, y);
      }
    }
  }

  lemma StepKeepsInv(s: State, a: Action, c: string)
    requires Inv(s) && Booked(s, c) && ClientsOk(s.ledger)
    ensures Inv(Next(s, a)) && Booked(Next(s, a), c)
  {
    hide Next, Inv, Booked;
    match a {
      case Bid(b) => BidKeepsInv(s, b, c);
      case ReadHour(r) => ReadHourKeepsInv(s, r, c);
      case Count(r, fails) => CountKeepsInv(s, r, fails, c);
      case Renew(r, fails) => RenewKeepsInv(s, r, fails, c);
      case Tick(d) => TickKeepsInv(s, d, c);
    }
  }

  lemma RunClientsOk(acts: seq<Ledger.Action>)
    ensures ClientsOk(Ledger.Run(acts))
  {
    hide Ledger.Run;
    forall r | 0 <= r < |Ledger.Run(acts).requests| && Ledger.Run(acts).requests[r].client.Checking?
      ensures Ledger.Run(acts).requests[r].winner.None?
    {
      LedgerTheorems.RunStands(acts, r);
    }
  }

  lemma {:induction false} RunKeepsInv(acts: seq<Action>, c: string)
    ensures Inv(Run(acts)) && Booked(Run(acts), c)
  {
    if acts != [] {
      hide Next, Inv, Booked, ClientsOk;
      var n := |acts| - 1;
      RunKeepsInv(acts[..n], c);
      Projects(acts[..n]);
      RunClientsOk(LedgerActs(acts[..n]));
      StepKeepsInv(Run(acts[..n]), acts[n], c);
    }
  }

  // ----- Theorems -----

  /** In every joint run, for every campaign: what the ledger deducted is what the hourly
      buckets were ever told plus what they missed, or have not been told yet. */
  lemma DeductionsReachTheRing(acts: seq<Action>, c: string)
    requires Ledger.SoundRun(LedgerActs(acts))
    ensures var s := Run(acts);
            Ledger.Spent(s.ledger.log, c) == Counted(s.ring.log, c) + Ledger.Total(s.ledger.requests, Ledger.Uncounted, c)
  {
    RunKeepsInv(acts, c);
    Projects(acts);
    LedgerTheorems.Conservation(LedgerActs(acts), c);
  }

  /** So, when nothing was misfiled, what pacing reads as recent spend is all that was deducted,
      less what went uncounted, less what was counted for hours more than two back, less the
      third hour if its bucket has lapsed. */
  lemma PacingSeesTheLedger(acts: seq<Action>, c: string)
    requires Ledger.SoundRun(LedgerActs(acts)) && Ring.Clean(0, RingActs(acts), 3)
    ensures var s := Run(acts);
            var hour := HourIndex(s.ring.now);
            Pacing.RecentSpend(s.ring.hourly, c, s.ring.now, 3)
            == Ledger.Spent(s.ledger.log, c) - Ledger.Total(s.ledger.requests, Ledger.Uncounted, c)
               - CountedBefore(s.ring.log, c, hour - 2)
               - (if Redis.Exists(s.ring.hourly, (c, HourBack(s.ring.now, 2)), s.ring.now) then 0.0
                  else Ring.Spent(s.ring.log, c, hour - 2))
  {
    hide Run, Ledger.Run, Ring.Run, Ledger.SoundRun, Ring.Clean, Pacing.RecentSpend, HourBack, HourIndex;
    DeductionsReachTheRing(acts, c);
    Projects(acts);
    Ring.RunKeepsInv(0, RingActs(acts));
    Pacing.SpendRateFollowsLog(0, RingActs(acts), c);
    RecentHours(Run(acts).ring, c);
  }

  lemma RecentHours(g: Ring.State, c: string)
    requires Ring.HoursOk(g)
    ensures var hour := HourIndex(g.now);
            Counted(g.log, c) == CountedBefore(g.log, c, hour - 2)
              + Ring.Spent(g.log, c, hour - 2) + Ring.Spent(g.log, c, hour - 1) + Ring.Spent(g.log, c, hour)
  {
    var hour := HourIndex(g.now);
    AllCountedBefore(g.log, c, hour + 1);
    CountedByHour(g.log, c, hour);
    CountedByHour(g.log, c, hour - 1);
    CountedByHour(g.log, c, hour - 2);
  }
}
