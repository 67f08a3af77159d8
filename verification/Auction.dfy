/**
 The auction engine (internal/bidding/auction.go): filter, in-place sort,
 first- or second-price clearing, floor.

 Go's sort.Slice is not stable, so equal bids may end up in any order. Every
 theorem below is therefore stated for every ranking, that is, for every
 descending permutation of the eligible candidates.
 */
module Auction {
  import opened Wrappers
  import opened Counting

  // The auction types of section 3.2.1 of OpenRTB 2.6. The source keeps the type in
  // a plain integer, so other values can occur and are modelled too.
  const FIRST_PRICE := 1
  const SECOND_PRICE := 2

  datatype BidCandidate = BidCandidate(
    campaignId: string,
    adId: string,
    rawBid: real,
    effectiveBid: real,
    clearingPrice: real,
    predictedCtr: real,
    budgetOk: bool)

  predicate Admits(c: BidCandidate, floor: real) {
    c.budgetOk && c.effectiveBid >= floor
  }

  function Eligible(cs: seq<BidCandidate>, floor: real): seq<BidCandidate> {
    if cs == [] then []
    else
      var c := cs[|cs| - 1];
      Eligible(cs[..|cs| - 1], floor) + (if Admits(c, floor) then [c] else [])
  }

  predicate Descending(s: seq<BidCandidate>) {
    forall i, j | 0 <= i < j < |s| :: s[i].effectiveBid >= s[j].effectiveBid
  }

  /** A possible result of sorting the eligible candidates of cs. */
  predicate Ranking(s: seq<BidCandidate>, cs: seq<BidCandidate>, floor: real) {
    Descending(s) && multiset(s) == multiset(Eligible(cs, floor))
  }

  /** Prices the head of a ranking. */
  function Clear(s: seq<BidCandidate>, auctionType: int, floor: real): Option<BidCandidate> {
    if s == [] then None
    else
      var price :=
        if auctionType == SECOND_PRICE then (if |s| > 1 then s[1].effectiveBid else floor)
        else if auctionType == FIRST_PRICE then s[0].effectiveBid
        else s[0].clearingPrice;
      Some(s[0].(clearingPrice := if price < floor then floor else price))
  }

  /** winner is what some tie-break makes of the candidates. */
  ghost predicate Outcome(cs: seq<BidCandidate>, auctionType: int, floor: real, winner: Option<BidCandidate>) {
    exists s :: Ranking(s, cs, floor) && winner == Clear(s, auctionType, floor)
  }

  // ----- The imperative engine -----

  /** sort.Slice with the descending-bid comparison; callers learn nothing about ties. */
  method SortSlice(a: array<BidCandidate>)
    modifies a
    ensures Descending(a[..])
    ensures multiset(a[..]) == multiset(old(a[..]))
  {
    var n := 0;
    while n < a.Length
      invariant 0 <= n <= a.Length
      invariant Descending(a[..n])
      invariant multiset(a[..]) == multiset(old(a[..]))
    {
      SinkLast(a, n);
      n := n + 1;
    }
    assert a[..] == a[..a.Length];
  }

  /** One insertion: a[n] moves left past every smaller bid. */
  method SinkLast(a: array<BidCandidate>, n: nat)
    requires n < a.Length && Descending(a[..n])
    modifies a
    ensures Descending(a[..n + 1])
    ensures multiset(a[..]) == multiset(old(a[..]))
  {
    var k := n;
    while k > 0 && a[k - 1].effectiveBid < a[k].effectiveBid
      invariant 0 <= k <= n
      invariant forall i, j | 0 <= i < j <= n && j != k :: a[i].effectiveBid >= a[j].effectiveBid
      invariant multiset(a[..]) == multiset(old(a[..]))
    {
      SwapWithPrevious(a, k);
      k := k - 1;
    }
  }

  method SwapWithPrevious(a: array<BidCandidate>, k: nat)
    requires 0 < k < a.Length
    modifies a
    ensures a[k - 1] == old(a[k]) && a[k] == old(a[k - 1])
    ensures forall i | 0 <= i < a.Length && i != k && i != k - 1 :: a[i] == old(a[i])
    ensures multiset(a[..]) == multiset(old(a[..]))
  {
    a[k - 1], a[k] := a[k], a[k - 1];
  }

  method Filter(candidates: seq<BidCandidate>, floor: real) returns (eligible: seq<BidCandidate>)
    ensures eligible == Eligible(candidates, floor)
  {
    eligible := [];
    var i := 0;
    while i < |candidates|
      invariant 0 <= i <= |candidates|
      invariant eligible == Eligible(candidates[..i], floor)
    {
      assert candidates[..i + 1][..i] == candidates[..i];
      if candidates[i].budgetOk && candidates[i].effectiveBid >= floor {
        eligible := eligible + [candidates[i]];
      }
      i := i + 1;
    }
    assert candidates[..i] == candidates;
  }

  method RunAuction(candidates: seq<BidCandidate>, auctionType: int, floor: real)
    returns (winner: Option<BidCandidate>)
    ensures Outcome(candidates, auctionType, floor, winner)
  {
    var eligible := Filter(candidates, floor);
    if |eligible| == 0 {
      assert Ranking([], candidates, floor);
      return None;
    }
    var slots := new BidCandidate[|eligible|](j requires 0 <= j < |eligible| => eligible[j]);
    assert slots[..] == eligible;
    SortSlice(slots);
    ghost var ranked := slots[..];
    assert Ranking(ranked, candidates, floor);
    winner := PriceHead(slots, auctionType, floor);
    assert winner == Clear(ranked, auctionType, floor);
  }

  /** Writes the clearing price into the head of the sorted slice, as through the pointer. */
  method PriceHead(slots: array<BidCandidate>, auctionType: int, floor: real) returns (winner: Option<BidCandidate>)
    requires slots.Length > 0
    modifies slots
    ensures winner == Clear(old(slots[..]), auctionType, floor) == Some(slots[0])
    ensures slots[1..] == old(slots[1..])
  {
    if auctionType == SECOND_PRICE {
      if slots.Length > 1 {
        slots[0] := slots[0].(clearingPrice := slots[1].effectiveBid);
      } else {
        slots[0] := slots[0].(clearingPrice := floor);
      }
    } else if auctionType == FIRST_PRICE {
      slots[0] := slots[0].(clearingPrice := slots[0].effectiveBid);
    }
    if slots[0].clearingPrice < floor {
      slots[0] := slots[0].(clearingPrice := floor);
    }
    winner := Some(slots[0]);
  }

  // ----- Rankings as multisets -----

  /** Filtering keeps exactly the admitted candidates, with their multiplicity. */
  lemma {:induction false} EligibleCount(cs: seq<BidCandidate>, floor: real, c: BidCandidate)
    ensures multiset(Eligible(cs, floor))[c] == if c.budgetOk && c.effectiveBid >= floor then multiset(cs)[c] else 0
  {
    if cs != [] {
      var n := |cs| - 1;
      EligibleCount(cs[..n], floor, c);
      assert cs == cs[..n] + [cs[n]];
    }
  }

  /** Filtering keeps the order of the candidates. */
  lemma {:induction false} EligibleInOrder(cs: seq<BidCandidate>, more: seq<BidCandidate>, floor: real)
    ensures Eligible(cs + more, floor) == Eligible(cs, floor) + Eligible(more, floor)
  {
    if more == [] {
      assert cs + more == cs;
    } else {
      var n := |more| - 1;
      EligibleInOrder(cs, more[..n], floor);
      assert (cs + more)[..|cs + more| - 1] == cs + more[..n];
    }
  }

  lemma EligiblePermuted(cs: seq<BidCandidate>, ds: seq<BidCandidate>, floor: real)
    requires multiset(cs) == multiset(ds)
    ensures multiset(Eligible(cs, floor)) == multiset(Eligible(ds, floor))
  {
    forall c ensures multiset(Eligible(cs, floor))[c] == multiset(Eligible(ds, floor))[c] {
      EligibleCount(cs, floor, c);
      EligibleCount(ds, floor, c);
    }
  }

  lemma InRanking(s: seq<BidCandidate>, cs: seq<BidCandidate>, floor: real, c: BidCandidate)
    requires Ranking(s, cs, floor)
    ensures c in s <==> c in cs && Admits(c, floor)
  {
    EligibleCount(cs, floor, c);
    assert c in s <==> c in multiset(s);
    assert c in cs <==> c in multiset(cs);
  }

  // ----- Order statistics -----

  function Above(v: real, strict: bool): BidCandidate -> bool {
    (c: BidCandidate) => c.effectiveBid > v || (!strict && c.effectiveBid == v)
  }

  /** How many bids lie above v (strictly, or at least v). */
  function BidsAbove(s: seq<BidCandidate>, v: real, strict: bool): nat {
    Count(s, Above(v, strict))
  }

  /** v is the k-th highest bid of s, counting repeated bids. */
  predicate KthHighest(s: seq<BidCandidate>, k: nat, v: real) {
    BidsAbove(s, v, true) < k <= BidsAbove(s, v, false)
  }

  lemma KthHighestUnique(s: seq<BidCandidate>, k: nat, v: real, w: real)
    requires KthHighest(s, k, v) && KthHighest(s, k, w)
    ensures v == w
  {
    if v < w {
      AboveOrdered(s, v, w);
    } else if w < v {
      AboveOrdered(s, w, v);
    }
  }

  lemma AboveOrdered(s: seq<BidCandidate>, v: real, w: real)
    requires v < w
    ensures BidsAbove(s, w, false) <= BidsAbove(s, v, true)
  {
    CountMonotone(s, Above(w, false), Above(v, true));
  }

  /** In a ranking, position i holds the (i+1)-th highest bid. */
  lemma RankIsOrderStatistic(s: seq<BidCandidate>, i: nat)
    requires Descending(s) && i < |s|
    ensures KthHighest(s, i + 1, s[i].effectiveBid)
  {
    EnoughAbove(s, i);
    FewAbove(s, i);
  }

  lemma EnoughAbove(s: seq<BidCandidate>, i: nat)
    requires Descending(s) && i < |s|
    ensures BidsAbove(s, s[i].effectiveBid, false) >= i + 1
  {
    var p, head, tail := Above(s[i].effectiveBid, false), s[..i + 1], s[i + 1..];
    assert forall k | 0 <= k < |head| :: p(head[k]);
    CountExtremes(head, p);
    CountSplit(s, i + 1, p);
  }

  lemma FewAbove(s: seq<BidCandidate>, i: nat)
    requires Descending(s) && i < |s|
    ensures BidsAbove(s, s[i].effectiveBid, true) <= i
  {
    var p, head, tail := Above(s[i].effectiveBid, true), s[..i], s[i..];
    assert forall k | 0 <= k < |tail| :: !p(tail[k]);
    CountExtremes(head, p);
    CountExtremes(tail, p);
    CountSplit(s, i, p);
  }

  lemma KthHighestPermuted(s: seq<BidCandidate>, t: seq<BidCandidate>, k: nat, v: real)
    requires multiset(s) == multiset(t)
    ensures KthHighest(s, k, v) <==> KthHighest(t, k, v)
  {
    CountPermuted(s, t, Above(v, true));
    CountPermuted(s, t, Above(v, false));
  }

  // ----- Theorems: prices -----

  /** All rankings of the same eligible candidates show the same bids, place by place. */
  lemma RankingsAgree(s: seq<BidCandidate>, t: seq<BidCandidate>)
    requires Descending(s) && Descending(t) && multiset(s) == multiset(t)
    ensures |s| == |t|
    ensures forall i | 0 <= i < |s| :: s[i].effectiveBid == t[i].effectiveBid
  {
    assert |multiset(s)| == |s| && |multiset(t)| == |t|;
    forall i | 0 <= i < |s| ensures s[i].effectiveBid == t[i].effectiveBid {
      RankIsOrderStatistic(s, i);
      RankIsOrderStatistic(t, i);
      KthHighestPermuted(s, t, i + 1, s[i].effectiveBid);
      KthHighestUnique(t, i + 1, s[i].effectiveBid, t[i].effectiveBid);
    }
  }

  /** Neither the order in which candidates arrive nor the tie-break changes whether there
      is a bid, how much was bid, or what is paid. An unknown auction type pays the
      candidate's own preset price, so there the presets must agree. */
  lemma OrderIndependence(cs: seq<BidCandidate>, ds: seq<BidCandidate>, auctionType: int, floor: real,
                          v: Option<BidCandidate>, w: Option<BidCandidate>)
    requires multiset(cs) == multiset(ds)
    requires auctionType == FIRST_PRICE || auctionType == SECOND_PRICE ||
             (forall c, d | c in cs && d in cs :: c.clearingPrice == d.clearingPrice)
    requires Outcome(cs, auctionType, floor, v) && Outcome(ds, auctionType, floor, w)
    ensures v.None? <==> w.None?
    ensures v.Some? ==> v.value.effectiveBid == w.value.effectiveBid
    ensures v.Some? ==> v.value.clearingPrice == w.value.clearingPrice
  {
    hide Clear, Eligible;
    var s :| Ranking(s, cs, floor) && v == Clear(s, auctionType, floor);
    var t :| Ranking(t, ds, floor) && w == Clear(t, auctionType, floor);
    EligiblePermuted(cs, ds, floor);
    RankingsAgree(s, t);
    if s != [] {
      InRanking(s, cs, floor, s[0]);
      InRanking(t, ds, floor, t[0]);
      assert t[0] in multiset(ds);
    }
    SameBidsSamePrice(s, t, auctionType, floor);
  }

  lemma SameBidsSamePrice(s: seq<BidCandidate>, t: seq<BidCandidate>, auctionType: int, floor: real)
    requires |s| == |t| && forall i | 0 <= i < |s| :: s[i].effectiveBid == t[i].effectiveBid
    requires auctionType == FIRST_PRICE || auctionType == SECOND_PRICE || (s != [] ==> s[0].clearingPrice == t[0].clearingPrice)
    ensures var v, w := Clear(s, auctionType, floor), Clear(t, auctionType, floor);
            (v.None? <==> w.None?) &&
            (v.Some? ==> v.value.effectiveBid == w.value.effectiveBid && v.value.clearingPrice == w.value.clearingPrice)
  {
  }

  /** What an auction of either known type may return, with no mention of sorting: some
      highest eligible bidder (any of them, on a tie), who pays the larger of the floor
      and the second-highest eligible bid, or his own bid at first price. */
  lemma OutcomeCharacterised(cs: seq<BidCandidate>, auctionType: int, floor: real, winner: Option<BidCandidate>)
    requires auctionType == FIRST_PRICE || auctionType == SECOND_PRICE
    ensures Outcome(cs, auctionType, floor, winner) <==>
            (if Eligible(cs, floor) == [] then winner.None? else
             winner.Some? && IsWinner(cs, floor, winner.value) &&
             IsPrice(cs, auctionType, floor, winner.value.clearingPrice))
  {
    var e := Eligible(cs, floor);
    if Outcome(cs, auctionType, floor, winner) {
      var s :| Ranking(s, cs, floor) && winner == Clear(s, auctionType, floor);
      RankingHead(s, cs, floor, auctionType);
    }
    if e == [] && winner.None? {
      assert Ranking([], cs, floor);
    }
    if e != [] && winner.Some? && IsWinner(cs, floor, winner.value) &&
       IsPrice(cs, auctionType, floor, winner.value.clearingPrice)
    {
      var s, c := RankWithHead(cs, floor, winner.value);
      RankingHead(s, cs, floor, auctionType);
      PriceUnique(cs, auctionType, floor, winner.value.clearingPrice, Clear(s, auctionType, floor).value.clearingPrice);
      assert Clear(s, auctionType, floor) == winner;
    }
  }

  /** The approved bids at or above the floor that lie above v (strictly, or at least v). */
  function Bids(floor: real, v: real, strict: bool): BidCandidate -> bool {
    (c: BidCandidate) => c.budgetOk && c.effectiveBid >= floor && (c.effectiveBid > v || (!strict && c.effectiveBid == v))
  }

  /** price is the second-highest approved bid at or above the floor, or the floor for a lone one. */
  predicate SecondBest(cs: seq<BidCandidate>, floor: real, price: real) {
    if Count(cs, Bids(floor, floor, false)) == 1 then price == floor
    else Count(cs, Bids(floor, price, true)) < 2 <= Count(cs, Bids(floor, price, false))
  }

  /** The auction in terms of the candidates alone. Type 1 is first price and type 2 second
      price (section 3.2.1 of OpenRTB 2.6). No bid comes of it exactly when no candidate with
      approved budget bids at least the floor; otherwise one of the highest such bidders, any
      of them, wins and pays his own bid or the second-highest. */
  lemma OutcomeMeaning(cs: seq<BidCandidate>, auctionType: int, floor: real, winner: Option<BidCandidate>)
    requires auctionType == 1 || auctionType == 2
    ensures Outcome(cs, auctionType, floor, winner) <==>
            match winner
            case None => forall c | c in cs :: !(c.budgetOk && c.effectiveBid >= floor)
            case Some(w) =>
              && (exists c | c in cs :: c.budgetOk && c.effectiveBid >= floor && w == c.(clearingPrice := w.clearingPrice))
              && (forall c | c in cs && c.budgetOk && c.effectiveBid >= floor :: c.effectiveBid <= w.effectiveBid)
              && (if auctionType == 1 then w.clearingPrice == w.effectiveBid else SecondBest(cs, floor, w.clearingPrice))
  {
    var e := Eligible(cs, floor);
    EligibleMembers(cs, floor);
    OutcomeCharacterised(cs, auctionType, floor, winner);
    if winner.Some? {
      var w := winner.value;
      ApprovedCounted(cs, floor, w.clearingPrice);
      ApprovedCounted(cs, floor, floor);
      CountExtremes(e, Above(floor, false));
      assert Count(e, Above(floor, false)) == |e|;
      if IsWinner(cs, floor, w) {
        HighestIsFirst(e, w.effectiveBid);
        if KthHighest(e, 1, w.clearingPrice) {
          KthHighestUnique(e, 1, w.clearingPrice, w.effectiveBid);
        }
      }
    }
  }

  lemma EligibleMembers(cs: seq<BidCandidate>, floor: real)
    ensures forall c :: c in Eligible(cs, floor) <==> c in cs && c.budgetOk && c.effectiveBid >= floor
    ensures Eligible(cs, floor) == [] <==> forall c | c in cs :: !(c.budgetOk && c.effectiveBid >= floor)
  {
    var e := Eligible(cs, floor);
    forall c ensures c in e <==> c in cs && c.budgetOk && c.effectiveBid >= floor {
      EligibleCount(cs, floor, c);
      assert c in e <==> c in multiset(e);
      assert c in cs <==> c in multiset(cs);
    }
    if e != [] {
      assert e[0] in e;
    }
  }

  lemma {:induction false} ApprovedCounted(cs: seq<BidCandidate>, floor: real, v: real)
    ensures BidsAbove(Eligible(cs, floor), v, true) == Count(cs, Bids(floor, v, true))
    ensures BidsAbove(Eligible(cs, floor), v, false) == Count(cs, Bids(floor, v, false))
  {
    if cs != [] {
      var n := |cs| - 1;
      var e := Eligible(cs[..n], floor);
      ApprovedCounted(cs[..n], floor, v);
      CountSnoc(e, cs[n], Above(v, true));
      CountSnoc(e, cs[n], Above(v, false));
      assert e + [] == e;
    }
  }

  lemma HighestIsFirst(e: seq<BidCandidate>, v: real)
    requires (exists c | c in e :: c.effectiveBid == v) && forall c | c in e :: c.effectiveBid <= v
    ensures KthHighest(e, 1, v)
  {
    var c :| c in e && c.effectiveBid == v;
    var before, after := SplitAt(e, c);
    CountMiddle(before, c, after, Above(v, false));
    forall i | 0 <= i < |e| ensures !Above(v, true)(e[i]) {
      assert e[i] in e;
    }
    CountExtremes(e, Above(v, true));
  }

  /** A lone approved bid exactly at the floor wins, and pays the floor. */
  lemma BidAtFloorWins(c: BidCandidate, auctionType: int, winner: Option<BidCandidate>)
    requires c.budgetOk && (auctionType == 1 || auctionType == 2)
    requires Outcome([c], auctionType, c.effectiveBid, winner)
    ensures winner == Some(c.(clearingPrice := c.effectiveBid))
  {
    OutcomeMeaning([c], auctionType, c.effectiveBid, winner);
    assert c in [c] && [c][..0] == [];
    if winner.Some? {
      var d :| d in [c] && winner.value == d.(clearingPrice := winner.value.clearingPrice);
      assert d == c;
    }
  }

  /** Any other auction type pays the winner's own preset price, at least the floor. */
  lemma OtherTypesPayPreset(cs: seq<BidCandidate>, auctionType: int, floor: real, winner: Option<BidCandidate>)
    requires auctionType != 1 && auctionType != 2 && Outcome(cs, auctionType, floor, winner)
    ensures winner.Some? ==>
              exists c | c in cs :: && c.budgetOk && c.effectiveBid >= floor
                                    && winner.value == c.(clearingPrice := if c.clearingPrice < floor then floor else c.clearingPrice)
  {
    var s :| Ranking(s, cs, floor) && winner == Clear(s, auctionType, floor);
    if s != [] {
      InRanking(s, cs, floor, s[0]);
    }
  }

  /** w is an eligible candidate of highest bid, up to its price. */
  ghost predicate IsWinner(cs: seq<BidCandidate>, floor: real, w: BidCandidate) {
    && (exists c | c in Eligible(cs, floor) :: w == c.(clearingPrice := w.clearingPrice))
    && (forall c | c in Eligible(cs, floor) :: c.effectiveBid <= w.effectiveBid)
  }

  predicate IsPrice(cs: seq<BidCandidate>, auctionType: int, floor: real, price: real) {
    var e := Eligible(cs, floor);
    if auctionType == FIRST_PRICE then KthHighest(e, 1, price)
    else if |e| == 1 then price == floor
    else KthHighest(e, 2, price)
  }

  lemma PriceUnique(cs: seq<BidCandidate>, auctionType: int, floor: real, p: real, q: real)
    requires IsPrice(cs, auctionType, floor, p) && IsPrice(cs, auctionType, floor, q)
    ensures p == q
  {
    var e := Eligible(cs, floor);
    if auctionType == FIRST_PRICE {
      KthHighestUnique(e, 1, p, q);
    } else if |e| != 1 {
      KthHighestUnique(e, 2, p, q);
    }
  }

  lemma RankingHead(s: seq<BidCandidate>, cs: seq<BidCandidate>, floor: real, auctionType: int)
    requires Ranking(s, cs, floor)
    requires auctionType == FIRST_PRICE || auctionType == SECOND_PRICE
    ensures |s| == |Eligible(cs, floor)|
    ensures s != [] ==> var w := Clear(s, auctionType, floor).value;
            IsWinner(cs, floor, w) && IsPrice(cs, auctionType, floor, w.clearingPrice)
  {
    var e := Eligible(cs, floor);
    assert |multiset(s)| == |s| && |multiset(e)| == |e|;
    if s != [] {
      var w := Clear(s, auctionType, floor).value;
      forall c | c in e ensures c.effectiveBid <= w.effectiveBid {
        assert c in multiset(s);
      }
      InRanking(s, cs, floor, s[0]);
      assert s[0] in multiset(e);
      assert w == s[0].(clearingPrice := w.clearingPrice);
      var i := if auctionType == FIRST_PRICE || |s| == 1 then 0 else 1;
      InRanking(s, cs, floor, s[i]);
      RankIsOrderStatistic(s, i);
      KthHighestPermuted(s, e, i + 1, s[i].effectiveBid);
    }
  }

  /** Any highest bidder can be put first. */
  lemma RankWithHead(cs: seq<BidCandidate>, floor: real, w: BidCandidate) returns (s: seq<BidCandidate>, c: BidCandidate)
    requires IsWinner(cs, floor, w)
    ensures Ranking(s, cs, floor) && s != [] && s[0] == c && w == c.(clearingPrice := w.clearingPrice)
  {
    var e := Eligible(cs, floor);
    c :| c in e && w == c.(clearingPrice := w.clearingPrice);
    assert Dominates(c, multiset(e));
    s := SortedWithHead(e, c);
  }

  lemma SortedWithHead(e: seq<BidCandidate>, c: BidCandidate) returns (s: seq<BidCandidate>)
    requires c in e && Dominates(c, multiset(e))
    ensures Descending(s) && multiset(s) == multiset(e) && s != [] && s[0] == c
  {
    hide Descending, Dominates;
    var before, after := SplitAt(e, c);
    var rest := Sorted(before + after);
    assert c in multiset(e);
    PutBack(multiset(e), multiset(rest), c);
    DominatesRest(c, multiset(e), multiset(rest));
    HeadDominates(c, rest);
    s := [c] + rest;
  }

  lemma PutBack(all: multiset<BidCandidate>, rest: multiset<BidCandidate>, c: BidCandidate)
    requires c in all && rest == all - multiset{c}
    ensures all == rest + multiset{c} && rest <= all
  {
  }

  lemma DominatesRest(c: BidCandidate, all: multiset<BidCandidate>, rest: multiset<BidCandidate>)
    requires rest <= all && Dominates(c, all)
    ensures Dominates(c, rest)
  {
  }

  lemma {:induction false} Sorted(s: seq<BidCandidate>) returns (t: seq<BidCandidate>)
    ensures Descending(t) && multiset(t) == multiset(s)
  {
    if s == [] {
      t := [];
    } else {
      var u := Sorted(s[1..]);
      t := Inserted(u, s[0]);
      assert s == [s[0]] + s[1..];
    }
  }

  lemma {:induction false} Inserted(u: seq<BidCandidate>, x: BidCandidate) returns (t: seq<BidCandidate>)
    requires Descending(u)
    ensures Descending(t) && multiset(t) == multiset(u) + multiset{x}
  {
    if u == [] || u[0].effectiveBid <= x.effectiveBid {
      t := [x] + u;
    } else {
      var rest := Inserted(u[1..], x);
      t := [u[0]] + rest;
      InsertedBelow(u, rest, x);
    }
  }

  lemma InsertedBelow(u: seq<BidCandidate>, rest: seq<BidCandidate>, x: BidCandidate)
    requires u != [] && Descending(u) && u[0].effectiveBid > x.effectiveBid
    requires Descending(rest) && multiset(rest) == multiset(u[1..]) + multiset{x}
    ensures Descending([u[0]] + rest) && multiset([u[0]] + rest) == multiset(u) + multiset{x}
  {
    assert u == [u[0]] + u[1..];
    forall d | d in multiset(rest) ensures d.effectiveBid <= u[0].effectiveBid {
      assert d == x || d in u[1..];
    }
    HeadDominates(u[0], rest);
  }

  ghost predicate Dominates(c: BidCandidate, others: multiset<BidCandidate>) {
    forall d | d in others :: d.effectiveBid <= c.effectiveBid
  }

  lemma HeadDominates(c: BidCandidate, s: seq<BidCandidate>)
    requires Descending(s) && Dominates(c, multiset(s))
    ensures Descending([c] + s)
  {
    forall i | 0 <= i < |s| ensures s[i].effectiveBid <= c.effectiveBid {
      assert s[i] in multiset(s);
    }
  }

  /** One more candidate never lowers the price of an auction that already had a bid. */
  lemma AddingNeverLowersPrice(cs: seq<BidCandidate>, extra: BidCandidate, auctionType: int, floor: real,
                               v: Option<BidCandidate>, w: Option<BidCandidate>)
    requires auctionType == FIRST_PRICE || auctionType == SECOND_PRICE
    requires Eligible(cs, floor) != []
    requires Outcome(cs, auctionType, floor, v) && Outcome(cs + [extra], auctionType, floor, w)
    ensures v.Some? && w.Some? && v.value.clearingPrice <= w.value.clearingPrice
  {
    var e := Eligible(cs, floor);
    var f := Eligible(cs + [extra], floor);
    assert (cs + [extra])[..|cs|] == cs;
    assert f == e || f == e + [extra];
    OutcomeCharacterised(cs, auctionType, floor, v);
    OutcomeCharacterised(cs + [extra], auctionType, floor, w);
    var p, q := v.value.clearingPrice, w.value.clearingPrice;
    assert q >= floor;
    var k := if auctionType == FIRST_PRICE then 1 else 2;
    if q < p && KthHighest(e, k, p) {
      CountConcat(e, [extra], Above(p, false));
      AboveOrdered(f, q, p);
    }
  }

  // ----- Theorem: truthful bidding -----

  /** The best bid a candidate has to beat: the floor or the highest eligible rival. */
  function Reserve(rivals: seq<BidCandidate>, floor: real): real {
    if rivals == [] then floor
    else
      var r := rivals[|rivals| - 1];
      var best := Reserve(rivals[..|rivals| - 1], floor);
      if Admits(r, floor) && r.effectiveBid > best then r.effectiveBid else best
  }

  predicate SameBidder(c: BidCandidate, d: BidCandidate) {
    c.campaignId == d.campaignId && c.adId == d.adId
  }

  /** What the owner of candidate me, who values the impression at value, gains. */
  function Utility(value: real, me: BidCandidate, winner: Option<BidCandidate>): real {
    if winner.Some? && SameBidder(winner.value, me) then value - winner.value.clearingPrice else 0.0
  }

  lemma {:induction false} ReserveIsBest(rivals: seq<BidCandidate>, floor: real)
    ensures Reserve(rivals, floor) >= floor
    ensures forall r | r in rivals && r.budgetOk && r.effectiveBid >= floor :: r.effectiveBid <= Reserve(rivals, floor)
    ensures Reserve(rivals, floor) == floor ||
            exists r | r in rivals :: r.budgetOk && r.effectiveBid == Reserve(rivals, floor)
  {
    if rivals != [] {
      ReserveIsBest(rivals[..|rivals| - 1], floor);
    }
  }

  /** Winning takes a bid of at least the reserve, and costs the reserve at second price, the
      bid at first; losing takes a bid of at most the reserve, or a refused budget. */
  lemma WinOrLose(me: BidCandidate, rivals: seq<BidCandidate>, cs: seq<BidCandidate>, auctionType: int, floor: real,
                  winner: Option<BidCandidate>)
    requires auctionType == FIRST_PRICE || auctionType == SECOND_PRICE
    requires multiset(cs) == multiset(rivals + [me])
    requires forall r | r in rivals :: !SameBidder(r, me)
    requires Outcome(cs, auctionType, floor, winner)
    ensures if winner.Some? && SameBidder(winner.value, me)
            then me.budgetOk && Reserve(rivals, floor) <= me.effectiveBid &&
                 winner.value.clearingPrice == if auctionType == SECOND_PRICE then Reserve(rivals, floor) else me.effectiveBid
            else me.budgetOk ==> me.effectiveBid <= Reserve(rivals, floor)
  {
    var s :| Ranking(s, cs, floor) && winner == Clear(s, auctionType, floor);
    if winner.Some? && SameBidder(winner.value, me) {
      RankedIsMeOrRival(me, rivals, cs, floor, s, s[0]);
      WinnerPaysReserve(me, rivals, cs, floor, s);
    } else if me.budgetOk && me.effectiveBid > Reserve(rivals, floor) {
      ReserveIsBest(rivals, floor);
      RankedIsMeOrRival(me, rivals, cs, floor, s, me);
      RankedIsMeOrRival(me, rivals, cs, floor, s, s[0]);
      HighestFirst(s, me);
    }
  }

  lemma HighestFirst(s: seq<BidCandidate>, c: BidCandidate)
    requires Descending(s) && c in s
    ensures s[0].effectiveBid >= c.effectiveBid
  {
    var i :| 0 <= i < |s| && s[i] == c;
  }

  lemma RankedIsMeOrRival(me: BidCandidate, rivals: seq<BidCandidate>, cs: seq<BidCandidate>, floor: real,
                          s: seq<BidCandidate>, c: BidCandidate)
    requires multiset(cs) == multiset(rivals + [me]) && Ranking(s, cs, floor)
    ensures c in s <==> (c == me || c in rivals) && Admits(c, floor)
  {
    InRanking(s, cs, floor, c);
    assert c in cs <==> c in multiset(cs);
    assert c in rivals + [me] <==> c in multiset(rivals + [me]);
  }

  lemma WinnerPaysReserve(me: BidCandidate, rivals: seq<BidCandidate>, cs: seq<BidCandidate>, floor: real, s: seq<BidCandidate>)
    requires multiset(cs) == multiset(rivals + [me]) && me !in rivals
    requires Ranking(s, cs, floor) && s != [] && s[0] == me
    ensures Clear(s, SECOND_PRICE, floor).value.clearingPrice == Reserve(rivals, floor) <= me.effectiveBid
  {
    ReserveIsBest(rivals, floor);
    forall c ensures c in s <==> (c == me || c in rivals) && Admits(c, floor) {
      RankedIsMeOrRival(me, rivals, cs, floor, s, c);
    }
    OnlyOnce(me, rivals, cs, floor, s);
    assert |s| > 1 ==> s[1] in s;
  }

  lemma OnlyOnce(me: BidCandidate, rivals: seq<BidCandidate>, cs: seq<BidCandidate>, floor: real, s: seq<BidCandidate>)
    requires multiset(cs) == multiset(rivals + [me]) && me !in rivals
    requires Ranking(s, cs, floor)
    ensures |s| > 1 && s[0] == me ==> s[1] != me
  {
    EligibleCount(cs, floor, me);
    assert multiset(rivals)[me] == 0;
    if |s| > 1 {
      assert s == [s[0]] + ([s[1]] + s[2..]);
    }
  }

  /** In a second-price auction no bid does better than the true value, whatever the
      rivals bid, in whatever order candidates arrive and however ties fall; and the
      truthful gain is exactly the excess of the value over the reserve, if any. The
      deviating report may also change whether the budget check passes. */
  lemma TruthfulBiddingIsDominant(value: real, honest: BidCandidate, other: BidCandidate,
                                  rivals: seq<BidCandidate>, floor: real,
                                  cs: seq<BidCandidate>, ds: seq<BidCandidate>,
                                  v: Option<BidCandidate>, w: Option<BidCandidate>)
    requires honest.effectiveBid == value && honest.budgetOk && SameBidder(honest, other)
    requires forall r | r in rivals :: !SameBidder(r, honest)
    requires multiset(cs) == multiset(rivals + [honest]) && Outcome(cs, SECOND_PRICE, floor, v)
    requires multiset(ds) == multiset(rivals + [other]) && Outcome(ds, SECOND_PRICE, floor, w)
    ensures Utility(value, honest, v) >= Utility(value, other, w)
    ensures Utility(value, honest, v) ==
            if value > Reserve(rivals, floor) then value - Reserve(rivals, floor) else 0.0
  {
    WinOrLose(honest, rivals, cs, SECOND_PRICE, floor, v);
    WinOrLose(other, rivals, ds, SECOND_PRICE, floor, w);
  }

  /** A report can leave its bidder, who values the impression at value, with this gain. */
  ghost predicate Earns(value: real, report: BidCandidate, rivals: seq<BidCandidate>, auctionType: int, floor: real, gain: real) {
    exists ds, w :: multiset(ds) == multiset(rivals + [report]) && Outcome(ds, auctionType, floor, w)
                    && gain == Utility(value, report, w)
  }

  /** At first price a report above the reserve wins, on any order and tie-break, and earns
      what it leaves off the value; no report earns more than the excess over the reserve. */
  lemma FirstPriceGain(value: real, report: BidCandidate, rivals: seq<BidCandidate>, floor: real, gain: real)
    requires forall r | r in rivals :: !SameBidder(r, report)
    requires Earns(value, report, rivals, FIRST_PRICE, floor, gain)
    ensures report.budgetOk && report.effectiveBid > Reserve(rivals, floor) ==> gain == value - report.effectiveBid
    ensures gain == 0.0 || gain == value - report.effectiveBid <= value - Reserve(rivals, floor)
  {
    var ds, w :| multiset(ds) == multiset(rivals + [report]) && Outcome(ds, FIRST_PRICE, floor, w)
                 && gain == Utility(value, report, w);
    WinOrLose(report, rivals, ds, FIRST_PRICE, floor, w);
  }

  lemma SomethingIsEarned(value: real, report: BidCandidate, rivals: seq<BidCandidate>, auctionType: int, floor: real)
    returns (gain: real)
    ensures Earns(value, report, rivals, auctionType, floor, gain)
  {
    var s := Sorted(Eligible(rivals + [report], floor));
    assert Ranking(s, rivals + [report], floor);
    assert Outcome(rivals + [report], auctionType, floor, Clear(s, auctionType, floor));
    gain := Utility(value, report, Clear(s, auctionType, floor));
  }

  /** First-price mode is not truthful: the true value earns nothing, and some other report
      earns something if and only if the value exceeds the floor and every eligible rival. */
  lemma FirstPriceRewardsShading(value: real, honest: BidCandidate, rivals: seq<BidCandidate>, floor: real)
    requires honest.effectiveBid == value && honest.budgetOk
    requires forall r | r in rivals :: !SameBidder(r, honest)
    ensures forall gain | Earns(value, honest, rivals, FIRST_PRICE, floor, gain) :: gain == 0.0
    ensures (exists report, gain | SameBidder(report, honest) && gain > 0.0 :: Earns(value, report, rivals, FIRST_PRICE, floor, gain))
            <==> value > Reserve(rivals, floor)
  {
    forall report, gain | SameBidder(report, honest) && Earns(value, report, rivals, FIRST_PRICE, floor, gain)
      ensures gain == 0.0 || gain == value - report.effectiveBid <= value - Reserve(rivals, floor)
    {
      FirstPriceGain(value, report, rivals, floor, gain);
    }
    if value > Reserve(rivals, floor) {
      var shaded := honest.(effectiveBid := (value + Reserve(rivals, floor)) / 2.0);
      var gain := SomethingIsEarned(value, shaded, rivals, FIRST_PRICE, floor);
      FirstPriceGain(value, shaded, rivals, floor, gain);
    }
  }

  /** Every auction result respects the floor, and at either known type also the bid. */
  lemma PriceBounds(cs: seq<BidCandidate>, auctionType: int, floor: real, winner: Option<BidCandidate>)
    requires Outcome(cs, auctionType, floor, winner) && winner.Some?
    ensures floor <= winner.value.clearingPrice && floor <= winner.value.effectiveBid && winner.value.budgetOk
    ensures exists c | c in cs :: winner.value == c.(clearingPrice := winner.value.clearingPrice)
    ensures auctionType == FIRST_PRICE || auctionType == SECOND_PRICE || (forall c | c in cs :: c.clearingPrice <= c.effectiveBid) ==>
            winner.value.clearingPrice <= winner.value.effectiveBid
  {
    var s :| Ranking(s, cs, floor) && winner == Clear(s, auctionType, floor);
    InRanking(s, cs, floor, s[0]);
    assert s[0] in cs;
  }
}
