/**
 * Proportional division of a plan's power over the ratings of its clusters
 * (internal/dispatch/reservation.go, AllocatePower).
 *
 * The source walks a Go map, whose iteration order is arbitrary, so the order
 * is chosen by a nondeterministic pick here and every result holds for all of them.
 */
module Allocation {
  import opened Prelude

  const INVALID_POWER := Fault(Invalid, "invalid_requested_power")
  const CLUSTERS_REQUIRED := Fault(Invalid, "clusters_required")
  const INVALID_RATING := Fault(Invalid, "invalid_cluster_rating")
  const INSUFFICIENT := Fault(Conflict, "insufficient_cluster_power")
  const ALLOCATION_FAILED := Fault(Internal, "power_allocation_failed")

  /** What the first pass has done after visiting some clusters. */
  datatype Pass = Pass(shares: map<Id, int>, remaining: int, remainingRating: int)

  /** The share of one visited cluster: its proportion rounded down, or 1 if that would be nothing. */
  function Share(remaining: int, rating: int, remainingRating: int): int {
    if remainingRating <= 0 then 0
    else
      var s := remaining * rating / remainingRating;
      if s == 0 && remaining > 0 then 1 else s
  }

  /** The first pass over the clusters of `order`, without the cap. */
  function Visit(order: seq<Id>, ratings: map<Id, int>, totalKW: int, totalRating: int): Pass
    requires forall id :: id in order ==> id in ratings
  {
    if order == [] then Pass(map[], totalKW, totalRating)
    else
      var n := |order| - 1;
      var p := Visit(order[..n], ratings, totalKW, totalRating);
      var id := order[n];
      var s := Share(p.remaining, ratings[id], p.remainingRating);
      Pass(p.shares[id := s], p.remaining - s, p.remainingRating - ratings[id])
  }

  function Allocate(order: seq<Id>, ratings: map<Id, int>, totalKW: int, totalRating: int): map<Id, int>
    requires forall id :: id in order ==> id in ratings
  {
    Visit(order, ratings, totalKW, totalRating).shares
  }

  function TotalAlong(order: seq<Id>, ratings: map<Id, int>): int
    requires forall id :: id in order ==> id in ratings
  {
    if order == [] then 0
    else TotalAlong(order[..|order| - 1], ratings) + ratings[order[|order| - 1]]
  }

  ghost predicate Positive(ratings: map<Id, int>) {
    forall id :: id in ratings ==> ratings[id] > 0
  }

  /** The ratings of `ratings` restricted to the clusters of `order`. */
  ghost function Restrict(ratings: map<Id, int>, order: seq<Id>): map<Id, int> {
    map id | id in ratings && id in order :: ratings[id]
  }

  lemma {:induction false} TotalAlongIsSum(order: seq<Id>, ratings: map<Id, int>)
    requires Distinct(order) && forall id :: id in order ==> id in ratings
    ensures TotalAlong(order, ratings) == Sum(Restrict(ratings, order))
  {
    if order == [] {
      assert Restrict(ratings, order) == map[];
    } else {
      var n := |order| - 1;
      TotalAlongIsSum(order[..n], ratings);
      assert order == order[..n] + [order[n]];
      SumInsert(Restrict(ratings, order[..n]), order[n], ratings[order[n]]);
      assert Restrict(ratings, order) == Restrict(ratings, order[..n])[order[n] := ratings[order[n]]];
    }
  }

  lemma EnumerationTotal(order: seq<Id>, ratings: map<Id, int>)
    requires Enumerates(order, ratings.Keys)
    ensures TotalAlong(order, ratings) == Sum(ratings)
  {
    TotalAlongIsSum(order, ratings);
    assert Restrict(ratings, order) == ratings;
  }

  // Products of variables are compared only through these four facts.

  lemma Scale(a: int, b: int, factor: int)
    requires a <= b && 0 <= factor
    ensures a * factor <= b * factor
  {
  }

  lemma Cancel(a: int, b: int, factor: int)
    requires factor > 0 && a * factor <= b * factor
    ensures a <= b
  {
  }

  lemma CancelStrict(a: int, b: int, factor: int)
    requires factor > 0 && a * factor < b * factor
    ensures a < b
  {
  }

  lemma Quotient(a: int, b: int)
    requires b > 0
    ensures a / b * b <= a < a / b * b + b
  {
  }

  /** One division never exceeds the rating nor what is left, and leaves no more than the rest can carry. */
  lemma QuotientBounds(remaining: int, rating: int, remainingRating: int)
    requires 0 <= remaining <= remainingRating && 0 < rating <= remainingRating
    ensures var s := remaining * rating / remainingRating;
            0 <= s <= rating && s <= remaining && remaining - s <= remainingRating - rating
  {
    var s := remaining * rating / remainingRating;
    Quotient(remaining * rating, remainingRating);
    QuotientIsSmall(s, remaining, rating, remainingRating);
    QuotientIsLarge(s, remaining, rating, remainingRating);
  }

  lemma QuotientIsSmall(s: int, remaining: int, rating: int, remainingRating: int)
    requires 0 <= remaining <= remainingRating && 0 < rating <= remainingRating
    requires s * remainingRating <= remaining * rating < s * remainingRating + remainingRating
    ensures 0 <= s <= rating && s <= remaining
  {
    Scale(0, remaining, rating);
    assert s * remainingRating + remainingRating == (s + 1) * remainingRating;
    CancelStrict(0, s + 1, remainingRating);
    Scale(remaining, remainingRating, rating);
    Cancel(s, rating, remainingRating);
    Scale(rating, remainingRating, remaining);
    Cancel(s, remaining, remainingRating);
  }

  lemma QuotientIsLarge(s: int, remaining: int, rating: int, remainingRating: int)
    requires 0 <= remaining <= remainingRating && 0 < rating <= remainingRating
    requires remaining * rating < s * remainingRating + remainingRating
    ensures remaining - s <= remainingRating - rating
  {
    Scale(0, remainingRating - remaining, remainingRating - rating);
    Expand(remaining, rating, remainingRating);
    assert s * remainingRating + remainingRating == (s + 1) * remainingRating;
    CancelStrict(remaining - remainingRating + rating, s + 1, remainingRating);
  }

  lemma Expand(a: int, b: int, c: int)
    ensures (c - a) * (c - b) == a * b - (a - c + b) * c
  {
  }

  /** The same bounds hold with the round-up, so the source's cap at the rating never applies. */
  lemma ShareBounds(remaining: int, rating: int, remainingRating: int)
    requires 0 <= remaining <= remainingRating && 0 < rating <= remainingRating
    ensures var s := Share(remaining, rating, remainingRating);
            0 <= s <= rating && s <= remaining && remaining - s <= remainingRating - rating
  {
    QuotientBounds(remaining, rating, remainingRating);
  }

  /** After any prefix of any order the unspent power fits the unvisited rating. */
  lemma {:induction false} VisitExact(order: seq<Id>, ratings: map<Id, int>, totalKW: int, totalRating: int)
    requires Distinct(order) && (forall id :: id in order ==> id in ratings) && Positive(ratings)
    requires 0 <= totalKW <= totalRating && TotalAlong(order, ratings) <= totalRating
    ensures var p := Visit(order, ratings, totalKW, totalRating);
            && p.remainingRating == totalRating - TotalAlong(order, ratings)
            && 0 <= p.remaining <= p.remainingRating <= totalRating
            && p.shares.Keys == (set id | id in order)
            && (forall id :: id in p.shares ==> 0 <= p.shares[id] <= ratings[id])
            && Sum(p.shares) == totalKW - p.remaining
  {
    if order != [] {
      var n := |order| - 1;
      var rest, id := order[..n], order[n];
      assert order == rest + [id];
      VisitExact(rest, ratings, totalKW, totalRating);
      var p := Visit(rest, ratings, totalKW, totalRating);
      ShareBounds(p.remaining, ratings[id], p.remainingRating);
      SumInsert(p.shares, id, Share(p.remaining, ratings[id], p.remainingRating));
    }
  }

  /** Exact allocation: the whole power is divided, nobody above its rating, whatever the order. */
  lemma AllocationIsExact(order: seq<Id>, ratings: map<Id, int>, totalKW: int)
    requires Enumerates(order, ratings.Keys) && Positive(ratings) && 0 < totalKW <= Sum(ratings)
    ensures var shares := Allocate(order, ratings, totalKW, Sum(ratings));
            && shares.Keys == ratings.Keys
            && Sum(shares) == totalKW
            && (forall id :: id in shares ==> 0 <= shares[id] <= ratings[id])
            && Visit(order, ratings, totalKW, Sum(ratings)).remaining == 0
  {
    EnumerationTotal(order, ratings);
    VisitExact(order, ratings, totalKW, Sum(ratings));
  }

  /** The power left over exceeds its proportion by at most one per visited cluster. */
  ghost predicate ExcessWithin(p: Pass, totalKW: int, totalRating: int, k: nat) {
    p.remaining * totalRating <= totalKW * p.remainingRating + k * totalRating
  }

  lemma {:induction false} ExcessIsSmall(order: seq<Id>, ratings: map<Id, int>, totalKW: int, totalRating: int)
    requires Distinct(order) && (forall id :: id in order ==> id in ratings) && Positive(ratings)
    requires 0 < totalKW <= totalRating && TotalAlong(order, ratings) <= totalRating
    ensures ExcessWithin(Visit(order, ratings, totalKW, totalRating), totalKW, totalRating, |order|)
  {
    if order == [] {
      assert totalKW * totalRating <= totalKW * totalRating + 0 * totalRating;
    } else {
      var n := |order| - 1;
      var rest, id := order[..n], order[n];
      assert order == rest + [id];
      VisitExact(rest, ratings, totalKW, totalRating);
      ExcessIsSmall(rest, ratings, totalKW, totalRating);
      ExcessNext(Visit(rest, ratings, totalKW, totalRating), Visit(order, ratings, totalKW, totalRating),
                 ratings[id], totalKW, totalRating, n);
    }
  }

  lemma ExcessNext(p: Pass, q: Pass, rating: int, totalKW: int, totalRating: int, k: nat)
    requires 0 <= p.remaining <= p.remainingRating && 0 < rating <= p.remainingRating <= totalRating && 0 < totalKW
    requires q.remaining == p.remaining - Share(p.remaining, rating, p.remainingRating)
    requires q.remainingRating == p.remainingRating - rating
    requires ExcessWithin(p, totalKW, totalRating, k)
    ensures ExcessWithin(q, totalKW, totalRating, k + 1)
  {
    ExcessStep(p.remaining, rating, p.remainingRating, totalKW, totalRating, k);
  }

  lemma ExcessStep(remaining: int, rating: int, remainingRating: int, totalKW: int, totalRating: int, k: nat)
    requires 0 <= remaining <= remainingRating && 0 < rating <= remainingRating <= totalRating && 0 < totalKW
    requires remaining * totalRating <= totalKW * remainingRating + k * totalRating
    ensures (remaining - Share(remaining, rating, remainingRating)) * totalRating
         <= totalKW * (remainingRating - rating) + (k + 1) * totalRating
  {
    var q := remaining * rating / remainingRating;
    var left := remainingRating - rating;
    Quotient(remaining * rating, remainingRating);
    assert (remaining - q - 1) * remainingRating <= remaining * left;
    ScaleExcess(remaining - q - 1, remaining, left, remainingRating, totalKW, totalRating, k);
    Scale(remaining - Share(remaining, rating, remainingRating), remaining - q, totalRating);
  }

  /** If x/left <= a/whole and a exceeds its proportion by at most k, so does x. */
  lemma ScaleExcess(x: int, a: int, left: int, whole: int, totalKW: int, totalRating: int, k: nat)
    requires 0 <= left <= whole && 0 < whole <= totalRating && x * whole <= a * left
    requires a * totalRating <= totalKW * whole + k * totalRating
    ensures x * totalRating <= totalKW * left + k * totalRating
  {
    var excess := k * totalRating;
    Scale(0, k, totalRating);
    Scale(x * whole, a * left, totalRating);
    Scale(a * totalRating, totalKW * whole + excess, left);
    Scale(left, whole, excess);
    Reorder(x, whole, totalRating);
    Reorder(a, left, totalRating);
    Distribute(totalKW, whole, excess, left);
    Distribute(totalKW, left, excess, whole);
    Cancel(x * totalRating, totalKW * left + excess, whole);
  }

  lemma Reorder(a: int, b: int, c: int)
    ensures a * b * c == a * c * b
  {
  }

  lemma Distribute(a: int, b: int, c: int, factor: int)
    ensures (a * b + c) * factor == a * factor * b + factor * c
  {
  }

  /** What the k-th visited cluster finds and gets. */
  lemma AtTurn(order: seq<Id>, k: nat, ratings: map<Id, int>, totalKW: int)
    requires Enumerates(order, ratings.Keys) && Positive(ratings) && 0 < totalKW <= Sum(ratings) && k < |order|
    ensures forall id :: id in order[..k] ==> id in ratings
    ensures Distinct(order[..k]) && TotalAlong(order[..k], ratings) <= Sum(ratings)
    ensures order[k] in ratings && order[k] in Allocate(order, ratings, totalKW, Sum(ratings))
    ensures var p := Visit(order[..k], ratings, totalKW, Sum(ratings));
            && 0 <= p.remaining <= p.remainingRating <= Sum(ratings) && ratings[order[k]] <= p.remainingRating
            && Allocate(order, ratings, totalKW, Sum(ratings))[order[k]]
               == Share(p.remaining, ratings[order[k]], p.remainingRating)
  {
    EnumerationTotal(order, ratings);
    PrefixTotal(order, k, ratings);
    PrefixTotal(order, k + 1, ratings);
    assert order[..k + 1][..k] == order[..k];
    VisitExact(order[..k], ratings, totalKW, Sum(ratings));
    SharesAreFinal(order, k, ratings, totalKW, Sum(ratings));
  }

  /** Proportionality: the k-th visited cluster gets less than its exact proportion plus k + 1. */
  lemma ShareIsProportional(order: seq<Id>, k: nat, ratings: map<Id, int>, totalKW: int)
    requires Enumerates(order, ratings.Keys) && Positive(ratings) && 0 < totalKW <= Sum(ratings) && k < |order|
    ensures order[k] in Allocate(order, ratings, totalKW, Sum(ratings))
    ensures Allocate(order, ratings, totalKW, Sum(ratings))[order[k]] * Sum(ratings)
          < totalKW * ratings[order[k]] + (k + 1) * Sum(ratings)
  {
    AtTurn(order, k, ratings, totalKW);
    ExcessIsSmall(order[..k], ratings, totalKW, Sum(ratings));
    ProportionStep(Visit(order[..k], ratings, totalKW, Sum(ratings)), ratings[order[k]], totalKW, Sum(ratings), k);
  }

  lemma ProportionStep(p: Pass, rating: int, totalKW: int, totalRating: int, k: nat)
    requires 0 <= p.remaining <= p.remainingRating && 0 < rating <= p.remainingRating <= totalRating && 0 < totalKW
    requires ExcessWithin(p, totalKW, totalRating, k)
    ensures Share(p.remaining, rating, p.remainingRating) * totalRating < totalKW * rating + (k + 1) * totalRating
  {
    var q := p.remaining * rating / p.remainingRating;
    Scale(1, totalKW, rating);
    Scale(0, k, totalRating);
    Quotient(p.remaining * rating, p.remainingRating);
    ScaleExcess(q, p.remaining, rating, p.remainingRating, totalKW, totalRating, k);
    assert (k + 1) * totalRating == k * totalRating + totalRating;
  }

  lemma {:induction false} PrefixTotal(order: seq<Id>, k: nat, ratings: map<Id, int>)
    requires k <= |order| && (forall id :: id in order ==> id in ratings) && Positive(ratings)
    ensures TotalAlong(order[..k], ratings) <= TotalAlong(order, ratings)
    decreases |order| - k
  {
    if k == |order| {
      assert order[..k] == order;
    } else {
      PrefixTotal(order, k + 1, ratings);
      assert order[..k + 1][..k] == order[..k];
    }
  }

  /** Later visits do not touch the share of an earlier one. */
  lemma {:induction false} SharesAreFinal(order: seq<Id>, k: nat, ratings: map<Id, int>, totalKW: int, totalRating: int)
    requires k < |order| && Distinct(order) && forall id :: id in order ==> id in ratings
    ensures var p := Visit(order[..k], ratings, totalKW, totalRating);
            && order[k] in Allocate(order, ratings, totalKW, totalRating)
            && Allocate(order, ratings, totalKW, totalRating)[order[k]]
               == Share(p.remaining, ratings[order[k]], p.remainingRating)
  {
    var n := |order| - 1;
    if k < n {
      assert order[..n][..k] == order[..k];
      SharesAreFinal(order[..n], k, ratings, totalKW, totalRating);
    }
  }

  ghost predicate RestProportional(p: Pass, totalKW: int, totalRating: int) {
    totalKW * p.remainingRating <= p.remaining * totalRating
  }

  /** While every exact proportion is at least 1, the rest stays at least proportional. */
  lemma {:induction false} RestStaysProportional(order: seq<Id>, ratings: map<Id, int>, totalKW: int, totalRating: int)
    requires Distinct(order) && (forall id :: id in order ==> id in ratings) && Positive(ratings)
    requires 0 < totalKW <= totalRating && TotalAlong(order, ratings) <= totalRating
    requires forall id :: id in order ==> totalRating <= totalKW * ratings[id]
    ensures RestProportional(Visit(order, ratings, totalKW, totalRating), totalKW, totalRating)
  {
    if order != [] {
      var n := |order| - 1;
      var rest, id := order[..n], order[n];
      assert order == rest + [id];
      VisitExact(rest, ratings, totalKW, totalRating);
      RestStaysProportional(rest, ratings, totalKW, totalRating);
      FloorShare(Visit(rest, ratings, totalKW, totalRating), Visit(order, ratings, totalKW, totalRating),
                 ratings[id], totalKW, totalRating);
    }
  }

  lemma FloorShare(p: Pass, next: Pass, rating: int, totalKW: int, totalRating: int)
    requires 0 <= p.remaining <= p.remainingRating && 0 < rating <= p.remainingRating <= totalRating
    requires RestProportional(p, totalKW, totalRating) && totalRating <= totalKW * rating
    requires next.remaining == p.remaining - Share(p.remaining, rating, p.remainingRating)
    requires next.remainingRating == p.remainingRating - rating
    ensures Share(p.remaining, rating, p.remainingRating) >= totalKW * rating / totalRating >= 1
    ensures RestProportional(next, totalKW, totalRating)
  {
    var (remaining, remainingRating) := (p.remaining, p.remainingRating);
    var q := remaining * rating / remainingRating;
    var f := totalKW * rating / totalRating;
    FloorIsPositive(totalKW * rating, totalRating);
    Quotient(remaining * rating, remainingRating);
    QuotientReachesFloor(f, q, remaining, rating, remainingRating, totalKW, totalRating);
    QuotientLeavesProportion(q, remaining, rating, remainingRating, totalKW, totalRating);
  }

  lemma QuotientReachesFloor(f: int, q: int, remaining: int, rating: int, remainingRating: int, totalKW: int, totalRating: int)
    requires 0 < rating <= remainingRating <= totalRating
    requires totalKW * remainingRating <= remaining * totalRating && f * totalRating <= totalKW * rating
    requires remaining * rating < q * remainingRating + remainingRating
    ensures f <= q
  {
    ScaleUp(f, totalKW, rating, remainingRating, remaining, totalRating);
    assert q * remainingRating + remainingRating == (q + 1) * remainingRating;
    CancelStrict(f, q + 1, remainingRating);
  }

  lemma QuotientLeavesProportion(q: int, remaining: int, rating: int, remainingRating: int, totalKW: int, totalRating: int)
    requires 0 < rating <= remainingRating <= totalRating
    requires totalKW * remainingRating <= remaining * totalRating && q * remainingRating <= remaining * rating
    ensures totalKW * (remainingRating - rating) <= (remaining - q) * totalRating
  {
    assert remaining * (remainingRating - rating) <= (remaining - q) * remainingRating;
    ScaleDown(remaining - q, remaining, remainingRating - rating, remainingRating, totalKW, totalRating);
  }

  lemma FloorIsPositive(product: int, totalRating: int)
    requires 0 < totalRating <= product
    ensures product / totalRating >= 1
    ensures product / totalRating * totalRating <= product
  {
    Quotient(product, totalRating);
    CancelStrict(0, product / totalRating, totalRating);
  }

  /** f/rating <= T/R and T/R <= a/whole give f/rating <= a/whole. */
  lemma ScaleUp(f: int, totalKW: int, rating: int, whole: int, a: int, totalRating: int)
    requires f * totalRating <= totalKW * rating && totalKW * whole <= a * totalRating
    requires 0 < rating && 0 < whole <= totalRating
    ensures f * whole <= a * rating
  {
    Scale(f * totalRating, totalKW * rating, whole);
    Scale(totalKW * whole, a * totalRating, rating);
    Reorder(f, totalRating, whole);
    Reorder(totalKW, rating, whole);
    Reorder(a, totalRating, rating);
    Cancel(f * whole, a * rating, totalRating);
  }

  /** T/R <= a/whole <= x/left give T/R <= x/left. */
  lemma ScaleDown(x: int, a: int, left: int, whole: int, totalKW: int, totalRating: int)
    requires 0 <= left <= whole && 0 < whole <= totalRating
    requires a * left <= x * whole && totalKW * whole <= a * totalRating
    ensures totalKW * left <= x * totalRating
  {
    Scale(totalKW * whole, a * totalRating, left);
    Scale(a * left, x * whole, totalRating);
    Reorder(totalKW, whole, left);
    Reorder(a, totalRating, left);
    Reorder(x, whole, totalRating);
    Cancel(totalKW * left, x * totalRating, whole);
  }

  /** Positive shares: if every exact proportion is at least 1, each share is at least its floor. */
  lemma SharesReachTheirFloor(order: seq<Id>, k: nat, ratings: map<Id, int>, totalKW: int)
    requires Enumerates(order, ratings.Keys) && Positive(ratings) && 0 < totalKW <= Sum(ratings) && k < |order|
    requires forall id :: id in ratings ==> Sum(ratings) <= totalKW * ratings[id]
    ensures order[k] in Allocate(order, ratings, totalKW, Sum(ratings))
    ensures Allocate(order, ratings, totalKW, Sum(ratings))[order[k]]
         >= totalKW * ratings[order[k]] / Sum(ratings) >= 1
  {
    var R := Sum(ratings);
    AtTurn(order, k, ratings, totalKW);
    RestStaysProportional(order[..k], ratings, totalKW, R);
    var p := Visit(order[..k], ratings, totalKW, R);
    var rating := ratings[order[k]];
    var next := Pass(map[], p.remaining - Share(p.remaining, rating, p.remainingRating), p.remainingRating - rating);
    FloorShare(p, next, rating, totalKW, R);
  }

  /** A visited cluster gets nothing exactly when the power was spent before its turn. */
  lemma ZeroShareIff(remaining: int, rating: int, remainingRating: int)
    requires 0 <= remaining <= remainingRating && 0 < rating <= remainingRating
    ensures Share(remaining, rating, remainingRating) == 0 <==> remaining == 0
  {
    ShareBounds(remaining, rating, remainingRating);
  }

  // ----- When every share is positive -----

  // The caller knows the ratings and the total, but not the order. SharesReachTheirFloor
  // has a condition on them under which no order gives a zero share, and below one
  // kilowatt per cluster every order does. In between it depends on the order.

  lemma {:induction false} PositiveSum(shares: map<Id, int>)
    requires forall id :: id in shares ==> shares[id] >= 1
    ensures Sum(shares) >= |shares|
  {
    if shares != map[] {
      var id :| id in shares;
      SumRemove(shares, id);
      PositiveSum(shares - {id});
      assert |shares.Keys - {id}| == |shares.Keys| - 1;
      assert (shares - {id}).Keys == shares.Keys - {id};
    }
  }

  /** Positive shares need at least one kilowatt per cluster: with less, every order gives a zero share. */
  lemma PositiveSharesNeedPower(order: seq<Id>, ratings: map<Id, int>, totalKW: int)
    requires Enumerates(order, ratings.Keys) && Positive(ratings) && 0 < totalKW <= Sum(ratings)
    requires var shares := Allocate(order, ratings, totalKW, Sum(ratings));
             forall id :: id in ratings ==> id in shares && shares[id] > 0
    ensures totalKW >= |ratings|
  {
    var shares := Allocate(order, ratings, totalKW, Sum(ratings));
    AllocationIsExact(order, ratings, totalKW);
    PositiveSum(shares);
    assert |shares| == |shares.Keys| && |ratings| == |ratings.Keys|;
  }

  /** Exactly one kilowatt is left before a turn after which another cluster is still to come. */
  ghost predicate LastKilowattAt(order: seq<Id>, k: nat, ratings: map<Id, int>, totalKW: int)
    requires forall id :: id in order ==> id in ratings
  {
    k + 2 <= |order| && (forall id :: id in order[..k] ==> id in ratings)
    && Visit(order[..k], ratings, totalKW, Sum(ratings)).remaining == 1
  }

  /** A cluster that is not the last takes everything only if that is a single kilowatt. */
  lemma TakesAllIff(remaining: int, rating: int, remainingRating: int)
    requires 0 < remaining <= remainingRating && 0 < rating < remainingRating
    ensures Share(remaining, rating, remainingRating) == remaining <==> remaining == 1
  {
    var s := remaining * rating / remainingRating;
    Quotient(remaining * rating, remainingRating);
    assert remaining * rating < remaining * remainingRating by { StrictScale(rating, remainingRating, remaining); }
    CancelStrict(s, remaining, remainingRating);
    ShareBounds(remaining, rating, remainingRating);
  }

  lemma StrictScale(a: int, b: int, factor: int)
    requires a < b && 0 < factor
    ensures factor * a < factor * b
  {
  }

  /** One turn before the last: what is left afterwards. */
  lemma TurnLeaves(order: seq<Id>, k: nat, ratings: map<Id, int>, totalKW: int)
    requires Enumerates(order, ratings.Keys) && Positive(ratings) && 0 < totalKW <= Sum(ratings) && k + 1 < |order|
    ensures forall id :: id in order[..k] ==> id in ratings
    ensures forall id :: id in order[..k + 1] ==> id in ratings
    ensures var (p, q) := (Visit(order[..k], ratings, totalKW, Sum(ratings)), Visit(order[..k + 1], ratings, totalKW, Sum(ratings)));
            0 <= p.remaining && 0 <= q.remaining && (p.remaining > 0 ==> (q.remaining == 0 <==> p.remaining == 1))
  {
    AtTurn(order, k, ratings, totalKW);
    AtTurn(order, k + 1, ratings, totalKW);
    assert order[..k + 1][..k] == order[..k] && order[..k + 1][k] == order[k];
    var p := Visit(order[..k], ratings, totalKW, Sum(ratings));
    assert ratings[order[k + 1]] > 0;
    if p.remaining > 0 {
      TakesAllIff(p.remaining, ratings[order[k]], p.remainingRating);
    }
  }

  /** For a given order: some share is zero if and only if the last kilowatt goes to a cluster that is not the last. */
  lemma SomeShareIsZeroIff(order: seq<Id>, ratings: map<Id, int>, totalKW: int)
    requires Enumerates(order, ratings.Keys) && Positive(ratings) && 0 < totalKW <= Sum(ratings)
    ensures (exists id :: id in order && id in Allocate(order, ratings, totalKW, Sum(ratings))
                          && Allocate(order, ratings, totalKW, Sum(ratings))[id] == 0)
            <==> exists k: nat :: LastKilowattAt(order, k, ratings, totalKW)
  {
    hide Share, Allocate, Visit, LastKilowattAt;
    var shares := Allocate(order, ratings, totalKW, Sum(ratings));
    if id :| id in order && id in shares && shares[id] == 0 {
      var k :| 0 <= k < |order| && order[k] == id;
      var j := ZeroShareHasCause(order, k, ratings, totalKW);
    }
    if k: nat :| LastKilowattAt(order, k, ratings, totalKW) {
      LastKilowattStarves(order, k, ratings, totalKW);
    }
  }

  lemma ZeroShareHasCause(order: seq<Id>, k: nat, ratings: map<Id, int>, totalKW: int) returns (j: nat)
    requires Enumerates(order, ratings.Keys) && Positive(ratings) && 0 < totalKW <= Sum(ratings) && k < |order|
    requires var shares := Allocate(order, ratings, totalKW, Sum(ratings)); order[k] in shares && shares[order[k]] == 0
    ensures LastKilowattAt(order, j, ratings, totalKW)
  {
    hide Share, Allocate, Visit;
    AtTurn(order, k, ratings, totalKW);
    var p := Visit(order[..k], ratings, totalKW, Sum(ratings));
    ZeroShareIff(p.remaining, ratings[order[k]], p.remainingRating);
    j := FirstSpent(order, k, ratings, totalKW);
  }

  lemma LastKilowattStarves(order: seq<Id>, k: nat, ratings: map<Id, int>, totalKW: int)
    requires Enumerates(order, ratings.Keys) && Positive(ratings) && 0 < totalKW <= Sum(ratings)
    requires LastKilowattAt(order, k, ratings, totalKW)
    ensures k + 1 < |order| && order[k + 1] in order && order[k + 1] in Allocate(order, ratings, totalKW, Sum(ratings))
    ensures Allocate(order, ratings, totalKW, Sum(ratings))[order[k + 1]] == 0
  {
    hide Share, Allocate, Visit;
    TurnLeaves(order, k, ratings, totalKW);
    AtTurn(order, k + 1, ratings, totalKW);
    var p := Visit(order[..k + 1], ratings, totalKW, Sum(ratings));
    ZeroShareIff(p.remaining, ratings[order[k + 1]], p.remainingRating);
  }

  lemma {:induction false} FirstSpent(order: seq<Id>, k: nat, ratings: map<Id, int>, totalKW: int) returns (j: nat)
    requires Enumerates(order, ratings.Keys) && Positive(ratings) && 0 < totalKW <= Sum(ratings) && k < |order|
    requires forall id :: id in order[..k] ==> id in ratings
    requires Visit(order[..k], ratings, totalKW, Sum(ratings)).remaining == 0
    ensures LastKilowattAt(order, j, ratings, totalKW)
  {
    assert k > 0 by { assert order[..0] == []; }
    TurnLeaves(order, k - 1, ratings, totalKW);
    if Visit(order[..k - 1], ratings, totalKW, Sum(ratings)).remaining == 0 {
      j := FirstSpent(order, k - 1, ratings, totalKW);
    } else {
      j := k - 1;
    }
  }

  /** Positive shares are not guaranteed: ratings 99, 1, 1 and 3 kW, largest first, give 2, 1, 0. */
  lemma SomeShareCanBeZero()
    ensures var ratings := map["a" := 99, "b" := 1, "c" := 1];
            && Enumerates(["a", "b", "c"], ratings.Keys) && 3 <= TotalAlong(["a", "b", "c"], ratings)
            && Allocate(["a", "b", "c"], ratings, 3, 101) == map["a" := 2, "b" := 1, "c" := 0]
  {
    var ratings := map["a" := 99, "b" := 1, "c" := 1];
    var order := ["a", "b", "c"];
    assert order[..2] == ["a", "b"] && order[..2][..1] == ["a"] && order[..2][..1][..0] == [];
    assert TotalAlong(["a"], ratings) == 99;
    assert TotalAlong(["a", "b"], ratings) == 100;
    assert "a" != "b" && "a" != "c" && "b" != "c" by {
      assert "a"[0] != "b"[0] && "a"[0] != "c"[0] && "b"[0] != "c"[0];
    }
    assert Visit(["a"], ratings, 3, 101) == Pass(map["a" := 2], 1, 2);
    assert Visit(["a", "b"], ratings, 3, 101) == Pass(map["a" := 2, "b" := 1], 0, 1);
  }

  /** Every product of the loop fits 64 bits for the plan and cluster limits the source enforces. */
  lemma ProductsFitInt64(remaining: int, rating: int)
    requires 0 <= remaining <= 10_000_000 && 0 <= rating <= 2_000_000
    ensures 0 <= remaining * rating < 0x8000_0000_0000_0000
  {
    Scale(remaining, 10_000_000, rating);
    Scale(0, remaining, rating);
  }

  predicate ValidRating(id: Id, rating: int) {
    !Blank(id) && rating > 0
  }

  /** First loop: every entry is checked and the ratings are totalled. */
  method CheckRatings(ratings: map<Id, int>) returns (outcome: Result<int>)
    ensures outcome.Ok? <==> forall id :: id in ratings ==> ValidRating(id, ratings[id])
    ensures outcome.Ok? ==> outcome.value == Sum(ratings)
    ensures outcome.Err? ==> outcome.fault == INVALID_RATING
  {
    var todo, totalRating := ratings.Keys, 0;
    while todo != {}
      invariant todo <= ratings.Keys
      invariant forall id :: id in ratings && id !in todo ==> ValidRating(id, ratings[id])
      invariant totalRating == Sum(ratings - todo)
      decreases todo
    {
      var id :| id in todo;
      if Blank(id) || ratings[id] <= 0 {
        return Err(INVALID_RATING);
      }
      SumInsert(ratings - todo, id, ratings[id]);
      assert (ratings - todo)[id := ratings[id]] == ratings - (todo - {id});
      totalRating := totalRating + ratings[id];
      todo := todo - {id};
    }
    assert ratings - todo == ratings;
    return Ok(totalRating);
  }

  /** Third loop: what is left goes to clusters below their rating until nothing is left. */
  method TopUp(ratings: map<Id, int>, shares: map<Id, int>, remaining: int)
    returns (topped: map<Id, int>, left: int)
    requires shares.Keys == ratings.Keys && remaining >= 0
    ensures topped.Keys == ratings.Keys && 0 <= left <= remaining
    ensures Sum(topped) + left == Sum(shares) + remaining
    ensures forall id :: id in ratings ==> shares[id] <= topped[id]
    ensures forall id :: id in ratings && topped[id] != shares[id] ==> topped[id] <= ratings[id]
    ensures left > 0 ==> forall id :: id in ratings ==> topped[id] >= ratings[id]
    ensures remaining == 0 ==> topped == shares
  {
    topped, left := shares, remaining;
    if remaining != 0 {
      var todo := ratings.Keys;
      while todo != {} && left != 0
        invariant todo <= ratings.Keys && topped.Keys == ratings.Keys && 0 <= left <= remaining
        invariant Sum(topped) + left == Sum(shares) + remaining
        invariant forall id :: id in ratings ==> shares[id] <= topped[id]
        invariant forall id :: id in todo ==> topped[id] == shares[id]
        invariant forall id :: id in ratings && topped[id] != shares[id] ==> topped[id] <= ratings[id]
        invariant left > 0 ==> forall id :: id in ratings && id !in todo ==> topped[id] >= ratings[id]
        decreases todo
      {
        var id :| id in todo;
        todo := todo - {id};
        var available := ratings[id] - topped[id];
        if available > 0 {
          var addition := if left > available then available else left;
          SumReplace(topped, id, topped[id] + addition);
          topped := topped[id := topped[id] + addition];
          left := left - addition;
        }
      }
    }
  }

  /** Second loop: every cluster gets its share, in the order the map happens to be walked. */
  method FirstPass(ratings: map<Id, int>, totalKW: int, totalRating: int)
    returns (shares: map<Id, int>, remaining: int, ghost order: seq<Id>)
    requires Positive(ratings) && totalRating == Sum(ratings) && 0 < totalKW <= totalRating
    ensures Enumerates(order, ratings.Keys)
    ensures forall id :: id in order ==> id in ratings
    ensures Visit(order, ratings, totalKW, totalRating) == Pass(shares, remaining, 0)
    ensures remaining == 0 && shares.Keys == ratings.Keys && Sum(shares) == totalKW
    ensures forall id :: id in ratings ==> 0 <= shares[id] <= ratings[id]
  {
    var remainingRating, todo := totalRating, ratings.Keys;
    shares, remaining, order := map[], totalKW, [];
    while todo != {}
      invariant todo <= ratings.Keys && Enumerates(order, ratings.Keys - todo)
      invariant forall id :: id in order <==> id in ratings && id !in todo
      invariant Visit(order, ratings, totalKW, totalRating) == Pass(shares, remaining, remainingRating)
      decreases todo
    {
      var id :| id in todo;
      var rating := ratings[id];
      TurnIsBounded(order, id, ratings, totalKW);
      var share := remaining * rating / remainingRating;
      if share == 0 && remaining > 0 {
        share := 1;
      }
      if share > rating {
        share := rating;
      }
      ghost var before := order;
      order := order + [id];
      assert order[..|before|] == before && order[|before|] == id;
      shares := shares[id := share];
      remaining := remaining - share;
      remainingRating := remainingRating - rating;
      todo := todo - {id};
    }
    assert ratings.Keys - todo == ratings.Keys;
    EnumerationTotal(order, ratings);
    VisitExact(order, ratings, totalKW, totalRating);
    AllocationIsExact(order, ratings, totalKW);
  }

  /**
   * The whole operation. `order` is the order in which the second loop happened to
   * visit the clusters; the cap, the top-up and the internal fault change nothing,
   * because the value returned is the plain first pass along that order.
   */
  method AllocatePower(totalKW: int, ratings: map<Id, int>) returns (outcome: Result<map<Id, int>>, ghost order: seq<Id>)
    ensures totalKW <= 0 ==> outcome == Err(INVALID_POWER)
    ensures totalKW > 0 && ratings == map[] ==> outcome == Err(CLUSTERS_REQUIRED)
    ensures totalKW > 0 && (exists id :: id in ratings && !ValidRating(id, ratings[id])) ==> outcome == Err(INVALID_RATING)
    ensures (totalKW > Sum(ratings) && totalKW > 0 && ratings != map[]
             && forall id :: id in ratings ==> ValidRating(id, ratings[id])) ==> outcome == Err(INSUFFICIENT)
    ensures outcome.Ok? <==> 0 < totalKW <= Sum(ratings) && ratings != map[]
                             && forall id :: id in ratings ==> ValidRating(id, ratings[id])
    ensures outcome.Ok? ==>
              && Enumerates(order, ratings.Keys)
              && outcome.value == Allocate(order, ratings, totalKW, Sum(ratings))
              && outcome.value.Keys == ratings.Keys
              && Sum(outcome.value) == totalKW
              && forall id :: id in ratings ==> 0 <= outcome.value[id] <= ratings[id]
  {
    order := [];
    if totalKW <= 0 {
      return Err(INVALID_POWER), order;
    }
    if |ratings| == 0 {
      return Err(CLUSTERS_REQUIRED), order;
    }
    var checked := CheckRatings(ratings);
    if checked.Err? {
      return Err(checked.fault), order;
    }
    var totalRating := checked.value;
    if totalKW > totalRating {
      return Err(INSUFFICIENT), order;
    }
    var shares, remaining;
    shares, remaining, order := FirstPass(ratings, totalKW, totalRating);
    shares, remaining := TopUp(ratings, shares, remaining);
    outcome := if remaining != 0 then Err(ALLOCATION_FAILED) else Ok(shares);
  }

  /** At its turn a cluster finds a positive divisor and a share within its rating. */
  lemma TurnIsBounded(order: seq<Id>, id: Id, ratings: map<Id, int>, totalKW: int)
    requires Distinct(order) && id !in order && id in ratings && (forall x :: x in order ==> x in ratings)
    requires Positive(ratings) && 0 < totalKW <= Sum(ratings)
    ensures var p := Visit(order, ratings, totalKW, Sum(ratings));
            && 0 <= p.remaining <= p.remainingRating && ratings[id] <= p.remainingRating
            && Share(p.remaining, ratings[id], p.remainingRating) <= ratings[id]
  {
    var next := order + [id];
    TotalAlongIsSum(next, ratings);
    assert next[..|order|] == order;
    var rest := ratings - Restrict(ratings, next).Keys;
    SumUnion(Restrict(ratings, next), rest);
    SumNonNegative(rest);
    assert Restrict(ratings, next) + rest == ratings;
    VisitExact(order, ratings, totalKW, Sum(ratings));
    var p := Visit(order, ratings, totalKW, Sum(ratings));
    ShareBounds(p.remaining, ratings[id], p.remainingRating);
  }
}
