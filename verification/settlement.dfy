/**
 * Pari-mutuel settlement (`calculateBettingResults`, server/index.js:161-231).
 * Four buckets of 25 000 points each: the 1st, 2nd and 3rd finishing slots
 * and last place. A bucket is split equally among the bettors who called it;
 * nobody collects a bucket that nobody called. Each bettor's sum is rounded
 * once, and only bettors holding a wager get a record.
 */
module Settlement {
  import opened Options
  import opened Rounding
  import opened Roster

  /** One line of the final ranking sent with `race-finished`. */
  datatype ResultEntry = ResultEntry(id: Id, name: string, position: nat)

  /** One settlement record of `betResults`. */
  datatype BetResult = BetResult(bettorId: Id, bettorName: string, totalPoints: int, correctTop3: nat, correctLast: bool)

  datatype Bucket = First | Second | Third | LastPlace

  /** `POINTS_PER_TOP3` and `POINTS_LAST`. */
  const BucketValue: real := 25000.0

  /** `TOTAL_POT`: declared by the source, never used in a computation; it is the four buckets' worth. */
  const TotalPot: real := 100000.0

  /** Slot `i` of the wager names the racer ranked `i`; a slot beyond either list never matches. */
  predicate SlotHit(w: Wager, results: seq<ResultEntry>, i: nat)
  {
    i < |w.top3| && i < |results| && w.top3[i] == results[i].id
  }

  /** The last-place pick names the racer ranked last. */
  predicate LastHit(w: Wager, results: seq<ResultEntry>)
  {
    |results| > 0 && w.last == Some(results[|results| - 1].id)
  }

  predicate Hits(w: Wager, results: seq<ResultEntry>, b: Bucket)
  {
    match b
    case First => SlotHit(w, results, 0)
    case Second => SlotHit(w, results, 1)
    case Third => SlotHit(w, results, 2)
    case LastPlace => LastHit(w, results)
  }

  /** The bettors that hold a wager, in roster order. */
  function Wagered(bettors: seq<Bettor>): (r: seq<Bettor>)
    ensures |r| <= |bettors|
    ensures forall x :: x in r ==> x in bettors && x.bets.Some?
    ensures forall i :: 0 <= i < |bettors| && bettors[i].bets.Some? ==> bettors[i] in r
    decreases |bettors|
  {
    if |bettors| == 0 then []
    else
      assert forall i :: 1 <= i < |bettors| ==> bettors[i] == bettors[1..][i - 1];
      (if bettors[0].bets.Some? then [bettors[0]] else []) + Wagered(bettors[1..])
  }

  /** The filter keeps roster order: the wagering bettors of a split roster are those of each part, in turn. */
  lemma {:induction false} WageredAppend(a: seq<Bettor>, b: seq<Bettor>)
    ensures Wagered(a + b) == Wagered(a) + Wagered(b)
    decreases |a|
  {
    if |a| == 0 {
      assert a + b == b;
    } else {
      assert (a + b)[0] == a[0];
      assert (a + b)[1..] == a[1..] + b;
      WageredAppend(a[1..], b);
    }
  }

  /** `correctCounts`: how many wagering bettors called bucket `b`. */
  function Callers(bettors: seq<Bettor>, results: seq<ResultEntry>, b: Bucket): (k: nat)
    ensures k <= |bettors|
    decreases |bettors|
  {
    if |bettors| == 0 then 0
    else
      var here := if bettors[0].bets.Some? && Hits(bettors[0].bets.value, results, b) then 1 else 0;
      here + Callers(bettors[1..], results, b)
  }

  /** What one caller of bucket `b` receives from it. */
  function ShareOfBucket(bettors: seq<Bettor>, results: seq<ResultEntry>, b: Bucket): real
  {
    var k := Callers(bettors, results, b);
    if k > 0 then BucketValue / k as real else 0.0
  }

  /** What wager `w` collects from bucket `b`. */
  function BucketAward(w: Wager, bettors: seq<Bettor>, results: seq<ResultEntry>, b: Bucket): real
  {
    if Hits(w, results, b) then ShareOfBucket(bettors, results, b) else 0.0
  }

  /** A bettor's unrounded total over the four buckets. */
  function Award(w: Wager, bettors: seq<Bettor>, results: seq<ResultEntry>): real
  {
    BucketAward(w, bettors, results, First) + BucketAward(w, bettors, results, Second)
    + BucketAward(w, bettors, results, Third) + BucketAward(w, bettors, results, LastPlace)
  }

  function Indicator(b: bool): nat { if b then 1 else 0 }

  /** The record of one wagering bettor; `all` is the whole roster the counts come from. */
  function Record(x: Bettor, all: seq<Bettor>, results: seq<ResultEntry>): (r: BetResult)
    requires x.bets.Some?
    ensures r.bettorId == x.id && r.bettorName == x.name
    ensures r.totalPoints >= 0
    ensures r.correctTop3 <= 3
    ensures r.correctLast <==> LastHit(x.bets.value, results)
    ensures r.correctTop3 == 0 && !r.correctLast ==> r.totalPoints == 0
  {
    var w := x.bets.value;
    var total := Award(w, all, results);
    assert total >= 0.0;
    BetResult(
      x.id, x.name, RoundHalfUp(total),
      Indicator(SlotHit(w, results, 0)) + Indicator(SlotHit(w, results, 1)) + Indicator(SlotHit(w, results, 2)),
      LastHit(w, results))
  }

  function SettleFrom(pending: seq<Bettor>, all: seq<Bettor>, results: seq<ResultEntry>): (r: seq<BetResult>)
    ensures |r| == |Wagered(pending)|
    ensures forall i :: 0 <= i < |r| ==> r[i] == Record(Wagered(pending)[i], all, results)
    decreases |pending|
  {
    if |pending| == 0 then []
    else
      var rest := SettleFrom(pending[1..], all, results);
      if pending[0].bets.Some? then [Record(pending[0], all, results)] + rest else rest
  }

  /**
   * `calculateBettingResults(results)` over the bettor roster: one record
   * per bettor holding a wager, in roster order, whose points are the
   * rounded sum of what that bettor collects from each bucket.
   */
  function Settle(bettors: seq<Bettor>, results: seq<ResultEntry>): (r: seq<BetResult>)
    ensures |r| == |Wagered(bettors)|
    ensures forall i :: 0 <= i < |r| ==>
              var x := Wagered(bettors)[i];
              && r[i].bettorId == x.id
              && r[i].bettorName == x.name
              && r[i].totalPoints == RoundHalfUp(Award(x.bets.value, bettors, results))
              && r[i].correctLast == LastHit(x.bets.value, results)
              && r[i].correctTop3 == |set k | 0 <= k < 3 && SlotHit(x.bets.value, results, k)|
  {
    var r := SettleFrom(bettors, bettors, results);
    assert forall i :: 0 <= i < |r| ==>
              var w := Wagered(bettors)[i].bets.value;
              r[i].correctTop3 == |set k | 0 <= k < 3 && SlotHit(w, results, k)| by {
      forall i | 0 <= i < |r|
        ensures var w := Wagered(bettors)[i].bets.value;
                r[i].correctTop3 == |set k | 0 <= k < 3 && SlotHit(w, results, k)|
      {
        HitCount(Wagered(bettors)[i].bets.value, results);
      }
    }
    r
  }

  /** The three indicators count the matched slots among the first three. */
  lemma HitCount(w: Wager, results: seq<ResultEntry>)
    ensures Indicator(SlotHit(w, results, 0)) + Indicator(SlotHit(w, results, 1)) + Indicator(SlotHit(w, results, 2))
            == |set k | 0 <= k < 3 && SlotHit(w, results, k)|
  {
    var s := set k | 0 <= k < 3 && SlotHit(w, results, k);
    var s0 := if SlotHit(w, results, 0) then {0} else {};
    var s1 := if SlotHit(w, results, 1) then {1} else {};
    var s2 := if SlotHit(w, results, 2) then {2} else {};
    assert s == s0 + s1 + s2;
  }

  /** What the callers of bucket `b` among `pending` collect together when each receives `share`. */
  function Collected(pending: seq<Bettor>, results: seq<ResultEntry>, b: Bucket, share: real): real
    decreases |pending|
  {
    if |pending| == 0 then 0.0
    else
      var here := if pending[0].bets.Some? && Hits(pending[0].bets.value, results, b) then share else 0.0;
      here + Collected(pending[1..], results, b, share)
  }

  /** What the whole roster collects from bucket `b`. */
  function PaidOut(bettors: seq<Bettor>, results: seq<ResultEntry>, b: Bucket): real
  {
    Collected(bettors, results, b, ShareOfBucket(bettors, results, b))
  }

  /** `k` shares added up one by one. */
  function Shares(share: real, k: nat): real
  {
    if k == 0 then 0.0 else share + Shares(share, k - 1)
  }

  lemma {:induction false} CollectedCountsCallers(pending: seq<Bettor>, results: seq<ResultEntry>, b: Bucket, share: real)
    ensures Collected(pending, results, b, share) == Shares(share, Callers(pending, results, b))
    decreases |pending|
  {
    if |pending| > 0 {
      CollectedCountsCallers(pending[1..], results, b, share);
    }
  }

  lemma {:induction false} SharesAreProduct(share: real, k: nat)
    ensures Shares(share, k) == share * k as real
  {
    if k > 0 {
      SharesAreProduct(share, k - 1);
      assert share * k as real == share + share * (k - 1) as real;
    }
  }

  lemma SplitEvenly(k: nat)
    requires k > 0
    ensures BucketValue / k as real * k as real == BucketValue
  {
  }

  /**
   * Each bucket pays out exactly its value when somebody called it and
   * nothing otherwise: breakage is never redistributed.
   */
  lemma BucketPaysExactly(bettors: seq<Bettor>, results: seq<ResultEntry>, b: Bucket)
    ensures Callers(bettors, results, b) > 0 ==> PaidOut(bettors, results, b) == BucketValue
    ensures Callers(bettors, results, b) == 0 ==> PaidOut(bettors, results, b) == 0.0
  {
    var k := Callers(bettors, results, b);
    CollectedCountsCallers(bettors, results, b, ShareOfBucket(bettors, results, b));
    SharesAreProduct(ShareOfBucket(bettors, results, b), k);
    if k > 0 {
      SplitEvenly(k);
    }
  }

  /** The unrounded awards of the bettors in `pending`, added up. */
  function AwardedTotal(pending: seq<Bettor>, all: seq<Bettor>, results: seq<ResultEntry>): real
    decreases |pending|
  {
    if |pending| == 0 then 0.0
    else
      var here := if pending[0].bets.Some? then Award(pending[0].bets.value, all, results) else 0.0;
      here + AwardedTotal(pending[1..], all, results)
  }

  /** Adding up per bettor or per bucket gives the same amount. */
  lemma {:induction false} AwardedIsBucketSum(pending: seq<Bettor>, all: seq<Bettor>, results: seq<ResultEntry>)
    ensures AwardedTotal(pending, all, results)
            == Collected(pending, results, First, ShareOfBucket(all, results, First))
               + Collected(pending, results, Second, ShareOfBucket(all, results, Second))
               + Collected(pending, results, Third, ShareOfBucket(all, results, Third))
               + Collected(pending, results, LastPlace, ShareOfBucket(all, results, LastPlace))
    decreases |pending|
  {
    if |pending| > 0 {
      AwardedIsBucketSum(pending[1..], all, results);
    }
  }

  /** The unrounded payouts of one settlement never exceed the pot of 100 000. */
  lemma PotNeverExceeded(bettors: seq<Bettor>, results: seq<ResultEntry>)
    ensures 0.0 <= AwardedTotal(bettors, bettors, results) <= TotalPot
  {
    AwardedIsBucketSum(bettors, bettors, results);
    BucketPaysExactly(bettors, results, First);
    BucketPaysExactly(bettors, results, Second);
    BucketPaysExactly(bettors, results, Third);
    BucketPaysExactly(bettors, results, LastPlace);
  }
}
