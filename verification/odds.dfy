/**
 * Live odds (`calculateOdds`, server/index.js:145-158): each racer's share of
 * the total progress as a rounded percentage, listed by non-increasing share.
 */
module Odds {
  import opened Rounding
  import opened StableSort
  import opened Roster

  /** One entry of an `odds-update`; the wire calls the share `position`. */
  datatype OddsEntry = OddsEntry(name: string, share: int, color: string)

  function ShareOf(o: OddsEntry): int { o.share }

  /** Sum of all racers' positions. */
  function TotalProgress(players: seq<Racer>): nat
    decreases |players|
  {
    if |players| == 0 then 0 else players[0].position + TotalProgress(players[1..])
  }

  function RacerPosition(p: Racer): int { p.position }

  /** The total progress is the position sum the sort keeps. */
  lemma {:induction false} TotalProgressIsKeySum(players: seq<Racer>)
    ensures TotalProgress(players) == KeySum(players, RacerPosition)
    decreases |players|
  {
    if |players| > 0 {
      TotalProgressIsKeySum(players[1..]);
    }
  }

  /** The exact percentage `100 * position / total`. */
  function ExactShare(position: nat, total: nat): real
    requires total > 0
  {
    100.0 * position as real / total as real
  }

  /** One entry per racer in roster order, each share rounded on its own. */
  function Rounded(players: seq<Racer>, total: nat): (r: seq<OddsEntry>)
    requires total > 0
    ensures |r| == |players|
    ensures forall i :: 0 <= i < |players| ==>
              r[i] == OddsEntry(players[i].name, RoundHalfUp(ExactShare(players[i].position, total)), players[i].color)
    decreases |players|
  {
    if |players| == 0 then []
    else
      var e := OddsEntry(players[0].name, RoundHalfUp(ExactShare(players[0].position, total)), players[0].color);
      [e] + Rounded(players[1..], total)
  }

  /**
   * `calculateOdds`. With no progress every share is 0 and roster order is
   * kept (no sort happens). Otherwise every share is the rounded exact
   * percentage, and the list is stably sorted by non-increasing share.
   */
  function CalculateOdds(players: seq<Racer>): (r: seq<OddsEntry>)
    ensures |r| == |players|
    ensures TotalProgress(players) == 0 ==>
              forall i :: 0 <= i < |r| ==>
                r[i].share == 0 && r[i].name == players[i].name && r[i].color == players[i].color
    ensures TotalProgress(players) > 0 ==>
              && SortedDesc(r, ShareOf)
              && multiset(r) == multiset(Rounded(players, TotalProgress(players)))
              && SameOrderPerKey(r, Rounded(players, TotalProgress(players)), ShareOf)
  {
    var total := TotalProgress(players);
    if total == 0 then
      seq(|players|, i requires 0 <= i < |players| => OddsEntry(players[i].name, 0, players[i].color))
    else
      SortDesc(Rounded(players, total), ShareOf)
  }

  lemma {:induction false} PositionAtMostTotal(players: seq<Racer>, i: nat)
    requires i < |players|
    ensures players[i].position <= TotalProgress(players)
    decreases |players|
  {
    if i > 0 {
      PositionAtMostTotal(players[1..], i - 1);
    }
  }

  lemma ExactShareWithin(position: nat, total: nat)
    requires 0 < total && position <= total
    ensures 0.0 <= ExactShare(position, total) <= 100.0
  {
    var p := position as real;
    var t := total as real;
    var x := ExactShare(position, total);
    assert x * t == 100.0 * p;
  }

  /** Every share in an odds update lies in [0, 100]. */
  lemma SharesWithinPercent(players: seq<Racer>, k: nat)
    requires k < |CalculateOdds(players)|
    ensures 0 <= CalculateOdds(players)[k].share <= 100
  {
    var total := TotalProgress(players);
    var r := CalculateOdds(players);
    if total > 0 {
      var raw := Rounded(players, total);
      assert r[k] in multiset(raw);
      var i :| 0 <= i < |raw| && raw[i] == r[k];
      PositionAtMostTotal(players, i);
      ExactShareWithin(players[i].position, total);
      RoundHalfUpWithin(ExactShare(players[i].position, total), 0, 100);
    }
  }

  /** The unrounded shares added up. */
  function ExactSum(players: seq<Racer>, total: nat): real
    requires total > 0
    decreases |players|
  {
    if |players| == 0 then 0.0 else ExactShare(players[0].position, total) + ExactSum(players[1..], total)
  }

  /** The unrounded shares of the whole roster add up to exactly 100. */
  lemma {:induction false} ExactSumScaled(players: seq<Racer>, total: nat)
    requires total > 0
    ensures ExactSum(players, total) * (total as real) == 100.0 * (TotalProgress(players) as real)
    decreases |players|
  {
    if |players| > 0 {
      ExactSumScaled(players[1..], total);
      var t := total as real;
      var x := ExactShare(players[0].position, total);
      assert x * t == 100.0 * players[0].position as real;
      var rest := ExactSum(players[1..], total);
      assert (x + rest) * t == x * t + rest * t;
    }
  }

  /** Each rounded share is off by at most half a point, so the sum by at most half a point per racer. */
  lemma {:induction false} RoundedSumNear(players: seq<Racer>, total: nat)
    requires total > 0
    ensures var d := KeySum(Rounded(players, total), ShareOf) as real - ExactSum(players, total);
            -(|players| as real) / 2.0 < d <= (|players| as real) / 2.0 || |players| == 0
    ensures |players| == 0 ==> KeySum(Rounded(players, total), ShareOf) == 0
    decreases |players|
  {
    if |players| > 0 {
      var raw := Rounded(players, total);
      assert raw[1..] == Rounded(players[1..], total);
      RoundedSumNear(players[1..], total);
    }
  }

  /**
   * Shares are not renormalised: with progress, they add up to 100 give or
   * take half a point per racer.
   */
  lemma SharesSumNearHundred(players: seq<Racer>)
    requires TotalProgress(players) > 0
    ensures 200 - |players| < 2 * KeySum(CalculateOdds(players), ShareOf) <= 200 + |players|
  {
    ExactSumIsHundred(players);
    RoundedSumNear(players, TotalProgress(players));
  }

  /** Measured against the roster's own total, the unrounded shares make exactly 100. */
  lemma ExactSumIsHundred(players: seq<Racer>)
    requires TotalProgress(players) > 0
    ensures ExactSum(players, TotalProgress(players)) == 100.0
  {
    var total := TotalProgress(players);
    ExactSumScaled(players, total);
    CancelFactor(ExactSum(players, total), total as real);
  }

  lemma CancelFactor(e: real, t: real)
    requires t > 0.0 && e * t == 100.0 * t
    ensures e == 100.0
  {
    assert (e - 100.0) * t == 0.0;
  }
}
