/** Take-profit ladders of the backtest: slices sold at rising levels, the rest closed by
    the stop, the trail or the end of the path. */
module Ladder {
  import opened Common
  import opened TrailRule

  /** A level above the entry and the fraction of the original position sold there. */
  datatype Rung = Rung(tpPct: real, fraction: real)

  datatype Reason = HardStop | LadderFull | TrailStop | TimedOut

  const DUST := 0.000000001

  /** A slice sold at tick `at` because rung `rung` was reached. */
  datatype Fill = Fill(rung: nat, at: nat, amount: real)

  function Level(n2: real, r: Rung): real {
    n2 * (1.0 + r.tpPct)
  }

  function Floor(n2: real, sl: real): real {
    n2 * (1.0 - sl)
  }

  function Ratio(price: real, n2: real): real
    requires n2 > 0.0
  {
    price / n2
  }

  /** What selling `amount` at `ratio` brings. */
  function Value(amount: real, ratio: real): real {
    amount * ratio
  }

  function Sold(fills: seq<Fill>): real {
    if fills == [] then 0.0 else Sold(fills[..|fills| - 1]) + fills[|fills| - 1].amount
  }

  function Worth(fills: seq<Fill>, prices: seq<real>, n2: real): real
    requires n2 > 0.0
  {
    if fills == [] then 0.0
    else
      var f := fills[|fills| - 1];
      Worth(fills[..|fills| - 1], prices, n2)
      + if f.at < |prices| then Value(f.amount, Ratio(prices[f.at], n2)) else 0.0
  }

  ghost predicate HasRung(fills: seq<Fill>, i: nat) {
    exists k :: 0 <= k < |fills| && fills[k].rung == i
  }

  /** A fill belongs to the first price that reaches its rung, and sells the rung's
      fraction or what was left before it. */
  ghost predicate ProperFill(fills: seq<Fill>, k: nat, prices: seq<real>, n2: real, tps: seq<Rung>, visited: nat)
    requires k < |fills| && visited <= |prices|
  {
    var f := fills[k];
    && f.at < visited && f.rung < |tps|
    && prices[f.at] >= Level(n2, tps[f.rung])
    && (forall j :: 0 <= j < f.at ==> prices[j] < Level(n2, tps[f.rung]))
    && f.amount == RMin(tps[f.rung].fraction, 1.0 - Sold(fills[..k]))
  }

  ghost predicate AllProper(fills: seq<Fill>, prices: seq<real>, n2: real, tps: seq<Rung>, visited: nat)
    requires visited <= |prices|
  {
    forall k :: 0 <= k < |fills| ==> ProperFill(fills, k, prices, n2, tps, visited)
  }

  /** Slices by tick and, within a tick, by rung. */
  ghost predicate Ordered(fills: seq<Fill>) {
    forall j, k :: 0 <= j < k < |fills| ==> Precedes(fills[j], fills[k])
  }

  predicate Precedes(f: Fill, g: Fill) {
    f.at < g.at || (f.at == g.at && f.rung < g.rung)
  }

  ghost predicate AllPrecede(fills: seq<Fill>, g: Fill) {
    forall k :: 0 <= k < |fills| ==> Precedes(fills[k], g)
  }

  /** The fills after `visited` prices: proper, in order, one a rung at most, and never more than the position. */
  ghost predicate ProperFills(fills: seq<Fill>, prices: seq<real>, n2: real, tps: seq<Rung>, visited: nat)
    requires visited <= |prices|
  {
    && AllProper(fills, prices, n2, tps, visited)
    && Ordered(fills)
    && (forall j, k :: 0 <= j < k < |fills| ==> fills[j].rung != fills[k].rung)
  }

  /** Every rung reached by one of the first `n` prices has been filled. */
  ghost predicate AllFilled(fills: seq<Fill>, prices: seq<real>, n2: real, tps: seq<Rung>, n: nat)
    requires n <= |prices|
  {
    forall i, j :: 0 <= i < |tps| && 0 <= j < n && prices[j] >= Level(n2, tps[i]) ==> HasRung(fills, i)
  }

  ghost predicate Within(prices: seq<real>, n2: real, n: nat, lo: real, hi: real)
    requires n <= |prices| && n2 > 0.0
  {
    forall j :: 0 <= j < n ==> lo <= Ratio(prices[j], n2) <= hi
  }

  lemma ValueMono(amount: real, a: real, b: real)
    requires amount >= 0.0 && a <= b
    ensures Value(amount, a) <= Value(amount, b)
  {
    assert amount * (b - a) >= 0.0;
  }

  lemma ValueAdd(a: real, b: real, ratio: real)
    ensures Value(a, ratio) + Value(b, ratio) == Value(a + b, ratio)
  {
  }

  predicate Nonnegative(tps: seq<Rung>) {
    forall i :: 0 <= i < |tps| ==> tps[i].fraction >= 0.0
  }

  lemma PrefixProper(fills: seq<Fill>, prices: seq<real>, n2: real, tps: seq<Rung>, visited: nat)
    requires visited <= |prices| && fills != []
    requires AllProper(fills, prices, n2, tps, visited)
    ensures AllProper(fills[..|fills| - 1], prices, n2, tps, visited)
  {
    var n := |fills| - 1;
    forall k | 0 <= k < n ensures ProperFill(fills[..n], k, prices, n2, tps, visited) {
      assert ProperFill(fills, k, prices, n2, tps, visited);
      assert fills[..n][..k] == fills[..k];
    }
  }

  /** Conservation: slices never add up to more than the position, and none is negative. */
  lemma {:induction false} SoldAtMostAll(fills: seq<Fill>, prices: seq<real>, n2: real, tps: seq<Rung>, visited: nat)
    requires visited <= |prices| && Nonnegative(tps)
    requires AllProper(fills, prices, n2, tps, visited)
    ensures 0.0 <= Sold(fills) <= 1.0
    ensures fills != [] ==> fills[|fills| - 1].amount >= 0.0
  {
    if fills != [] {
      var n := |fills| - 1;
      PrefixProper(fills, prices, n2, tps, visited);
      SoldAtMostAll(fills[..n], prices, n2, tps, visited);
      assert ProperFill(fills, n, prices, n2, tps, visited);
    }
  }

  /** The worth of what was sold lies between the extremes of the visited prices. */
  lemma {:induction false} WorthBetween(fills: seq<Fill>, prices: seq<real>, n2: real, tps: seq<Rung>, visited: nat, lo: real, hi: real)
    requires n2 > 0.0 && visited <= |prices| && Nonnegative(tps)
    requires AllProper(fills, prices, n2, tps, visited)
    requires Within(prices, n2, visited, lo, hi)
    ensures Value(Sold(fills), lo) <= Worth(fills, prices, n2) <= Value(Sold(fills), hi)
  {
    if fills != [] {
      var n := |fills| - 1;
      var f := fills[n];
      PrefixProper(fills, prices, n2, tps, visited);
      SoldAtMostAll(fills, prices, n2, tps, visited);
      WorthBetween(fills[..n], prices, n2, tps, visited, lo, hi);
      assert ProperFill(fills, n, prices, n2, tps, visited);
      ValueMono(f.amount, lo, Ratio(prices[f.at], n2));
      ValueMono(f.amount, Ratio(prices[f.at], n2), hi);
      ValueAdd(Sold(fills[..n]), f.amount, lo);
      ValueAdd(Sold(fills[..n]), f.amount, hi);
    }
  }

  // ----- The loops -----

  /** The bookkeeping of a replay after some slices: what is left, what came in, which rungs are done. */
  ghost predicate Ledger(fills: seq<Fill>, prices: seq<real>, n2: real, tps: seq<Rung>, visited: nat,
                         remaining: real, realised: real, hit: seq<bool>)
    requires visited <= |prices| && n2 > 0.0
  {
    && ProperFills(fills, prices, n2, tps, visited)
    && remaining == 1.0 - Sold(fills)
    && realised == Worth(fills, prices, n2)
    && |hit| == |tps| && forall i :: 0 <= i < |tps| ==> (hit[i] <==> HasRung(fills, i))
  }

  lemma FillPush(fills: seq<Fill>, f: Fill, prices: seq<real>, n2: real, tps: seq<Rung>, visited: nat,
                                    remaining: real, realised: real, hit: seq<bool>)
    requires n2 > 0.0 && visited <= |prices| && f.at < visited && f.rung < |tps|
    requires Ledger(fills, prices, n2, tps, visited, remaining, realised, hit)
    requires !hit[f.rung] && prices[f.at] >= Level(n2, tps[f.rung])
    requires forall j :: 0 <= j < f.at ==> prices[j] < Level(n2, tps[f.rung])
    requires AllPrecede(fills, f)
    requires f.amount == RMin(tps[f.rung].fraction, remaining)
    ensures Ledger(fills + [f], prices, n2, tps, visited, remaining - f.amount,
                   realised + Value(f.amount, Ratio(prices[f.at], n2)), hit[f.rung := true])
  {
    var fills' := fills + [f];
    var n := |fills|;
    assert fills'[..n] == fills;
    forall k | 0 <= k <= n ensures ProperFill(fills', k, prices, n2, tps, visited) {
      assert fills'[..k] == fills[..k];
      if k < n {
        assert ProperFill(fills, k, prices, n2, tps, visited);
      }
    }
    forall i | 0 <= i < |tps| ensures hit[f.rung := true][i] <==> HasRung(fills', i) {
      if HasRung(fills, i) {
        var k :| 0 <= k < n && fills[k].rung == i;
        assert fills'[k].rung == i;
      }
      if i == f.rung {
        assert fills'[n].rung == i;
      }
    }
  }

  /** Sells the slice of one rung that is reached for the first time. */
  method SellRung(prices: seq<real>, t: nat, n2: real, tps: seq<Rung>, i: nat, hit: array<bool>,
                  remaining0: real, realised0: real, ghost fills0: seq<Fill>)
    returns (remaining: real, realised: real, ghost fills: seq<Fill>)
    requires n2 > 0.0 && t < |prices| && hit.Length == |tps| && i < |tps|
    requires Ledger(fills0, prices, n2, tps, t + 1, remaining0, realised0, hit[..])
    requires AllFilled(fills0, prices, n2, tps, t)
    requires !hit[i] && prices[t] >= Level(n2, tps[i])
    requires forall amount :: AllPrecede(fills0, Fill(i, t, amount))
    modifies hit
    ensures Ledger(fills, prices, n2, tps, t + 1, remaining, realised, hit[..])
    ensures fills == fills0 + [Fill(i, t, RMin(tps[i].fraction, remaining0))]
  {
    assert hit[..][i] == hit[i] && !HasRung(fills0, i);
    fills := fills0 + [Fill(i, t, RMin(tps[i].fraction, remaining0))];
    FillPush(fills0, fills[|fills0|], prices, n2, tps, t + 1, remaining0, realised0, hit[..]);
    var take := RMin(tps[i].fraction, remaining0);
    realised := realised0 + Value(take, prices[t] / n2);
    remaining := remaining0 - take;
    hit[i] := true;
    assert hit[..] == old(hit[..])[i := true];
  }

  /** The price at tick `t` sells every rung it is the first to reach, in order; with
      `stopEmpty` the pass ends as soon as nothing is left. */
  method TakeRungs(prices: seq<real>, t: nat, n2: real, tps: seq<Rung>, hit: array<bool>, stopEmpty: bool,
                   remaining0: real, realised0: real, ghost fills0: seq<Fill>)
    returns (remaining: real, realised: real, empty: bool, ghost fills: seq<Fill>)
    requires n2 > 0.0 && t < |prices| && hit.Length == |tps|
    requires Ledger(fills0, prices, n2, tps, t + 1, remaining0, realised0, hit[..])
    requires AllFilled(fills0, prices, n2, tps, t)
    requires forall k :: 0 <= k < |fills0| ==> fills0[k].at < t
    modifies hit
    ensures Ledger(fills, prices, n2, tps, t + 1, remaining, realised, hit[..])
    ensures AllFilled(fills, prices, n2, tps, t)
    ensures empty ==> stopEmpty && remaining <= DUST
    ensures !empty ==> AllFilled(fills, prices, n2, tps, t + 1)
    ensures stopEmpty && remaining0 > DUST && !empty ==> remaining > DUST
  {
    remaining, realised, fills := remaining0, realised0, fills0;
    for i := 0 to |tps|
      invariant Ledger(fills, prices, n2, tps, t + 1, remaining, realised, hit[..])
      invariant AllFilled(fills, prices, n2, tps, t)
      invariant forall k :: 0 <= k < |fills| ==> fills[k].at < t || (fills[k].at == t && fills[k].rung < i)
      invariant forall k :: 0 <= k < i && prices[t] >= Level(n2, tps[k]) ==> HasRung(fills, k)
      invariant stopEmpty && remaining0 > DUST ==> remaining > DUST
    {
      if !hit[i] && prices[t] >= Level(n2, tps[i]) {
        ghost var before := fills;
        remaining, realised, fills := SellRung(prices, t, n2, tps, i, hit, remaining, realised, fills);
        HasRungPush(before, fills[|before|]);
        if stopEmpty && remaining <= DUST {
          return remaining, realised, true, fills;
        }
      } else {
        assert hit[..][i] == hit[i];
      }
    }
    empty := false;
  }

  lemma HasRungPush(fills: seq<Fill>, f: Fill)
    ensures forall i :: HasRung(fills + [f], i) <==> HasRung(fills, i) || i == f.rung
  {
    forall i ensures HasRung(fills + [f], i) <==> HasRung(fills, i) || i == f.rung {
      if HasRung(fills, i) {
        var k :| 0 <= k < |fills| && fills[k].rung == i;
        assert (fills + [f])[k].rung == i;
      }
      assert (fills + [f])[|fills|] == f;
    }
  }

  // ----- The replays -----

  function ArmedAt(n2: real, arm: real): real {
    n2 * (1.0 + arm)
  }

  function TrailedAt(peak: real, trail: real): real {
    peak * (1.0 - trail)
  }

  function PeakAfter(prices: seq<real>, n2: real, n: nat): real
    requires n <= |prices|
  {
    MaxFrom(n2, prices[..n])
  }

  predicate ArmedAfter(prices: seq<real>, n2: real, arm: real, n: nat)
    requires n <= |prices|
  {
    n > 0 && PeakAfter(prices, n2, n) >= ArmedAt(n2, arm)
  }

  /** Armed at tick `j` and back from the peak by the trail. */
  predicate TrailHits(prices: seq<real>, n2: real, arm: real, trail: real, j: nat)
    requires j < |prices|
  {
    var peak := PeakAfter(prices, n2, j + 1);
    ArmedAfter(prices, n2, arm, j + 1) && prices[j] <= TrailedAt(peak, trail)
  }

  datatype TrailKnob = NoTrail | TrailAt(arm: real, trail: real)

  predicate Trails(rule: TrailKnob, prices: seq<real>, n2: real, j: nat)
    requires j < |prices|
  {
    rule.TrailAt? && TrailHits(prices, n2, rule.arm, rule.trail, j)
  }

  /** Neither the stop nor the trail fired at any of the first `n` prices. */
  ghost predicate Quiet(prices: seq<real>, n2: real, sl: real, rule: TrailKnob, n: nat)
    requires n <= |prices|
  {
    forall j :: 0 <= j < n ==> prices[j] > Floor(n2, sl) && !Trails(rule, prices, n2, j)
  }

  /** How a replay ended: after `visited` prices, for `reason`, with these slices sold. The
      stop comes before the rungs of its tick, the trail and the empty check after them. */
  ghost predicate Ended(prices: seq<real>, n2: real, tps: seq<Rung>, sl: real, rule: TrailKnob,
                        fills: seq<Fill>, visited: nat, reason: Reason)
    requires n2 > 0.0
  {
    && 0 < visited <= |prices|
    && ProperFills(fills, prices, n2, tps, visited)
    && AllFilled(fills, prices, n2, tps, visited - 1)
    && Quiet(prices, n2, sl, rule, visited - 1)
    && match reason
       case HardStop => prices[visited - 1] <= Floor(n2, sl) && ProperFills(fills, prices, n2, tps, visited - 1)
       case LadderFull => prices[visited - 1] > Floor(n2, sl) && 1.0 - Sold(fills) <= DUST
       case TrailStop => prices[visited - 1] > Floor(n2, sl) && Trails(rule, prices, n2, visited - 1) && 1.0 - Sold(fills) > DUST
                         && AllFilled(fills, prices, n2, tps, visited)
       case TimedOut => visited == |prices| && Quiet(prices, n2, sl, rule, visited) && 1.0 - Sold(fills) > DUST
                        && AllFilled(fills, prices, n2, tps, visited)
  }

  /** What came in: the slices, and the rest at the last price unless the ladder took it all. */
  function Realised(prices: seq<real>, n2: real, fills: seq<Fill>, visited: nat, reason: Reason): real
    requires n2 > 0.0 && 0 < visited <= |prices|
  {
    Worth(fills, prices, n2) +
    if reason == LadderFull then 0.0 else Value(1.0 - Sold(fills), Ratio(prices[visited - 1], n2))
  }

  /** The realised return is a convex combination of the visited price ratios, up to the dust
      a full ladder leaves unsold. */
  lemma ReturnBetween(prices: seq<real>, n2: real, tps: seq<Rung>, sl: real, rule: TrailKnob,
                                         fills: seq<Fill>, visited: nat, reason: Reason, lo: real, hi: real)
    requires n2 > 0.0 && Nonnegative(tps) && Ended(prices, n2, tps, sl, rule, fills, visited, reason)
    requires Within(prices, n2, visited, lo, hi)
    ensures reason != LadderFull ==> lo <= Realised(prices, n2, fills, visited, reason) <= hi
    ensures reason == LadderFull && lo >= 0.0 ==> (1.0 - 0.000000001) * lo <= Realised(prices, n2, fills, visited, reason) <= hi
  {
    var sold := Sold(fills);
    WorthBetween(fills, prices, n2, tps, visited, lo, hi);
    SoldAtMostAll(fills, prices, n2, tps, visited);
    assert lo <= Ratio(prices[visited - 1], n2) <= hi;
    if reason != LadderFull {
      ValueMono(1.0 - sold, lo, Ratio(prices[visited - 1], n2));
      ValueMono(1.0 - sold, Ratio(prices[visited - 1], n2), hi);
      ValueAdd(sold, 1.0 - sold, lo);
      ValueAdd(sold, 1.0 - sold, hi);
    } else if lo >= 0.0 {
      Scale(1.0 - DUST, sold, lo);
      Scale(sold, 1.0, hi);
    }
  }

  lemma Scale(a: real, b: real, x: real)
    requires a <= b && x >= 0.0
    ensures Value(a, x) <= Value(b, x)
    ensures Value(a, x) == a * x && Value(1.0, x) == x
  {
    assert (b - a) * x >= 0.0;
  }

  lemma EmptyLedger(prices: seq<real>, n2: real, tps: seq<Rung>, hit: seq<bool>)
    requires n2 > 0.0 && |hit| == |tps| && forall i :: 0 <= i < |hit| ==> !hit[i]
    ensures Ledger([], prices, n2, tps, 0, 1.0, 0.0, hit) && AllFilled([], prices, n2, tps, 0)
  {
  }

  lemma LaterLedger(fills: seq<Fill>, prices: seq<real>, n2: real, tps: seq<Rung>, n: nat, m: nat,
                                       remaining: real, realised: real, hit: seq<bool>)
    requires n2 > 0.0 && n <= m <= |prices| && Ledger(fills, prices, n2, tps, n, remaining, realised, hit)
    ensures Ledger(fills, prices, n2, tps, m, remaining, realised, hit)
    ensures forall k :: 0 <= k < |fills| ==> fills[k].at < n
  {
    forall k | 0 <= k < |fills| ensures ProperFill(fills, k, prices, n2, tps, m) && fills[k].at < n {
      assert ProperFill(fills, k, prices, n2, tps, n);
    }
  }

  /** The state of a replay before the price at `t`: nothing has ended it. */
  ghost predicate Going(prices: seq<real>, n2: real, tps: seq<Rung>, sl: real, rule: TrailKnob, fills: seq<Fill>,
                        t: nat, remaining: real, realised: real, hit: seq<bool>)
    requires n2 > 0.0 && t <= |prices|
  {
    && Ledger(fills, prices, n2, tps, t, remaining, realised, hit)
    && AllFilled(fills, prices, n2, tps, t)
    && Quiet(prices, n2, sl, rule, t)
    && remaining > DUST
  }

  lemma GoesOn(prices: seq<real>, n2: real, tps: seq<Rung>, sl: real, rule: TrailKnob, fills: seq<Fill>,
                                  t: nat, remaining: real, realised: real, hit: seq<bool>)
    requires n2 > 0.0 && t < |prices|
    requires Ledger(fills, prices, n2, tps, t + 1, remaining, realised, hit) && AllFilled(fills, prices, n2, tps, t + 1)
    requires Quiet(prices, n2, sl, rule, t) && remaining > DUST
    requires prices[t] > Floor(n2, sl) && !Trails(rule, prices, n2, t)
    ensures Going(prices, n2, tps, sl, rule, fills, t + 1, remaining, realised, hit)
  {
  }

  /** The books at an ending, and that what is returned is what they say. */
  lemma Closes(prices: seq<real>, n2: real, tps: seq<Rung>, sl: real, rule: TrailKnob, fills: seq<Fill>,
                                  t: nat, remaining: real, realised: real, hit: seq<bool>, reason: Reason)
    requires n2 > 0.0 && t < |prices|
    requires Ledger(fills, prices, n2, tps, t + 1, remaining, realised, hit)
    requires AllFilled(fills, prices, n2, tps, t) && Quiet(prices, n2, sl, rule, t)
    requires match reason
             case HardStop => prices[t] <= Floor(n2, sl) && ProperFills(fills, prices, n2, tps, t)
             case LadderFull => prices[t] > Floor(n2, sl) && remaining <= DUST
             case TrailStop => prices[t] > Floor(n2, sl) && Trails(rule, prices, n2, t) && remaining > DUST
                               && AllFilled(fills, prices, n2, tps, t + 1)
             case TimedOut => t + 1 == |prices| && Quiet(prices, n2, sl, rule, t + 1) && remaining > DUST
                              && AllFilled(fills, prices, n2, tps, t + 1)
    ensures Ended(prices, n2, tps, sl, rule, fills, t + 1, reason)
    ensures Realised(prices, n2, fills, t + 1, reason) ==
            if reason == LadderFull then realised else realised + Value(remaining, Ratio(prices[t], n2))
  {
  }

  /** The plain ladder. Nothing is returned for an empty path or a worthless entry. */
  method ReplayMultistep(prices: seq<real>, n2: real, tps: seq<Rung>, sl: real)
    returns (result: Option<(real, Reason)>, ghost fills: seq<Fill>, ghost visited: nat)
    ensures result.None? <==> prices == [] || n2 <= 0.0
    ensures result.Some? ==>
              && Ended(prices, n2, tps, sl, NoTrail, fills, visited, result.value.1)
              && result.value.0 == Realised(prices, n2, fills, visited, result.value.1)
  {
    fills, visited := [], 0;
    if prices == [] || n2 <= 0.0 {
      return None, fills, visited;
    }
    var hardFloor := Floor(n2, sl);
    var remaining, realised := 1.0, 0.0;
    var hit := new bool[|tps|](_ => false);
    EmptyLedger(prices, n2, tps, hit[..]);
    for t := 0 to |prices|
      invariant fresh(hit) && hit.Length == |tps|
      invariant Going(prices, n2, tps, sl, NoTrail, fills, t, remaining, realised, hit[..])
    {
      var p := prices[t];
      LaterLedger(fills, prices, n2, tps, t, t + 1, remaining, realised, hit[..]);
      if p <= hardFloor {
        Closes(prices, n2, tps, sl, NoTrail, fills, t, remaining, realised, hit[..], HardStop);
        return Some((realised + Value(remaining, Ratio(p, n2)), HardStop)), fills, t + 1;
      }
      var empty;
      remaining, realised, empty, fills := TakeRungs(prices, t, n2, tps, hit, true, remaining, realised, fills);
      if empty {
        Closes(prices, n2, tps, sl, NoTrail, fills, t, remaining, realised, hit[..], LadderFull);
        return Some((realised, LadderFull)), fills, t + 1;
      }
      GoesOn(prices, n2, tps, sl, NoTrail, fills, t, remaining, realised, hit[..]);
    }
    visited := |prices|;
    Closes(prices, n2, tps, sl, NoTrail, fills, visited - 1, remaining, realised, hit[..], TimedOut);
    result := Some((realised + Value(remaining, Ratio(prices[|prices| - 1], n2)), TimedOut));
  }

  method ObservePrice(prices: seq<real>, n2: real, arm: real, t: nat, peak0: real, armed0: bool) returns (peak: real, armed: bool)
    requires t < |prices| && peak0 == PeakAfter(prices, n2, t) && armed0 == ArmedAfter(prices, n2, arm, t)
    ensures peak == PeakAfter(prices, n2, t + 1) && armed == ArmedAfter(prices, n2, arm, t + 1)
  {
    PeakPush(prices, n2, t);
    peak, armed := peak0, armed0;
    if prices[t] > peak { peak := prices[t]; }
    if !armed && peak >= ArmedAt(n2, arm) { armed := true; }
  }

  /** One tick of the ladder with a trail: stop, rungs, trail, and whether anything is left. */
  method HybridTick(prices: seq<real>, t: nat, n2: real, tps: seq<Rung>, arm: real, trail: real, sl: real,
                    peak: real, armed: bool, hit: array<bool>, remaining0: real, realised0: real, ghost fills0: seq<Fill>)
    returns (result: Option<(real, Reason)>, remaining: real, realised: real, ghost fills: seq<Fill>)
    requires n2 > 0.0 && t < |prices| && hit.Length == |tps|
    requires Going(prices, n2, tps, sl, TrailAt(arm, trail), fills0, t, remaining0, realised0, hit[..])
    requires peak == PeakAfter(prices, n2, t + 1) && armed == ArmedAfter(prices, n2, arm, t + 1)
    modifies hit
    ensures result.None? ==> Going(prices, n2, tps, sl, TrailAt(arm, trail), fills, t + 1, remaining, realised, hit[..])
    ensures result.Some? ==>
              && Ended(prices, n2, tps, sl, TrailAt(arm, trail), fills, t + 1, result.value.1)
              && result.value.0 == Realised(prices, n2, fills, t + 1, result.value.1)
  {
    ghost var rule := TrailAt(arm, trail);
    var p := prices[t];
    remaining, realised, fills := remaining0, realised0, fills0;
    LaterLedger(fills, prices, n2, tps, t, t + 1, remaining, realised, hit[..]);
    if p <= Floor(n2, sl) {
      Closes(prices, n2, tps, sl, rule, fills, t, remaining, realised, hit[..], HardStop);
      return Some((realised + Value(remaining, Ratio(p, n2)), HardStop)), remaining, realised, fills;
    }
    var empty;
    remaining, realised, empty, fills := TakeRungs(prices, t, n2, tps, hit, false, remaining, realised, fills);
    if armed && remaining > DUST && p <= TrailedAt(peak, trail) {
      Closes(prices, n2, tps, sl, rule, fills, t, remaining, realised, hit[..], TrailStop);
      return Some((realised + Value(remaining, Ratio(p, n2)), TrailStop)), remaining, realised, fills;
    }
    if remaining <= DUST {
      Closes(prices, n2, tps, sl, rule, fills, t, remaining, realised, hit[..], LadderFull);
      return Some((realised, LadderFull)), remaining, realised, fills;
    }
    GoesOn(prices, n2, tps, sl, rule, fills, t, remaining, realised, hit[..]);
    result := None;
  }

  /** The ladder with a trail on what it leaves. */
  method ReplayHybrid(prices: seq<real>, n2: real, tps: seq<Rung>, arm: real, trail: real, sl: real)
    returns (result: Option<(real, Reason)>, ghost fills: seq<Fill>, ghost visited: nat)
    ensures result.None? <==> prices == [] || n2 <= 0.0
    ensures result.Some? ==>
              && Ended(prices, n2, tps, sl, TrailAt(arm, trail), fills, visited, result.value.1)
              && result.value.0 == Realised(prices, n2, fills, visited, result.value.1)
  {
    fills, visited := [], 0;
    if prices == [] || n2 <= 0.0 {
      return None, fills, visited;
    }
    var remaining, realised := 1.0, 0.0;
    var hit := new bool[|tps|](_ => false);
    var peak, armed := n2, false;
    EmptyLedger(prices, n2, tps, hit[..]);
    for t := 0 to |prices|
      invariant fresh(hit) && hit.Length == |tps|
      invariant Going(prices, n2, tps, sl, TrailAt(arm, trail), fills, t, remaining, realised, hit[..])
      invariant peak == PeakAfter(prices, n2, t)
      invariant armed == ArmedAfter(prices, n2, arm, t)
    {
      peak, armed := ObservePrice(prices, n2, arm, t, peak, armed);
      var done;
      done, remaining, realised, fills := HybridTick(prices, t, n2, tps, arm, trail, sl, peak, armed, hit, remaining, realised, fills);
      if done.Some? {
        return done, fills, t + 1;
      }
    }
    visited := |prices|;
    Closes(prices, n2, tps, sl, TrailAt(arm, trail), fills, visited - 1, remaining, realised, hit[..], TimedOut);
    result := Some((realised + Value(remaining, Ratio(prices[|prices| - 1], n2)), TimedOut));
  }

  lemma PeakPush(prices: seq<real>, n2: real, t: nat)
    requires t < |prices|
    ensures PeakAfter(prices, n2, t + 1) == RMax(PeakAfter(prices, n2, t), prices[t])
  {
    MaxFromPush(n2, prices[..t], prices[t]);
    assert prices[..t + 1] == prices[..t] + [prices[t]];
  }

  // ----- What an ending means, over prices -----

  /** A slice in plain prices: sold at the first price at or above its level, its fraction or
      what was left. */
  ghost predicate SoldAtLevel(fills: seq<Fill>, k: nat, prices: seq<real>, n2: real, tps: seq<Rung>)
    requires k < |fills|
  {
    var f := fills[k];
    && f.at < |prices| && f.rung < |tps|
    && prices[f.at] >= n2 * (1.0 + tps[f.rung].tpPct)
    && (forall j :: 0 <= j < f.at ==> prices[j] < n2 * (1.0 + tps[f.rung].tpPct))
    && f.amount == RMin(tps[f.rung].fraction, 1.0 - Sold(fills[..k]))
  }

  lemma SlicesAreSoldAtLevel(fills: seq<Fill>, prices: seq<real>, n2: real, tps: seq<Rung>, visited: nat)
    requires visited <= |prices| && ProperFills(fills, prices, n2, tps, visited)
    ensures forall k :: 0 <= k < |fills| ==> SoldAtLevel(fills, k, prices, n2, tps) && fills[k].at < visited
  {
    forall k | 0 <= k < |fills| ensures SoldAtLevel(fills, k, prices, n2, tps) && fills[k].at < visited {
      assert ProperFill(fills, k, prices, n2, tps, visited);
    }
  }

  /** The greatest of the entry and the prices up to tick `j`. */
  ghost predicate PeakAt(peak: real, prices: seq<real>, n2: real, j: nat)
    requires j < |prices|
  {
    peak >= n2 && (forall i :: 0 <= i <= j ==> prices[i] <= peak) && (peak == n2 || exists i :: 0 <= i <= j && prices[i] == peak)
  }

  lemma PeakAfterIs(peak: real, prices: seq<real>, n2: real, j: nat)
    requires j < |prices| && PeakAt(peak, prices, n2, j)
    ensures PeakAfter(prices, n2, j + 1) == peak
  {
    var seen := prices[..j + 1];
    MaxFromIsMax(n2, seen);
    assert forall i :: 0 <= i <= j ==> seen[i] == prices[i] && seen[i] in seen;
  }

  /** The trail in plain prices: the peak reached the arm level and the price is back by the trail. */
  lemma TrailsMeans(rule: TrailKnob, prices: seq<real>, n2: real, j: nat, peak: real)
    requires j < |prices| && PeakAt(peak, prices, n2, j)
    ensures Trails(rule, prices, n2, j) <==>
            rule.TrailAt? && peak >= n2 * (1.0 + rule.arm) && prices[j] <= peak * (1.0 - rule.trail)
  {
    PeakAfterIs(peak, prices, n2, j);
  }

  /** An ending in plain prices: before it no price was at or under the stop and no trail
      fired; the stop ends it at or under, every other reason above; a full ladder leaves at most
      a billionth, the others more. */
  lemma EndingMeans(prices: seq<real>, n2: real, tps: seq<Rung>, sl: real, rule: TrailKnob,
                    fills: seq<Fill>, visited: nat, reason: Reason)
    requires n2 > 0.0 && Ended(prices, n2, tps, sl, rule, fills, visited, reason)
    ensures 0 < visited <= |prices|
    ensures forall j :: 0 <= j < visited - 1 ==> prices[j] > n2 * (1.0 - sl) && !Trails(rule, prices, n2, j)
    ensures reason == HardStop <==> prices[visited - 1] <= n2 * (1.0 - sl)
    ensures reason == TrailStop ==> Trails(rule, prices, n2, visited - 1)
    ensures reason == TimedOut ==> visited == |prices| && !Trails(rule, prices, n2, visited - 1)
    ensures reason != HardStop ==> (reason == LadderFull <==> 1.0 - Sold(fills) <= 0.000000001)
  {
  }

  /** The slices of an ending in plain prices: in order, each at its level, and none in the
      tick of a stop. */
  lemma SlicesMean(prices: seq<real>, n2: real, tps: seq<Rung>, sl: real, rule: TrailKnob,
                   fills: seq<Fill>, visited: nat, reason: Reason)
    requires n2 > 0.0 && Ended(prices, n2, tps, sl, rule, fills, visited, reason)
    ensures Ordered(fills)
    ensures forall k :: 0 <= k < |fills| ==>
              SoldAtLevel(fills, k, prices, n2, tps) && fills[k].at < if reason == HardStop then visited - 1 else visited
  {
    SlicesAreSoldAtLevel(fills, prices, n2, tps, if reason == HardStop then visited - 1 else visited);
  }

  lemma FilledMeans(fills: seq<Fill>, prices: seq<real>, n2: real, tps: seq<Rung>, n: nat, i: nat, j: nat)
    requires n <= |prices| && AllFilled(fills, prices, n2, tps, n) && i < |tps| && j < n
    requires prices[j] >= n2 * (1.0 + tps[i].tpPct)
    ensures HasRung(fills, i)
  {
  }

  /** No rung that a price reached is missing, except in the tick of a stop or of a full ladder. */
  lemma NoneMissing(prices: seq<real>, n2: real, tps: seq<Rung>, sl: real, rule: TrailKnob,
                    fills: seq<Fill>, visited: nat, reason: Reason, i: nat, j: nat)
    requires n2 > 0.0 && Ended(prices, n2, tps, sl, rule, fills, visited, reason)
    requires i < |tps| && j < visited && prices[j] >= n2 * (1.0 + tps[i].tpPct)
    requires reason == TrailStop || reason == TimedOut || j < visited - 1
    ensures HasRung(fills, i)
  {
    FilledMeans(fills, prices, n2, tps, if j < visited - 1 then visited - 1 else visited, i, j);
  }

  /** What came in, in plain prices: every slice at the price of its tick over the entry, and
      what is left at the last price visited. */
  function PlainReturn(prices: seq<real>, n2: real, fills: seq<Fill>): real
    requires n2 > 0.0
  {
    if fills == [] then 0.0
    else
      var f := fills[|fills| - 1];
      PlainReturn(prices, n2, fills[..|fills| - 1]) + if f.at < |prices| then f.amount * (prices[f.at] / n2) else 0.0
  }

  lemma {:induction false} WorthIsPlain(prices: seq<real>, n2: real, fills: seq<Fill>)
    requires n2 > 0.0
    ensures Worth(fills, prices, n2) == PlainReturn(prices, n2, fills)
  {
    if fills != [] {
      WorthIsPlain(prices, n2, fills[..|fills| - 1]);
    }
  }

  lemma RealisedMeans(prices: seq<real>, n2: real, fills: seq<Fill>, visited: nat, reason: Reason)
    requires n2 > 0.0 && 0 < visited <= |prices|
    ensures Realised(prices, n2, fills, visited, reason) ==
            PlainReturn(prices, n2, fills)
            + if reason == LadderFull then 0.0 else (1.0 - Sold(fills)) * (prices[visited - 1] / n2)
  {
    WorthIsPlain(prices, n2, fills);
  }

  /** The plain trail: the hybrid with no rungs. */
  method Replay(prices: seq<real>, n2: real, arm: real, trail: real, sl: real)
    returns (result: Option<(real, Reason)>, ghost visited: nat)
    ensures result.None? <==> prices == [] || n2 <= 0.0
    ensures result.Some? ==>
              && Ended(prices, n2, [], sl, TrailAt(arm, trail), [], visited, result.value.1)
              && result.value.1 != LadderFull
              && result.value.0 == Ratio(prices[visited - 1], n2)
  {
    visited := 0;
    if prices == [] || n2 <= 0.0 {
      return None, visited;
    }
    ghost var rule := TrailAt(arm, trail);
    var peak, armed := n2, false;
    var hardFloor := Floor(n2, sl);
    for t := 0 to |prices|
      invariant Quiet(prices, n2, sl, rule, t)
      invariant peak == PeakAfter(prices, n2, t)
      invariant armed == ArmedAfter(prices, n2, arm, t)
    {
      var p := prices[t];
      peak, armed := ObservePrice(prices, n2, arm, t, peak, armed);
      if p <= hardFloor {
        return Some((Ratio(p, n2), HardStop)), t + 1;
      }
      if armed && p <= TrailedAt(peak, trail) {
        return Some((Ratio(p, n2), TrailStop)), t + 1;
      }
    }
    visited := |prices|;
    result := Some((Ratio(prices[|prices| - 1], n2), TimedOut));
  }
}
