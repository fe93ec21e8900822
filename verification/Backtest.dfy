/** Two replays of the backtest, and how their exits relate to those of the live machine. */
module Backtest {
  import opened Common
  import opened TrailRule
  import T = TrailTheorems

  /** One block of a recorded path. */
  datatype PathPoint = PathPoint(block: nat, price: real, buyers: nat, buyWei: nat, sellWei: nat)

  const ARM_PCT := 0.30
  const SL_PCT := 0.30
  const BE_AT := 0.15
  const BE_LOCK := 0.05

  /** The live configuration the baseline stands for. */
  function LiveConfig(maxHold: nat): TrailConfig {
    TrailConfig(ARM_PCT, 0.30, SL_PCT, maxHold, BE_AT, BE_LOCK)
  }

  function Prices(path: seq<PathPoint>): seq<real> {
    seq(|path|, i requires 0 <= i < |path| => path[i].price)
  }

  /** The path as the live machine would see it: a price every block, and some flow figures. */
  function TicksOf(path: seq<PathPoint>, flows: seq<Option<Flow>>): seq<Tick>
    requires |flows| == |path|
  {
    seq(|path|, i requires 0 <= i < |path| => Tick(path[i].block, Some(path[i].price), flows[i]))
  }

  predicate ShorterThan(path: seq<PathPoint>, openedBlock: nat, maxHold: nat) {
    forall i :: 0 <= i < |path| ==> SatSub(path[i].block, openedBlock) < maxHold
  }

  function LiveExit(n2: real, path: seq<PathPoint>, flows: seq<Option<Flow>>, openedBlock: nat, maxHold: nat): Option<(nat, ExitReason)>
    requires |flows| == |path|
  {
    FirstExit(LiveConfig(maxHold), Position(n2, openedBlock), TicksOf(path, flows), true)
  }

  /** The live vote fires at point `i`. */
  predicate VoteAt(n2: real, path: seq<PathPoint>, flows: seq<Option<Flow>>, i: nat)
    requires i < |path| == |flows|
  {
    VoteFires(LiveConfig(1), Position(n2, 0), Prices(path)[..i], path[i].price, flows[i])
  }

  /** The live machine decides on what the path shows it. */
  lemma LiveDecides(n2: real, path: seq<PathPoint>, flows: seq<Option<Flow>>, openedBlock: nat, maxHold: nat, i: nat)
    requires i < |path| == |flows|
    ensures DecideAt(LiveConfig(maxHold), Position(n2, openedBlock), TicksOf(path, flows), true, i) ==
            if VoteAt(n2, path, flows, i) then Some(SignalVote)
            else Decide(LiveConfig(maxHold), Position(n2, openedBlock), Prices(path)[..i + 1], path[i].block, true)
  {
    var ticks := TicksOf(path, flows);
    T.SeenAll(ticks[..i], Prices(path)[..i]);
    assert ticks[..i + 1][..i] == ticks[..i];
    assert Prices(path)[..i] + [Prices(path)[i]] == Prices(path)[..i + 1];
  }

  // ----- The baseline -----

  /** The live rule without leading exit and without timeout. */
  function BaselineAt(n2: real, path: seq<PathPoint>, i: nat): Option<ExitReason>
    requires i < |path|
  {
    Decide(LiveConfig(1), Position(n2, 0), Prices(path)[..i + 1], 0, false)
  }

  lemma BaselineIsLive(n2: real, path: seq<PathPoint>, openedBlock: nat, maxHold: nat, i: nat)
    requires i < |path| && ShorterThan(path, openedBlock, maxHold)
    ensures T.Relabel(Decide(LiveConfig(maxHold), Position(n2, openedBlock), Prices(path)[..i + 1], path[i].block, true))
            == BaselineAt(n2, path, i)
  {
    T.DecideRelabels(LiveConfig(maxHold), Position(n2, openedBlock), Prices(path)[..i + 1], path[i].block);
  }

  /** The baseline in numerals: stop at 70% of the entry, or at 105% once the peak reached 115%;
      armed from 130% on, trail at 70% of the peak. */
  lemma BaselineMeans(n2: real, path: seq<PathPoint>, i: nat, peak: real)
    requires n2 > 0.0 && i < |path| && T.IsPeak(peak, Position(n2, 0), Prices(path)[..i + 1])
    ensures var p := path[i].price; var r := BaselineAt(n2, path, i);
            var ratcheted := peak >= 1.15 * n2;
            && (r == Some(BreakevenLocked) <==> ratcheted && p <= 1.05 * n2)
            && (r == Some(HardStopLoss) <==> !ratcheted && p <= 0.7 * n2)
            && (r == Some(Trail) <==> r != Some(BreakevenLocked) && r != Some(HardStopLoss) && peak >= 1.3 * n2 && p <= 0.7 * peak)
            && (r.None? || r == Some(BreakevenLocked) || r == Some(HardStopLoss) || r == Some(Trail))
  {
    T.PeakIsPeak(peak, Position(n2, 0), Prices(path)[..i + 1]);
    Levels(n2);
  }

  lemma Levels(n2: real)
    requires n2 > 0.0
    ensures var cfg, pos := LiveConfig(1), Position(n2, 0);
            && ArmLevel(cfg, pos) == 1.3 * n2 && RatchetLevel(cfg, pos) == 1.15 * n2
            && HardFloor(cfg, pos) == 0.7 * n2 && LockFloor(cfg, pos) == 1.05 * n2
            && forall peak: real :: TrailLevel(cfg, peak) == 0.7 * peak
  {
  }

  /** The replay ended at point `at` for `reason`, or after all points if `at` is none. */
  ghost predicate BaselineEnds(n2: real, path: seq<PathPoint>, at: nat, reason: ExitReason) {
    && at <= |path|
    && (forall j :: 0 <= j < at ==> BaselineAt(n2, path, j).None?)
    && (if at < |path| then BaselineAt(n2, path, at) == Some(reason) else reason == Timeout)
  }

  ghost predicate VotedBy(n2: real, path: seq<PathPoint>, flows: seq<Option<Flow>>, at: nat)
    requires |flows| == |path|
  {
    exists j :: 0 <= j < |path| && j <= at && VoteAt(n2, path, flows, j)
  }

  /** The live run exits at the same point for the same reason, a leading exit counting as a
      trail exit, unless a vote fires there or before; then it exits at the first vote. */
  ghost predicate AgreesUnlessVoted(n2: real, path: seq<PathPoint>, flows: seq<Option<Flow>>, openedBlock: nat, maxHold: nat,
                                    at: nat, reason: ExitReason)
    requires |flows| == |path|
  {
    var live := LiveExit(n2, path, flows, openedBlock, maxHold);
    if VotedBy(n2, path, flows, at) then
      && live.Some? && live.value.1 == SignalVote && live.value.0 < |path| && live.value.0 <= at
      && VoteAt(n2, path, flows, live.value.0)
      && forall j :: 0 <= j < live.value.0 ==> !VoteAt(n2, path, flows, j)
    else T.RelabelExit(live) == if at < |path| then Some((at, reason)) else None
  }

  lemma BaselineOutcome(n2: real, path: seq<PathPoint>, flows: seq<Option<Flow>>, openedBlock: nat, maxHold: nat,
                        at: nat, reason: ExitReason)
    requires |flows| == |path| && ShorterThan(path, openedBlock, maxHold)
    requires BaselineEnds(n2, path, at, reason)
    ensures AgreesUnlessVoted(n2, path, flows, openedBlock, maxHold, at, reason)
  {
    var cfg, pos, ticks := LiveConfig(maxHold), Position(n2, openedBlock), TicksOf(path, flows);
    forall j | 0 <= j < |path|
      ensures T.Relabel(DecideAt(cfg, pos, ticks, true, j)) ==
              if VoteAt(n2, path, flows, j) then Some(SignalVote) else BaselineAt(n2, path, j)
    {
      LiveDecides(n2, path, flows, openedBlock, maxHold, j);
      BaselineIsLive(n2, path, openedBlock, maxHold, j);
    }
    if VotedBy(n2, path, flows, at) {
      VoteEnds(n2, path, flows, cfg, pos, ticks, at);
    } else {
      BaselineDecides(n2, path, flows, cfg, pos, ticks, at, reason);
    }
  }

  lemma VoteEnds(n2: real, path: seq<PathPoint>, flows: seq<Option<Flow>>, cfg: TrailConfig, pos: Position, ticks: seq<Tick>, at: nat)
    requires |flows| == |path| == |ticks| && VotedBy(n2, path, flows, at)
    requires forall j :: 0 <= j < at && j < |path| ==> BaselineAt(n2, path, j).None?
    requires forall j :: 0 <= j < |path| && VoteAt(n2, path, flows, j) ==> T.Relabel(DecideAt(cfg, pos, ticks, true, j)) == Some(SignalVote)
    requires forall j :: 0 <= j < |path| && !VoteAt(n2, path, flows, j) ==>
               T.Relabel(DecideAt(cfg, pos, ticks, true, j)) == BaselineAt(n2, path, j)
    ensures var live := FirstExit(cfg, pos, ticks, true);
            && live.Some? && live.value.1 == SignalVote && live.value.0 < |path| && live.value.0 <= at
            && VoteAt(n2, path, flows, live.value.0)
            && forall j :: 0 <= j < live.value.0 ==> !VoteAt(n2, path, flows, j)
  {
    var i := FirstVote(n2, path, flows, at);
    forall j | 0 <= j < i ensures DecideAt(cfg, pos, ticks, true, j).None? {
      assert BaselineAt(n2, path, j).None?;
    }
    FirstIs(cfg, pos, ticks, i);
  }

  lemma FirstIs(cfg: TrailConfig, pos: Position, ticks: seq<Tick>, i: nat)
    requires i < |ticks| && T.Relabel(DecideAt(cfg, pos, ticks, true, i)) == Some(SignalVote)
    requires forall j :: 0 <= j < i ==> DecideAt(cfg, pos, ticks, true, j).None?
    ensures FirstExit(cfg, pos, ticks, true) == Some((i, SignalVote))
  {
  }

  lemma {:induction false} FirstVote(n2: real, path: seq<PathPoint>, flows: seq<Option<Flow>>, at: nat) returns (i: nat)
    requires |flows| == |path| && VotedBy(n2, path, flows, at)
    ensures i < |path| && i <= at && VoteAt(n2, path, flows, i)
    ensures forall j :: 0 <= j < i ==> !VoteAt(n2, path, flows, j)
  {
    var k :| 0 <= k < |path| && k <= at && VoteAt(n2, path, flows, k);
    if k > 0 && VotedBy(n2, path, flows, k - 1) {
      i := FirstVote(n2, path, flows, k - 1);
    } else {
      i := k;
    }
  }

  lemma BaselineDecides(n2: real, path: seq<PathPoint>, flows: seq<Option<Flow>>, cfg: TrailConfig, pos: Position, ticks: seq<Tick>,
                        at: nat, reason: ExitReason)
    requires |flows| == |path| == |ticks| && BaselineEnds(n2, path, at, reason) && !VotedBy(n2, path, flows, at)
    requires forall j :: 0 <= j < |path| && !VoteAt(n2, path, flows, j) ==>
               T.Relabel(DecideAt(cfg, pos, ticks, true, j)) == BaselineAt(n2, path, j)
    ensures T.RelabelExit(FirstExit(cfg, pos, ticks, true)) == if at < |path| then Some((at, reason)) else None
  {
    forall j | 0 <= j < at ensures DecideAt(cfg, pos, ticks, true, j).None? {
      assert !VoteAt(n2, path, flows, j) && BaselineAt(n2, path, j).None?;
    }
    if at < |path| {
      assert !VoteAt(n2, path, flows, at);
    }
    FirstSame(cfg, pos, ticks, at, reason);
  }

  lemma FirstSame(cfg: TrailConfig, pos: Position, ticks: seq<Tick>, at: nat, reason: ExitReason)
    requires at <= |ticks| && forall j :: 0 <= j < at ==> DecideAt(cfg, pos, ticks, true, j).None?
    requires at < |ticks| ==> T.Relabel(DecideAt(cfg, pos, ticks, true, at)) == Some(reason)
    ensures T.RelabelExit(FirstExit(cfg, pos, ticks, true)) == if at < |ticks| then Some((at, reason)) else None
  {
  }

  /** The baseline replay. On every path shorter than the hold cap, and whatever flow figures
      the live machine had, it exits where and why the live run does, unless a vote fires there
      or before. Only paths with a point and a positive entry are replayed. */
  method ReplayLive(n2: real, path: seq<PathPoint>) returns (mult: real, reason: ExitReason, ghost at: nat)
    requires n2 > 0.0 && path != []
    ensures BaselineEnds(n2, path, at, reason)
    ensures mult == path[Min(at, |path| - 1)].price / n2
    ensures forall openedBlock, maxHold, flows :: |flows| == |path| && ShorterThan(path, openedBlock, maxHold) ==>
              AgreesUnlessVoted(n2, path, flows, openedBlock, maxHold, at, reason)
  {
    var slFloor := n2 * (1.0 - SL_PCT);
    var lock := n2 * (1.0 + BE_LOCK);
    var armed, peak, ratcheted := false, n2, false;
    at := 0;
    for i := 0 to |path|
      invariant at == i && Tracks(n2, path, i, peak, armed, ratcheted)
      invariant forall j :: 0 <= j < i ==> BaselineAt(n2, path, j).None?
    {
      var p := path[i].price;
      peak, armed, ratcheted := ObservePoint(n2, path, i, peak, armed, ratcheted);
      var eff := if ratcheted then RMax(slFloor, lock) else slFloor;
      if p <= eff {
        mult, reason := p / n2, if ratcheted && lock > slFloor then BreakevenLocked else HardStopLoss;
        ReplayStops(n2, path, i, reason);
        return;
      }
      if armed && p <= peak * (1.0 - 0.30) {
        mult, reason := p / n2, Trail;
        ReplayStops(n2, path, i, reason);
        return;
      }
      at := i + 1;
    }
    mult, reason := path[|path| - 1].price / n2, Timeout;
    ReplayStops(n2, path, |path|, reason);
  }

  /** The loop's variables after `n` points. */
  ghost predicate Tracks(n2: real, path: seq<PathPoint>, n: nat, peak: real, armed: bool, ratcheted: bool)
    requires n <= |path|
  {
    && peak == PeakOf(Position(n2, 0), Prices(path)[..n])
    && armed == Armed(LiveConfig(1), Position(n2, 0), Prices(path)[..n])
    && ratcheted == Ratcheted(LiveConfig(1), Position(n2, 0), Prices(path)[..n])
  }

  method ObservePoint(n2: real, path: seq<PathPoint>, i: nat, peak0: real, armed0: bool, ratcheted0: bool)
    returns (peak: real, armed: bool, ratcheted: bool)
    requires i < |path| && Tracks(n2, path, i, peak0, armed0, ratcheted0)
    ensures Tracks(n2, path, i + 1, peak, armed, ratcheted)
  {
    var p := path[i].price;
    ghost var prices := Prices(path);
    MaxFromPush(n2, prices[..i], p);
    assert prices[..i + 1] == prices[..i] + [p];
    peak, armed, ratcheted := peak0, armed0, ratcheted0;
    if p > peak { peak := p; }
    if !armed && peak >= n2 * (1.0 + ARM_PCT) { armed := true; }
    if !ratcheted && peak >= n2 * (1.0 + BE_AT) { ratcheted := true; }
  }

  lemma ReplayStops(n2: real, path: seq<PathPoint>, at: nat, reason: ExitReason)
    requires BaselineEnds(n2, path, at, reason)
    ensures forall openedBlock, maxHold, flows :: |flows| == |path| && ShorterThan(path, openedBlock, maxHold) ==>
              AgreesUnlessVoted(n2, path, flows, openedBlock, maxHold, at, reason)
  {
    forall openedBlock, maxHold, flows | |flows| == |path| && ShorterThan(path, openedBlock, maxHold)
      ensures AgreesUnlessVoted(n2, path, flows, openedBlock, maxHold, at, reason)
    {
      BaselineOutcome(n2, path, flows, openedBlock, maxHold, at, reason);
    }
  }

  // ----- The voting candidate -----

  function Buyers(path: seq<PathPoint>): seq<nat> {
    seq(|path|, i requires 0 <= i < |path| => path[i].buyers)
  }

  function BuyWei(path: seq<PathPoint>): seq<nat> {
    seq(|path|, i requires 0 <= i < |path| => path[i].buyWei)
  }

  function SellWei(path: seq<PathPoint>): seq<nat> {
    seq(|path|, i requires 0 <= i < |path| => path[i].sellWei)
  }

  function Total(xs: seq<nat>): nat {
    if xs == [] then 0 else Total(xs[..|xs| - 1]) + xs[|xs| - 1]
  }

  /** The sum over point `i` and up to `n - 1` points before it. */
  function SumField(xs: seq<nat>, i: nat, n: nat): nat
    requires i < |xs| && n > 0
  {
    Total(xs[Max(0, i - n + 1)..i + 1])
  }

  /** The flow figures of the path at point `i`. */
  function FiguresAt(path: seq<PathPoint>, i: nat): Flow
    requires i < |path|
  {
    Flow(SumField(Buyers(path), i, 3), SumField(Buyers(path), i, 10),
         SumField(BuyWei(path), i, 3) - SumField(SellWei(path), i, 3))
  }

  function Figures(path: seq<PathPoint>): seq<Option<Flow>> {
    seq(|path|, i requires 0 <= i < |path| => Some(FiguresAt(path, i)))
  }

  /** The prices of points `i - 9` to `i`. */
  function LastTen(path: seq<PathPoint>, i: nat): seq<real>
    requires i < |path|
  {
    Prices(path)[Max(0, i - 9)..i + 1]
  }

  datatype VotingReason = AtFloor(reason: ExitReason) | Voted(votes: nat) | EndOfPath

  /** The candidate's four signals. Its maximum includes the current price, and a rate it has
      too few points for is zero. */
  function VotesIn(path: seq<PathPoint>, i: nat): nat
    requires i < |path|
  {
    var p, f := path[i].price, FiguresAt(path, i);
    var rate3 := if i >= 2 then f.buys3 as real / 3.0 else 0.0;
    var rate10 := if i >= 9 then f.buys10 as real / 10.0 else 0.0;
    (if FarBelow(LocalMax(LastTen(path, i)), p) then 1 else 0)
    + (if i >= 10 && Falling(path[i - 10].price, p) then 1 else 0)
    + (if (if rate10 > 0.0 then rate3 / rate10 else 1.0) < 0.5 then 1 else 0)
    + (if f.netFlow3Wei < -1000000000000000000 then 1 else 0)
  }

  function VotingAt(n2: real, path: seq<PathPoint>, k: nat, i: nat): Option<VotingReason>
    requires i < |path|
  {
    var cfg, pos, seen := LiveConfig(1), Position(n2, 0), Prices(path)[..i + 1];
    if path[i].price <= EffectiveFloor(cfg, pos, seen) then
      Some(AtFloor(if Ratcheted(cfg, pos, seen) && LockFloor(cfg, pos) > HardFloor(cfg, pos) then BreakevenLocked else HardStopLoss))
    else if Armed(cfg, pos, seen) && VotesIn(path, i) >= k then Some(Voted(VotesIn(path, i)))
    else None
  }

  /** The sum over three points, or over those there are. */
  lemma ThreeMean(xs: seq<nat>, i: nat)
    requires i < |xs|
    ensures SumField(xs, i, 3) == (if i >= 2 then xs[i - 2] else 0) + (if i >= 1 then xs[i - 1] else 0) + xs[i]
  {
    if i >= 2 {
      TotalFrom(xs, i - 2, i + 1);
      TotalFrom(xs, i - 2, i);
      TotalFrom(xs, i - 2, i - 1);
    } else {
      TotalFrom(xs, 0, i + 1);
      if i == 1 {
        TotalFrom(xs, 0, 1);
      }
    }
  }

  lemma FiveFrom(xs: seq<nat>, lo: nat, k: nat)
    requires lo + k + 5 <= |xs|
    ensures Total(xs[lo..lo + k + 5]) ==
            Total(xs[lo..lo + k]) + xs[lo + k] + xs[lo + k + 1] + xs[lo + k + 2] + xs[lo + k + 3] + xs[lo + k + 4]
  {
    assert k == 0 ==> xs[lo..lo + k] == [];
    TotalFrom(xs, lo, lo + k + 5);
    TotalFrom(xs, lo, lo + k + 4);
    TotalFrom(xs, lo, lo + k + 3);
    TotalFrom(xs, lo, lo + k + 2);
    TotalFrom(xs, lo, lo + k + 1);
  }

  /** The sum over ten points. */
  lemma TenMean(xs: seq<nat>, i: nat)
    requires 9 <= i < |xs|
    ensures SumField(xs, i, 10) ==
            xs[i - 9] + xs[i - 8] + xs[i - 7] + xs[i - 6] + xs[i - 5] + xs[i - 4] + xs[i - 3] + xs[i - 2] + xs[i - 1] + xs[i]
  {
    FiveFrom(xs, i - 9, 0);
    FiveFrom(xs, i - 9, 5);
  }

  lemma TotalFrom(xs: seq<nat>, lo: nat, hi: nat)
    requires lo < hi <= |xs|
    ensures Total(xs[lo..hi]) == (if lo == hi - 1 then 0 else Total(xs[lo..hi - 1])) + xs[hi - 1]
  {
    assert xs[lo..hi][..hi - lo - 1] == xs[lo..hi - 1];
  }

  /** A price under 70% of a positive one among points `i - 9` to `i`. */
  ghost predicate UnderTen(path: seq<PathPoint>, i: nat)
    requires i < |path|
  {
    exists j :: 0 <= j <= i && j >= i - 9 && path[j].price > 0.0 && path[i].price < 0.7 * path[j].price
  }

  lemma LastTenAt(path: seq<PathPoint>, i: nat, j: nat)
    requires j <= i < |path| && j >= i - 9
    ensures path[j].price in LastTen(path, i)
  {
    assert LastTen(path, i)[j - Max(0, i - 9)] == path[j].price;
  }

  lemma LastTenFrom(path: seq<PathPoint>, i: nat, x: real) returns (j: nat)
    requires i < |path| && x in LastTen(path, i)
    ensures j <= i && j >= i - 9 && path[j].price == x
  {
    var k :| 0 <= k < |LastTen(path, i)| && LastTen(path, i)[k] == x;
    j := Max(0, i - 9) + k;
  }

  lemma UnderTenMeans(path: seq<PathPoint>, i: nat)
    requires i < |path|
    ensures FarBelow(LocalMax(LastTen(path, i)), path[i].price) <==> UnderTen(path, i)
  {
    var recent := LastTen(path, i);
    MaxFromIsMax(0.0, recent);
    T.FarBelowMeans(LocalMax(recent), path[i].price);
    if FarBelow(LocalMax(recent), path[i].price) {
      var j := LastTenFrom(path, i, LocalMax(recent));
    }
    if UnderTen(path, i) {
      var j :| 0 <= j <= i && j >= i - 9 && path[j].price > 0.0 && path[i].price < 0.7 * path[j].price;
      LastTenAt(path, i, j);
    }
  }

  /** The candidate's count as four inequalities over the path. With fewer than ten points the
      buyers do not vote; the net flow is that of the last three points, or of those there are. */
  lemma VotesInMean(path: seq<PathPoint>, i: nat)
    requires i < |path|
    ensures var f := FiguresAt(path, i);
            VotesIn(path, i) ==
            T.CountOf(UnderTen(path, i),
                      i >= 10 && path[i - 10].price > 0.0 && path[i].price < 0.9 * path[i - 10].price,
                      i >= 9 && f.buys10 > 0 && 20 * f.buys3 < 3 * f.buys10,
                      f.netFlow3Wei < -1000000000000000000)
  {
    var f := FiguresAt(path, i);
    UnderTenMeans(path, i);
    if i >= 10 {
      T.FallingMeans(path[i - 10].price, path[i].price);
    }
    T.BuyCollapseMeans(f);
  }

  /** The figures of the candidate, point by point. */
  lemma FiguresMean(path: seq<PathPoint>, i: nat)
    requires 9 <= i < |path|
    ensures var f := FiguresAt(path, i);
            && f.buys3 == path[i - 2].buyers + path[i - 1].buyers + path[i].buyers
            && f.buys10 == path[i - 9].buyers + path[i - 8].buyers + path[i - 7].buyers + path[i - 6].buyers + path[i - 5].buyers
                           + path[i - 4].buyers + path[i - 3].buyers + path[i - 2].buyers + path[i - 1].buyers + path[i].buyers
            && f.netFlow3Wei == path[i - 2].buyWei + path[i - 1].buyWei + path[i].buyWei
                                - path[i - 2].sellWei - path[i - 1].sellWei - path[i].sellWei
  {
    ThreeMean(Buyers(path), i);
    TenMean(Buyers(path), i);
    ThreeMean(BuyWei(path), i);
    ThreeMean(SellWei(path), i);
  }

  /** The candidate's rule in numerals: the stops of the baseline, then the votes once the peak
      reached 130% of the entry. */
  lemma VotingMeans(n2: real, path: seq<PathPoint>, k: nat, i: nat, peak: real)
    requires n2 > 0.0 && i < |path| && T.IsPeak(peak, Position(n2, 0), Prices(path)[..i + 1])
    ensures var p := path[i].price; var r := VotingAt(n2, path, k, i);
            var locked := peak >= 1.15 * n2 && p <= 1.05 * n2;
            var stopped := peak < 1.15 * n2 && p <= 0.7 * n2;
            && (r == Some(AtFloor(BreakevenLocked)) <==> locked)
            && (r == Some(AtFloor(HardStopLoss)) <==> stopped)
            && (r == Some(Voted(VotesIn(path, i))) <==> !locked && !stopped && peak >= 1.3 * n2 && VotesIn(path, i) >= k)
            && (r.None? <==> !locked && !stopped && (peak < 1.3 * n2 || VotesIn(path, i) < k))
  {
    T.PeakIsPeak(peak, Position(n2, 0), Prices(path)[..i + 1]);
    Levels(n2);
  }

  /** A price 30% under the recent maximum is at the trail of the live configuration. */
  lemma DistanceIsTrail(n2: real, path: seq<PathPoint>, i: nat)
    requires i < |path| && FarBelow(LocalMax(LastTen(path, i)), path[i].price)
    ensures path[i].price <= TrailFloor(LiveConfig(1), Position(n2, 0), Prices(path)[..i + 1])
  {
    var seen, recent := Prices(path)[..i + 1], LastTen(path, i);
    MaxFromIsMax(0.0, recent);
    MaxFromIsMax(n2, seen);
    var localMax := LocalMax(recent);
    T.FarBelowMeans(localMax, path[i].price);
    var j :| 0 <= j < |recent| && recent[j] == localMax;
    assert localMax == seen[Max(0, i - 9) + j] && localMax in seen;
    MulMono(0.7, localMax, PeakOf(Position(n2, 0), seen));
    assert TrailFloor(LiveConfig(1), Position(n2, 0), seen) == 0.7 * PeakOf(Position(n2, 0), seen);
  }

  /** A price falling from ten points back is no new peak, so the machine was armed before it. */
  lemma FallingIsNoPeak(n2: real, path: seq<PathPoint>, i: nat)
    requires 10 <= i < |path| && Falling(path[i - 10].price, path[i].price)
    ensures PeakOf(Position(n2, 0), Prices(path)[..i]) == PeakOf(Position(n2, 0), Prices(path)[..i + 1])
  {
    var before, past := Prices(path)[..i], path[i - 10].price;
    assert before[i - 10] == past && past in before;
    MaxFromIsMax(n2, before);
    MaxFromPush(n2, before, path[i].price);
    assert before + [path[i].price] == Prices(path)[..i + 1];
    T.FallingMeans(past, path[i].price);
  }

  /** Its window starts at that price. */
  lemma WindowStarts(path: seq<PathPoint>, i: nat)
    requires 10 <= i < |path|
    ensures var w := Window(Prices(path)[..i]); w[0] == path[i - 10].price <= LocalMax(w)
  {
    var w := Window(Prices(path)[..i]);
    MaxFromIsMax(0.0, w);
    assert w[0] in w;
  }

  /** Three votes without the distance one: the live vote counts them as well, and was armed before this price. */
  lemma OtherVotesFire(n2: real, path: seq<PathPoint>, i: nat)
    requires i < |path| && Armed(LiveConfig(1), Position(n2, 0), Prices(path)[..i + 1])
    requires VotesIn(path, i) >= 3 && !FarBelow(LocalMax(LastTen(path, i)), path[i].price)
    ensures VoteAt(n2, path, Figures(path), i)
  {
    FallingIsNoPeak(n2, path, i);
    WindowStarts(path, i);
    T.NetSellingMeans(FiguresAt(path, i));
  }

  /** Wherever the candidate exits, the live machine does at the latest. */
  lemma LiveNoLater(n2: real, path: seq<PathPoint>, k: nat, openedBlock: nat, maxHold: nat, i: nat)
    requires i < |path| && k >= 3 && VotingAt(n2, path, k, i).Some?
    ensures ExitsBy(LiveExit(n2, path, Figures(path), openedBlock, maxHold), i)
  {
    if path[i].price > EffectiveFloor(LiveConfig(1), Position(n2, 0), Prices(path)[..i + 1]) {
      if FarBelow(LocalMax(LastTen(path, i)), path[i].price) {
        DistanceIsTrail(n2, path, i);
      } else {
        OtherVotesFire(n2, path, i);
      }
    }
    LiveDecides(n2, path, Figures(path), openedBlock, maxHold, i);
    assert DecideAt(LiveConfig(maxHold), Position(n2, openedBlock), TicksOf(path, Figures(path)), true, i).Some?;
  }

  /** On no path does the candidate exit before the live machine that is fed its figures. */
  ghost predicate LiveIsNoLater(k: nat) {
    forall n2: real, path: seq<PathPoint>, openedBlock: nat, maxHold: nat, i: nat ::
      i < |path| && VotingAt(n2, path, k, i).Some? ==> ExitsBy(LiveExit(n2, path, Figures(path), openedBlock, maxHold), i)
  }

  predicate ExitsBy(live: Option<(nat, ExitReason)>, i: nat) {
    live.Some? && live.value.0 <= i
  }

  /** Ten blocks at twice the entry: buys in the first only, and a sale of two BNB in the last. */
  function QuietTop(): seq<PathPoint> {
    seq(10, (i: nat) => PathPoint(i, 2.0, if i == 0 then 1 else 0, 0, if i == 9 then 2000000000000000000 else 0))
  }

  lemma {:induction false} TotalFirst(xs: seq<nat>, x: nat)
    requires xs != [] && xs[0] == x && forall i :: 0 < i < |xs| ==> xs[i] == 0
    ensures Total(xs) == x
  {
    if |xs| > 1 {
      TotalFirst(xs[..|xs| - 1], x);
    }
  }

  lemma QuietTopFigures()
    ensures var f := FiguresAt(QuietTop(), 9); f.buys3 == 0 && f.buys10 == 1 && f.netFlow3Wei == -2000000000000000000
  {
    var path := QuietTop();
    TotalFirst(Buyers(path)[7..10], 0);
    TotalFirst(Buyers(path)[0..10], 1);
    TotalFirst(BuyWei(path)[7..10], 0);
    TotalFirst(SellWei(path)[7..9], 0);
    assert SellWei(path)[7..10][..2] == SellWei(path)[7..9];
  }

  lemma QuietTopHolds(i: nat)
    requires i < 10
    ensures DecideAt(LiveConfig(100), Position(1.0, 0), TicksOf(QuietTop(), Figures(QuietTop())), true, i).None?
    ensures var seen := Prices(QuietTop())[..i + 1]; Armed(LiveConfig(1), Position(1.0, 0), seen) && LocalMax(seen) == 2.0
  {
    var path := QuietTop();
    var seen := Prices(path)[..i + 1];
    MaxFromIsMax(1.0, seen);
    MaxFromIsMax(0.0, seen);
    assert seen[i] == 2.0 && seen[i] in seen;
    LiveDecides(1.0, path, Figures(path), 0, 100, i);
  }

  /** There two signals vote, and the live machine holds. */
  lemma QuietTopVotes()
    ensures VotesIn(QuietTop(), 9) >= 2
    ensures LiveExit(1.0, QuietTop(), Figures(QuietTop()), 0, 100).None?
  {
    QuietTopFigures();
    forall i | 0 <= i < 10
      ensures DecideAt(LiveConfig(100), Position(1.0, 0), TicksOf(QuietTop(), Figures(QuietTop())), true, i).None?
    {
      QuietTopHolds(i);
    }
  }

  /** Exactly from three required votes on is the live machine never later. */
  lemma LiveIsNoLaterIff(k: nat)
    ensures LiveIsNoLater(k) <==> k >= 3
  {
    if k >= 3 {
      forall n2: real, path: seq<PathPoint>, openedBlock: nat, maxHold: nat, i: nat
        | i < |path| && VotingAt(n2, path, k, i).Some?
        ensures ExitsBy(LiveExit(n2, path, Figures(path), openedBlock, maxHold), i)
      {
        LiveNoLater(n2, path, k, openedBlock, maxHold, i);
      }
    } else {
      QuietTopVotes();
      QuietTopHolds(9);
      assert VotingAt(1.0, QuietTop(), k, 9).Some?;
      assert !ExitsBy(LiveExit(1.0, QuietTop(), Figures(QuietTop()), 0, 100), 9);
    }
  }

  ghost predicate VotingEnds(n2: real, path: seq<PathPoint>, k: nat, at: nat, reason: VotingReason) {
    && at <= |path|
    && (forall j :: 0 <= j < at ==> VotingAt(n2, path, k, j).None?)
    && (if at < |path| then VotingAt(n2, path, k, at) == Some(reason) else reason == EndOfPath)
  }

  /** The voting candidate. With three votes or more required, the live machine fed the same
      figures never exits later, whatever its hold cap. */
  method ReplayVoting(n2: real, path: seq<PathPoint>, k: nat) returns (mult: real, reason: VotingReason, ghost at: nat)
    requires n2 > 0.0 && path != []
    ensures VotingEnds(n2, path, k, at, reason)
    ensures mult == path[Min(at, |path| - 1)].price / n2
    ensures forall openedBlock, maxHold :: k >= 3 && reason != EndOfPath ==>
              ExitsBy(LiveExit(n2, path, Figures(path), openedBlock, maxHold), at)
  {
    var slFloor := n2 * (1.0 - SL_PCT);
    var lock := n2 * (1.0 + BE_LOCK);
    var armed, peak, ratcheted := false, n2, false;
    at := 0;
    for i := 0 to |path|
      invariant at == i && Tracks(n2, path, i, peak, armed, ratcheted)
      invariant forall j :: 0 <= j < i ==> VotingAt(n2, path, k, j).None?
    {
      var p := path[i].price;
      peak, armed, ratcheted := ObservePoint(n2, path, i, peak, armed, ratcheted);
      var eff := if ratcheted then RMax(slFloor, lock) else slFloor;
      if p <= eff {
        mult, reason := p / n2, AtFloor(if ratcheted && lock > slFloor then BreakevenLocked else HardStopLoss);
        VotingStops(n2, path, k, i, reason);
        return;
      }
      if armed {
        var votes := CountVotes(path, i);
        if votes >= k {
          mult, reason := p / n2, Voted(votes);
          VotingStops(n2, path, k, i, reason);
          return;
        }
      }
      at := i + 1;
    }
    mult, reason := path[|path| - 1].price / n2, EndOfPath;
  }

  /** The features of one point, and how many of them vote. */
  method CountVotes(path: seq<PathPoint>, i: nat) returns (votes: nat)
    requires i < |path|
    ensures votes == VotesIn(path, i)
  {
    var p := path[i].price;
    var localMax := LocalMax(LastTen(path, i));
    var dist := if localMax > 0.0 then (localMax - p) / localMax else 0.0;
    var vel := 0.0;
    if i >= 10 {
      var past := path[i - 10].price;
      vel := if past > 0.0 then (p - past) / past / 10.0 else 0.0;
    }
    var rate3 := if i >= 2 then SumField(Buyers(path), i, 3) as real / 3.0 else 0.0;
    var rate10 := if i >= 9 then SumField(Buyers(path), i, 10) as real / 10.0 else 0.0;
    var collapse := if rate10 > 0.0 then rate3 / rate10 else 1.0;
    var net3 := SumField(BuyWei(path), i, 3) - SumField(SellWei(path), i, 3);
    votes := 0;
    if dist > 0.30 { votes := votes + 1; }
    if vel < -0.01 { votes := votes + 1; }
    if collapse < 0.5 { votes := votes + 1; }
    if net3 < -1000000000000000000 { votes := votes + 1; }
  }

  lemma VotingStops(n2: real, path: seq<PathPoint>, k: nat, at: nat, reason: VotingReason)
    requires at < |path| && VotingEnds(n2, path, k, at, reason)
    ensures forall openedBlock, maxHold :: k >= 3 ==> ExitsBy(LiveExit(n2, path, Figures(path), openedBlock, maxHold), at)
  {
    if k >= 3 {
      forall openedBlock, maxHold
        ensures ExitsBy(LiveExit(n2, path, Figures(path), openedBlock, maxHold), at)
      {
        LiveNoLater(n2, path, k, openedBlock, maxHold, at);
      }
    }
  }
}
