/** Only price ratios matter: multiplying the entry and every price by one positive
    factor changes no decision and scales the state. */
module TrailScale {
  import opened Common
  import opened TrailRule
  import opened TrailMachine
  import T = TrailTheorems

  function Mul(c: real, x: real): real {
    c * x
  }

  /** Scaling by a positive factor keeps order and equality, and fixes zero. */
  lemma MulOrder(c: real, x: real, y: real)
    requires c > 0.0
    ensures Mul(c, x) < Mul(c, y) <==> x < y
    ensures Mul(c, x) <= Mul(c, y) <==> x <= y
    ensures Mul(c, 0.0) == 0.0
  {
    MulStrict(c, x, y);
  }

  function Times(prices: seq<real>, c: real): (r: seq<real>)
    ensures |r| == |prices|
    ensures forall i :: 0 <= i < |prices| ==> r[i] == Mul(c, prices[i])
  {
    seq(|prices|, i requires 0 <= i < |prices| => Mul(c, prices[i]))
  }

  function ScalePos(pos: Position, c: real): Position {
    pos.(entry := Mul(c, pos.entry))
  }

  function ScaleTick(t: Tick, c: real): Tick {
    match t.price
    case None => t
    case Some(p) => t.(price := Some(Mul(c, p)))
  }

  function ScaleTicks(ticks: seq<Tick>, c: real): seq<Tick> {
    seq(|ticks|, i requires 0 <= i < |ticks| => ScaleTick(ticks[i], c))
  }

  function ScaleState(s: Snapshot, c: real): Snapshot {
    s.(entry := Mul(c, s.entry), peak := Mul(c, s.peak), last := Mul(c, s.last), history := Times(s.history, c))
  }

  lemma {:induction false} MaxScales(base: real, prices: seq<real>, c: real)
    requires c > 0.0
    ensures MaxFrom(Mul(c, base), Times(prices, c)) == Mul(c, MaxFrom(base, prices))
  {
    if prices != [] {
      var n := |prices| - 1;
      MaxScales(base, prices[..n], c);
      assert Times(prices, c)[..n] == Times(prices[..n], c);
      MulOrder(c, MaxFrom(base, prices[..n]), prices[n]);
    }
  }

  lemma LocalMaxScales(prices: seq<real>, c: real)
    requires c > 0.0
    ensures LocalMax(Times(prices, c)) == Mul(c, LocalMax(prices))
  {
    MaxScales(0.0, prices, c);
    MulOrder(c, 0.0, 0.0);
  }

  lemma SignalsScale(x: real, price: real, c: real)
    requires c > 0.0
    ensures FarBelow(Mul(c, x), Mul(c, price)) == FarBelow(x, price)
    ensures Falling(Mul(c, x), Mul(c, price)) == Falling(x, price)
  {
    T.FarBelowMeans(x, price);
    T.FallingMeans(x, price);
    T.FarBelowMeans(c * x, c * price);
    T.FallingMeans(c * x, c * price);
    MulStrict(c, 0.0, x);
    MulStrict(c, price, 0.7 * x);
    MulStrict(c, price, 0.9 * x);
  }

  lemma LevelsScale(cfg: TrailConfig, pos: Position, c: real)
    ensures ArmLevel(cfg, ScalePos(pos, c)) == Mul(c, ArmLevel(cfg, pos))
    ensures RatchetLevel(cfg, ScalePos(pos, c)) == Mul(c, RatchetLevel(cfg, pos))
    ensures HardFloor(cfg, ScalePos(pos, c)) == Mul(c, HardFloor(cfg, pos))
    ensures LockFloor(cfg, ScalePos(pos, c)) == Mul(c, LockFloor(cfg, pos))
  {
  }

  lemma TrailScales(cfg: TrailConfig, peak: real, c: real)
    ensures TrailLevel(cfg, Mul(c, peak)) == Mul(c, TrailLevel(cfg, peak))
  {
  }

  /** Scaling commutes with the update of any state. */
  lemma ObserveScales(s: Snapshot, cfg: TrailConfig, price: real, block: nat, c: real)
    requires s.WellFormed() && c > 0.0
    ensures Observe(ScaleState(s, c), cfg, Mul(c, price), block) == ScaleState(Observe(s, cfg, price, block), c)
  {
    var peak := if price > s.peak then price else s.peak;
    MulOrder(c, s.peak, price);
    LevelsScale(cfg, s.Pos(), c);
    MulOrder(c, ArmLevel(cfg, s.Pos()), peak);
    MulOrder(c, RatchetLevel(cfg, s.Pos()), peak);
    assert ScaleState(s, c).Pos() == ScalePos(s.Pos(), c);
    assert Times(s.history, c)[s.idx := Mul(c, price)] == Times(s.history[s.idx := price], c);
  }

  lemma FloorScales(s: Snapshot, cfg: TrailConfig, c: real)
    requires c > 0.0
    ensures FloorOf(ScaleState(s, c), cfg) == Mul(c, FloorOf(s, cfg))
  {
    assert ScaleState(s, c).Pos() == ScalePos(s.Pos(), c);
    LevelsScale(cfg, s.Pos(), c);
    MulOrder(c, LockFloor(cfg, s.Pos()), HardFloor(cfg, s.Pos()));
  }

  /** The checks of any state do not see the scale. */
  lemma CheckScales(s: Snapshot, cfg: TrailConfig, block: nat, c: real)
    requires s.WellFormed() && c > 0.0
    ensures Check(ScaleState(s, c), cfg, block) == Check(s, cfg, block)
  {
    assert ScaleState(s, c).Pos() == ScalePos(s.Pos(), c);
    FloorScales(s, cfg, c);
    MulOrder(c, s.last, FloorOf(s, cfg));
    LevelsScale(cfg, s.Pos(), c);
    MulOrder(c, HardFloor(cfg, s.Pos()), LockFloor(cfg, s.Pos()));
    TrailScales(cfg, s.peak, c);
    MulOrder(c, s.last, TrailLevel(cfg, s.peak));
    LocalMaxScales(s.history, c);
    SignalsScale(LocalMax(s.history), s.last, c);
    SignalsScale(s.history[s.idx], s.last, c);
  }

  /** Neither do the votes. */
  lemma VotesScale(s: Snapshot, price: real, flow: Option<Flow>, c: real)
    requires s.WellFormed() && c > 0.0
    ensures VoteCount(ScaleState(s, c), Mul(c, price), flow) == VoteCount(s, price, flow)
  {
    LocalMaxScales(s.history, c);
    MulOrder(c, LocalMax(s.history), 0.0);
    MulOrder(c, s.history[s.idx], 0.0);
    SignalsScale(LocalMax(s.history), price, c);
    SignalsScale(s.history[s.idx], price, c);
  }

  // ----- Whole runs -----

  lemma FlagsScale(cfg: TrailConfig, pos: Position, seen: seq<real>, c: real)
    requires c > 0.0
    ensures Armed(cfg, ScalePos(pos, c), Times(seen, c)) == Armed(cfg, pos, seen)
    ensures Ratcheted(cfg, ScalePos(pos, c), Times(seen, c)) == Ratcheted(cfg, pos, seen)
  {
    MaxScales(pos.entry, seen, c);
    LevelsScale(cfg, pos, c);
    MulOrder(c, ArmLevel(cfg, pos), PeakOf(pos, seen));
    MulOrder(c, RatchetLevel(cfg, pos), PeakOf(pos, seen));
  }

  lemma FloorsScale(cfg: TrailConfig, pos: Position, seen: seq<real>, c: real)
    requires c > 0.0
    ensures EffectiveFloor(cfg, ScalePos(pos, c), Times(seen, c)) == Mul(c, EffectiveFloor(cfg, pos, seen))
    ensures TrailFloor(cfg, ScalePos(pos, c), Times(seen, c)) == Mul(c, TrailFloor(cfg, pos, seen))
  {
    FlagsScale(cfg, pos, seen, c);
    LevelsScale(cfg, pos, c);
    MulOrder(c, LockFloor(cfg, pos), HardFloor(cfg, pos));
    MaxScales(pos.entry, seen, c);
    TrailScales(cfg, PeakOf(pos, seen), c);
  }

  lemma WindowScales(seen: seq<real>, c: real)
    ensures Window(Times(seen, c)) == Times(Window(seen), c)
  {
  }

  lemma DumpScales(seen: seq<real>, c: real)
    requires c > 0.0
    ensures DumpSignal(Times(seen, c)) == DumpSignal(seen)
  {
    if |seen| >= HISTORY_LEN {
      WindowScales(seen, c);
      LocalMaxScales(Window(seen), c);
      SignalsScale(LocalMax(Window(seen)), Last(seen), c);
      SignalsScale(Window(seen)[0], Last(seen), c);
    }
  }

  lemma DecideScales(cfg: TrailConfig, pos: Position, seen: seq<real>, block: nat, dump: bool, c: real)
    requires c > 0.0 && seen != []
    ensures Decide(cfg, ScalePos(pos, c), Times(seen, c), block, dump) == Decide(cfg, pos, seen, block, dump)
  {
    FlagsScale(cfg, pos, seen, c);
    FloorsScale(cfg, pos, seen, c);
    DumpScales(seen, c);
    LevelsScale(cfg, pos, c);
    MulOrder(c, HardFloor(cfg, pos), LockFloor(cfg, pos));
    MulOrder(c, Last(seen), EffectiveFloor(cfg, pos, seen));
    MulOrder(c, Last(seen), TrailFloor(cfg, pos, seen));
  }

  lemma RuleVotesScale(before: seq<real>, price: real, flow: Option<Flow>, c: real)
    requires c > 0.0
    ensures Votes(Times(before, c), Mul(c, price), flow) == Votes(before, price, flow)
  {
    if before != [] {
      WindowScales(before, c);
      LocalMaxScales(Window(before), c);
      MulOrder(c, LocalMax(Window(before)), 0.0);
      MulOrder(c, Window(before)[0], 0.0);
      SignalsScale(LocalMax(Window(before)), price, c);
      SignalsScale(Window(before)[0], price, c);
    }
  }

  lemma {:induction false} SeenScales(ticks: seq<Tick>, c: real)
    ensures Seen(ScaleTicks(ticks, c)) == Times(Seen(ticks), c)
  {
    if ticks != [] {
      var n := |ticks| - 1;
      SeenScales(ticks[..n], c);
      assert ScaleTicks(ticks, c)[..n] == ScaleTicks(ticks[..n], c);
    }
  }

  lemma WatchScales(cfg: TrailConfig, pos: Position, ticks: seq<Tick>, dump: bool, c: real)
    requires c > 0.0
    ensures WatchDecide(cfg, ScalePos(pos, c), ScaleTicks(ticks, c), dump) == WatchDecide(cfg, pos, ticks, dump)
  {
    if ticks != [] && ticks[|ticks| - 1].price.Some? {
      var n := |ticks| - 1;
      var before, price := Seen(ticks[..n]), ticks[n].price.value;
      SeenScales(ticks[..n], c);
      assert ScaleTicks(ticks, c)[..n] == ScaleTicks(ticks[..n], c);
      assert Times(before, c) + [Mul(c, price)] == Times(before + [price], c);
      FlagsScale(cfg, pos, before, c);
      RuleVotesScale(before, price, ticks[n].flow, c);
      DecideScales(cfg, pos, before + [price], ticks[n].block, dump, c);
    }
  }

  /** Scaling the entry and every price leaves the exit tick and the reason of every run. */
  lemma RunsScale(cfg: TrailConfig, pos: Position, ticks: seq<Tick>, dump: bool, c: real)
    requires c > 0.0
    ensures FirstExit(cfg, ScalePos(pos, c), ScaleTicks(ticks, c), dump) == FirstExit(cfg, pos, ticks, dump)
  {
    var pos', ticks' := ScalePos(pos, c), ScaleTicks(ticks, c);
    forall i | 0 <= i < |ticks|
      ensures DecideAt(cfg, pos', ticks', dump, i) == DecideAt(cfg, pos, ticks, dump, i)
    {
      WatchScales(cfg, pos, ticks[..i + 1], dump, c);
      assert ticks'[..i + 1] == ScaleTicks(ticks[..i + 1], c);
    }
    var x, y := FirstExit(cfg, pos', ticks', dump), FirstExit(cfg, pos, ticks, dump);
    if x.Some? && y.Some? {
      assert x.value.0 == y.value.0;
    }
  }
}
