/** Properties of whole runs of the trailing stop: how the exit moves when a knob is
    turned, which rule another rule makes redundant, what a run can lock in, and
    that only price ratios matter. A run is any sequence of ticks. */
module TrailTheorems {
  import opened Common
  import opened TrailRule

  /** The first dump signal without its division: under 70% of the local maximum. */
  lemma FarBelowMeans(localMax: real, price: real)
    ensures FarBelow(localMax, price) <==> localMax > 0.0 && price < 0.7 * localMax
  {
    if localMax > 0.0 {
      var dist := (localMax - price) / localMax;
      assert localMax * dist == localMax - price;
      MulStrict(localMax, 0.30, dist);
    }
  }

  /** The second one: under 90% of the oldest price. */
  lemma FallingMeans(oldest: real, price: real)
    ensures Falling(oldest, price) <==> oldest > 0.0 && price < 0.9 * oldest
  {
    if oldest > 0.0 {
      var ret := (price - oldest) / oldest;
      assert oldest * ret == price - oldest;
      MulStrict(oldest, ret, -0.1);
    }
  }

  lemma HalfOf(a: real, b: real)
    requires b > 0.0
    ensures a / b < 0.5 <==> a < 0.5 * b
  {
    var q := a / b;
    assert b * q == a;
    MulStrict(b, q, 0.5);
  }

  /** The third signal without its rates: some buys in ten blocks, and fewer than 15% of them in the last three. */
  lemma BuyCollapseMeans(f: Flow)
    ensures BuyCollapse(f) <==> f.buys10 > 0 && 20 * f.buys3 < 3 * f.buys10
  {
    if f.buys10 > 0 {
      HalfOf(f.buys3 as real / 3.0, f.buys10 as real / 10.0);
    }
  }

  /** The fourth: more than one BNB sold net. */
  lemma NetSellingMeans(f: Flow)
    ensures NetSelling(f) <==> f.netFlow3Wei < -1000000000000000000
  {
  }

  // ----- What a decision means -----

  /** The greatest of the entry and all prices. */
  ghost predicate IsPeak(peak: real, pos: Position, seen: seq<real>) {
    peak in [pos.entry] + seen && forall x :: x in [pos.entry] + seen ==> x <= peak
  }

  lemma PeakIsPeak(peak: real, pos: Position, seen: seq<real>)
    requires IsPeak(peak, pos, seen)
    ensures PeakOf(pos, seen) == peak
  {
    MaxFromIsMax(pos.entry, seen);
    assert PeakOf(pos, seen) in [pos.entry] + seen;
  }

  /** A price under 70% of a positive one among the last ten. */
  ghost predicate UnderRecent(seen: seq<real>, price: real) {
    exists i :: 0 <= i < |seen| && i >= |seen| - 10 && seen[i] > 0.0 && price < 0.7 * seen[i]
  }

  lemma UnderRecentMeans(seen: seq<real>, price: real)
    ensures FarBelow(LocalMax(Window(seen)), price) <==> UnderRecent(seen, price)
  {
    var w := Window(seen);
    var from := |seen| - |w|;
    MaxFromIsMax(0.0, w);
    FarBelowMeans(LocalMax(w), price);
    if FarBelow(LocalMax(w), price) {
      var j :| 0 <= j < |w| && w[j] == LocalMax(w);
      assert seen[from + j] == w[j];
    }
    if UnderRecent(seen, price) {
      var i :| 0 <= i < |seen| && i >= |seen| - 10 && seen[i] > 0.0 && price < 0.7 * seen[i];
      assert w[i - from] == seen[i] && seen[i] in w;
    }
  }

  /** The leading exit over prices: ten of them, the last under 70% of one of the ten and
      under 90% of the price nine back. */
  ghost predicate DumpShape(seen: seq<real>)
    requires seen != []
  {
    var n := |seen| - 1;
    n >= 9 && UnderRecent(seen, seen[n]) && seen[n - 9] > 0.0 && seen[n] < 0.9 * seen[n - 9]
  }

  lemma DumpMeans(seen: seq<real>)
    requires seen != []
    ensures DumpSignal(seen) <==> DumpShape(seen)
  {
    if |seen| >= 10 {
      UnderRecentMeans(seen, Last(seen));
      FallingMeans(Window(seen)[0], Last(seen));
    }
  }

  /** At or under the hard stop, or under the locked price once the peak reached the ratchet. */
  predicate Stopped(cfg: TrailConfig, pos: Position, peak: real, price: real) {
    || price <= pos.entry * (1.0 - cfg.hardSlPct)
    || (peak >= pos.entry * (1.0 + cfg.breakevenAtPct) && price <= pos.entry * (1.0 + cfg.breakevenLockPct))
  }

  lemma StoppedMeans(cfg: TrailConfig, pos: Position, seen: seq<real>)
    requires seen != []
    ensures Last(seen) <= EffectiveFloor(cfg, pos, seen) <==> Stopped(cfg, pos, PeakOf(pos, seen), Last(seen))
  {
  }

  /** The rules in their order, each by name. */
  lemma DecisionCases(cfg: TrailConfig, pos: Position, seen: seq<real>, block: nat, dump: bool)
    requires seen != []
    ensures var r := Decide(cfg, pos, seen, block, dump);
            var stopped := Last(seen) <= EffectiveFloor(cfg, pos, seen);
            var locked := Ratcheted(cfg, pos, seen) && LockFloor(cfg, pos) > HardFloor(cfg, pos);
            var dumped := dump && Armed(cfg, pos, seen) && DumpSignal(seen);
            var trailed := Armed(cfg, pos, seen) && Last(seen) <= TrailFloor(cfg, pos, seen);
            && (r == Some(BreakevenLocked) <==> stopped && locked)
            && (r == Some(HardStopLoss) <==> stopped && !locked)
            && (r == Some(SignalDump) <==> !stopped && dumped)
            && (r == Some(Trail) <==> !stopped && !dumped && trailed)
            && (r == Some(Timeout) <==> !stopped && !dumped && !trailed && Overdue(cfg, pos, block))
            && r != Some(SignalVote)
  {
  }

  /** Every reason of a step, over prices and the configuration: first the stops, then the
      leading exit, the trail and the age. */
  lemma DecisionMeans(cfg: TrailConfig, pos: Position, seen: seq<real>, block: nat, dump: bool, peak: real)
    requires seen != [] && IsPeak(peak, pos, seen)
    ensures var price := seen[|seen| - 1]; var r := Decide(cfg, pos, seen, block, dump);
            var stopped := Stopped(cfg, pos, peak, price);
            var locked := peak >= pos.entry * (1.0 + cfg.breakevenAtPct)
                          && pos.entry * (1.0 + cfg.breakevenLockPct) > pos.entry * (1.0 - cfg.hardSlPct);
            var armed := peak >= pos.entry * (1.0 + cfg.armPct);
            var dumped := dump && armed && DumpShape(seen);
            var trailed := armed && price <= peak * (1.0 - cfg.trailPct);
            && (r == Some(BreakevenLocked) <==> stopped && locked)
            && (r == Some(HardStopLoss) <==> stopped && !locked)
            && (r == Some(SignalDump) <==> !stopped && dumped)
            && (r == Some(Trail) <==> !stopped && !dumped && trailed)
            && (r == Some(Timeout) <==> !stopped && !dumped && !trailed && (block >= pos.openedBlock + cfg.maxHoldBlocks || cfg.maxHoldBlocks == 0))
            && r != Some(SignalVote)
  {
    PeakIsPeak(peak, pos, seen);
    DumpMeans(seen);
    StoppedMeans(cfg, pos, seen);
    DecisionCases(cfg, pos, seen, block, dump);
  }

  /** How many of four signals fire. */
  function CountOf(a: bool, b: bool, c: bool, d: bool): nat {
    (if a then 1 else 0) + (if b then 1 else 0) + (if c then 1 else 0) + (if d then 1 else 0)
  }

  /** The four signals as inequalities over prices and figures. */
  ghost function SignalsAt(before: seq<real>, price: real, buys3: nat, buys10: nat, net3: int): nat
    requires |before| >= 10
  {
    CountOf(UnderRecent(before, price), price < 0.9 * before[|before| - 10],
            buys10 > 0 && 20 * buys3 < 3 * buys10, net3 < -1000000000000000000)
  }

  lemma VotesMean(before: seq<real>, price: real, flow: Option<Flow>)
    requires |before| >= 10
    ensures var oldest := before[|before| - 10];
            Votes(before, price, flow) ==
            if oldest <= 0.0 || flow.None? then None
            else Some(SignalsAt(before, price, flow.value.buys3, flow.value.buys10, flow.value.netFlow3Wei))
  {
    var w := Window(before);
    assert w[0] == before[|before| - 10] && w[0] in w;
    MaxFromIsMax(0.0, w);
    UnderRecentMeans(before, price);
    FallingMeans(w[0], price);
    if flow.Some? {
      BuyCollapseMeans(flow.value);
      NetSellingMeans(flow.value);
    }
  }

  lemma ArmedMeans(cfg: TrailConfig, pos: Position, seen: seq<real>, peak: real)
    requires IsPeak(peak, pos, seen)
    ensures Armed(cfg, pos, seen) <==> seen != [] && peak >= pos.entry * (1.0 + cfg.armPct)
  {
    PeakIsPeak(peak, pos, seen);
  }

  lemma VoteNeeds(cfg: TrailConfig, pos: Position, before: seq<real>, price: real, flow: Option<Flow>, votes: Option<nat>)
    requires votes == Votes(before, price, flow)
    ensures VoteFires(cfg, pos, before, price, flow) <==>
            Armed(cfg, pos, before) && |before| >= 10 && votes.Some? && votes.value >= 3
  {
  }

  /** The vote over prices and figures: armed before this price, ten prices, and three of four
      inequalities. */
  lemma VoteMeans(cfg: TrailConfig, pos: Position, before: seq<real>, price: real, flow: Option<Flow>, peak: real)
    requires IsPeak(peak, pos, before)
    ensures VoteFires(cfg, pos, before, price, flow) <==>
            && |before| >= 10 && before[|before| - 10] > 0.0
            && peak >= pos.entry * (1.0 + cfg.armPct)
            && flow.Some?
            && SignalsAt(before, price, flow.value.buys3, flow.value.buys10, flow.value.netFlow3Wei) >= 3
  {
    ArmedMeans(cfg, pos, before, peak);
    var votes := Votes(before, price, flow);
    VoteNeeds(cfg, pos, before, price, flow, votes);
    if |before| >= 10 {
      VotesMean(before, price, flow);
    }
  }

  // ----- Turning the knobs -----

  /** Every threshold of `a` is at least as quick to fire as the same one of `b`. */
  predicate Tighter(a: TrailConfig, b: TrailConfig) {
    && a.armPct <= b.armPct
    && a.trailPct <= b.trailPct
    && a.hardSlPct <= b.hardSlPct
    && a.maxHoldBlocks <= b.maxHoldBlocks
    && a.breakevenAtPct <= b.breakevenAtPct
    && a.breakevenLockPct >= b.breakevenLockPct
  }

  lemma PeakAtLeastEntry(pos: Position, seen: seq<real>)
    ensures PeakOf(pos, seen) >= pos.entry
  {
    MaxFromIsMax(pos.entry, seen);
  }

  /** The simulation, flags: what is armed or ratcheted under `b` is so under `a`. */
  lemma TighterArms(a: TrailConfig, b: TrailConfig, pos: Position, seen: seq<real>)
    requires Tighter(a, b) && pos.entry > 0.0
    ensures Armed(b, pos, seen) ==> Armed(a, pos, seen)
    ensures Ratcheted(b, pos, seen) ==> Ratcheted(a, pos, seen)
  {
    MulMono(pos.entry, 1.0 + a.armPct, 1.0 + b.armPct);
    MulMono(pos.entry, 1.0 + a.breakevenAtPct, 1.0 + b.breakevenAtPct);
  }

  /** The simulation, floors: every floor of `a` is at least as high. */
  lemma TighterFloors(a: TrailConfig, b: TrailConfig, pos: Position, seen: seq<real>)
    requires Tighter(a, b) && pos.entry > 0.0
    ensures EffectiveFloor(a, pos, seen) >= EffectiveFloor(b, pos, seen)
    ensures TrailFloor(a, pos, seen) >= TrailFloor(b, pos, seen)
  {
    TighterArms(a, b, pos, seen);
    MulMono(pos.entry, 1.0 - b.hardSlPct, 1.0 - a.hardSlPct);
    MulMono(pos.entry, 1.0 + b.breakevenLockPct, 1.0 + a.breakevenLockPct);
    assert HardFloor(a, pos) >= HardFloor(b, pos) && LockFloor(a, pos) >= LockFloor(b, pos);
    PeakAtLeastEntry(pos, seen);
    MulMono(PeakOf(pos, seen), 1.0 - b.trailPct, 1.0 - a.trailPct);
  }

  lemma TighterDecides(a: TrailConfig, b: TrailConfig, pos: Position, ticks: seq<Tick>, dump: bool)
    requires Tighter(a, b) && pos.entry > 0.0
    requires WatchDecide(b, pos, ticks, dump).Some?
    ensures WatchDecide(a, pos, ticks, dump).Some?
  {
    var t := ticks[|ticks| - 1];
    var before := Seen(ticks[..|ticks| - 1]);
    if t.price.Some? {
      TighterArms(a, b, pos, before);
      TighterArms(a, b, pos, before + [t.price.value]);
      TighterFloors(a, b, pos, before + [t.price.value]);
    }
  }

  /** A tighter configuration exits no later, whatever the ticks and with the vote in front. */
  lemma TighterExitsNoLater(a: TrailConfig, b: TrailConfig, pos: Position, ticks: seq<Tick>, dump: bool)
    requires Tighter(a, b) && pos.entry > 0.0
    ensures FirstExit(b, pos, ticks, dump).Some? ==>
              && FirstExit(a, pos, ticks, dump).Some?
              && FirstExit(a, pos, ticks, dump).value.0 <= FirstExit(b, pos, ticks, dump).value.0
  {
    var exitB := FirstExit(b, pos, ticks, dump);
    if exitB.Some? {
      assert DecideAt(b, pos, ticks, dump, exitB.value.0).Some?;
      TighterDecides(a, b, pos, ticks[..exitB.value.0 + 1], dump);
      assert DecideAt(a, pos, ticks, dump, exitB.value.0).Some?;
    }
  }

  // ----- The leading exit and the trail -----

  function Relabel(r: Option<ExitReason>): Option<ExitReason> {
    if r == Some(SignalDump) then Some(Trail) else r
  }

  function RelabelExit(x: Option<(nat, ExitReason)>): Option<(nat, ExitReason)> {
    match x
    case None => None
    case Some((i, r)) => Some((i, if r == SignalDump then Trail else r))
  }

  /** A price that fires the leading exit is under 70% of a price already seen. */
  lemma DumpIsFarBelowPeak(pos: Position, seen: seq<real>)
    requires DumpSignal(seen)
    ensures 0.0 < PeakOf(pos, seen) && Last(seen) < 0.7 * PeakOf(pos, seen)
  {
    var w := Window(seen);
    var localMax := LocalMax(w);
    MaxFromIsMax(0.0, w);
    MaxFromIsMax(pos.entry, seen);
    assert localMax in seen;
    FarBelowMeans(localMax, Last(seen));
  }

  lemma DumpIsTrail(cfg: TrailConfig, pos: Position, seen: seq<real>)
    requires cfg.trailPct <= 0.30 && DumpSignal(seen)
    ensures Last(seen) <= TrailFloor(cfg, pos, seen)
  {
    DumpIsFarBelowPeak(pos, seen);
    MulMono(PeakOf(pos, seen), 0.7, 1.0 - cfg.trailPct);
  }

  lemma DecideRelabels(cfg: TrailConfig, pos: Position, seen: seq<real>, block: nat)
    requires cfg.trailPct <= 0.30 && seen != []
    ensures Decide(cfg, pos, seen, block, false) == Relabel(Decide(cfg, pos, seen, block, true))
  {
    if DumpSignal(seen) {
      DumpIsTrail(cfg, pos, seen);
    }
  }

  lemma DumpRelabels(cfg: TrailConfig, pos: Position, ticks: seq<Tick>)
    requires cfg.trailPct <= 0.30
    ensures WatchDecide(cfg, pos, ticks, false) == Relabel(WatchDecide(cfg, pos, ticks, true))
  {
    if ticks != [] && ticks[|ticks| - 1].price.Some? {
      var t := ticks[|ticks| - 1];
      DecideRelabels(cfg, pos, Seen(ticks[..|ticks| - 1]) + [t.price.value], t.block);
    }
  }

  /** With a trail of at most 30% the leading exit never moves an exit: deleting the rule
      leaves tick and price of every run and only renames the reason. */
  lemma DumpOnlyRelabels(cfg: TrailConfig, pos: Position, ticks: seq<Tick>)
    requires cfg.trailPct <= 0.30
    ensures FirstExit(cfg, pos, ticks, false) == RelabelExit(FirstExit(cfg, pos, ticks, true))
  {
    forall i | 0 <= i < |ticks|
      ensures DecideAt(cfg, pos, ticks, false, i) == Relabel(DecideAt(cfg, pos, ticks, true, i))
    {
      DumpRelabels(cfg, pos, ticks[..i + 1]);
    }
    var x, y := FirstExit(cfg, pos, ticks, false), FirstExit(cfg, pos, ticks, true);
    if x.Some? && y.Some? {
      assert x.value.0 == y.value.0;
    }
  }

  lemma {:induction false} SeenAll(ticks: seq<Tick>, prices: seq<real>)
    requires |ticks| == |prices|
    requires forall i :: 0 <= i < |ticks| ==> ticks[i].price == Some(prices[i])
    ensures Seen(ticks) == prices
  {
    if ticks != [] {
      var n := |ticks| - 1;
      SeenAll(ticks[..n], prices[..n]);
      assert prices == prices[..n] + [prices[n]];
    }
  }

  /** Ten prices: `m` at `high`, the others at `low`. */
  function Drop(m: nat, high: real, low: real): seq<real> {
    seq(HISTORY_LEN, i => if i < m then high else low)
  }

  /** One block after another from the opening one: nine of them at `high`, the tenth at `low`. */
  function DropTicks(pos: Position, high: real, low: real): seq<Tick> {
    seq(HISTORY_LEN, (i: nat) => Tick(pos.openedBlock + i, Some(if i < 9 then high else low), None))
  }

  /** Both prices are above every floor, `high` arms, and the drop is deeper than 30% yet not below the trail. */
  predicate InGap(cfg: TrailConfig, pos: Position, high: real, low: real) {
    && 0.0 < low < 0.7 * high
    && low > RMax(HardFloor(cfg, pos), LockFloor(cfg, pos))
    && high >= pos.entry && high >= ArmLevel(cfg, pos)
    && high > TrailLevel(cfg, high) && low > TrailLevel(cfg, high)
  }

  lemma GapExists(cfg: TrailConfig, pos: Position) returns (high: real, low: real)
    requires pos.entry > 0.0 && cfg.trailPct > 0.30
    ensures InGap(cfg, pos, high, low)
  {
    var floor := RMax(0.0, RMax(HardFloor(cfg, pos), LockFloor(cfg, pos)));
    high := 1.0 + pos.entry + RMax(ArmLevel(cfg, pos), 0.0) + 3.0 * floor;
    low := Between(high, 1.0 - cfg.trailPct, floor);
  }

  lemma Between(high: real, keep: real, floor: real) returns (low: real)
    requires keep < 0.7 && floor >= 0.0 && high >= 1.0 + 3.0 * floor
    ensures floor < low < 0.7 * high
    ensures high * keep < low && high * keep < high
  {
    var mid := Middle(keep);
    low := high * mid;
    MulMono(high, 0.35, mid);
    MulStrict(high, mid, 0.7);
    MulStrict(high, keep, mid);
    MulStrict(high, keep, 1.0);
  }

  lemma Middle(keep: real) returns (mid: real)
    requires keep < 0.7
    ensures 0.35 <= mid < 0.7 && keep < mid
  {
    mid := (RMax(keep, 0.0) + 0.7) / 2.0;
  }

  lemma DropMax(base: real, m: nat, high: real, low: real, i: nat)
    requires 0 < m && i < 10 && base <= high && low <= high
    ensures MaxFrom(base, Drop(m, high, low)[..i + 1]) == high
  {
    var seen := Drop(m, high, low)[..i + 1];
    MaxFromIsMax(base, seen);
    assert seen[0] in seen;
    forall x | x in seen ensures x <= high {
      var k :| 0 <= k <= i && seen[k] == x;
    }
  }

  lemma DropSeen(pos: Position, high: real, low: real, i: nat)
    requires i < 10
    ensures Seen(DropTicks(pos, high, low)[..i]) == Drop(9, high, low)[..i]
  {
    SeenAll(DropTicks(pos, high, low)[..i], Drop(9, high, low)[..i]);
  }

  lemma DropSignals(m: nat, high: real, low: real, i: nat)
    requires 0 < m < 10 && i < 10 && 0.0 < low < 0.7 * high
    ensures DumpSignal(Drop(m, high, low)[..i + 1]) <==> i == 9
  {
    var seen := Drop(m, high, low)[..i + 1];
    if i == 9 {
      assert Window(seen) == seen;
      DropMax(0.0, m, high, low, 9);
      FarBelowMeans(high, low);
      FallingMeans(high, low);
    }
  }

  /** Nine of the prices hold; at the tenth the leading exit fires and only the timeout would as well. */
  lemma DropDecision(cfg: TrailConfig, pos: Position, m: nat, high: real, low: real, i: nat, block: nat, dump: bool)
    requires 0 < m < 10 && i < 10 && InGap(cfg, pos, high, low)
    ensures Decide(cfg, pos, Drop(m, high, low)[..i + 1], block, dump) ==
            if i == 9 && dump then Some(SignalDump) else if Overdue(cfg, pos, block) then Some(Timeout) else None
  {
    DropMax(pos.entry, m, high, low, i);
    DropSignals(m, high, low, i);
  }

  lemma DropDecides(cfg: TrailConfig, pos: Position, high: real, low: real, i: nat, dump: bool)
    requires i < 10 && InGap(cfg, pos, high, low) && cfg.maxHoldBlocks > 9
    ensures DecideAt(cfg, pos, DropTicks(pos, high, low), dump, i) == if i == 9 && dump then Some(SignalDump) else None
  {
    var prices, ticks := Drop(9, high, low), DropTicks(pos, high, low);
    DropSeen(pos, high, low, i);
    assert ticks[..i + 1][..i] == ticks[..i];
    assert prices[..i] + [prices[i]] == prices[..i + 1];
    DropDecision(cfg, pos, 9, high, low, i, pos.openedBlock + i, dump);
  }

  /** A position is ticked at most once a block and not before its opening block. */
  ghost predicate BlockByBlock(pos: Position, ticks: seq<Tick>) {
    && (ticks != [] ==> ticks[0].block >= pos.openedBlock)
    && forall i :: 0 < i < |ticks| ==> ticks[i - 1].block < ticks[i].block
  }

  lemma {:induction false} BlocksPass(pos: Position, ticks: seq<Tick>, i: nat)
    requires BlockByBlock(pos, ticks) && i < |ticks|
    ensures ticks[i].block >= pos.openedBlock + i
  {
    if i > 0 {
      BlocksPass(pos, ticks, i - 1);
    }
  }

  lemma {:induction false} SeenAtMost(ticks: seq<Tick>)
    ensures |Seen(ticks)| <= |ticks|
  {
    if ticks != [] {
      SeenAtMost(ticks[..|ticks| - 1]);
    }
  }

  ghost predicate SameTick(x: Option<(nat, ExitReason)>, y: Option<(nat, ExitReason)>) {
    (x.None? && y.None?) || (x.Some? && y.Some? && x.value.0 == y.value.0)
  }

  /** No run of ticks in block order exits at another tick with the leading exit than without it. */
  ghost predicate DumpIsRedundant(cfg: TrailConfig, pos: Position) {
    forall ticks :: BlockByBlock(pos, ticks) ==> SameTick(FirstExit(cfg, pos, ticks, false), FirstExit(cfg, pos, ticks, true))
  }

  lemma OverdueDecides(cfg: TrailConfig, pos: Position, ticks: seq<Tick>, dump: bool)
    requires ticks != [] && Overdue(cfg, pos, ticks[|ticks| - 1].block)
    ensures WatchDecide(cfg, pos, ticks, dump).Some?
  {
  }

  /** Before ten prices are there the leading exit cannot fire, and by then the hold cap is reached. */
  lemma ShortHoldDecides(cfg: TrailConfig, pos: Position, ticks: seq<Tick>, i: nat)
    requires cfg.maxHoldBlocks <= 9 && BlockByBlock(pos, ticks) && i < |ticks|
    ensures DecideAt(cfg, pos, ticks, false, i).Some? <==> DecideAt(cfg, pos, ticks, true, i).Some?
  {
    if i < 9 {
      SeenAtMost(ticks[..i + 1][..i]);
    } else {
      BlocksPass(pos, ticks, i);
      OverdueDecides(cfg, pos, ticks[..i + 1], false);
      OverdueDecides(cfg, pos, ticks[..i + 1], true);
    }
  }

  lemma ShortHoldIsRedundant(cfg: TrailConfig, pos: Position, ticks: seq<Tick>)
    requires cfg.maxHoldBlocks <= 9 && BlockByBlock(pos, ticks)
    ensures SameTick(FirstExit(cfg, pos, ticks, false), FirstExit(cfg, pos, ticks, true))
  {
    forall i | 0 <= i < |ticks|
      ensures DecideAt(cfg, pos, ticks, false, i).Some? <==> DecideAt(cfg, pos, ticks, true, i).Some?
    {
      ShortHoldDecides(cfg, pos, ticks, i);
    }
  }

  /** With a wider trail and a longer hold a sharp drop exits with the rule and is held without it. */
  lemma DropMovesExit(cfg: TrailConfig, pos: Position) returns (ticks: seq<Tick>)
    requires pos.entry > 0.0 && cfg.trailPct > 0.30 && cfg.maxHoldBlocks > 9
    ensures BlockByBlock(pos, ticks)
    ensures FirstExit(cfg, pos, ticks, true).Some? && FirstExit(cfg, pos, ticks, false).None?
  {
    var high, low := GapExists(cfg, pos);
    ticks := DropTicks(pos, high, low);
    forall i, dump | 0 <= i < 10
      ensures DecideAt(cfg, pos, ticks, dump, i) == if i == 9 && dump then Some(SignalDump) else None
    {
      DropDecides(cfg, pos, high, low, i, dump);
    }
    assert DecideAt(cfg, pos, ticks, true, 9).Some?;
  }

  /** Exactly when the leading exit can be deleted without moving any exit of any run. */
  lemma DumpIsRedundantIff(cfg: TrailConfig, pos: Position)
    requires pos.entry > 0.0
    ensures DumpIsRedundant(cfg, pos) <==> cfg.trailPct <= 0.30 || cfg.maxHoldBlocks <= 9
  {
    if cfg.trailPct <= 0.30 || cfg.maxHoldBlocks <= 9 {
      forall ticks | BlockByBlock(pos, ticks)
        ensures SameTick(FirstExit(cfg, pos, ticks, false), FirstExit(cfg, pos, ticks, true))
      {
        if cfg.trailPct <= 0.30 {
          DumpOnlyRelabels(cfg, pos, ticks);
        } else {
          ShortHoldIsRedundant(cfg, pos, ticks);
        }
      }
    } else {
      var ticks := DropMovesExit(cfg, pos);
      assert !SameTick(FirstExit(cfg, pos, ticks, false), FirstExit(cfg, pos, ticks, true));
    }
  }

  // ----- What a run locks in -----

  /** The arm level is not below the ratchet level, and the locked floor is above the hard one. */
  predicate LocksProfit(cfg: TrailConfig) {
    cfg.armPct >= cfg.breakevenAtPct && cfg.breakevenLockPct > -cfg.hardSlPct
  }

  lemma LockLevels(cfg: TrailConfig, pos: Position, seen: seq<real>)
    requires LocksProfit(cfg) && pos.entry > 0.0
    ensures Armed(cfg, pos, seen) ==> Ratcheted(cfg, pos, seen)
    ensures LockFloor(cfg, pos) > HardFloor(cfg, pos)
    ensures EffectiveFloor(cfg, pos, seen) == if Ratcheted(cfg, pos, seen) then LockFloor(cfg, pos) else HardFloor(cfg, pos)
  {
    MulMono(pos.entry, 1.0 + cfg.breakevenAtPct, 1.0 + cfg.armPct);
    MulStrict(pos.entry, 1.0 - cfg.hardSlPct, 1.0 + cfg.breakevenLockPct);
  }

  /** The run up to and including tick `i` reached the ratchet level. */
  ghost predicate Reached(cfg: TrailConfig, pos: Position, ticks: seq<Tick>) {
    exists p :: p in [pos.entry] + Seen(ticks) && p >= RatchetLevel(cfg, pos)
  }

  lemma RatchetedIsReached(cfg: TrailConfig, pos: Position, ticks: seq<Tick>)
    requires Seen(ticks) != []
    ensures Ratcheted(cfg, pos, Seen(ticks)) <==> Reached(cfg, pos, ticks)
  {
    var seen := Seen(ticks);
    MaxFromIsMax(pos.entry, seen);
    if Ratcheted(cfg, pos, seen) {
      assert PeakOf(pos, seen) in [pos.entry] + seen;
    }
  }

  /** One decision of a profit-locking configuration. */
  lemma DecisionLocksProfit(cfg: TrailConfig, pos: Position, seen: seq<real>, block: nat, dump: bool)
    requires LocksProfit(cfg) && pos.entry > 0.0 && seen != []
    ensures var r := Decide(cfg, pos, seen, block, dump);
            && (r == Some(Trail) || r == Some(SignalDump) ==> Last(seen) > LockFloor(cfg, pos) && Ratcheted(cfg, pos, seen))
            && (r == Some(HardStopLoss) ==> Last(seen) <= HardFloor(cfg, pos) && !Ratcheted(cfg, pos, seen))
            && (r == Some(BreakevenLocked) ==> Last(seen) <= LockFloor(cfg, pos) && Ratcheted(cfg, pos, seen))
  {
    LockLevels(cfg, pos, seen);
  }

  /** What a reason says about the last price of a run, given the ratchet level was reached or not. */
  predicate Locks(cfg: TrailConfig, pos: Position, reason: ExitReason, price: real, reached: bool) {
    match reason
    case Trail | SignalDump => price > LockFloor(cfg, pos) && reached
    case HardStopLoss => price <= HardFloor(cfg, pos) && !reached
    case BreakevenLocked => price <= LockFloor(cfg, pos) && reached
    case SignalVote | Timeout => true
  }

  /** Exits of a profit-locking configuration: a trail or dump exit is above the locked
      price, a hard stop only ends a run that never reached the ratchet level, and a
      break-even exit only one that did. */
  lemma ExitsLockProfit(cfg: TrailConfig, pos: Position, ticks: seq<Tick>, dump: bool)
    requires LocksProfit(cfg) && pos.entry > 0.0 && FirstExit(cfg, pos, ticks, dump).Some?
    ensures var (i, reason) := FirstExit(cfg, pos, ticks, dump).value;
            && (ticks[i].price.None? ==> reason == Timeout)
            && (ticks[i].price.Some? ==> Locks(cfg, pos, reason, ticks[i].price.value, Reached(cfg, pos, ticks[..i + 1])))
  {
    var (i, reason) := FirstExit(cfg, pos, ticks, dump).value;
    var run := ticks[..i + 1];
    WatchDecision(cfg, pos, run, dump);
    if ticks[i].price.Some? {
      DecisionLocksProfit(cfg, pos, Seen(run), ticks[i].block, dump);
      RatchetedIsReached(cfg, pos, run);
    }
  }

  /** Without a price only the timeout can fire; with one it is the vote or the step. */
  lemma WatchDecision(cfg: TrailConfig, pos: Position, run: seq<Tick>, dump: bool)
    requires run != []
    ensures var t := run[|run| - 1]; var r := WatchDecide(cfg, pos, run, dump);
            && (t.price.None? ==> r == None || r == Some(Timeout))
            && (t.price.Some? ==> Seen(run) != [] && Last(Seen(run)) == t.price.value)
            && (t.price.Some? ==> r == Some(SignalVote) || r == Decide(cfg, pos, Seen(run), t.block, dump))
  {
  }

  /** While a position is held its last price is above the effective floor and, once
      armed, above the trail floor. No condition on the configuration is needed. */
  lemma {:induction false} HeldIsAboveFloors(cfg: TrailConfig, pos: Position, ticks: seq<Tick>, dump: bool)
    requires FirstExit(cfg, pos, ticks, dump).None? && Seen(ticks) != []
    ensures var seen := Seen(ticks);
            && Last(seen) > EffectiveFloor(cfg, pos, seen)
            && (Armed(cfg, pos, seen) ==> Last(seen) > TrailFloor(cfg, pos, seen))
  {
    var n := |ticks| - 1;
    assert ticks[..n + 1] == ticks;
    assert DecideAt(cfg, pos, ticks, dump, n).None?;
    if ticks[n].price.None? {
      DecideAtPrefix(cfg, pos, ticks, dump, n);
      HeldIsAboveFloors(cfg, pos, ticks[..n], dump);
    }
  }
}
