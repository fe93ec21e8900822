/** Snipe positions: waiting for a first price, then trailed, then removed. */
module Sniper {
  import opened Common
  import opened TrailRule
  import opened TrailMachine
  import T = TrailTheorems

  type Address = nat

  datatype SnipeEnd = DeadToken | Stopped(reason: ExitReason)

  /** One block tick of a position opened at `openedBlock`: the trail state after it, and
      how the position ended, if it did. */
  function SnipeStep(cfg: TrailConfig, openedBlock: nat, trail: Option<Snapshot>, block: nat, price: Option<real>)
    : (Option<Snapshot>, Option<SnipeEnd>)
    requires trail.Some? ==> trail.value.WellFormed()
  {
    match trail
    case None => (
      match price
      case None => (None, if SatSub(block, openedBlock) >= cfg.maxHoldBlocks then Some(DeadToken) else None)
      case Some(p) => (Some(Initial(Position(p, Max(openedBlock, SatSub(block, 1))), block)), None)
    )
    case Some(s) =>
      var s' := Observe(s, cfg, if price.Some? then price.value else s.last, block);
      (Some(s'), match Check(s', cfg, block) case None => None case Some(r) => Some(Stopped(r)))
  }

  // ----- The objects -----

  class SnipePosition {
    const openedBlock: nat
    /** Null until the first price arrives. */
    var trail: TrailState?
    ghost var Repr: set<object>

    ghost predicate Valid()
      reads this, Repr
      ensures Valid() ==> this in Repr
    {
      && this in Repr
      && (trail != null ==> trail in Repr && trail.priceHistory in Repr && trail.Valid())
    }

    function View(): (v: Option<Snapshot>)
      requires Valid()
      reads this, Repr
      ensures v.Some? ==> v.value.WellFormed()
    {
      if trail == null then None else Some(trail.View())
    }

    constructor (openedBlock: nat)
      ensures Valid() && fresh(Repr) && this.openedBlock == openedBlock && View() == None
    {
      this.openedBlock := openedBlock;
      trail := null;
      Repr := {this};
    }

    method Process(cfg: TrailConfig, block: nat, price: Option<real>) returns (end: Option<SnipeEnd>)
      requires Valid()
      modifies Repr
      ensures Valid() && fresh(Repr - old(Repr))
      ensures (View(), end) == SnipeStep(cfg, openedBlock, old(View()), block, price)
    {
      if trail == null && price.None? {
        if SatSub(block, openedBlock) >= cfg.maxHoldBlocks {
          return Some(DeadToken);
        }
      }
      if trail == null {
        if price.None? {
          return None;
        }
        trail := new TrailState(Initial(Position(price.value, Max(openedBlock, SatSub(block, 1))), block));
        Repr := Repr + {trail, trail.priceHistory};
        return None;
      }
      var current := if price.Some? then price.value else trail.last;
      var reason := trail.Step(cfg, current, block);
      end := if reason.Some? then Some(Stopped(reason.value)) else None;
    }
  }

  class SniperBook {
    var positions: map<Address, SnipePosition>

    ghost predicate Valid()
      reads this, positions.Values, set k, o | k in positions && o in positions[k].Repr :: o
    {
      && (forall k :: k in positions ==> positions[k].Valid() && this !in positions[k].Repr)
      && (forall j, k :: j in positions && k in positions && j != k ==> positions[j].Repr !! positions[k].Repr)
    }

    constructor ()
      ensures Valid() && positions == map[]
    {
      positions := map[];
    }

    /** The tail of the launch handler: a token that is held is never sniped again, so its
        position is not replaced; `bought` is the outcome of the buy. */
    method OnLaunch(token: Address, whitelisted: bool, sized: bool, bought: bool, openedBlock: nat) returns (inserted: bool)
      requires Valid()
      modifies this
      ensures Valid()
      ensures inserted == (whitelisted && sized && bought && token !in old(positions))
      ensures !inserted ==> positions == old(positions)
      ensures inserted ==>
                && token in positions && fresh(positions[token]) && positions[token].openedBlock == openedBlock
                && positions == old(positions)[token := positions[token]]
                && positions[token].Valid() && positions[token].View() == None
    {
      if !whitelisted || !sized {
        return false;
      }
      if token in positions {
        return false;
      }
      if !bought {
        return false;
      }
      var p := new SnipePosition(openedBlock);
      positions := positions[token := p];
      return true;
    }

    /** One position at one block; it leaves the map in the tick that ends it. */
    method ProcessPosition(cfg: TrailConfig, token: Address, block: nat, price: Option<real>) returns (end: Option<SnipeEnd>)
      requires Valid() && token in positions
      modifies this, positions[token].Repr
      ensures Valid()
      ensures end == SnipeStep(cfg, old(positions[token]).openedBlock, old(positions[token].View()), block, price).1
      ensures end.Some? ==> positions == old(positions) - {token}
      ensures forall k :: k in positions && k != token ==> k in old(positions) && positions[k].View() == old(positions[k].View())
      ensures end.None? ==>
                && positions == old(positions)
                && positions[token].View() == SnipeStep(cfg, positions[token].openedBlock, old(positions[token].View()), block, price).0
    {
      var pos := positions[token];
      end := pos.Process(cfg, block, price);
      if end.Some? {
        positions := positions - {token};
      }
    }
  }

  // ----- Lifetimes -----

  /** Where a position stands after some ticks: `at` is the block of the tick that ended it. */
  datatype Snipe = Live(trail: Option<Snapshot>) | Gone(at: nat, end: SnipeEnd)

  ghost predicate SnipeOk(x: Snipe) {
    x.Live? && x.trail.Some? ==> x.trail.value.WellFormed()
  }

  /** Where a step at `block` leaves the position. */
  function After(step: (Option<Snapshot>, Option<SnipeEnd>), block: nat): Snipe {
    if step.1.Some? then Gone(block, step.1.value) else Live(step.0)
  }

  /** One tick more; a position that ended stays as it ended. */
  function SnipeNext(cfg: TrailConfig, openedBlock: nat, x: Snipe, block: nat, price: Option<real>): (y: Snipe)
    requires SnipeOk(x)
    ensures SnipeOk(y)
  {
    match x
    case Gone(_, _) => x
    case Live(trail) =>
      After(SnipeStep(cfg, openedBlock, trail, block, price), block)
  }

  /** A position ticked at every block from `first` on, with or without a price. */
  function SnipeRun(cfg: TrailConfig, openedBlock: nat, first: nat, prices: seq<Option<real>>): (x: Snipe)
    ensures SnipeOk(x)
  {
    if prices == [] then Live(None)
    else
      var n := |prices| - 1;
      SnipeNext(cfg, openedBlock, SnipeRun(cfg, openedBlock, first, prices[..n]), first + n, prices[n])
  }

  lemma RunUnfolds(cfg: TrailConfig, openedBlock: nat, first: nat, prices: seq<Option<real>>)
    requires prices != []
    ensures var n := |prices| - 1;
            SnipeRun(cfg, openedBlock, first, prices)
            == SnipeNext(cfg, openedBlock, SnipeRun(cfg, openedBlock, first, prices[..n]), first + n, prices[n])
  {
  }

  /** The last block at which a position can still be held, counted from its opening. */
  function LifeBound(maxHold: nat): nat {
    if maxHold <= 1 then 2 else 2 * maxHold - 1
  }

  /** What a position still held after the tick at block `now` looks like: without a price
      it is younger than the hold cap; with one, its own clock started before the cap. */
  ghost predicate Young(cfg: TrailConfig, openedBlock: nat, now: nat, x: Snipe) {
    match x
    case Gone(at, _) => at <= openedBlock + LifeBound(cfg.maxHoldBlocks)
    case Live(None) => now < openedBlock + cfg.maxHoldBlocks
    case Live(Some(s)) =>
      && s.WellFormed()
      && s.openedBlock < openedBlock + Max(1, cfg.maxHoldBlocks)
      && now <= openedBlock + 2 * Max(1, cfg.maxHoldBlocks) - 1
      && (now == s.openedBlock || now == s.openedBlock + 1 || now < s.openedBlock + Max(1, cfg.maxHoldBlocks))
  }

  /** The invariant is kept by a tick, and holds after a first one that comes soon enough. */
  lemma YoungNext(cfg: TrailConfig, openedBlock: nat, x: Snipe, block: nat, price: Option<real>)
    requires SnipeOk(x)
    requires (x == Live(None) && block <= openedBlock + 1) || (block > 0 && Young(cfg, openedBlock, block - 1, x))
    ensures Young(cfg, openedBlock, block, SnipeNext(cfg, openedBlock, x, block, price))
  {
  }

  lemma {:induction false} StaysYoung(cfg: TrailConfig, openedBlock: nat, first: nat, prices: seq<Option<real>>)
    requires first <= openedBlock + 1 && prices != []
    ensures Young(cfg, openedBlock, first + |prices| - 1, SnipeRun(cfg, openedBlock, first, prices))
  {
    var n := |prices| - 1;
    if n > 0 {
      StaysYoung(cfg, openedBlock, first, prices[..n]);
    }
    RunUnfolds(cfg, openedBlock, first, prices);
    YoungNext(cfg, openedBlock, SnipeRun(cfg, openedBlock, first, prices[..n]), first + n, prices[n]);
  }

  /** Ticked at every block since it opened, no position outlives twice the hold cap. */
  lemma LifetimeBound(cfg: TrailConfig, openedBlock: nat, first: nat, prices: seq<Option<real>>)
    requires first <= openedBlock + 1
    requires first + |prices| > openedBlock + LifeBound(cfg.maxHoldBlocks)
    ensures SnipeRun(cfg, openedBlock, first, prices).Gone?
    ensures SnipeRun(cfg, openedBlock, first, prices).at <= openedBlock + LifeBound(cfg.maxHoldBlocks) <= openedBlock + 2 * Max(1, cfg.maxHoldBlocks)
  {
    StaysYoung(cfg, openedBlock, first, prices);
  }

  // ----- Ticks without a price -----

  /** A state that is held after the tick at block `now`, having taken a step at most once a
      block: it says what `seen` says, its last price is above its floors, and it is not overdue. */
  ghost predicate HeldState(cfg: TrailConfig, s: Snapshot, pos: Position, seen: seq<real>, now: nat) {
    && Refines(s, cfg, pos, seen)
    && pos.entry > 0.0
    && pos.openedBlock + |seen| <= now
    && (seen != [] ==>
          && !Overdue(cfg, pos, now)
          && Last(seen) > EffectiveFloor(cfg, pos, seen)
          && (Armed(cfg, pos, seen) ==> Last(seen) > TrailFloor(cfg, pos, seen)))
  }

  /** No threshold is met by standing still, and the leading exit is either behind the trail
      or out of reach of the hold cap. */
  predicate Patient(cfg: TrailConfig) {
    && cfg.hardSlPct > 0.0
    && (cfg.breakevenAtPct > 0.0 || cfg.breakevenLockPct < 0.0)
    && (cfg.armPct > 0.0 || cfg.trailPct > 0.0)
    && (cfg.trailPct <= 0.30 || cfg.maxHoldBlocks <= 9)
  }

  lemma StepKeepsHeld(cfg: TrailConfig, s: Snapshot, pos: Position, seen: seq<real>, price: real, now: nat)
    requires HeldState(cfg, s, pos, seen, now)
    requires Check(Observe(s, cfg, price, now + 1), cfg, now + 1).None?
    ensures HeldState(cfg, Observe(s, cfg, price, now + 1), pos, seen + [price], now + 1)
  {
    StepRefines(s, cfg, pos, seen, price, now + 1);
  }

  /** The entry price seen again, and nothing else: neither floor nor trail is hit. */
  lemma StaleBefore(cfg: TrailConfig, pos: Position)
    requires Patient(cfg) && pos.entry > 0.0
    ensures pos.entry > EffectiveFloor(cfg, pos, [pos.entry])
    ensures Armed(cfg, pos, [pos.entry]) ==> pos.entry > TrailFloor(cfg, pos, [pos.entry])
  {
    MaxFromPush(pos.entry, [], pos.entry);
    assert [] + [pos.entry] == [pos.entry];
    MulStrict(pos.entry, 1.0, 1.0 + cfg.armPct);
    MulStrict(pos.entry, 1.0, 1.0 + cfg.breakevenAtPct);
    MulStrict(pos.entry, 1.0 - cfg.hardSlPct, 1.0);
    MulStrict(pos.entry, 1.0 + cfg.breakevenLockPct, 1.0);
    MulStrict(pos.entry, 1.0 - cfg.trailPct, 1.0);
  }

  /** A repeated price leaves the peak, so it is above the floors as before. */
  lemma StaleKeepsLevels(cfg: TrailConfig, pos: Position, seen: seq<real>)
    requires seen != []
    ensures PeakOf(pos, seen + [Last(seen)]) == PeakOf(pos, seen)
    ensures Armed(cfg, pos, seen + [Last(seen)]) == Armed(cfg, pos, seen)
    ensures Ratcheted(cfg, pos, seen + [Last(seen)]) == Ratcheted(cfg, pos, seen)
  {
    MaxFromIsMax(pos.entry, seen);
    MaxFromPush(pos.entry, seen, Last(seen));
  }

  /** Held long enough for ten prices means a hold cap above nine. */
  lemma DumpNeedsTime(cfg: TrailConfig, s: Snapshot, pos: Position, seen: seq<real>, price: real, now: nat)
    requires HeldState(cfg, s, pos, seen, now) && cfg.maxHoldBlocks <= 9
    ensures !DumpSignal(seen + [price])
  {
  }

  /** Repeating the last price of a held state can only time out. */
  lemma StaleOnlyTimesOut(cfg: TrailConfig, s: Snapshot, pos: Position, seen: seq<real>, now: nat)
    requires Patient(cfg) && HeldState(cfg, s, pos, seen, now)
    ensures Check(Observe(s, cfg, s.last, now + 1), cfg, now + 1) == if Overdue(cfg, pos, now + 1) then Some(Timeout) else None
  {
    var seen' := seen + [s.last];
    StepRefines(s, cfg, pos, seen, s.last, now + 1);
    if seen == [] {
      assert seen' == [pos.entry];
      StaleBefore(cfg, pos);
    } else {
      StaleKeepsLevels(cfg, pos, seen);
      if cfg.maxHoldBlocks <= 9 {
        DumpNeedsTime(cfg, s, pos, seen, s.last, now);
      } else if DumpSignal(seen') {
        T.DumpIsTrail(cfg, pos, seen');
      }
    }
  }

  ghost predicate Positive(prices: seq<Option<real>>) {
    forall i :: 0 <= i < |prices| && prices[i].Some? ==> prices[i].value > 0.0
  }

  lemma HeldNext(cfg: TrailConfig, openedBlock: nat, s: Snapshot, pos: Position, seen: seq<real>, price: Option<real>, now: nat)
    returns (seen': seq<real>)
    requires HeldState(cfg, s, pos, seen, now)
    requires SnipeNext(cfg, openedBlock, Live(Some(s)), now + 1, price).Live?
    ensures var x := SnipeNext(cfg, openedBlock, Live(Some(s)), now + 1, price);
            x.trail.Some? && HeldState(cfg, x.trail.value, pos, seen', now + 1)
  {
    var p := if price.Some? then price.value else s.last;
    seen' := seen + [p];
    StepKeepsHeld(cfg, s, pos, seen, p, now);
  }

  lemma FirstPriceHeld(cfg: TrailConfig, openedBlock: nat, price: real, block: nat)
    requires price > 0.0 && block >= openedBlock
    ensures var pos := Position(price, Max(openedBlock, SatSub(block, 1)));
            && SnipeNext(cfg, openedBlock, Live(None), block, Some(price)) == Live(Some(Initial(pos, block)))
            && HeldState(cfg, Initial(pos, block), pos, [], block)
  {
    InitialRefines(cfg, Position(price, Max(openedBlock, SatSub(block, 1))), block);
  }

  /** The history behind a position that is still tracked. */
  lemma {:induction false} SnipeHeld(cfg: TrailConfig, openedBlock: nat, first: nat, prices: seq<Option<real>>)
    returns (pos: Position, seen: seq<real>)
    requires Positive(prices) && first >= openedBlock
    requires SnipeRun(cfg, openedBlock, first, prices).Live? && SnipeRun(cfg, openedBlock, first, prices).trail.Some?
    ensures HeldState(cfg, SnipeRun(cfg, openedBlock, first, prices).trail.value, pos, seen, first + |prices| - 1)
  {
    var n := |prices| - 1;
    RunUnfolds(cfg, openedBlock, first, prices);
    match SnipeRun(cfg, openedBlock, first, prices[..n])
    case Live(None) =>
      pos, seen := Position(prices[n].value, Max(openedBlock, SatSub(first + n, 1))), [];
      FirstPriceHeld(cfg, openedBlock, prices[n].value, first + n);
    case Live(Some(s)) =>
      pos, seen := SnipeHeld(cfg, openedBlock, first, prices[..n]);
      seen := HeldNext(cfg, openedBlock, s, pos, seen, prices[n], first + n - 1);
  }

  /** The last tick brought no price, and it ended the position for another reason than its age. */
  ghost predicate StaleExit(cfg: TrailConfig, openedBlock: nat, first: nat, prices: seq<Option<real>>) {
    && prices != [] && prices[|prices| - 1].None?
    && SnipeRun(cfg, openedBlock, first, prices[..|prices| - 1]).Live?
    && !Aged(SnipeRun(cfg, openedBlock, first, prices))
  }

  /** Held, or ended by its age. */
  predicate Aged(x: Snipe) {
    x.Live? || x.end == DeadToken || x.end == Stopped(Timeout)
  }

  lemma StaleNext(cfg: TrailConfig, openedBlock: nat, s: Snapshot, pos: Position, seen: seq<real>, now: nat)
    requires Patient(cfg) && HeldState(cfg, s, pos, seen, now)
    ensures Aged(SnipeNext(cfg, openedBlock, Live(Some(s)), now + 1, None))
  {
    StaleOnlyTimesOut(cfg, s, pos, seen, now);
  }

  lemma WaitingAges(cfg: TrailConfig, openedBlock: nat, block: nat)
    ensures Aged(SnipeNext(cfg, openedBlock, Live(None), block, None))
  {
  }

  /** In a whole run, a tick without a fresh price ends a position only because it is overdue. */
  lemma StaleTickOnlyTimesOut(cfg: TrailConfig, openedBlock: nat, first: nat, prices: seq<Option<real>>)
    requires Patient(cfg) && Positive(prices) && first >= openedBlock
    requires SnipeRun(cfg, openedBlock, first, prices).Live?
    ensures Aged(SnipeNext(cfg, openedBlock, SnipeRun(cfg, openedBlock, first, prices), first + |prices|, None))
  {
    match SnipeRun(cfg, openedBlock, first, prices)
    case Live(None) => WaitingAges(cfg, openedBlock, first + |prices|);
    case Live(Some(s)) =>
      var pos, seen := SnipeHeld(cfg, openedBlock, first, prices);
      StaleNext(cfg, openedBlock, s, pos, seen, first + |prices| - 1);
  }

  lemma NoStaleExit(cfg: TrailConfig, openedBlock: nat, first: nat, prices: seq<Option<real>>)
    requires Patient(cfg) && Positive(prices) && first >= openedBlock
    ensures !StaleExit(cfg, openedBlock, first, prices)
  {
    if prices != [] && prices[|prices| - 1].None? && SnipeRun(cfg, openedBlock, first, prices[..|prices| - 1]).Live? {
      RunUnfolds(cfg, openedBlock, first, prices);
      StaleTickOnlyTimesOut(cfg, openedBlock, first, prices[..|prices| - 1]);
    }
  }

  // ----- Stepping on a repeated price against waiting for the next -----

  /** The step that leaves a tracked state alone when there is no price, and only times it out. */
  function QuietStep(cfg: TrailConfig, openedBlock: nat, trail: Option<Snapshot>, block: nat, price: Option<real>)
    : (Option<Snapshot>, Option<SnipeEnd>)
    requires trail.Some? ==> trail.value.WellFormed()
  {
    if trail.Some? && price.None? then
      (trail, if SatSub(block, trail.value.openedBlock) >= cfg.maxHoldBlocks then Some(Stopped(Timeout)) else None)
    else SnipeStep(cfg, openedBlock, trail, block, price)
  }

  function QuietNext(cfg: TrailConfig, openedBlock: nat, x: Snipe, block: nat, price: Option<real>): (y: Snipe)
    requires SnipeOk(x)
    ensures SnipeOk(y)
  {
    match x
    case Gone(_, _) => x
    case Live(trail) =>
      After(QuietStep(cfg, openedBlock, trail, block, price), block)
  }

  function QuietRun(cfg: TrailConfig, openedBlock: nat, first: nat, prices: seq<Option<real>>): (x: Snipe)
    ensures SnipeOk(x)
  {
    if prices == [] then Live(None)
    else
      var n := |prices| - 1;
      QuietNext(cfg, openedBlock, QuietRun(cfg, openedBlock, first, prices[..n]), first + n, prices[n])
  }

  function RelabelEnd(end: SnipeEnd): SnipeEnd {
    if end == Stopped(SignalDump) then Stopped(Trail) else end
  }

  /** Both are held, or both ended in one block for one reason, a leading exit counting as a trail exit. */
  predicate SameEnd(x: Snipe, y: Snipe) {
    match (x, y)
    case (Live(a), Live(b)) => a.Some? == b.Some?
    case (Gone(i, a), Gone(j, b)) => i == j && RelabelEnd(a) == RelabelEnd(b)
    case _ => false
  }

  function LastOr(pos: Position, seen: seq<real>): real {
    if seen == [] then pos.entry else Last(seen)
  }

  /** Two histories of one position that differ in repetitions, with fewer of them in `quiet`. */
  ghost predicate Alike(pos: Position, seen: seq<real>, quiet: seq<real>) {
    && LastOr(pos, seen) == LastOr(pos, quiet)
    && PeakOf(pos, seen) == PeakOf(pos, quiet)
    && |quiet| <= |seen|
  }

  /** Without the leading exit only the peak and the last price decide. */
  lemma PeakAndLastDecide(cfg: TrailConfig, pos: Position, a: seq<real>, b: seq<real>, block: nat)
    requires a != [] && b != [] && Last(a) == Last(b) && PeakOf(pos, a) == PeakOf(pos, b)
    ensures Decide(cfg, pos, a, block, false) == Decide(cfg, pos, b, block, false)
  {
  }

  lemma NoDumpDecides(cfg: TrailConfig, pos: Position, seen: seq<real>, block: nat)
    requires seen != [] && !DumpSignal(seen)
    ensures Decide(cfg, pos, seen, block, true) == Decide(cfg, pos, seen, block, false)
  {
  }

  lemma AlikePush(pos: Position, seen: seq<real>, quiet: seq<real>, price: real)
    requires Alike(pos, seen, quiet)
    ensures Alike(pos, seen + [price], quiet + [price])
  {
    MaxFromPush(pos.entry, seen, price);
    MaxFromPush(pos.entry, quiet, price);
  }

  lemma AlikeRepeat(pos: Position, seen: seq<real>, quiet: seq<real>)
    requires Alike(pos, seen, quiet)
    ensures Alike(pos, seen + [LastOr(pos, seen)], quiet)
  {
    MaxFromIsMax(pos.entry, seen);
    MaxFromPush(pos.entry, seen, LastOr(pos, seen));
  }

  /** A fresh price is decided alike after either history. */
  lemma FreshAgrees(cfg: TrailConfig, s: Snapshot, pos: Position, seen: seq<real>, quiet: seq<real>, price: real, now: nat)
    requires Patient(cfg) && HeldState(cfg, s, pos, seen, now) && Alike(pos, seen, quiet)
    ensures T.Relabel(Decide(cfg, pos, seen + [price], now + 1, true)) == T.Relabel(Decide(cfg, pos, quiet + [price], now + 1, true))
  {
    AlikePush(pos, seen, quiet, price);
    PeakAndLastDecide(cfg, pos, seen + [price], quiet + [price], now + 1);
    if cfg.trailPct <= 0.30 {
      T.DecideRelabels(cfg, pos, seen + [price], now + 1);
      T.DecideRelabels(cfg, pos, quiet + [price], now + 1);
    } else {
      DumpNeedsTime(cfg, s, pos, seen, price, now);
      NoDumpDecides(cfg, pos, seen + [price], now + 1);
      NoDumpDecides(cfg, pos, quiet + [price], now + 1);
    }
  }

  /** What is known of the two runs while both still track the position. */
  ghost predicate InStep(cfg: TrailConfig, x: Snipe, y: Snipe, pos: Position, seen: seq<real>, quiet: seq<real>, now: int) {
    x.Live? && y.Live? && x.trail.Some? && y.trail.Some? ==>
      && now >= 0
      && HeldState(cfg, x.trail.value, pos, seen, now)
      && Refines(y.trail.value, cfg, pos, quiet)
      && Alike(pos, seen, quiet)
  }

  /** Both tracked states held, or both ended for one reason, a leading exit counting as a trail exit. */
  ghost predicate SameStep(cfg: TrailConfig, pos: Position, seen: seq<real>, quiet: seq<real>, now: nat,
                           x: (Option<Snapshot>, Option<SnipeEnd>), y: (Option<Snapshot>, Option<SnipeEnd>)) {
    && x.0.Some? && y.0.Some? && Alike(pos, seen, quiet) && Refines(y.0.value, cfg, pos, quiet)
    && (x.1.Some? <==> y.1.Some?)
    && (x.1.Some? ==> RelabelEnd(x.1.value) == RelabelEnd(y.1.value))
    && (x.1.None? ==> HeldState(cfg, x.0.value, pos, seen, now))
  }

  function EndOf(r: Option<ExitReason>): Option<SnipeEnd> {
    match r
    case None => None
    case Some(reason) => Some(Stopped(reason))
  }

  /** A tracked state steps as the rule decides on its history with the price, or the last one again. */
  lemma TrackedStep(cfg: TrailConfig, openedBlock: nat, s: Snapshot, pos: Position, seen: seq<real>, price: Option<real>, block: nat)
    returns (s': Snapshot)
    requires Refines(s, cfg, pos, seen)
    ensures var p := if price.Some? then price.value else s.last;
            && SnipeStep(cfg, openedBlock, Some(s), block, price) == (Some(s'), EndOf(Decide(cfg, pos, seen + [p], block, true)))
            && Refines(s', cfg, pos, seen + [p])
  {
    var p := if price.Some? then price.value else s.last;
    StepRefines(s, cfg, pos, seen, p, block);
    s' := Observe(s, cfg, p, block);
  }

  lemma HeldAfter(cfg: TrailConfig, s: Snapshot, s': Snapshot, pos: Position, seen: seq<real>, p: real, now: nat)
    requires HeldState(cfg, s, pos, seen, now) && Refines(s', cfg, pos, seen + [p])
    requires Decide(cfg, pos, seen + [p], now + 1, true).None?
    ensures HeldState(cfg, s', pos, seen + [p], now + 1)
  {
  }

  lemma EndsAlike(a: Option<ExitReason>, b: Option<ExitReason>)
    requires T.Relabel(a) == T.Relabel(b)
    ensures EndOf(a).Some? <==> EndOf(b).Some?
    ensures EndOf(a).Some? ==> RelabelEnd(EndOf(a).value) == RelabelEnd(EndOf(b).value)
  {
  }

  lemma DecidedAlike(cfg: TrailConfig, s: Snapshot, s': Snapshot, q': Snapshot, pos: Position, seen: seq<real>, quiet: seq<real>,
                     p: real, now: nat)
    requires Patient(cfg) && HeldState(cfg, s, pos, seen, now) && Alike(pos, seen, quiet)
    requires Refines(s', cfg, pos, seen + [p]) && Refines(q', cfg, pos, quiet + [p])
    ensures SameStep(cfg, pos, seen + [p], quiet + [p], now + 1,
                     (Some(s'), EndOf(Decide(cfg, pos, seen + [p], now + 1, true))),
                     (Some(q'), EndOf(Decide(cfg, pos, quiet + [p], now + 1, true))))
  {
    AlikePush(pos, seen, quiet, p);
    FreshAgrees(cfg, s, pos, seen, quiet, p, now);
    EndsAlike(Decide(cfg, pos, seen + [p], now + 1, true), Decide(cfg, pos, quiet + [p], now + 1, true));
    if Decide(cfg, pos, seen + [p], now + 1, true).None? {
      HeldAfter(cfg, s, s', pos, seen, p, now);
    }
  }

  /** One tick of two tracked states whose histories are alike. */
  lemma FreshStep(cfg: TrailConfig, openedBlock: nat, s: Snapshot, q: Snapshot, pos: Position, seen: seq<real>, quiet: seq<real>,
                  p: real, now: nat)
    requires Patient(cfg) && HeldState(cfg, s, pos, seen, now) && Refines(q, cfg, pos, quiet) && Alike(pos, seen, quiet)
    ensures SameStep(cfg, pos, seen + [p], quiet + [p], now + 1, SnipeStep(cfg, openedBlock, Some(s), now + 1, Some(p)),
                     QuietStep(cfg, openedBlock, Some(q), now + 1, Some(p)))
  {
    var s' := TrackedStep(cfg, openedBlock, s, pos, seen, Some(p), now + 1);
    var q' := TrackedStep(cfg, openedBlock, q, pos, quiet, Some(p), now + 1);
    DecidedAlike(cfg, s, s', q', pos, seen, quiet, p, now);
  }

  lemma StaleStep(cfg: TrailConfig, openedBlock: nat, s: Snapshot, q: Snapshot, pos: Position, seen: seq<real>, quiet: seq<real>, now: nat)
    requires Patient(cfg) && HeldState(cfg, s, pos, seen, now) && Refines(q, cfg, pos, quiet) && Alike(pos, seen, quiet)
    ensures SameStep(cfg, pos, seen + [s.last], quiet, now + 1, SnipeStep(cfg, openedBlock, Some(s), now + 1, None),
                     QuietStep(cfg, openedBlock, Some(q), now + 1, None))
  {
    StaleOnlyTimesOut(cfg, s, pos, seen, now);
    AlikeRepeat(pos, seen, quiet);
    if Check(Observe(s, cfg, s.last, now + 1), cfg, now + 1).None? {
      StepKeepsHeld(cfg, s, pos, seen, s.last, now);
    }
  }

  lemma PaceStep(cfg: TrailConfig, openedBlock: nat, s: Snapshot, q: Snapshot, pos: Position, seen: seq<real>, quiet: seq<real>,
                 price: Option<real>, now: nat) returns (seen': seq<real>, quiet': seq<real>)
    requires Patient(cfg) && HeldState(cfg, s, pos, seen, now) && Refines(q, cfg, pos, quiet) && Alike(pos, seen, quiet)
    ensures SameStep(cfg, pos, seen', quiet', now + 1, SnipeStep(cfg, openedBlock, Some(s), now + 1, price),
                     QuietStep(cfg, openedBlock, Some(q), now + 1, price))
  {
    match price
    case Some(p) =>
      seen', quiet' := seen + [p], quiet + [p];
      FreshStep(cfg, openedBlock, s, q, pos, seen, quiet, p, now);
    case None =>
      seen', quiet' := seen + [s.last], quiet;
      StaleStep(cfg, openedBlock, s, q, pos, seen, quiet, now);
  }

  lemma AfterAlike(cfg: TrailConfig, pos: Position, seen: seq<real>, quiet: seq<real>, block: nat,
                   x: (Option<Snapshot>, Option<SnipeEnd>), y: (Option<Snapshot>, Option<SnipeEnd>))
    requires SameStep(cfg, pos, seen, quiet, block, x, y)
    ensures SameEnd(After(x, block), After(y, block))
    ensures InStep(cfg, After(x, block), After(y, block), pos, seen, quiet, block)
  {
  }

  /** The next tick of a position that both runs track. */
  lemma TrackedNext(cfg: TrailConfig, openedBlock: nat, s: Snapshot, q: Snapshot, pos: Position, seen: seq<real>, quiet: seq<real>,
                    price: Option<real>, now: nat) returns (seen': seq<real>, quiet': seq<real>)
    requires Patient(cfg) && HeldState(cfg, s, pos, seen, now) && Refines(q, cfg, pos, quiet) && Alike(pos, seen, quiet)
    ensures var x := SnipeNext(cfg, openedBlock, Live(Some(s)), now + 1, price);
            var y := QuietNext(cfg, openedBlock, Live(Some(q)), now + 1, price);
            SameEnd(x, y) && InStep(cfg, x, y, pos, seen', quiet', now + 1)
  {
    seen', quiet' := PaceStep(cfg, openedBlock, s, q, pos, seen, quiet, price, now);
    AfterAlike(cfg, pos, seen', quiet', now + 1, SnipeStep(cfg, openedBlock, Some(s), now + 1, price),
               QuietStep(cfg, openedBlock, Some(q), now + 1, price));
  }

  /** The next tick of a position that waits for its first price, the same in both runs. */
  lemma WaitingNext(cfg: TrailConfig, openedBlock: nat, block: nat, price: Option<real>)
    requires block >= openedBlock && (price.Some? ==> price.value > 0.0)
    ensures var x := SnipeNext(cfg, openedBlock, Live(None), block, price);
            && QuietNext(cfg, openedBlock, Live(None), block, price) == x
            && InStep(cfg, x, x, Position(if price.Some? then price.value else 1.0, Max(openedBlock, SatSub(block, 1))), [], [], block)
  {
    if price.Some? {
      InitialRefines(cfg, Position(price.value, Max(openedBlock, SatSub(block, 1))), block);
    }
  }

  /** After `n` ticks both runs stand alike. */
  ghost predicate Paced(cfg: TrailConfig, x: Snipe, y: Snipe, pos: Position, seen: seq<real>, quiet: seq<real>, now: int) {
    SnipeOk(x) && SnipeOk(y) && SameEnd(x, y) && InStep(cfg, x, y, pos, seen, quiet, now)
  }

  lemma PaceNext(cfg: TrailConfig, openedBlock: nat, x: Snipe, y: Snipe, pos: Position, seen: seq<real>, quiet: seq<real>,
                 block: nat, price: Option<real>) returns (pos': Position, seen': seq<real>, quiet': seq<real>)
    requires Patient(cfg) && block >= openedBlock && (price.Some? ==> price.value > 0.0)
    requires Paced(cfg, x, y, pos, seen, quiet, block - 1)
    ensures Paced(cfg, SnipeNext(cfg, openedBlock, x, block, price), QuietNext(cfg, openedBlock, y, block, price),
                  pos', seen', quiet', block)
  {
    pos', seen', quiet' := pos, seen, quiet;
    match x
    case Gone(_, _) =>
    case Live(None) =>
      pos', seen', quiet' := Position(if price.Some? then price.value else 1.0, Max(openedBlock, SatSub(block, 1))), [], [];
      WaitingNext(cfg, openedBlock, block, price);
    case Live(Some(s)) =>
      seen', quiet' := TrackedNext(cfg, openedBlock, s, y.trail.value, pos, seen, quiet, price, block - 1);
  }

  lemma QuietUnfolds(cfg: TrailConfig, openedBlock: nat, first: nat, prices: seq<Option<real>>)
    requires prices != []
    ensures var n := |prices| - 1;
            QuietRun(cfg, openedBlock, first, prices)
            == QuietNext(cfg, openedBlock, QuietRun(cfg, openedBlock, first, prices[..n]), first + n, prices[n])
  {
  }

  lemma NothingPaced(cfg: TrailConfig, openedBlock: nat, first: nat)
    ensures Paced(cfg, SnipeRun(cfg, openedBlock, first, []), QuietRun(cfg, openedBlock, first, []),
                  Position(1.0, openedBlock), [], [], first - 1)
  {
  }

  lemma {:induction false} KeepsPace(cfg: TrailConfig, openedBlock: nat, first: nat, prices: seq<Option<real>>)
    returns (pos: Position, seen: seq<real>, quiet: seq<real>)
    requires Patient(cfg) && Positive(prices) && first >= openedBlock
    ensures Paced(cfg, SnipeRun(cfg, openedBlock, first, prices), QuietRun(cfg, openedBlock, first, prices),
                  pos, seen, quiet, first + |prices| - 1)
  {
    if prices == [] {
      pos, seen, quiet := Position(1.0, openedBlock), [], [];
      NothingPaced(cfg, openedBlock, first);
    } else {
      var n := |prices| - 1;
      pos, seen, quiet := KeepsPace(cfg, openedBlock, first, prices[..n]);
      var x, y := SnipeRun(cfg, openedBlock, first, prices[..n]), QuietRun(cfg, openedBlock, first, prices[..n]);
      RunUnfolds(cfg, openedBlock, first, prices);
      QuietUnfolds(cfg, openedBlock, first, prices);
      pos, seen, quiet := PaceNext(cfg, openedBlock, x, y, pos, seen, quiet, first + n, prices[n]);
    }
  }

  // ----- Runs in which standing still is punished -----

  /** A first price and one silent tick. */
  function EntryAgain(): seq<Option<real>> {
    [Some(1.0), None]
  }

  lemma EntryAgainExits(cfg: TrailConfig)
    requires cfg.hardSlPct <= 0.0 || (cfg.breakevenAtPct <= 0.0 && cfg.breakevenLockPct >= 0.0)
             || (cfg.armPct <= 0.0 && cfg.trailPct <= 0.0)
    ensures StaleExit(cfg, 0, 0, EntryAgain())
    ensures !SameEnd(SnipeRun(cfg, 0, 0, EntryAgain()), QuietRun(cfg, 0, 0, EntryAgain()))
  {
    var prices, pos := EntryAgain(), Position(1.0, 0);
    var s := Initial(pos, 0);
    assert prices[..1] == [Some(1.0)] && prices[..1][..0] == [];
    RunUnfolds(cfg, 0, 0, prices[..1]);
    QuietUnfolds(cfg, 0, 0, prices[..1]);
    RunUnfolds(cfg, 0, 0, prices);
    QuietUnfolds(cfg, 0, 0, prices);
    assert SnipeRun(cfg, 0, 0, prices[..1]) == Live(Some(s)) == QuietRun(cfg, 0, 0, prices[..1]);
    InitialRefines(cfg, pos, 0);
    StepRefines(s, cfg, pos, [], 1.0, 1);
    MaxFromPush(1.0, [], 1.0);
    assert [] + [1.0] == [1.0];
    assert PeakOf(pos, [1.0]) == 1.0;
    var r := Decide(cfg, pos, [1.0], 1, true);
    assert r == Some(HardStopLoss) || r == Some(BreakevenLocked) || r == Some(Trail);
    assert SnipeRun(cfg, 0, 0, prices) == Gone(1, Stopped(r.value));
  }

  /** An entry, eight prices at `high`, one at `low`, and one silent tick. */
  function GapPrices(high: real, low: real): seq<Option<real>> {
    seq(11, i => if i == 0 then Some(1.0) else if i < 9 then Some(high) else if i == 9 then Some(low) else None)
  }

  /** Each of the nine priced ticks after the entry is held. */
  lemma GapStep(cfg: TrailConfig, high: real, low: real, s: Snapshot, k: nat) returns (s': Snapshot)
    requires 0 < k <= 9 && T.InGap(cfg, Position(1.0, 0), high, low) && cfg.maxHoldBlocks > 9
    requires Refines(s, cfg, Position(1.0, 0), T.Drop(8, high, low)[..k - 1])
    ensures SnipeStep(cfg, 0, Some(s), k, GapPrices(high, low)[k]) == (Some(s'), None)
    ensures Refines(s', cfg, Position(1.0, 0), T.Drop(8, high, low)[..k])
  {
    var drop := T.Drop(8, high, low);
    assert GapPrices(high, low)[k] == Some(drop[k - 1]);
    s' := TrackedStep(cfg, 0, s, Position(1.0, 0), drop[..k - 1], Some(drop[k - 1]), k);
    assert drop[..k - 1] + [drop[k - 1]] == drop[..k];
    T.DropDecision(cfg, Position(1.0, 0), 8, high, low, k - 1, k, true);
  }

  lemma {:induction false} GapHeld(cfg: TrailConfig, high: real, low: real, k: nat)
    requires k <= 9 && T.InGap(cfg, Position(1.0, 0), high, low) && cfg.maxHoldBlocks > 9
    ensures var x := SnipeRun(cfg, 0, 0, GapPrices(high, low)[..k + 1]);
            && x.Live? && x.trail.Some? && Refines(x.trail.value, cfg, Position(1.0, 0), T.Drop(8, high, low)[..k])
            && QuietRun(cfg, 0, 0, GapPrices(high, low)[..k + 1]) == x
  {
    var prices := GapPrices(high, low);
    assert prices[..k + 1][..k] == prices[..k];
    if k == 0 {
      InitialRefines(cfg, Position(1.0, 0), 0);
    } else {
      GapHeld(cfg, high, low, k - 1);
      var s' := GapStep(cfg, high, low, SnipeRun(cfg, 0, 0, prices[..k]).trail.value, k);
    }
  }

  lemma GapStops(cfg: TrailConfig, high: real, low: real, s: Snapshot) returns (s': Snapshot)
    requires T.InGap(cfg, Position(1.0, 0), high, low)
    requires Refines(s, cfg, Position(1.0, 0), T.Drop(8, high, low)[..9])
    ensures SnipeStep(cfg, 0, Some(s), 10, None) == (Some(s'), Some(Stopped(SignalDump)))
  {
    var drop := T.Drop(8, high, low);
    s' := TrackedStep(cfg, 0, s, Position(1.0, 0), drop[..9], None, 10);
    assert s.last == low;
    assert drop[..9] + [low] == drop[..10];
    T.DropDecision(cfg, Position(1.0, 0), 8, high, low, 9, 10, true);
  }

  lemma GapExits(cfg: TrailConfig, high: real, low: real)
    requires T.InGap(cfg, Position(1.0, 0), high, low) && cfg.maxHoldBlocks > 9
    ensures Positive(GapPrices(high, low)) && StaleExit(cfg, 0, 0, GapPrices(high, low))
    ensures !SameEnd(SnipeRun(cfg, 0, 0, GapPrices(high, low)), QuietRun(cfg, 0, 0, GapPrices(high, low)))
  {
    var prices := GapPrices(high, low);
    GapHeld(cfg, high, low, 9);
    assert prices[..10] == prices[..|prices| - 1];
    var s' := GapStops(cfg, high, low, SnipeRun(cfg, 0, 0, prices[..10]).trail.value);
  }

  lemma GapRun(cfg: TrailConfig) returns (prices: seq<Option<real>>)
    requires cfg.trailPct > 0.30 && cfg.maxHoldBlocks > 9
    ensures Positive(prices) && StaleExit(cfg, 0, 0, prices)
    ensures !SameEnd(SnipeRun(cfg, 0, 0, prices), QuietRun(cfg, 0, 0, prices))
  {
    var high, low := T.GapExists(cfg, Position(1.0, 0));
    prices := GapPrices(high, low);
    GapExits(cfg, high, low);
  }

  lemma ImpatientRun(cfg: TrailConfig) returns (prices: seq<Option<real>>)
    requires !Patient(cfg)
    ensures Positive(prices) && StaleExit(cfg, 0, 0, prices)
    ensures !SameEnd(SnipeRun(cfg, 0, 0, prices), QuietRun(cfg, 0, 0, prices))
  {
    if cfg.trailPct > 0.30 && cfg.maxHoldBlocks > 9 {
      prices := GapRun(cfg);
    } else {
      prices := EntryAgain();
      EntryAgainExits(cfg);
    }
  }

  /** No run has a tick without a price that ends the position for another reason than its age. */
  ghost predicate StaleIsHarmless(cfg: TrailConfig) {
    forall openedBlock: nat, first: nat, prices: seq<Option<real>> ::
      first >= openedBlock && Positive(prices) ==> !StaleExit(cfg, openedBlock, first, prices)
  }

  /** Every run ends, or is held, as it would be if ticks without a price only checked the timeout. */
  ghost predicate StaleMakesNoDifference(cfg: TrailConfig) {
    forall openedBlock: nat, first: nat, prices: seq<Option<real>> ::
      first >= openedBlock && Positive(prices) ==>
        SameEnd(SnipeRun(cfg, openedBlock, first, prices), QuietRun(cfg, openedBlock, first, prices))
  }

  /** Exactly when a tick without a fresh price can only time a position out, in every run. */
  lemma StaleIsHarmlessIff(cfg: TrailConfig)
    ensures StaleIsHarmless(cfg) <==> Patient(cfg)
  {
    if Patient(cfg) {
      forall openedBlock: nat, first: nat, prices: seq<Option<real>> | first >= openedBlock && Positive(prices)
        ensures !StaleExit(cfg, openedBlock, first, prices)
      {
        NoStaleExit(cfg, openedBlock, first, prices);
      }
    } else {
      var prices := ImpatientRun(cfg);
    }
  }

  /** Exactly when repeating the last price makes no difference to any run, although the
      repeated prices enter the ten-slot buffer. */
  lemma StaleMakesNoDifferenceIff(cfg: TrailConfig)
    ensures StaleMakesNoDifference(cfg) <==> Patient(cfg)
  {
    if Patient(cfg) {
      forall openedBlock: nat, first: nat, prices: seq<Option<real>> | first >= openedBlock && Positive(prices)
        ensures SameEnd(SnipeRun(cfg, openedBlock, first, prices), QuietRun(cfg, openedBlock, first, prices))
      {
        var pos, seen, quiet := KeepsPace(cfg, openedBlock, first, prices);
      }
    } else {
      var prices := ImpatientRun(cfg);
    }
  }

  // ----- The bound is met -----

  /** No price until the hold cap, one price there, silence afterwards. */
  function LatePrice(maxHold: nat, price: real, n: nat): seq<Option<real>> {
    seq(n, i => if i + 1 == maxHold then Some(price) else None)
  }

  /** The run in which the only price comes at the hold cap. */
  function LateRun(cfg: TrailConfig, openedBlock: nat, price: real, n: nat): Snipe {
    SnipeRun(cfg, openedBlock, openedBlock + 1, LatePrice(cfg.maxHoldBlocks, price, n))
  }

  lemma LateRunUnfolds(cfg: TrailConfig, openedBlock: nat, price: real, n: nat)
    requires n > 0
    ensures LateRun(cfg, openedBlock, price, n) ==
            SnipeNext(cfg, openedBlock, LateRun(cfg, openedBlock, price, n - 1), openedBlock + n,
                      if n == cfg.maxHoldBlocks then Some(price) else None)
  {
    assert LatePrice(cfg.maxHoldBlocks, price, n)[..n - 1] == LatePrice(cfg.maxHoldBlocks, price, n - 1);
  }

  /** A tick of silence after the late price: overdue or held. */
  lemma SilentTick(cfg: TrailConfig, openedBlock: nat, price: real, n: nat)
    requires Patient(cfg) && price > 0.0 && n > 0
    requires LateRun(cfg, openedBlock, price, n).Live? && LateRun(cfg, openedBlock, price, n).trail.Some?
    ensures var s := LateRun(cfg, openedBlock, price, n).trail.value;
            Check(Observe(s, cfg, s.last, openedBlock + n + 1), cfg, openedBlock + n + 1)
            == if SatSub(openedBlock + n + 1, s.openedBlock) >= cfg.maxHoldBlocks then Some(Timeout) else None
  {
    var pos, seen := SnipeHeld(cfg, openedBlock, openedBlock + 1, LatePrice(cfg.maxHoldBlocks, price, n));
    StaleOnlyTimesOut(cfg, LateRun(cfg, openedBlock, price, n).trail.value, pos, seen, openedBlock + n);
  }

  lemma LateTimeout(cfg: TrailConfig, openedBlock: nat, price: real, n: nat)
    requires Patient(cfg) && price > 0.0 && n > cfg.maxHoldBlocks
    requires LateRun(cfg, openedBlock, price, n - 1).Live? && LateRun(cfg, openedBlock, price, n - 1).trail.Some?
    requires SatSub(openedBlock + n, LateRun(cfg, openedBlock, price, n - 1).trail.value.openedBlock) >= cfg.maxHoldBlocks
    ensures LateRun(cfg, openedBlock, price, n) == Gone(openedBlock + n, Stopped(Timeout))
  {
    LateRunUnfolds(cfg, openedBlock, price, n);
    SilentTick(cfg, openedBlock, price, n - 1);
  }

  lemma {:induction false} LatePriceIsHeld(cfg: TrailConfig, openedBlock: nat, price: real, n: nat)
    requires Patient(cfg) && cfg.maxHoldBlocks >= 1 && price > 0.0 && n < LifeBound(cfg.maxHoldBlocks)
    ensures var x := LateRun(cfg, openedBlock, price, n);
            && x.Live?
            && (x.trail.Some? <==> n >= cfg.maxHoldBlocks)
            && (x.trail.Some? ==> x.trail.value.openedBlock == openedBlock + cfg.maxHoldBlocks - 1)
  {
    if n > 0 {
      LatePriceIsHeld(cfg, openedBlock, price, n - 1);
      LateRunUnfolds(cfg, openedBlock, price, n);
      if n > cfg.maxHoldBlocks {
        SilentTick(cfg, openedBlock, price, n - 1);
      }
    }
  }

  /** The bound is met: a first price in the last possible tick, then silence, and the
      position leaves in exactly that many blocks. */
  lemma LifetimeBoundIsTight(cfg: TrailConfig, openedBlock: nat, price: real)
    requires Patient(cfg) && cfg.maxHoldBlocks >= 1 && price > 0.0
    ensures var n := LifeBound(cfg.maxHoldBlocks);
            LateRun(cfg, openedBlock, price, n) == Gone(openedBlock + n, Stopped(Timeout))
  {
    var n := LifeBound(cfg.maxHoldBlocks);
    LatePriceIsHeld(cfg, openedBlock, price, n - 1);
    LateTimeout(cfg, openedBlock, price, n);
  }
}
