/** The exit rule of the adaptive trailing stop, stated from scratch over everything
    that was observed since the position was opened: no peak field, no arm flag,
    no circular buffer. The machine that keeps those is in TrailMachine. */
module TrailRule {
  import opened Common

  const HISTORY_LEN: nat := 10

  datatype TrailConfig = TrailConfig(
    armPct: real,
    trailPct: real,
    hardSlPct: real,
    maxHoldBlocks: nat,
    breakevenAtPct: real,
    breakevenLockPct: real)

  datatype ExitReason = HardStopLoss | BreakevenLocked | SignalDump | SignalVote | Trail | Timeout

  /** What never changes while a position is held. */
  datatype Position = Position(entry: real, openedBlock: nat)

  /** The three figures the vote reads from the rolling trade statistics. */
  datatype Flow = Flow(buys3: nat, buys10: nat, netFlow3Wei: int)

  /** One block: its number, the price if one was observed, the flow figures if
      the token has any. */
  datatype Tick = Tick(block: nat, price: Option<real>, flow: Option<Flow>)

  /** The greatest of `base` and all of `prices`. */
  function MaxFrom(base: real, prices: seq<real>): real {
    if prices == [] then base
    else RMax(MaxFrom(base, prices[..|prices| - 1]), prices[|prices| - 1])
  }

  /** What makes it the greatest: an upper bound that is one of them. */
  lemma {:induction false} MaxFromIsMax(base: real, prices: seq<real>)
    ensures base <= MaxFrom(base, prices)
    ensures forall x :: x in prices ==> x <= MaxFrom(base, prices)
    ensures MaxFrom(base, prices) == base || MaxFrom(base, prices) in prices
  {
    if prices != [] {
      var n := |prices| - 1;
      MaxFromIsMax(base, prices[..n]);
      assert prices == prices[..n] + [prices[n]];
    }
  }

  lemma MaxFromPush(base: real, prices: seq<real>, price: real)
    ensures MaxFrom(base, prices + [price]) == RMax(MaxFrom(base, prices), price)
  {
    assert (prices + [price])[..|prices|] == prices;
  }

  /** Two lists with the same members, up to `base`, have the same greatest. */
  lemma SameMax(base: real, a: seq<real>, b: seq<real>)
    requires forall x :: x in a ==> x == base || x in b
    requires forall x :: x in b ==> x == base || x in a
    ensures MaxFrom(base, a) == MaxFrom(base, b)
  {
    MaxFromIsMax(base, a);
    MaxFromIsMax(base, b);
  }

  function Last(prices: seq<real>): real
    requires prices != []
  {
    prices[|prices| - 1]
  }

  function Window(prices: seq<real>): seq<real> {
    if |prices| <= HISTORY_LEN then prices else prices[|prices| - HISTORY_LEN..]
  }

  function PeakOf(pos: Position, seen: seq<real>): real {
    MaxFrom(pos.entry, seen)
  }

  function ArmLevel(cfg: TrailConfig, pos: Position): real {
    pos.entry * (1.0 + cfg.armPct)
  }

  function RatchetLevel(cfg: TrailConfig, pos: Position): real {
    pos.entry * (1.0 + cfg.breakevenAtPct)
  }

  /** The arm and ratchet tests run inside a step, so nothing is armed before the first price. */
  predicate Armed(cfg: TrailConfig, pos: Position, seen: seq<real>) {
    seen != [] && PeakOf(pos, seen) >= ArmLevel(cfg, pos)
  }

  predicate Ratcheted(cfg: TrailConfig, pos: Position, seen: seq<real>) {
    seen != [] && PeakOf(pos, seen) >= RatchetLevel(cfg, pos)
  }

  function HardFloor(cfg: TrailConfig, pos: Position): real {
    pos.entry * (1.0 - cfg.hardSlPct)
  }

  function LockFloor(cfg: TrailConfig, pos: Position): real {
    pos.entry * (1.0 + cfg.breakevenLockPct)
  }

  function EffectiveFloor(cfg: TrailConfig, pos: Position, seen: seq<real>): real {
    if Ratcheted(cfg, pos, seen) then RMax(HardFloor(cfg, pos), LockFloor(cfg, pos))
    else HardFloor(cfg, pos)
  }

  function TrailLevel(cfg: TrailConfig, peak: real): real {
    peak * (1.0 - cfg.trailPct)
  }

  function TrailFloor(cfg: TrailConfig, pos: Position, seen: seq<real>): real {
    TrailLevel(cfg, PeakOf(pos, seen))
  }

  /** The greatest of a stretch of prices, and of zero. */
  function LocalMax(window: seq<real>): real {
    MaxFrom(0.0, window)
  }

  /** More than 30% below `localMax`. */
  predicate FarBelow(localMax: real, price: real) {
    localMax > 0.0 && (localMax - price) / localMax > 0.30
  }

  /** Falling faster than 1% a block, measured from `oldest` over ten blocks. */
  predicate Falling(oldest: real, price: real) {
    oldest > 0.0 && (price - oldest) / oldest / 10.0 < -0.01
  }

  /** The leading exit: the window holds the current price, so its oldest price is
      nine prices back. */
  predicate DumpSignal(seen: seq<real>) {
    && |seen| >= HISTORY_LEN
    && FarBelow(LocalMax(Window(seen)), Last(seen))
    && Falling(Window(seen)[0], Last(seen))
  }

  predicate Overdue(cfg: TrailConfig, pos: Position, block: nat) {
    SatSub(block, pos.openedBlock) >= cfg.maxHoldBlocks
  }

  /** What a step decides once the current price is the last of `seen`. `dump` says
      whether the leading exit is in force. */
  function Decide(cfg: TrailConfig, pos: Position, seen: seq<real>, block: nat, dump: bool): Option<ExitReason>
    requires seen != []
  {
    if Last(seen) <= EffectiveFloor(cfg, pos, seen) then
      Some(if Ratcheted(cfg, pos, seen) && LockFloor(cfg, pos) > HardFloor(cfg, pos)
           then BreakevenLocked else HardStopLoss)
    else if dump && Armed(cfg, pos, seen) && DumpSignal(seen) then Some(SignalDump)
    else if Armed(cfg, pos, seen) && Last(seen) <= TrailFloor(cfg, pos, seen) then Some(Trail)
    else if Overdue(cfg, pos, block) then Some(Timeout)
    else None
  }

  /** Buys per block over three blocks less than half of buys per block over ten. */
  predicate BuyCollapse(f: Flow) {
    var rate3 := f.buys3 as real / 3.0;
    var rate10 := f.buys10 as real / 10.0;
    (if rate10 > 0.0 then rate3 / rate10 else 1.0) < 0.5
  }

  predicate NetSelling(f: Flow) {
    f.netFlow3Wei as real / 1000000000000000000.0 < -1.0
  }

  /** The four-signal count, taken before `price` joins the history: the window then
      ends at the previous price and its oldest price is ten prices back. */
  function Votes(before: seq<real>, price: real, flow: Option<Flow>): Option<nat> {
    if before == [] || LocalMax(Window(before)) <= 0.0 || Window(before)[0] <= 0.0 || flow.None? then None
    else Some((if FarBelow(LocalMax(Window(before)), price) then 1 else 0)
              + (if Falling(Window(before)[0], price) then 1 else 0)
              + (if BuyCollapse(flow.value) then 1 else 0)
              + (if NetSelling(flow.value) then 1 else 0))
  }

  predicate VoteFires(cfg: TrailConfig, pos: Position, before: seq<real>, price: real, flow: Option<Flow>) {
    && Armed(cfg, pos, before)
    && |before| >= HISTORY_LEN
    && Votes(before, price, flow).Some?
    && Votes(before, price, flow).value >= 3
  }

  /** The prices among the ticks, in order. */
  function Seen(ticks: seq<Tick>): seq<real> {
    if ticks == [] then []
    else
      var before := Seen(ticks[..|ticks| - 1]);
      match ticks[|ticks| - 1].price
      case None => before
      case Some(p) => before + [p]
  }

  /** What the watcher decides at the last of `ticks`. */
  function WatchDecide(cfg: TrailConfig, pos: Position, ticks: seq<Tick>, dump: bool): Option<ExitReason> {
    if ticks == [] then None
    else
      var t := ticks[|ticks| - 1];
      var before := Seen(ticks[..|ticks| - 1]);
      match t.price
      case None => if Overdue(cfg, pos, t.block) then Some(Timeout) else None
      case Some(p) =>
        if VoteFires(cfg, pos, before, p, t.flow) then Some(SignalVote)
        else Decide(cfg, pos, before + [p], t.block, dump)
  }

  /** What the watcher decides at tick `i`. */
  function DecideAt(cfg: TrailConfig, pos: Position, ticks: seq<Tick>, dump: bool, i: nat): Option<ExitReason>
    requires i < |ticks|
  {
    WatchDecide(cfg, pos, ticks[..i + 1], dump)
  }

  /** The decision at a tick does not look past it. */
  lemma DecideAtPrefix(cfg: TrailConfig, pos: Position, ticks: seq<Tick>, dump: bool, n: nat)
    requires n <= |ticks|
    ensures forall i :: 0 <= i < n ==> DecideAt(cfg, pos, ticks[..n], dump, i) == DecideAt(cfg, pos, ticks, dump, i)
  {
    forall i | 0 <= i < n
      ensures DecideAt(cfg, pos, ticks[..n], dump, i) == DecideAt(cfg, pos, ticks, dump, i)
    {
      assert ticks[..n][..i + 1] == ticks[..i + 1];
    }
  }

  /** The first tick at which the rule exits, and why. */
  function FirstExit(cfg: TrailConfig, pos: Position, ticks: seq<Tick>, dump: bool): (r: Option<(nat, ExitReason)>)
    ensures r.None? ==> forall i :: 0 <= i < |ticks| ==> DecideAt(cfg, pos, ticks, dump, i).None?
    ensures r.Some? ==>
              && r.value.0 < |ticks|
              && DecideAt(cfg, pos, ticks, dump, r.value.0) == Some(r.value.1)
              && forall i :: 0 <= i < r.value.0 ==> DecideAt(cfg, pos, ticks, dump, i).None?
  {
    if ticks == [] then None
    else
      var n := |ticks| - 1;
      DecideAtPrefix(cfg, pos, ticks, dump, n);
      assert ticks[..n + 1] == ticks;
      match FirstExit(cfg, pos, ticks[..n], dump)
      case Some(x) => Some(x)
      case None =>
        match WatchDecide(cfg, pos, ticks, dump)
        case Some(r) => Some((n, r))
        case None => None
  }
}
