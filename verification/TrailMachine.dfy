/** The trailing-stop machine as it runs: constant-size state updated at every tick. */
module TrailMachine {
  import opened Common
  import opened TrailRule

  /** The value of a trail state, which the watcher copies in and out of its map. */
  datatype Snapshot = Snapshot(
    entry: real,
    peak: real,
    last: real,
    armed: bool,
    openedBlock: nat,
    lastBlock: nat,
    history: seq<real>,
    count: nat,
    idx: nat,
    ratcheted: bool)
  {
    function Pos(): Position {
      Position(entry, openedBlock)
    }

    predicate WellFormed() {
      |history| == HISTORY_LEN && count <= HISTORY_LEN && idx < HISTORY_LEN
    }
  }

  function Initial(pos: Position, block: nat): Snapshot {
    Snapshot(pos.entry, pos.entry, pos.entry, false, pos.openedBlock, block,
             seq(HISTORY_LEN, _ => 0.0), 0, 0, false)
  }

  /** The state after observing `price` at `block`. */
  function Observe(s: Snapshot, cfg: TrailConfig, price: real, block: nat): Snapshot
    requires s.WellFormed()
  {
    var peak := if price > s.peak then price else s.peak;
    s.(peak := peak,
       last := price,
       lastBlock := block,
       history := s.history[s.idx := price],
       idx := (s.idx + 1) % HISTORY_LEN,
       count := if s.count < HISTORY_LEN then s.count + 1 else s.count,
       armed := s.armed || peak >= ArmLevel(cfg, s.Pos()),
       ratcheted := s.ratcheted || peak >= RatchetLevel(cfg, s.Pos()))
  }

  function FloorOf(s: Snapshot, cfg: TrailConfig): real {
    if s.ratcheted then RMax(HardFloor(cfg, s.Pos()), LockFloor(cfg, s.Pos())) else HardFloor(cfg, s.Pos())
  }

  /** The exit checks of a step, on the state that `Observe` left. */
  function Check(s: Snapshot, cfg: TrailConfig, block: nat): Option<ExitReason>
    requires s.WellFormed()
  {
    if s.last <= FloorOf(s, cfg) then
      Some(if s.ratcheted && LockFloor(cfg, s.Pos()) > HardFloor(cfg, s.Pos())
           then BreakevenLocked else HardStopLoss)
    else if s.armed && s.count >= HISTORY_LEN && FarBelow(LocalMax(s.history), s.last) && Falling(s.history[s.idx], s.last) then
      Some(SignalDump)
    else if s.armed && s.last <= TrailLevel(cfg, s.peak) then Some(Trail)
    else if SatSub(block, s.openedBlock) >= cfg.maxHoldBlocks then Some(Timeout)
    else None
  }

  /** The vote count, read off the circular buffer. */
  function VoteCount(s: Snapshot, price: real, flow: Option<Flow>): Option<nat>
    requires s.WellFormed()
  {
    if LocalMax(s.history) <= 0.0 || s.history[s.idx] <= 0.0 || flow.None? then None
    else Some((if FarBelow(LocalMax(s.history), price) then 1 else 0)
              + (if Falling(s.history[s.idx], price) then 1 else 0)
              + (if BuyCollapse(flow.value) then 1 else 0)
              + (if NetSelling(flow.value) then 1 else 0))
  }

  /** Where the price with index `j` among all observed prices is kept. */
  function Slot(j: nat): nat {
    j % HISTORY_LEN
  }

  /** The buffer holds the last ten prices, each in its slot, and zeroes elsewhere. */
  ghost predicate BufferHolds(buffer: seq<real>, seen: seq<real>) {
    && |buffer| == HISTORY_LEN
    && (forall j :: Max(0, |seen| - HISTORY_LEN) <= j < |seen| ==> buffer[Slot(j)] == seen[j])
    && (forall i :: |seen| <= i < HISTORY_LEN ==> buffer[i] == 0.0)
  }

  lemma PushHolds(buffer: seq<real>, seen: seq<real>, price: real)
    requires BufferHolds(buffer, seen)
    ensures BufferHolds(buffer[Slot(|seen|) := price], seen + [price])
  {
    var seen' := seen + [price];
    forall j | Max(0, |seen'| - HISTORY_LEN) <= j < |seen|
      ensures Slot(j) != Slot(|seen|)
    {
      assert 0 < |seen| - j < HISTORY_LEN;
    }
  }

  /** Slots of the buffer and prices of the window are the same numbers, up to the
      zeroes of the slots not written yet. */
  lemma BufferIsWindow(buffer: seq<real>, seen: seq<real>)
    requires BufferHolds(buffer, seen)
    ensures LocalMax(buffer) == LocalMax(Window(seen))
  {
    var w := Window(seen);
    forall x | x in buffer ensures x == 0.0 || x in w {
      BufferInWindow(buffer, seen, x);
    }
    forall x | x in w ensures x in buffer {
      WindowInBuffer(buffer, seen, x);
    }
    SameMax(0.0, buffer, w);
  }

  /** In a full buffer the next slot to overwrite holds the oldest price of the window. */
  lemma OldestIsNext(buffer: seq<real>, seen: seq<real>)
    requires BufferHolds(buffer, seen) && |seen| >= HISTORY_LEN
    ensures buffer[Slot(|seen|)] == Window(seen)[0]
  {
    assert Slot(|seen| - HISTORY_LEN) == Slot(|seen|);
  }

  lemma BufferInWindow(buffer: seq<real>, seen: seq<real>, x: real)
    requires BufferHolds(buffer, seen) && x in buffer
    ensures x == 0.0 || x in Window(seen)
  {
    var w := Window(seen);
    var i :| 0 <= i < HISTORY_LEN && buffer[i] == x;
    if i < |seen| {
      var k := SlotOwner(|seen|, i);
      assert x == seen[k] == w[k - (|seen| - |w|)];
    }
  }

  lemma WindowInBuffer(buffer: seq<real>, seen: seq<real>, x: real)
    requires BufferHolds(buffer, seen) && x in Window(seen)
    ensures x in buffer
  {
    var w := Window(seen);
    var k :| 0 <= k < |w| && w[k] == x;
    var j := |seen| - |w| + k;
    assert x == seen[j] == buffer[Slot(j)];
  }

  lemma SlotNext(n: nat)
    ensures Slot(n + 1) == (Slot(n) + 1) % HISTORY_LEN
  {
  }

  /** The price among the last ten of `n` that is kept in slot `i`. */
  lemma SlotOwner(n: nat, i: nat) returns (k: nat)
    requires i < HISTORY_LEN && i < n
    ensures Max(0, n - HISTORY_LEN) <= k < n && Slot(k) == i
  {
    var base := Max(0, n - HISTORY_LEN);
    k := base + (i - base) % HISTORY_LEN;
  }

  /** The state says exactly what `seen` says: this is the meaning of every field. */
  ghost predicate Refines(s: Snapshot, cfg: TrailConfig, pos: Position, seen: seq<real>) {
    && s.WellFormed()
    && s.Pos() == pos
    && s.peak == PeakOf(pos, seen)
    && s.last == (if seen == [] then pos.entry else Last(seen))
    && s.armed == Armed(cfg, pos, seen)
    && s.ratcheted == Ratcheted(cfg, pos, seen)
    && s.count == Min(|seen|, HISTORY_LEN)
    && s.idx == Slot(|seen|)
    && BufferHolds(s.history, seen)
  }

  lemma InitialRefines(cfg: TrailConfig, pos: Position, block: nat)
    ensures Refines(Initial(pos, block), cfg, pos, [])
  {
  }

  lemma ObserveRefines(s: Snapshot, cfg: TrailConfig, pos: Position, seen: seq<real>, price: real, block: nat)
    requires Refines(s, cfg, pos, seen)
    ensures Refines(Observe(s, cfg, price, block), cfg, pos, seen + [price])
  {
    MaxFromPush(pos.entry, seen, price);
    PushHolds(s.history, seen, price);
    SlotNext(|seen|);
  }

  /** One step of the machine decides what the rule over the whole history decides. */
  lemma StepRefines(s: Snapshot, cfg: TrailConfig, pos: Position, seen: seq<real>, price: real, block: nat)
    requires Refines(s, cfg, pos, seen)
    ensures Refines(Observe(s, cfg, price, block), cfg, pos, seen + [price])
    ensures Check(Observe(s, cfg, price, block), cfg, block) == Decide(cfg, pos, seen + [price], block, true)
  {
    ObserveRefines(s, cfg, pos, seen, price, block);
    BufferIsWindow(Observe(s, cfg, price, block).history, seen + [price]);
    if |seen + [price]| >= HISTORY_LEN {
      OldestIsNext(Observe(s, cfg, price, block).history, seen + [price]);
    }
  }

  /** The vote on the state before the push counts what the rule counts. */
  lemma VoteRefines(s: Snapshot, cfg: TrailConfig, pos: Position, seen: seq<real>, price: real, flow: Option<Flow>)
    requires Refines(s, cfg, pos, seen)
    requires |seen| >= HISTORY_LEN
    ensures VoteCount(s, price, flow) == Votes(seen, price, flow)
  {
    BufferIsWindow(s.history, seen);
    OldestIsNext(s.history, seen);
  }

  /** The trail state itself. Everything but the position is updated in place. */
  class TrailState {
    const entry: real
    const openedBlock: nat
    var peak: real
    var last: real
    var armed: bool
    var lastBlock: nat
    const priceHistory: array<real>
    var count: nat
    var idx: nat
    var ratcheted: bool

    ghost predicate Valid()
      reads this
    {
      priceHistory.Length == HISTORY_LEN && count <= HISTORY_LEN && idx < HISTORY_LEN
    }

    function View(): (s: Snapshot)
      requires Valid()
      reads this, priceHistory
      ensures s.WellFormed()
    {
      Snapshot(entry, peak, last, armed, openedBlock, lastBlock, priceHistory[..], count, idx, ratcheted)
    }

    constructor (s: Snapshot)
      requires s.WellFormed()
      ensures Valid() && fresh(priceHistory) && View() == s
    {
      entry, peak, last, armed := s.entry, s.peak, s.last, s.armed;
      openedBlock, lastBlock := s.openedBlock, s.lastBlock;
      priceHistory := new real[HISTORY_LEN](i requires 0 <= i < HISTORY_LEN => s.history[i]);
      count, idx, ratcheted := s.count, s.idx, s.ratcheted;
      new;
      assert priceHistory[..] == s.history;
    }

    method HistoryMax() returns (m: real)
      requires Valid()
      ensures m == LocalMax(priceHistory[..])
    {
      m := 0.0;
      for i := 0 to priceHistory.Length
        invariant m == MaxFrom(0.0, priceHistory[..i])
      {
        MaxFromPush(0.0, priceHistory[..i], priceHistory[i]);
        assert priceHistory[..i + 1] == priceHistory[..i] + [priceHistory[i]];
        m := RMax(m, priceHistory[i]);
      }
      assert priceHistory[..priceHistory.Length] == priceHistory[..];
    }

    /** Overwrites the oldest slot of the circular buffer. */
    method Push(price: real)
      requires Valid()
      modifies this`idx, this`count, priceHistory
      ensures Valid()
      ensures priceHistory[..] == old(priceHistory[..])[old(idx) := price]
      ensures idx == (old(idx) + 1) % HISTORY_LEN
      ensures count == if old(count) < HISTORY_LEN then old(count) + 1 else old(count)
    {
      priceHistory[idx] := price;
      idx := (idx + 1) % HISTORY_LEN;
      if count < HISTORY_LEN {
        count := count + 1;
      }
    }

    /** The updating half of a step. */
    method Update(cfg: TrailConfig, price: real, block: nat)
      requires Valid()
      modifies this, priceHistory
      ensures Valid()
      ensures View() == Observe(old(View()), cfg, price, block)
    {
      if price > peak {
        peak := price;
      }
      last := price;
      lastBlock := block;
      Push(price);
      var pos := Position(entry, openedBlock);
      if !armed && peak >= ArmLevel(cfg, pos) {
        armed := true;
      }
      if !ratcheted && peak >= RatchetLevel(cfg, pos) {
        ratcheted := true;
      }
    }

    /** The deciding half: the exit checks, in order of priority. */
    method CheckExit(cfg: TrailConfig, block: nat) returns (exit: Option<ExitReason>)
      requires Valid()
      ensures exit == Check(View(), cfg, block)
    {
      var pos := Position(entry, openedBlock);
      var hardFloor := HardFloor(cfg, pos);
      var lockFloor := LockFloor(cfg, pos);
      var floor := hardFloor;
      if ratcheted {
        floor := RMax(hardFloor, lockFloor);
      }
      if last <= floor {
        if ratcheted && lockFloor > hardFloor {
          return Some(BreakevenLocked);
        }
        return Some(HardStopLoss);
      }
      if armed && count >= HISTORY_LEN {
        var localMax := HistoryMax();
        var oldest := priceHistory[idx];
        if localMax > 0.0 && oldest > 0.0 {
          var dist := (localMax - last) / localMax;
          var vel := (last - oldest) / oldest / 10.0;
          if dist > 0.30 && vel < -0.01 {
            return Some(SignalDump);
          }
        }
      }
      if armed {
        if last <= TrailLevel(cfg, peak) {
          return Some(Trail);
        }
      }
      if SatSub(block, openedBlock) >= cfg.maxHoldBlocks {
        return Some(Timeout);
      }
      return None;
    }

    /** One observation: update the state, then run the exit checks. */
    method Step(cfg: TrailConfig, price: real, block: nat) returns (exit: Option<ExitReason>)
      requires Valid()
      modifies this, priceHistory
      ensures Valid()
      ensures View() == Observe(old(View()), cfg, price, block)
      ensures exit == Check(View(), cfg, block)
    {
      Update(cfg, price, block);
      exit := CheckExit(cfg, block);
    }

    /** The vote count at the next price, on the state as the last step left it. */
    method ComputeVotes(price: real, flow: Option<Flow>) returns (votes: Option<nat>)
      requires Valid()
      ensures votes == VoteCount(View(), price, flow)
    {
      var localMax := HistoryMax();
      if localMax <= 0.0 {
        return None;
      }
      var dist := (localMax - price) / localMax;
      var oldest := priceHistory[idx];
      if oldest <= 0.0 {
        return None;
      }
      var vel := (price - oldest) / oldest / 10.0;
      if flow.None? {
        return None;
      }
      var rate3 := flow.value.buys3 as real / 3.0;
      var rate10 := flow.value.buys10 as real / 10.0;
      var collapse := if rate10 > 0.0 then rate3 / rate10 else 1.0;
      var netFlow := flow.value.netFlow3Wei as real / 1000000000000000000.0;
      var n := 0;
      if dist > 0.30 { n := n + 1; }
      if vel < -0.01 { n := n + 1; }
      if collapse < 0.5 { n := n + 1; }
      if netFlow < -1.0 { n := n + 1; }
      return Some(n);
    }
  }
}
