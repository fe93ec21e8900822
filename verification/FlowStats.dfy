/** Rolling per-token trade statistics: a deque of at most ten block summaries that has
    to agree with the whole trade log. Counters wrap at 32 bits, wei sums saturate at
    128 bits, and the net flow is computed in wrapping signed 128-bit arithmetic. */
module FlowStats {
  import opened Common

  const STATS_WINDOW: nat := 10
  const U32: nat := 0x1_0000_0000
  const U128: nat := 0x1_0000_0000_0000_0000_0000_0000_0000_0000
  const I128: int := 0x8000_0000_0000_0000_0000_0000_0000_0000

  type Wei = x: nat | x < U128

  datatype Trade = Trade(block: nat, isBuy: bool, wei: Wei)

  datatype BlockStats = BlockStats(block: nat, buyCount: nat, sellCount: nat, buyWei: Wei, sellWei: Wei)

  // ----- What the log says -----

  function Count(trades: seq<Trade>, buys: bool): nat {
    if trades == [] then 0
    else Count(trades[..|trades| - 1], buys) + if trades[|trades| - 1].isBuy == buys then 1 else 0
  }

  function Volume(trades: seq<Trade>, buys: bool): nat {
    if trades == [] then 0
    else Volume(trades[..|trades| - 1], buys) + if trades[|trades| - 1].isBuy == buys then trades[|trades| - 1].wei else 0
  }

  /** A nonempty stretch of trades. */
  type Run = r: seq<Trade> | |r| > 0 witness [Trade(0, true, 0)]

  function BlockOf(run: Run): nat {
    run[0].block
  }

  /** The maximal stretches of consecutive trades in one block, in order. */
  function Runs(log: seq<Trade>): seq<Run> {
    if log == [] then []
    else
      var t := log[|log| - 1];
      WithTrade(Runs(log[..|log| - 1]), t)
  }

  function Concat(runs: seq<Run>): seq<Trade> {
    if runs == [] then [] else Concat(runs[..|runs| - 1]) + runs[|runs| - 1]
  }

  predicate OneBlock(run: Run) {
    forall k :: 0 <= k < |run| ==> run[k].block == BlockOf(run)
  }

  /** The runs rebuild the log, each lies in one block, and neighbours lie in different blocks. */
  ghost predicate AreMaximalRuns(runs: seq<Run>, log: seq<Trade>) {
    && Concat(runs) == log
    && (forall i :: 0 <= i < |runs| ==> OneBlock(runs[i]))
    && (forall i :: 0 <= i < |runs| - 1 ==> BlockOf(runs[i]) != BlockOf(runs[i + 1]))
  }

  function Saturate(x: nat): Wei {
    if x < U128 then x else U128 - 1
  }

  function Wrap32(x: nat): nat {
    x % U32
  }

  function Summary(run: Run): BlockStats {
    BlockStats(BlockOf(run), Wrap32(Count(run, true)), Wrap32(Count(run, false)),
               Saturate(Volume(run, true)), Saturate(Volume(run, false)))
  }

  function Summaries(runs: seq<Run>): (r: seq<BlockStats>)
    ensures |r| == |runs|
    ensures forall i :: 0 <= i < |runs| ==> r[i] == Summary(runs[i])
  {
    seq(|runs|, i requires 0 <= i < |runs| => Summary(runs[i]))
  }

  function LastN<T>(s: seq<T>, n: nat): seq<T> {
    s[|s| - Min(n, |s|)..]
  }

  lemma ConcatPush(runs: seq<Run>, run: Run)
    ensures Concat(runs + [run]) == Concat(runs) + run
  {
    assert (runs + [run])[..|runs|] == runs;
  }

  function WithTrade(runs: seq<Run>, t: Trade): seq<Run> {
    var n := |runs|;
    if n > 0 && BlockOf(runs[n - 1]) == t.block then runs[n - 1 := runs[n - 1] + [t]] else runs + [[t]]
  }

  /** Adding a trade to maximal runs gives maximal runs. */
  lemma GrowRuns(front: seq<Run>, last: Run, log: seq<Trade>, t: Trade)
    requires AreMaximalRuns(front + [last], log)
    ensures BlockOf(last) == t.block ==> AreMaximalRuns(front + [last + [t]], log + [t])
    ensures BlockOf(last) != t.block ==> AreMaximalRuns(front + [last] + [[t]], log + [t])
  {
    var runs := front + [last];
    ConcatPush(front, last);
    ConcatPush(front, last + [t]);
    ConcatPush(runs, [t]);
    assert OneBlock(runs[|front|]);
    assert forall i :: 0 <= i < |front| ==> runs[i] == front[i] && OneBlock(runs[i]);
    if |front| > 0 {
      assert runs[|front| - 1] == front[|front| - 1] && BlockOf(runs[|front| - 1]) != BlockOf(runs[|front|]);
    }
  }

  lemma WithTradeIsMaximal(runs: seq<Run>, log: seq<Trade>, t: Trade)
    requires AreMaximalRuns(runs, log)
    ensures AreMaximalRuns(WithTrade(runs, t), log + [t])
  {
    if runs == [] {
      ConcatPush([], [t]);
      assert [] + [[t]] == [[t]];
    } else {
      var front, last := runs[..|runs| - 1], runs[|runs| - 1];
      assert runs == front + [last];
      GrowRuns(front, last, log, t);
      assert runs[|runs| - 1 := last + [t]] == front + [last + [t]];
    }
  }

  lemma NextIsMaximal(runs: seq<Run>, log: seq<Trade>, longer: seq<Trade>, t: Trade)
    requires AreMaximalRuns(runs, log) && longer == log + [t]
    ensures AreMaximalRuns(WithTrade(runs, t), longer)
  {
    WithTradeIsMaximal(runs, log, t);
  }

  lemma RunsUnfold(log: seq<Trade>)
    requires log != []
    ensures Runs(log) == WithTrade(Runs(log[..|log| - 1]), log[|log| - 1])
  {
  }

  lemma {:induction false} RunsAreMaximal(log: seq<Trade>)
    ensures AreMaximalRuns(Runs(log), log)
  {
    if log == [] {
      NothingIsMaximal();
    } else {
      var n := |log| - 1;
      var before: seq<Run> := Runs(log[..n]);
      RunsAreMaximal(log[..n]);
      NextIsMaximal(before, log[..n], log, log[n]);
      RunsUnfold(log);
    }
  }

  lemma NothingIsMaximal()
    ensures AreMaximalRuns([], [])
  {
  }

  // ----- The deque -----

  function WrapI128(x: int): int {
    (x + I128) % U128 - I128
  }

  function SumCounts(blocks: seq<BlockStats>, buys: bool): nat {
    if blocks == [] then 0
    else Wrap32(SumCounts(blocks[1..], buys) + if buys then blocks[0].buyCount else blocks[0].sellCount)
  }

  function SumFlow(blocks: seq<BlockStats>): int {
    if blocks == [] then 0
    else WrapI128(SumFlow(blocks[1..]) + WrapI128(WrapI128(blocks[0].buyWei) - WrapI128(blocks[0].sellWei)))
  }

  /** What a deque that was fed `log` holds. */
  function DequeOf(log: seq<Trade>): seq<BlockStats> {
    LastN(Summaries(Runs(log)), STATS_WINDOW)
  }

  /** At most ten summaries, the latest ones. */
  lemma DequeHoldsTen(log: seq<Trade>)
    ensures |DequeOf(log)| == Min(10, |Runs(log)|)
  {
  }

  /** Counters wrap at 2^32, sums stop below 2^128, and the net flow is the representative of
      its class in the signed range. */
  lemma Overflows(x: nat, y: int)
    ensures x < 0x1_0000_0000 ==> Wrap32(x) == x
    ensures Wrap32(x + 0x1_0000_0000) == Wrap32(x)
    ensures Saturate(x) as nat == Min(x, 0xffff_ffff_ffff_ffff_ffff_ffff_ffff_ffff)
    ensures -0x8000_0000_0000_0000_0000_0000_0000_0000 <= WrapI128(y) < 0x8000_0000_0000_0000_0000_0000_0000_0000
    ensures (WrapI128(y) - y) % 0x1_0000_0000_0000_0000_0000_0000_0000_0000 == 0
  {
    assert (y + I128) == (y + I128) / U128 * U128 + (y + I128) % U128;
  }

  class TokenStats {
    var blocks: seq<BlockStats>
    ghost var log: seq<Trade>

    /** The deque is the summaries of the last ten runs of the log. */
    ghost predicate Valid()
      reads this
    {
      blocks == DequeOf(log)
    }

    constructor ()
      ensures Valid() && log == []
    {
      blocks, log := [], [];
    }

    /** A deque that is already there. */
    constructor Load(blocks: seq<BlockStats>, ghost log: seq<Trade>)
      requires blocks == DequeOf(log)
      ensures Valid() && this.log == log && this.blocks == blocks
    {
      this.blocks, this.log := blocks, log;
    }

    method Ingest(block: nat, isBuy: bool, wei: Wei)
      requires Valid()
      modifies this
      ensures Valid() && |blocks| <= 10
      ensures log == old(log) + [Trade(block, isBuy, wei)]
    {
      IngestRuns(log, Trade(block, isBuy, wei));
      WindowBump(Summaries(Runs(log)), Trade(block, isBuy, wei));
      Push(block, isBuy, wei);
      log := log + [Trade(block, isBuy, wei)];
    }

    /** The work on the deque alone. */
    method Push(block: nat, isBuy: bool, wei: Wei)
      requires |blocks| <= STATS_WINDOW
      modifies this`blocks
      ensures blocks == LastN(BumpLast(old(blocks), Trade(block, isBuy, wei)), STATS_WINDOW)
    {
      var needNew := |blocks| == 0 || blocks[|blocks| - 1].block != block;
      if needNew {
        blocks := blocks + [BlockStats(block, 0, 0, 0, 0)];
        TrimFront();
      }
      AddToLast(isBuy, wei);
    }

    /** Drops blocks from the front until the window is not exceeded. */
    method TrimFront()
      modifies this`blocks
      ensures blocks == LastN(old(blocks), STATS_WINDOW)
    {
      ghost var pushed := blocks;
      while |blocks| > STATS_WINDOW
        invariant |blocks| <= |pushed|
        invariant |blocks| >= Min(STATS_WINDOW, |pushed|)
        invariant blocks == pushed[|pushed| - |blocks|..]
      {
        blocks := blocks[1..];
      }
    }

    method AddToLast(isBuy: bool, wei: Wei)
      requires blocks != []
      modifies this`blocks
      ensures var n := |old(blocks)| - 1;
              blocks == old(blocks)[n := Bump(old(blocks)[n], Trade(old(blocks)[n].block, isBuy, wei))]
    {
      var last := blocks[|blocks| - 1];
      if isBuy {
        last := last.(buyCount := Wrap32(last.buyCount + 1), buyWei := Saturate(last.buyWei + wei));
      } else {
        last := last.(sellCount := Wrap32(last.sellCount + 1), sellWei := Saturate(last.sellWei + wei));
      }
      blocks := blocks[|blocks| - 1 := last];
    }

    method CountLast(n: nat, buys: bool) returns (sum: nat)
      ensures sum == SumCounts(LastN(blocks, n), buys)
    {
      sum := 0;
      var i := |blocks|;
      while i > |blocks| - Min(n, |blocks|)
        invariant |blocks| - Min(n, |blocks|) <= i <= |blocks|
        invariant sum == SumCounts(blocks[i..], buys)
      {
        i := i - 1;
        assert blocks[i..][1..] == blocks[i + 1..];
        sum := Wrap32(sum + if buys then blocks[i].buyCount else blocks[i].sellCount);
      }
    }

    method NetFlowLast(n: nat) returns (sum: int)
      ensures sum == SumFlow(LastN(blocks, n))
    {
      sum := 0;
      var i := |blocks|;
      while i > |blocks| - Min(n, |blocks|)
        invariant |blocks| - Min(n, |blocks|) <= i <= |blocks|
        invariant sum == SumFlow(blocks[i..])
      {
        i := i - 1;
        assert blocks[i..][1..] == blocks[i + 1..];
        sum := WrapI128(sum + WrapI128(WrapI128(blocks[i].buyWei) - WrapI128(blocks[i].sellWei)));
      }
    }
  }

  /** Keeping only the last ten commutes with taking in a trade. */
  lemma WindowBump(all: seq<BlockStats>, t: Trade)
    ensures LastN(BumpLast(LastN(all, STATS_WINDOW), t), STATS_WINDOW) == LastN(BumpLast(all, t), STATS_WINDOW)
  {
  }

  /** What one more trade does to the summaries: it opens a new one or adds to the last. */
  lemma IngestRuns(log: seq<Trade>, t: Trade)
    ensures Summaries(Runs(log + [t])) == BumpLast(Summaries(Runs(log)), t)
  {
    assert (log + [t])[..|log|] == log;
    SummariesWithTrade(Runs(log), t);
  }

  lemma SummariesWithTrade(runs: seq<Run>, t: Trade)
    ensures Summaries(WithTrade(runs, t)) == BumpLast(Summaries(runs), t)
  {
    var n := |runs|;
    if n > 0 && BlockOf(runs[n - 1]) == t.block {
      SummaryBump(runs[n - 1], t);
      assert Summaries(runs[n - 1 := runs[n - 1] + [t]]) == Summaries(runs)[n - 1 := Bump(Summaries(runs)[n - 1], t)];
    } else {
      SummaryNew(t);
      assert Summaries(runs + [[t]]) == Summaries(runs) + [Summary([t])];
    }
  }

  /** The summaries after trade `t`: a new one is opened unless the last is of its block. */
  function BumpLast(all: seq<BlockStats>, t: Trade): seq<BlockStats> {
    var n := |all|;
    if n == 0 || all[n - 1].block != t.block then all + [Bump(BlockStats(t.block, 0, 0, 0, 0), t)]
    else all[n - 1 := Bump(all[n - 1], t)]
  }

  function Bump(b: BlockStats, t: Trade): BlockStats {
    if t.isBuy then b.(buyCount := Wrap32(b.buyCount + 1), buyWei := Saturate(b.buyWei + t.wei))
    else b.(sellCount := Wrap32(b.sellCount + 1), sellWei := Saturate(b.sellWei + t.wei))
  }

  lemma CountPush(run: seq<Trade>, t: Trade)
    ensures forall buys :: Count(run + [t], buys) == Count(run, buys) + if t.isBuy == buys then 1 else 0
    ensures forall buys :: Volume(run + [t], buys) == Volume(run, buys) + if t.isBuy == buys then t.wei else 0
  {
    assert (run + [t])[..|run|] == run;
  }

  lemma SummaryNew(t: Trade)
    ensures Summary([t]) == Bump(BlockStats(t.block, 0, 0, 0, 0), t)
  {
    assert [t] == [] + [t];
    CountPush([], t);
  }

  lemma WrapOnce(x: nat)
    ensures Wrap32(Wrap32(x) + 1) == Wrap32(x + 1)
  {
  }

  lemma SaturateOnce(x: nat, y: nat)
    ensures Saturate(Saturate(x) + y) == Saturate(x + y)
  {
  }

  /** Wrapping and saturating step by step is wrapping and saturating once. */
  lemma SummaryBump(run: Run, t: Trade)
    requires BlockOf(run) == t.block
    ensures Summary(run + [t]) == Bump(Summary(run), t)
  {
    CountPush(run, t);
    WrapOnce(Count(run, t.isBuy));
    SaturateOnce(Volume(run, t.isBuy), t.wei);
    assert BlockOf(run + [t]) == t.block;
  }

  // ----- What the figures mean -----

  /** Blocks arrive in order. */
  ghost predicate Nondecreasing(log: seq<Trade>) {
    forall i, j :: 0 <= i < j < |log| ==> log[i].block <= log[j].block
  }

  function From(log: seq<Trade>, block: nat): seq<Trade> {
    if log == [] then []
    else
      var t := log[|log| - 1];
      From(log[..|log| - 1], block) + if t.block >= block then [t] else []
  }

  function ActiveBlocks(log: seq<Trade>): set<nat> {
    set t | t in log :: t.block
  }

  lemma {:induction false} CountConcat(a: seq<Trade>, b: seq<Trade>, buys: bool)
    ensures Count(a + b, buys) == Count(a, buys) + Count(b, buys)
    ensures Volume(a + b, buys) == Volume(a, buys) + Volume(b, buys)
  {
    if b == [] {
      assert a + b == a;
    } else {
      var n := |b| - 1;
      assert (a + b)[..|a| + n] == a + b[..n];
      CountConcat(a, b[..n], buys);
    }
  }

  lemma {:induction false} CountBound(a: seq<Trade>, buys: bool)
    ensures Count(a, buys) <= |a|
  {
    if a != [] {
      CountBound(a[..|a| - 1], buys);
    }
  }

  lemma {:induction false} ConcatSplit(a: seq<Run>, b: seq<Run>)
    ensures Concat(a + b) == Concat(a) + Concat(b)
  {
    if b == [] {
      assert a + b == a;
    } else {
      var n := |b| - 1;
      assert (a + b)[..|a| + n] == a + b[..n];
      ConcatSplit(a, b[..n]);
    }
  }

  lemma ConcatHead(runs: seq<Run>)
    requires runs != []
    ensures Concat(runs) == runs[0] + Concat(runs[1..])
  {
    assert runs == [runs[0]] + runs[1..];
    ConcatSplit([runs[0]], runs[1..]);
    ConcatPush([], runs[0]);
    assert [] + [runs[0]] == [runs[0]];
  }

  /** Counts and volumes of all runs: those of the first and those of the rest. */
  lemma TotalsHead(runs: seq<Run>, buys: bool)
    requires runs != []
    ensures Count(Concat(runs), buys) == Count(runs[0], buys) + Count(Concat(runs[1..]), buys)
    ensures Volume(Concat(runs), buys) == Volume(runs[0], buys) + Volume(Concat(runs[1..]), buys)
    ensures |Concat(runs)| == |runs[0]| + |Concat(runs[1..])|
  {
    ConcatHead(runs);
    CountConcat(runs[0], Concat(runs[1..]), buys);
  }

  lemma SummariesHead(runs: seq<Run>)
    requires runs != []
    ensures Summaries(runs)[1..] == Summaries(runs[1..])
  {
  }

  lemma WrapsAreExact(x: int)
    ensures 0 <= x < U32 ==> Wrap32(x) == x
    ensures -I128 <= x < I128 ==> WrapI128(x) == x
  {
  }

  lemma CountHead(runs: seq<Run>, buys: bool, rest: nat)
    requires runs != [] && rest == SumCounts(Summaries(runs[1..]), buys) && rest + Count(runs[0], buys) < U32
    ensures SumCounts(Summaries(runs), buys) == rest + Count(runs[0], buys)
  {
    CountUnfold(runs, buys);
    WrapsAreExact(Count(runs[0], buys));
    WrapsAreExact(rest + Count(runs[0], buys));
  }

  /** Without overflow the counts of the deque add up to the count of the trades. */
  lemma {:induction false} CountsAddUp(runs: seq<Run>, buys: bool)
    requires |Concat(runs)| < U32
    ensures SumCounts(Summaries(runs), buys) == Count(Concat(runs), buys)
  {
    if runs != [] {
      TotalsHead(runs, buys);
      CountsAddUp(runs[1..], buys);
      CountBound(Concat(runs), buys);
      CountHead(runs, buys, SumCounts(Summaries(runs[1..]), buys));
    }
  }

  lemma FlowStep(buy: nat, sell: nat, rest: int)
    requires buy < I128 && sell < I128 && -I128 <= rest + buy - sell < I128
    ensures WrapI128(rest + WrapI128(WrapI128(Saturate(buy)) - WrapI128(Saturate(sell)))) == rest + buy - sell
  {
    WrapsAreExact(buy);
    WrapsAreExact(sell);
    WrapsAreExact(buy - sell);
    WrapsAreExact(rest + buy - sell);
  }

  lemma FlowUnfold(runs: seq<Run>)
    requires runs != []
    ensures SumFlow(Summaries(runs)) ==
            WrapI128(SumFlow(Summaries(runs[1..]))
                     + WrapI128(WrapI128(Saturate(Volume(runs[0], true))) - WrapI128(Saturate(Volume(runs[0], false)))))
  {
    SummariesHead(runs);
  }

  lemma CountUnfold(runs: seq<Run>, buys: bool)
    requires runs != []
    ensures SumCounts(Summaries(runs), buys) == Wrap32(SumCounts(Summaries(runs[1..]), buys) + Wrap32(Count(runs[0], buys)))
  {
    SummariesHead(runs);
  }

  lemma FlowHead(runs: seq<Run>, rest: int)
    requires runs != [] && rest == SumFlow(Summaries(runs[1..]))
    requires Volume(runs[0], true) < I128 && Volume(runs[0], false) < I128
    requires -I128 <= rest + Volume(runs[0], true) - Volume(runs[0], false) < I128
    ensures SumFlow(Summaries(runs)) == rest + Volume(runs[0], true) - Volume(runs[0], false)
  {
    FlowUnfold(runs);
    FlowStep(Volume(runs[0], true), Volume(runs[0], false), rest);
  }

  /** Without overflow the net flow of the deque is bought minus sold over the trades. */
  lemma {:induction false} FlowAddsUp(runs: seq<Run>)
    requires Volume(Concat(runs), true) + Volume(Concat(runs), false) < I128
    ensures SumFlow(Summaries(runs)) == Volume(Concat(runs), true) - Volume(Concat(runs), false)
  {
    if runs != [] {
      TotalsHead(runs, true);
      TotalsHead(runs, false);
      FlowAddsUp(runs[1..]);
      FlowHead(runs, SumFlow(Summaries(runs[1..])));
    }
  }

  ghost predicate Increasing(runs: seq<Run>) {
    forall i, j :: 0 <= i < j < |runs| ==> BlockOf(runs[i]) < BlockOf(runs[j])
  }

  lemma {:induction false} RunsIncrease(log: seq<Trade>)
    requires Nondecreasing(log)
    ensures Increasing(Runs(log))
    ensures log != [] ==> Runs(log) != [] && BlockOf(Runs(log)[|Runs(log)| - 1]) == log[|log| - 1].block
  {
    if log != [] {
      RunsIncrease(log[..|log| - 1]);
    }
  }

  lemma {:induction false} FromConcat(a: seq<Trade>, b: seq<Trade>, block: nat)
    ensures From(a + b, block) == From(a, block) + From(b, block)
  {
    if b == [] {
      assert a + b == a;
    } else {
      var n := |b| - 1;
      assert (a + b)[..|a| + n] == a + b[..n];
      FromConcat(a, b[..n], block);
    }
  }

  lemma {:induction false} FromRun(run: Run, part: seq<Trade>, block: nat)
    requires part <= run && OneBlock(run)
    ensures From(part, block) == if BlockOf(run) >= block then part else []
  {
    if part != [] {
      FromRun(run, part[..|part| - 1], block);
      assert part[|part| - 1] == run[|part| - 1];
      assert part == part[..|part| - 1] + [part[|part| - 1]];
    }
  }

  /** One run more: it is kept whole if it reaches the block, and dropped whole otherwise. */
  lemma FromPush(runs: seq<Run>, run: Run, block: nat)
    requires OneBlock(run)
    ensures From(Concat(runs + [run]), block) == From(Concat(runs), block) + if BlockOf(run) >= block then run else []
  {
    ConcatPush(runs, run);
    FromConcat(Concat(runs), run, block);
    FromRun(run, run, block);
  }

  ghost predicate Before(runs: seq<Run>, block: nat) {
    forall i :: 0 <= i < |runs| ==> OneBlock(runs[i]) && BlockOf(runs[i]) < block
  }

  ghost predicate Reach(runs: seq<Run>, block: nat) {
    forall i :: 0 <= i < |runs| ==> OneBlock(runs[i]) && BlockOf(runs[i]) >= block
  }

  lemma {:induction false} FromOlder(older: seq<Run>, block: nat)
    requires Before(older, block)
    ensures From(Concat(older), block) == []
  {
    if older != [] {
      var n := |older| - 1;
      assert older == older[..n] + [older[n]];
      FromPush(older[..n], older[n], block);
      FromOlder(older[..n], block);
    }
  }

  /** The trades from a block on are the last runs, if all of those and none of the others reach it. */
  lemma {:induction false} FromRuns(older: seq<Run>, recent: seq<Run>, block: nat)
    requires Before(older, block) && Reach(recent, block)
    ensures From(Concat(older + recent), block) == Concat(recent)
  {
    if recent == [] {
      assert older + recent == older;
      FromOlder(older, block);
    } else {
      var n := |recent| - 1;
      var front: seq<Run> := recent[..n];
      assert older + recent == (older + front) + [recent[n]];
      FromPush(older + front, recent[n], block);
      FromRuns(older, front, block);
    }
  }

  function BlocksOf(runs: seq<Run>): set<nat> {
    set r | r in runs :: BlockOf(r)
  }

  lemma {:induction false} BlockCount(runs: seq<Run>)
    requires Increasing(runs)
    ensures |BlocksOf(runs)| == |runs|
  {
    if runs != [] {
      var n := |runs| - 1;
      BlockCount(runs[..n]);
      assert runs == runs[..n] + [runs[n]];
      assert BlocksOf(runs) == BlocksOf(runs[..n]) + {BlockOf(runs[n])};
      assert BlockOf(runs[n]) !in BlocksOf(runs[..n]);
    }
  }

  lemma {:induction false} ActiveOfRuns(runs: seq<Run>)
    requires forall i :: 0 <= i < |runs| ==> OneBlock(runs[i])
    ensures ActiveBlocks(Concat(runs)) == BlocksOf(runs)
  {
    if runs != [] {
      var n := |runs| - 1;
      ActiveOfRuns(runs[..n]);
      var last := runs[n];
      assert runs == runs[..n] + [last];
      assert ActiveBlocks(last) == {BlockOf(last)} by {
        assert last[0] in last && OneBlock(last);
        forall t: Trade | t in last ensures t.block == BlockOf(last) {
          var k :| 0 <= k < |last| && last[k] == t;
        }
      }
      assert ActiveBlocks(Concat(runs)) == ActiveBlocks(Concat(runs[..n])) + ActiveBlocks(last);
      assert BlocksOf(runs) == BlocksOf(runs[..n]) + {BlockOf(last)};
    }
  }

  /** The block of the `n`-th run from the end, or of the first if there are fewer. */
  function Cutoff(log: seq<Trade>, n: nat): nat
    requires log != [] && n > 0
  {
    BlockOf(LastN(Runs(log), n)[0])
  }

  /** Cutting increasing runs at the `k`-th is cutting the log at its block. */
  lemma CutRuns(log: seq<Trade>, runs: seq<Run>, k: nat)
    requires AreMaximalRuns(runs, log) && Increasing(runs) && k < |runs|
    ensures From(log, BlockOf(runs[k])) == Concat(runs[k..])
  {
    var older, recent: seq<Run> := runs[..k], runs[k..];
    assert runs == older + recent;
    forall i | 0 <= i < |older| ensures OneBlock(older[i]) && BlockOf(older[i]) < BlockOf(runs[k]) {
      assert older[i] == runs[i];
    }
    forall i | 0 <= i < |recent| ensures OneBlock(recent[i]) && BlockOf(recent[i]) >= BlockOf(runs[k]) {
      assert recent[i] == runs[k + i];
    }
    FromRuns(older, recent, BlockOf(runs[k]));
  }

  lemma RunBlocks(log: seq<Trade>, runs: seq<Run>, k: nat)
    requires AreMaximalRuns(runs, log) && Increasing(runs) && k <= |runs|
    ensures |ActiveBlocks(Concat(runs[k..]))| == |runs| - k
  {
    var recent: seq<Run> := runs[k..];
    forall i | 0 <= i < |recent| ensures recent[i] == runs[k + i] && OneBlock(recent[i]) {}
    ActiveOfRuns(recent);
    BlockCount(recent);
  }

  /** The same of any increasing maximal runs. */
  lemma LastRuns(log: seq<Trade>, runs: seq<Run>, n: nat)
    requires AreMaximalRuns(runs, log) && Increasing(runs) && runs != [] && n > 0
    ensures From(log, BlockOf(LastN(runs, n)[0])) == Concat(LastN(runs, n))
    ensures |ActiveBlocks(Concat(LastN(runs, n)))| == Min(n, |ActiveBlocks(log)|)
  {
    var k := |runs| - Min(n, |runs|);
    CutRuns(log, runs, k);
    RunBlocks(log, runs, k);
    RunBlocks(log, runs, 0);
    assert runs[0..] == runs;
  }

  /** For feeds in block order, the last `n` runs are the trades of the last `n` active blocks. */
  lemma LastRunsAreLastBlocks(log: seq<Trade>, n: nat)
    requires Nondecreasing(log) && log != [] && n > 0
    ensures From(log, Cutoff(log, n)) == Concat(LastN(Runs(log), n))
    ensures |ActiveBlocks(From(log, Cutoff(log, n)))| == Min(n, |ActiveBlocks(log)|)
  {
    RunsAreMaximal(log);
    RunsIncrease(log);
    LastRuns(log, Runs(log), n);
  }

  lemma LastOfLast(runs: seq<Run>, n: nat)
    requires n <= STATS_WINDOW
    ensures LastN(LastN(Summaries(runs), STATS_WINDOW), n) == Summaries(LastN(runs, n))
  {
  }

  lemma TailOf(log: seq<Trade>, n: nat)
    ensures var tail := Concat(LastN(Runs(log), n));
            && |tail| <= |log|
            && Volume(tail, true) <= Volume(log, true) && Volume(tail, false) <= Volume(log, false)
  {
    var runs: seq<Run> := Runs(log);
    var recent: seq<Run> := LastN(runs, n);
    var older: seq<Run> := runs[..|runs| - |recent|];
    RunsAreMaximal(log);
    assert runs == older + recent;
    ConcatSplit(older, recent);
    CountConcat(Concat(older), Concat(recent), true);
    CountConcat(Concat(older), Concat(recent), false);
  }

  /** Whatever the feed, the figures read off a valid deque are the sums over the raw
      trades of the last `n` runs, as long as nothing overflowed. */
  lemma FiguresOverRuns(log: seq<Trade>, n: nat, buys: bool)
    requires n <= STATS_WINDOW
    ensures var blocks := LastN(DequeOf(log), n); var tail := Concat(LastN(Runs(log), n));
            && (|log| < U32 ==> SumCounts(blocks, buys) == Count(tail, buys))
            && (Volume(log, true) + Volume(log, false) < I128 ==> SumFlow(blocks) == Volume(tail, true) - Volume(tail, false))
  {
    LastOfLast(Runs(log), n);
    TailOf(log, n);
    if |log| < U32 {
      CountsAddUp(LastN(Runs(log), n), buys);
    }
    if Volume(log, true) + Volume(log, false) < I128 {
      FlowAddsUp(LastN(Runs(log), n));
    }
  }

  lemma DequeIncreases(log: seq<Trade>)
    requires Nondecreasing(log)
    ensures var deque := DequeOf(log);
            forall i, j :: 0 <= i < j < |deque| ==> deque[i].block < deque[j].block
  {
    RunsIncrease(log);
  }

  /** For feeds in block order they are the sums over every trade of the last `n` active
      blocks of the whole log, and the deque lists those blocks in increasing order. */
  lemma FiguresOverBlocks(log: seq<Trade>, n: nat, buys: bool)
    requires 0 < n <= STATS_WINDOW && log != [] && Nondecreasing(log)
    ensures var deque := DequeOf(log); var recent := From(log, Cutoff(log, n));
            && (forall i, j :: 0 <= i < j < |deque| ==> deque[i].block < deque[j].block)
            && |ActiveBlocks(recent)| == Min(n, |ActiveBlocks(log)|)
            && (|log| < U32 ==> SumCounts(LastN(deque, n), buys) == Count(recent, buys))
            && (Volume(log, true) + Volume(log, false) < I128 ==>
                  SumFlow(LastN(deque, n)) == Volume(recent, true) - Volume(recent, false))
  {
    DequeIncreases(log);
    LastRunsAreLastBlocks(log, n);
    FiguresOverRuns(log, n, buys);
  }

  // ----- Active blocks are not consecutive blocks -----

  lemma {:induction false} FromIsAbove(log: seq<Trade>, block: nat)
    ensures forall t :: t in From(log, block) <==> t in log && t.block >= block
  {
    if log != [] {
      var n := |log| - 1;
      FromIsAbove(log[..n], block);
      assert log == log[..n] + [log[n]];
    }
  }

  lemma {:induction false} FromAgrees(log: seq<Trade>, a: nat, b: nat)
    requires forall t :: t in log ==> (t.block >= a <==> t.block >= b)
    ensures From(log, a) == From(log, b)
  {
    if log != [] {
      var n := |log| - 1;
      assert log[n] in log;
      FromAgrees(log[..n], a, b);
    }
  }

  lemma {:induction false} RunsSpread(runs: seq<Run>, i: nat, j: nat)
    requires Increasing(runs) && i <= j < |runs|
    ensures BlockOf(runs[j]) >= BlockOf(runs[i]) + (j - i)
    decreases j
  {
    if i < j {
      RunsSpread(runs, i, j - 1);
    }
  }

  ghost predicate HasBlock(log: seq<Trade>, block: nat) {
    exists i :: 0 <= i < |log| && log[i].block == block
  }

  /** Every run begins with a trade of the log, the first run with the first one. */
  lemma RunInLog(log: seq<Trade>, runs: seq<Run>, k: nat)
    requires AreMaximalRuns(runs, log) && k < |runs|
    ensures HasBlock(log, BlockOf(runs[k]))
    ensures log != [] && BlockOf(runs[0]) == log[0].block
  {
    assert runs == runs[..k] + runs[k..];
    ConcatSplit(runs[..k], runs[k..]);
    ConcatHead(runs[k..]);
    var at := |Concat(runs[..k])|;
    assert log[at] == runs[k][0];
    ConcatHead(runs);
  }

  lemma CutoffFacts(log: seq<Trade>, n: nat) returns (cut: nat)
    requires Nondecreasing(log) && log != [] && n > 0
    ensures cut == Cutoff(log, n) && HasBlock(log, cut)
    ensures log[|log| - 1].block >= cut + (n - 1) || cut == log[0].block
  {
    var runs: seq<Run> := Runs(log);
    RunsAreMaximal(log);
    RunsIncrease(log);
    var k := |runs| - Min(n, |runs|);
    cut := BlockOf(runs[k]);
    RunsSpread(runs, k, |runs| - 1);
    RunInLog(log, runs, k);
  }

  /** The trades of the blocks `lo` to `hi`. */
  function Between(log: seq<Trade>, lo: nat, hi: nat): seq<Trade> {
    if log == [] then []
    else
      var t := log[|log| - 1];
      Between(log[..|log| - 1], lo, hi) + if lo <= t.block <= hi then [t] else []
  }

  lemma {:induction false} BetweenIsWithin(log: seq<Trade>, lo: nat, hi: nat)
    ensures forall t :: t in Between(log, lo, hi) <==> t in log && lo <= t.block <= hi
  {
    if log != [] {
      var n := |log| - 1;
      BetweenIsWithin(log[..n], lo, hi);
      assert log == log[..n] + [log[n]];
    }
  }

  lemma {:induction false} BetweenIsFrom(log: seq<Trade>, lo: nat, hi: nat)
    requires forall t :: t in log ==> t.block <= hi
    ensures Between(log, lo, hi) == From(log, lo)
  {
    if log != [] {
      var n := |log| - 1;
      assert log[n] in log;
      BetweenIsFrom(log[..n], lo, hi);
    }
  }

  lemma CutIff(log: seq<Trade>, cut: nat, n: nat, newest: nat, now: nat)
    requires Nondecreasing(log) && log != [] && newest == log[|log| - 1].block <= now
    requires HasBlock(log, cut)
    requires newest >= cut + (n - 1) || cut == log[0].block
    ensures From(log, cut) == From(log, SatSub(now + 1, n)) <==> now < cut + n
  {
    var low := SatSub(now + 1, n);
    if now >= cut + n {
      FromDiffers(log, cut, low);
    } else if cut == log[0].block {
      AllFrom(log, cut, low);
    } else {
      assert cut == low;
    }
  }

  /** A trade newer than `now` is among the figures and not in the window. */
  lemma NewerDiffers(log: seq<Trade>, cut: nat, lo: nat, now: nat)
    requires log != [] && cut <= log[|log| - 1].block && now < log[|log| - 1].block
    ensures From(log, cut) != Between(log, lo, now)
  {
    FromIsAbove(log, cut);
    BetweenIsWithin(log, lo, now);
    var t := log[|log| - 1];
    assert t in From(log, cut) && t !in Between(log, lo, now);
  }

  /** Read at block `now`, the figures are over the `n` consecutive block numbers that end
      there exactly when no trade is newer and the `n`-th summary from the end is less than
      `n` blocks old. Idle blocks, those since the last trade included, make it older. */
  lemma ConsecutiveIff(log: seq<Trade>, n: nat, now: nat)
    requires 0 < n && log != [] && Nondecreasing(log)
    ensures From(log, Cutoff(log, n)) == Between(log, SatSub(now + 1, n), now) <==>
            log[|log| - 1].block <= now < Cutoff(log, n) + n
  {
    var newest := log[|log| - 1].block;
    var cut := CutoffFacts(log, n);
    var i :| 0 <= i < |log| && log[i].block == cut;
    if newest <= now {
      forall t | t in log ensures t.block <= now {
        var k :| 0 <= k < |log| && log[k] == t;
      }
      BetweenIsFrom(log, SatSub(now + 1, n), now);
      CutIff(log, cut, n, newest, now);
    } else {
      NewerDiffers(log, cut, SatSub(now + 1, n), now);
    }
  }

  /** One buy in each of three blocks and silence since. */
  function IdleToken(): seq<Trade> {
    [Trade(100, true, 1), Trade(101, true, 1), Trade(102, true, 1)]
  }

  /** Four hundred blocks later the deque still counts three buys in the last three blocks. */
  lemma IdleTokenIsStale() returns (log: seq<Trade>)
    ensures log == IdleToken() && Nondecreasing(log)
    ensures SumCounts(LastN(DequeOf(log), 3), true) == 3
    ensures Count(Between(log, 498, 500), true) == 0
  {
    log := IdleToken();
    IdleRuns();
    IdleFigures(log);
  }

  lemma IdleFigures(log: seq<Trade>)
    requires |Runs(log)| == 3 == Count(log, true) && |log| == 3
    requires forall i :: 0 <= i < |log| ==> log[i].block < 498
    ensures SumCounts(LastN(DequeOf(log), 3), true) == 3
    ensures Count(Between(log, 498, 500), true) == 0
  {
    FiguresOverAll(log, 3, true);
    NothingBetween(log, 498, 500);
  }

  lemma RunsPush(log: seq<Trade>, t: Trade)
    ensures Runs(log + [t]) == WithTrade(Runs(log), t)
  {
    assert (log + [t])[..|log|] == log;
  }

  lemma IdleRuns()
    ensures |Runs(IdleToken())| == 3 && Count(IdleToken(), true) == 3
  {
    var a, b, c := Trade(100, true, 1), Trade(101, true, 1), Trade(102, true, 1);
    RunsPush([], a);
    RunsPush([a], b);
    RunsPush([a, b], c);
    CountPush([], a);
    CountPush([a], b);
    CountPush([a, b], c);
    assert [] + [a] == [a] && [a] + [b] == [a, b] && [a, b] + [c] == IdleToken();
  }

  /** With no more runs than asked for, the figures are over the whole log. */
  lemma FiguresOverAll(log: seq<Trade>, n: nat, buys: bool)
    requires |Runs(log)| <= n <= STATS_WINDOW && |log| < U32
    ensures SumCounts(LastN(DequeOf(log), n), buys) == Count(log, buys)
  {
    FiguresOverRuns(log, n, buys);
    LastNAll(Runs(log), n);
    AllRuns(log);
  }

  lemma LastNAll<T>(s: seq<T>, n: nat)
    requires |s| <= n
    ensures LastN(s, n) == s
  {
  }

  lemma {:induction false} NothingBetween(log: seq<Trade>, lo: nat, hi: nat)
    requires forall i :: 0 <= i < |log| ==> log[i].block < lo
    ensures Between(log, lo, hi) == []
  {
    if log != [] {
      NothingBetween(log[..|log| - 1], lo, hi);
    }
  }

  lemma AllRuns(log: seq<Trade>)
    ensures Concat(Runs(log)) == log
  {
    RunsAreMaximal(log);
  }

  lemma FromDiffers(log: seq<Trade>, a: nat, b: nat)
    requires a < b && HasBlock(log, a)
    ensures From(log, a) != From(log, b)
  {
    FromIsAbove(log, a);
    FromIsAbove(log, b);
    var i :| 0 <= i < |log| && log[i].block == a;
    var t := log[i];
    assert t in From(log, a) && t !in From(log, b);
  }

  lemma AllFrom(log: seq<Trade>, a: nat, b: nat)
    requires Nondecreasing(log) && log != [] && a <= log[0].block && b <= log[0].block
    ensures From(log, a) == From(log, b)
  {
    forall t: Trade | t in log ensures t.block >= a && t.block >= b {
      var i :| 0 <= i < |log| && log[i] == t;
    }
    FromAgrees(log, a, b);
  }
}
