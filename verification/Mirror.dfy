/** Proportional mirror exits: every sale of the followed wallet is copied as the same
    fraction of our position, and what is left is closed at the end of the window. */
module Mirror {
  import opened Common

  // ----- Finding the sales -----

  const GETLOGS_MAX_RANGE: nat := 5000

  /** An inclusive block range of one query. */
  datatype Chunk = Chunk(lo: nat, hi: nat)

  predicate Covers(c: Chunk, block: nat) {
    c.lo <= block <= c.hi
  }

  /** The chunks are nonempty, end to end from `from` to `to`, and all but the last are full. */
  predicate Tiles(chunks: seq<Chunk>, from: nat, to: int) {
    && (forall i :: 0 <= i < |chunks| ==> chunks[i].lo <= chunks[i].hi <= to)
    && (forall i :: 0 <= i < |chunks| ==> chunks[i].lo == from + i * (GETLOGS_MAX_RANGE + 1))
    && (forall i :: 0 <= i < |chunks| - 1 ==> chunks[i].hi == chunks[i].lo + GETLOGS_MAX_RANGE)
    && (if chunks == [] then from > to else chunks[|chunks| - 1].hi == to && to - chunks[|chunks| - 1].lo <= GETLOGS_MAX_RANGE)
  }

  method ChunkRange(from: nat, to: int) returns (chunks: seq<Chunk>)
    ensures Tiles(chunks, from, to)
  {
    chunks := [];
    var cur := from;
    while cur <= to
      invariant from <= to ==> cur <= to + 1
      invariant from > to ==> cur == from
      invariant forall i :: 0 <= i < |chunks| ==> chunks[i].lo <= chunks[i].hi <= to
      invariant forall i :: 0 <= i < |chunks| ==> chunks[i].lo == from + i * (GETLOGS_MAX_RANGE + 1)
      invariant forall i :: 0 <= i < |chunks| - 1 ==> chunks[i].hi == chunks[i].lo + GETLOGS_MAX_RANGE
      invariant chunks == [] ==> cur == from
      invariant chunks != [] ==> chunks[|chunks| - 1].hi == cur - 1 && cur - 1 - chunks[|chunks| - 1].lo <= GETLOGS_MAX_RANGE
      invariant cur <= to ==> cur == from + |chunks| * (GETLOGS_MAX_RANGE + 1)
    {
      var end := Min(cur + GETLOGS_MAX_RANGE, to);
      chunks := chunks + [Chunk(cur, end)];
      cur := end + 1;
    }
  }

  /** Every query but the last spans 5001 blocks, and none spans more. */
  lemma ChunkSizes(chunks: seq<Chunk>, from: nat, to: int)
    requires Tiles(chunks, from, to)
    ensures forall i :: 0 <= i < |chunks| ==> 1 <= chunks[i].hi - chunks[i].lo + 1 <= 5001
    ensures forall i :: 0 <= i < |chunks| - 1 ==> chunks[i].hi - chunks[i].lo + 1 == 5001
  {
  }

  lemma ChunkWith(chunks: seq<Chunk>, from: nat, to: int, block: nat) returns (i: nat)
    requires Tiles(chunks, from, to) && from <= block <= to
    ensures i < |chunks| && Covers(chunks[i], block)
  {
    i := Min((block - from) / (GETLOGS_MAX_RANGE + 1), |chunks| - 1);
  }

  lemma ChunksApart(chunks: seq<Chunk>, from: nat, to: int, i: nat, j: nat)
    requires Tiles(chunks, from, to) && i < j < |chunks|
    ensures chunks[i].hi < chunks[j].lo
  {
  }

  /** Every block of the range is queried once and only once, and no other block is. */
  lemma EachBlockOnce(chunks: seq<Chunk>, from: nat, to: int, block: nat)
    requires Tiles(chunks, from, to)
    ensures from <= block <= to <==> exists i :: 0 <= i < |chunks| && Covers(chunks[i], block)
    ensures forall i, j :: 0 <= i < j < |chunks| ==> !(Covers(chunks[i], block) && Covers(chunks[j], block))
  {
    if from <= block <= to {
      var i := ChunkWith(chunks, from, to, block);
    }
    forall i, j | 0 <= i < j < |chunks| ensures !(Covers(chunks[i], block) && Covers(chunks[j], block)) {
      ChunksApart(chunks, from, to, i, j);
    }
  }

  // ----- Merging the legs of a transaction -----

  /** A transfer log; a log without a transaction hash is skipped. */
  datatype Log = Log(tx: Option<nat>, block: nat, amount: nat)

  datatype Sale = Sale(tx: nat, block: nat, amount: nat)

  function AmountOf(logs: seq<Log>, tx: nat): nat {
    if logs == [] then 0
    else AmountOf(logs[..|logs| - 1], tx) + if logs[|logs| - 1].tx == Some(tx) then logs[|logs| - 1].amount else 0
  }

  function TotalLogged(logs: seq<Log>): nat {
    if logs == [] then 0
    else TotalLogged(logs[..|logs| - 1]) + if logs[|logs| - 1].tx.Some? then logs[|logs| - 1].amount else 0
  }

  function TotalSold(sales: seq<Sale>): nat {
    if sales == [] then 0 else TotalSold(sales[..|sales| - 1]) + sales[|sales| - 1].amount
  }

  ghost predicate HasTx(sales: seq<Sale>, tx: nat) {
    exists k :: 0 <= k < |sales| && sales[k].tx == tx
  }

  ghost predicate Mentions(logs: seq<Log>, tx: nat) {
    exists k :: 0 <= k < |logs| && logs[k].tx == Some(tx)
  }

  /** One sale a transaction, with the sum of its legs, and nothing lost. */
  ghost predicate Merged(logs: seq<Log>, sales: seq<Sale>) {
    && (forall j, k :: 0 <= j < k < |sales| ==> sales[j].tx != sales[k].tx)
    && (forall k :: 0 <= k < |sales| ==> sales[k].amount == AmountOf(logs, sales[k].tx))
    && (forall tx: nat :: HasTx(sales, tx) <==> Mentions(logs, tx))
    && TotalSold(sales) == TotalLogged(logs)
  }

  lemma {:induction false} TotalUpdate(sales: seq<Sale>, k: nat, amount: nat)
    requires k < |sales|
    ensures TotalSold(sales[k := sales[k].(amount := sales[k].amount + amount)]) == TotalSold(sales) + amount
  {
    var n := |sales| - 1;
    var sales' := sales[k := sales[k].(amount := sales[k].amount + amount)];
    if k < n {
      TotalUpdate(sales[..n], k, amount);
      assert sales'[..n] == sales[..n][k := sales'[k]];
    } else {
      assert sales'[..n] == sales[..n];
    }
  }

  lemma {:induction false} UnmentionedIsZero(logs: seq<Log>, tx: nat)
    requires !Mentions(logs, tx)
    ensures AmountOf(logs, tx) == 0
  {
    if logs != [] {
      var n := |logs| - 1;
      assert logs[n].tx != Some(tx);
      forall k | 0 <= k < n ensures logs[..n][k].tx != Some(tx) {
        assert logs[k].tx != Some(tx);
      }
      UnmentionedIsZero(logs[..n], tx);
    }
  }

  lemma MentionsPush(logs: seq<Log>, lg: Log)
    ensures forall tx: nat :: Mentions(logs + [lg], tx) <==> Mentions(logs, tx) || lg.tx == Some(tx)
  {
    forall tx: nat ensures Mentions(logs + [lg], tx) <==> Mentions(logs, tx) || lg.tx == Some(tx) {
      if Mentions(logs, tx) {
        var k :| 0 <= k < |logs| && logs[k].tx == Some(tx);
        assert (logs + [lg])[k].tx == Some(tx);
      }
      assert (logs + [lg])[|logs|] == lg;
    }
  }

  lemma MergeSkip(logs: seq<Log>, lg: Log, sales: seq<Sale>)
    requires Merged(logs, sales) && lg.tx.None?
    ensures Merged(logs + [lg], sales)
  {
    MentionsPush(logs, lg);
    assert (logs + [lg])[..|logs|] == logs;
  }

  lemma MergeAdd(logs: seq<Log>, lg: Log, sales: seq<Sale>, k: nat)
    requires Merged(logs, sales) && k < |sales| && lg.tx == Some(sales[k].tx)
    ensures Merged(logs + [lg], sales[k := sales[k].(amount := sales[k].amount + lg.amount)])
  {
    var sales' := sales[k := sales[k].(amount := sales[k].amount + lg.amount)];
    MentionsPush(logs, lg);
    assert (logs + [lg])[..|logs|] == logs;
    TotalUpdate(sales, k, lg.amount);
    forall tx: nat ensures HasTx(sales', tx) <==> HasTx(sales, tx) {
      if HasTx(sales, tx) {
        var j :| 0 <= j < |sales| && sales[j].tx == tx;
        assert sales'[j].tx == tx;
      }
    }
    assert HasTx(sales, sales[k].tx);
  }

  lemma HasTxPush(sales: seq<Sale>, s: Sale)
    ensures forall tx: nat :: HasTx(sales + [s], tx) <==> HasTx(sales, tx) || tx == s.tx
  {
    forall tx: nat ensures HasTx(sales + [s], tx) <==> HasTx(sales, tx) || tx == s.tx {
      if HasTx(sales, tx) {
        var j :| 0 <= j < |sales| && sales[j].tx == tx;
        assert (sales + [s])[j].tx == tx;
      }
      assert (sales + [s])[|sales|] == s;
    }
  }

  lemma AmountPush(logs: seq<Log>, lg: Log, tx: nat)
    ensures AmountOf(logs + [lg], tx) == AmountOf(logs, tx) + if lg.tx == Some(tx) then lg.amount else 0
    ensures TotalLogged(logs + [lg]) == TotalLogged(logs) + if lg.tx.Some? then lg.amount else 0
  {
    assert (logs + [lg])[..|logs|] == logs;
  }

  lemma MergeNew(logs: seq<Log>, lg: Log, sales: seq<Sale>)
    requires Merged(logs, sales) && lg.tx.Some? && !HasTx(sales, lg.tx.value)
    ensures Merged(logs + [lg], sales + [Sale(lg.tx.value, lg.block, lg.amount)])
  {
    var s := Sale(lg.tx.value, lg.block, lg.amount);
    var sales' := sales + [s];
    MentionsPush(logs, lg);
    HasTxPush(sales, s);
    UnmentionedIsZero(logs, s.tx);
    assert sales'[..|sales|] == sales;
    AmountPush(logs, lg, s.tx);
    forall k | 0 <= k < |sales| ensures sales[k].tx != s.tx && AmountOf(logs + [lg], sales[k].tx) == sales[k].amount {
      assert HasTx(sales, sales[k].tx);
      AmountPush(logs, lg, sales[k].tx);
    }
  }

  /** The first leg of `tx` is log `i`. */
  ghost predicate FirstLeg(logs: seq<Log>, tx: nat, i: nat) {
    i < |logs| && logs[i].tx == Some(tx) && forall j :: 0 <= j < i ==> logs[j].tx != Some(tx)
  }

  /** A sale is dated by the first leg of its transaction. */
  ghost predicate Dated(logs: seq<Log>, sale: Sale) {
    exists i: nat :: FirstLeg(logs, sale.tx, i) && sale.block == logs[i].block
  }

  ghost predicate AllDated(logs: seq<Log>, sales: seq<Sale>) {
    forall k :: 0 <= k < |sales| ==> Dated(logs, sales[k])
  }

  lemma DatedPush(logs: seq<Log>, lg: Log, sale: Sale)
    requires Dated(logs, sale)
    ensures Dated(logs + [lg], sale)
  {
    var i: nat :| FirstLeg(logs, sale.tx, i) && sale.block == logs[i].block;
    assert FirstLeg(logs + [lg], sale.tx, i);
  }

  lemma AllDatedPush(logs: seq<Log>, lg: Log, sales: seq<Sale>)
    requires AllDated(logs, sales)
    ensures AllDated(logs + [lg], sales)
    ensures forall k, amount :: 0 <= k < |sales| ==> AllDated(logs + [lg], sales[k := sales[k].(amount := amount)])
  {
    forall k | 0 <= k < |sales| ensures forall amount :: Dated(logs + [lg], sales[k].(amount := amount)) {
      DatedPush(logs, lg, sales[k]);
      var i: nat :| FirstLeg(logs + [lg], sales[k].tx, i) && sales[k].block == (logs + [lg])[i].block;
      forall amount ensures Dated(logs + [lg], sales[k].(amount := amount)) {
        assert FirstLeg(logs + [lg], sales[k].(amount := amount).tx, i);
      }
    }
  }

  lemma NewDated(logs: seq<Log>, lg: Log, sales: seq<Sale>)
    requires AllDated(logs, sales) && lg.tx.Some? && !Mentions(logs, lg.tx.value)
    ensures AllDated(logs + [lg], sales + [Sale(lg.tx.value, lg.block, lg.amount)])
  {
    AllDatedPush(logs, lg, sales);
    assert FirstLeg(logs + [lg], lg.tx.value, |logs|);
    assert Dated(logs + [lg], Sale(lg.tx.value, lg.block, lg.amount));
  }

  /** The sales so far account for the logs so far. */
  ghost predicate Books(logs: seq<Log>, sales: seq<Sale>) {
    Merged(logs, sales) && AllDated(logs, sales)
  }

  lemma BooksSkip(logs: seq<Log>, lg: Log, sales: seq<Sale>)
    requires Books(logs, sales) && lg.tx.None?
    ensures Books(logs + [lg], sales)
  {
    MergeSkip(logs, lg, sales);
    AllDatedPush(logs, lg, sales);
  }

  lemma BooksAdd(logs: seq<Log>, lg: Log, sales: seq<Sale>, k: nat)
    requires Books(logs, sales) && k < |sales| && lg.tx == Some(sales[k].tx)
    ensures Books(logs + [lg], sales[k := sales[k].(amount := sales[k].amount + lg.amount)])
  {
    MergeAdd(logs, lg, sales, k);
    AllDatedPush(logs, lg, sales);
  }

  lemma BooksNew(logs: seq<Log>, lg: Log, sales: seq<Sale>)
    requires Books(logs, sales) && lg.tx.Some? && !HasTx(sales, lg.tx.value)
    ensures Books(logs + [lg], sales + [Sale(lg.tx.value, lg.block, lg.amount)])
  {
    MergeNew(logs, lg, sales);
    NewDated(logs, lg, sales);
  }

  /** The lookup finds every sale by its transaction. */
  ghost predicate Finds(position: map<nat, nat>, sales: seq<Sale>) {
    && (forall tx :: tx in position ==> position[tx] < |sales| && sales[position[tx]].tx == tx)
    && (forall k :: 0 <= k < |sales| ==> sales[k].tx in position)
  }

  /** Folds the logs, given in chain order, into one sale a transaction, in order of first
      appearance; `position` is the lookup by transaction. */
  method MergeLegs(logs: seq<Log>) returns (sales: seq<Sale>)
    ensures Merged(logs, sales) && AllDated(logs, sales)
  {
    sales := [];
    var position: map<nat, nat> := map[];
    for i := 0 to |logs|
      invariant Books(logs[..i], sales)
      invariant Finds(position, sales)
    {
      var lg := logs[i];
      assert logs[..i + 1] == logs[..i] + [lg];
      if lg.tx.None? {
        BooksSkip(logs[..i], lg, sales);
      } else if lg.tx.value in position {
        var k := position[lg.tx.value];
        BooksAdd(logs[..i], lg, sales, k);
        sales := sales[k := sales[k].(amount := sales[k].amount + lg.amount)];
      } else {
        assert !HasTx(sales, lg.tx.value);
        BooksNew(logs[..i], lg, sales);
        position := position[lg.tx.value := |sales|];
        sales := sales + [Sale(lg.tx.value, lg.block, lg.amount)];
      }
    }
    assert logs[..|logs|] == logs;
  }

  // ----- Mirroring -----

  /** What could be learned about prices around a sale; zero or less means nothing found. */
  datatype Quote = Quote(pool: real, median: real, kol: real)

  datatype Fill = Fill(kolTokens: nat, ourTokens: real, price: real, mcap: real)

  /** The first price known: pool, median of swaps, the wallet's own, our entry. */
  function ExitPrice(q: Quote, entryPrice: real): real {
    if q.pool != 0.0 then q.pool else if q.median != 0.0 then q.median else if q.kol != 0.0 then q.kol else entryPrice
  }

  /** Market cap at a price: proportional, or zero if the supply is unknown. */
  function Mcap(price: real, supply: real, bnbUsd: real): real {
    if price != 0.0 && supply != 0.0 then price * supply * bnbUsd / 1000000000000000000.0 else 0.0
  }

  /** The part of our tokens that stands for `amount` of the wallet's `total`. */
  function Share(ourTokens: real, amount: int, total: nat): real
    requires total > 0
  {
    ourTokens * (amount as real / total as real)
  }

  function SumFirst(amounts: seq<nat>, n: nat): nat
    requires n <= |amounts|
  {
    if n == 0 then 0 else SumFirst(amounts, n - 1) + amounts[n - 1]
  }

  /** How much the wallet has sold after `n` sales, counting no more than it had. */
  function Cum(amounts: seq<nat>, total: nat, n: nat): nat
    requires n <= |amounts|
  {
    Min(total, SumFirst(amounts, n))
  }

  datatype Terms = Terms(ourTokens: real, total: nat, entryPrice: real, supply: real, bnbUsd: real)

  function MakeFill(t: Terms, amount: nat, price: real): Fill
    requires t.total > 0
  {
    Fill(amount, Share(t.ourTokens, amount, t.total), price, Mcap(price, t.supply, t.bnbUsd))
  }

  /** The fills of the first `n` sales: one for every sale that moves the capped total. */
  function SaleFills(t: Terms, amounts: seq<nat>, quotes: seq<Quote>, n: nat): seq<Fill>
    requires t.total > 0 && n <= |amounts| == |quotes|
  {
    if n == 0 then []
    else
      var sold := Cum(amounts, t.total, n) - Cum(amounts, t.total, n - 1);
      SaleFills(t, amounts, quotes, n - 1)
      + if sold > 0 then [MakeFill(t, sold, ExitPrice(quotes[n - 1], t.entryPrice))] else []
  }

  /** The price of a forced close: the pool's, else that of the last fill, else our entry. */
  function ForcePrice(pool: real, fills: seq<Fill>, entryPrice: real): real {
    if pool != 0.0 then pool else if fills != [] then fills[|fills| - 1].price else entryPrice
  }

  function AllFills(t: Terms, amounts: seq<nat>, quotes: seq<Quote>, forcePool: real): seq<Fill>
    requires t.total > 0 && |amounts| == |quotes|
  {
    var fills := SaleFills(t, amounts, quotes, |amounts|);
    var left := t.total - Cum(amounts, t.total, |amounts|);
    if left > 0 then fills + [MakeFill(t, left, ForcePrice(forcePool, fills, t.entryPrice))] else fills
  }

  /** What a fill brings. */
  function Gain(f: Fill): real {
    f.ourTokens * f.price
  }

  function Proceeds(fills: seq<Fill>): real {
    if fills == [] then 0.0 else Proceeds(fills[..|fills| - 1]) + Gain(fills[|fills| - 1])
  }

  lemma FillPush(fills: seq<Fill>, f: Fill)
    ensures Proceeds(fills + [f]) == Proceeds(fills) + Gain(f)
    ensures KolSold(fills + [f]) == KolSold(fills) + f.kolTokens
  {
    assert (fills + [f])[..|fills|] == fills;
  }

  lemma {:induction false} SumGrows(amounts: seq<nat>, n: nat, m: nat)
    requires n <= m <= |amounts|
    ensures SumFirst(amounts, n) <= SumFirst(amounts, m)
    decreases m
  {
    if n < m {
      SumGrows(amounts, n, m - 1);
    }
  }

  /** A sale moves the capped total by what is left of the total at most. */
  lemma CumStep(amounts: seq<nat>, total: nat, i: nat)
    requires i < |amounts|
    ensures Cum(amounts, total, i + 1) == Cum(amounts, total, i) + Min(amounts[i], total - Cum(amounts, total, i))
  {
  }

  /** A sale with something left to copy adds one fill; any other adds none. */
  lemma SaleFillsStep(t: Terms, amounts: seq<nat>, quotes: seq<Quote>, i: nat)
    requires t.total > 0 && i < |amounts| == |quotes|
    ensures var amount := Min(amounts[i], t.total - Cum(amounts, t.total, i));
            SaleFills(t, amounts, quotes, i + 1) ==
            if amount > 0 then SaleFills(t, amounts, quotes, i) + [MakeFill(t, amount, ExitPrice(quotes[i], t.entryPrice))]
            else SaleFills(t, amounts, quotes, i)
  {
    CumStep(amounts, t.total, i);
  }

  /** Once the total is sold no later sale adds a fill, so stopping there loses nothing. */
  lemma {:induction false} NoMoreFills(t: Terms, amounts: seq<nat>, quotes: seq<Quote>, n: nat, m: nat)
    requires t.total > 0 && n <= m <= |amounts| == |quotes| && Cum(amounts, t.total, n) == t.total
    ensures SaleFills(t, amounts, quotes, m) == SaleFills(t, amounts, quotes, n)
    ensures Cum(amounts, t.total, m) == t.total
    decreases m
  {
    SumGrows(amounts, n, m);
    if n < m {
      NoMoreFills(t, amounts, quotes, n, m - 1);
    }
  }

  // ----- At which price -----

  /** The price a sale is copied at: the pool's, else the median of swaps, else the wallet's
      own, else our entry. */
  predicate PricedBy(price: real, q: Quote, entryPrice: real) {
    && (q.pool != 0.0 ==> price == q.pool)
    && (q.pool == 0.0 && q.median != 0.0 ==> price == q.median)
    && (q.pool == 0.0 && q.median == 0.0 && q.kol != 0.0 ==> price == q.kol)
    && (q.pool == 0.0 && q.median == 0.0 && q.kol == 0.0 ==> price == entryPrice)
  }

  /** The price of a forced close: the pool's, else that of the last sale copied, else our entry. */
  predicate ForcedAt(price: real, pool: real, before: seq<Fill>, entryPrice: real) {
    && (pool != 0.0 ==> price == pool)
    && (pool == 0.0 && before != [] ==> price == before[|before| - 1].price)
    && (pool == 0.0 && before == [] ==> price == entryPrice)
  }

  /** A fill of `amount` of the wallet's tokens: as much of ours in proportion, and the market
      cap at its price, if price and supply are known. */
  predicate FillOf(t: Terms, f: Fill, amount: nat)
    requires t.total > 0
  {
    && f.kolTokens == amount
    && f.ourTokens == t.ourTokens * (amount as real / t.total as real)
    && (f.price != 0.0 && t.supply != 0.0 ==> f.mcap == f.price * t.supply * t.bnbUsd / 1000000000000000000.0)
    && (f.price == 0.0 || t.supply == 0.0 ==> f.mcap == 0.0)
  }

  /** The sales that are copied: those of something, before the total was sold. */
  function Copied(amounts: seq<nat>, total: nat, n: nat): seq<nat>
    requires n <= |amounts|
  {
    if n == 0 then []
    else Copied(amounts, total, n - 1) + if amounts[n - 1] > 0 && SumFirst(amounts, n - 1) < total then [n - 1] else []
  }

  /** The `k`-th fill copies sale `i`: what of it was left to sell, at the price by its quote. */
  ghost predicate Copies(t: Terms, f: Fill, amounts: seq<nat>, quotes: seq<Quote>, i: nat)
    requires t.total > 0 && |amounts| == |quotes|
  {
    && i < |amounts| && SumFirst(amounts, i) < t.total
    && FillOf(t, f, Min(amounts[i], t.total - SumFirst(amounts, i)))
    && PricedBy(f.price, quotes[i], t.entryPrice)
  }

  /** One fill a copied sale, in order. */
  ghost predicate CopiesAll(t: Terms, fills: seq<Fill>, amounts: seq<nat>, quotes: seq<Quote>, sales: seq<nat>)
    requires t.total > 0 && |amounts| == |quotes|
  {
    |fills| == |sales| && forall k :: 0 <= k < |fills| ==> Copies(t, fills[k], amounts, quotes, sales[k])
  }

  lemma FillIsFillOf(t: Terms, amount: nat, price: real)
    requires t.total > 0
    ensures FillOf(t, MakeFill(t, amount, price), amount) && MakeFill(t, amount, price).price == price
  {
  }

  lemma CopyOne(t: Terms, amounts: seq<nat>, quotes: seq<Quote>, i: nat)
    requires t.total > 0 && i < |amounts| == |quotes| && amounts[i] > 0 && SumFirst(amounts, i) < t.total
    ensures Copies(t, MakeFill(t, Min(amounts[i], t.total - SumFirst(amounts, i)), ExitPrice(quotes[i], t.entryPrice)), amounts, quotes, i)
  {
    FillIsFillOf(t, Min(amounts[i], t.total - SumFirst(amounts, i)), ExitPrice(quotes[i], t.entryPrice));
  }

  lemma CopiesPush(t: Terms, fills: seq<Fill>, amounts: seq<nat>, quotes: seq<Quote>, sales: seq<nat>, f: Fill, i: nat)
    requires t.total > 0 && |amounts| == |quotes| && CopiesAll(t, fills, amounts, quotes, sales)
    requires Copies(t, f, amounts, quotes, i)
    ensures CopiesAll(t, fills + [f], amounts, quotes, sales + [i])
  {
  }

  lemma {:induction false} SalesAreCopied(t: Terms, amounts: seq<nat>, quotes: seq<Quote>, n: nat)
    requires t.total > 0 && n <= |amounts| == |quotes|
    ensures CopiesAll(t, SaleFills(t, amounts, quotes, n), amounts, quotes, Copied(amounts, t.total, n))
  {
    if n > 0 {
      SalesAreCopied(t, amounts, quotes, n - 1);
      SaleFillsStep(t, amounts, quotes, n - 1);
      if amounts[n - 1] > 0 && SumFirst(amounts, n - 1) < t.total {
        CopyOne(t, amounts, quotes, n - 1);
        CopiesPush(t, SaleFills(t, amounts, quotes, n - 1), amounts, quotes, Copied(amounts, t.total, n - 1),
                   MakeFill(t, Min(amounts[n - 1], t.total - SumFirst(amounts, n - 1)), ExitPrice(quotes[n - 1], t.entryPrice)), n - 1);
      }
    }
  }

  /** All fills, with the forced close, sale by sale. */
  ghost predicate Mirrored(t: Terms, fills: seq<Fill>, amounts: seq<nat>, quotes: seq<Quote>, forcePool: real)
    requires t.total > 0 && |amounts| == |quotes|
  {
    var sales := Copied(amounts, t.total, |amounts|);
    var sold := SumFirst(amounts, |amounts|);
    && |sales| <= |fills|
    && CopiesAll(t, fills[..|sales|], amounts, quotes, sales)
    && (sold >= t.total ==> |fills| == |sales|)
    && (sold < t.total ==>
          && |fills| == |sales| + 1
          && FillOf(t, fills[|sales|], t.total - sold)
          && ForcedAt(fills[|sales|].price, forcePool, fills[..|sales|], t.entryPrice))
  }

  lemma AllAreMirrored(t: Terms, amounts: seq<nat>, quotes: seq<Quote>, forcePool: real)
    requires t.total > 0 && |amounts| == |quotes|
    ensures Mirrored(t, AllFills(t, amounts, quotes, forcePool), amounts, quotes, forcePool)
  {
    SalesAreCopied(t, amounts, quotes, |amounts|);
    var copies := SaleFills(t, amounts, quotes, |amounts|);
    var all := AllFills(t, amounts, quotes, forcePool);
    assert all[..|copies|] == copies;
    FillIsFillOf(t, t.total - Cum(amounts, t.total, |amounts|), ForcePrice(forcePool, copies, t.entryPrice));
  }

  /** The sum of tokens times price over the fills. */
  function Brought(fills: seq<Fill>): real {
    if fills == [] then 0.0
    else Brought(fills[..|fills| - 1]) + fills[|fills| - 1].ourTokens * fills[|fills| - 1].price
  }

  lemma {:induction false} ProceedsAreBrought(fills: seq<Fill>)
    ensures Proceeds(fills) == Brought(fills)
  {
    if fills != [] {
      ProceedsAreBrought(fills[..|fills| - 1]);
    }
  }

  /** The loop over the sales and the forced close. */
  method MirrorExits(t: Terms, amounts: seq<nat>, quotes: seq<Quote>, forcePool: real)
    returns (fills: seq<Fill>, bnbOut: real, cumKolSold: nat, forceClosed: bool)
    requires t.total > 0 && |amounts| == |quotes|
    ensures fills == AllFills(t, amounts, quotes, forcePool)
    ensures Mirrored(t, fills, amounts, quotes, forcePool)
    ensures bnbOut == Proceeds(fills) == Brought(fills)
    ensures cumKolSold == Cum(amounts, t.total, |amounts|) <= t.total
    ensures forceClosed <==> cumKolSold < t.total
  {
    fills, bnbOut, cumKolSold := MirrorSales(t, amounts, quotes);
    forceClosed := false;
    if cumKolSold < t.total {
      var price := ForcePrice(forcePool, fills, t.entryPrice);
      var f := MakeFill(t, t.total - cumKolSold, price);
      FillPush(fills, f);
      bnbOut := bnbOut + Gain(f);
      forceClosed := true;
      fills := fills + [f];
    }
    AllAreMirrored(t, amounts, quotes, forcePool);
    ProceedsAreBrought(fills);
  }

  method MirrorSales(t: Terms, amounts: seq<nat>, quotes: seq<Quote>) returns (fills: seq<Fill>, bnbOut: real, cumKolSold: nat)
    requires t.total > 0 && |amounts| == |quotes|
    ensures fills == SaleFills(t, amounts, quotes, |amounts|)
    ensures bnbOut == Proceeds(fills)
    ensures cumKolSold == Cum(amounts, t.total, |amounts|)
  {
    fills, bnbOut, cumKolSold := [], 0.0, 0;
    var i := 0;
    while i < |amounts|
      invariant 0 <= i <= |amounts|
      invariant fills == SaleFills(t, amounts, quotes, i)
      invariant bnbOut == Proceeds(fills)
      invariant cumKolSold == Cum(amounts, t.total, i)
    {
      if cumKolSold >= t.total {
        NoMoreFills(t, amounts, quotes, i, |amounts|);
        return;
      }
      var amount := Min(amounts[i], t.total - cumKolSold);
      SaleFillsStep(t, amounts, quotes, i);
      CumStep(amounts, t.total, i);
      if amount > 0 {
        var f := MakeFill(t, amount, ExitPrice(quotes[i], t.entryPrice));
        FillPush(fills, f);
        bnbOut := bnbOut + Gain(f);
        cumKolSold := cumKolSold + amount;
        fills := fills + [f];
      }
      i := i + 1;
    }
  }

  // ----- What mirroring conserves -----

  function KolSold(fills: seq<Fill>): nat {
    if fills == [] then 0 else KolSold(fills[..|fills| - 1]) + fills[|fills| - 1].kolTokens
  }

  function OurSold(fills: seq<Fill>): real {
    if fills == [] then 0.0 else OurSold(fills[..|fills| - 1]) + fills[|fills| - 1].ourTokens
  }

  /** A fill is the share of our position that the wallet's tokens are of its own. */
  predicate ProportionalFill(t: Terms, f: Fill)
    requires t.total > 0
  {
    && f.kolTokens > 0
    && f.ourTokens == Share(t.ourTokens, f.kolTokens, t.total)
    && f.mcap == Mcap(f.price, t.supply, t.bnbUsd)
  }

  ghost predicate Proportional(t: Terms, fills: seq<Fill>)
    requires t.total > 0
  {
    forall k :: 0 <= k < |fills| ==> ProportionalFill(t, fills[k])
  }

  lemma ShareAdds(ourTokens: real, a: int, b: int, total: nat)
    requires total > 0
    ensures Share(ourTokens, a, total) + Share(ourTokens, b, total) == Share(ourTokens, a + b, total)
    ensures Share(ourTokens, total, total) == ourTokens
    ensures Share(ourTokens, 0, total) == 0.0
  {
    var r := total as real;
    assert (a + b) as real / r == a as real / r + b as real / r;
    assert r / r == 1.0;
  }

  lemma {:induction false} SaleFillsAdd(t: Terms, amounts: seq<nat>, quotes: seq<Quote>, n: nat)
    requires t.total > 0 && n <= |amounts| == |quotes|
    ensures KolSold(SaleFills(t, amounts, quotes, n)) == Cum(amounts, t.total, n)
  {
    if n > 0 {
      SaleFillsAdd(t, amounts, quotes, n - 1);
      CumStep(amounts, t.total, n - 1);
      var sold := Cum(amounts, t.total, n) - Cum(amounts, t.total, n - 1);
      var before := SaleFills(t, amounts, quotes, n - 1);
      if sold > 0 {
        FillPush(before, MakeFill(t, sold, ExitPrice(quotes[n - 1], t.entryPrice)));
      } else {
        assert SaleFills(t, amounts, quotes, n) == before;
      }
    }
  }

  lemma {:induction false} SaleFillsShare(t: Terms, amounts: seq<nat>, quotes: seq<Quote>, n: nat)
    requires t.total > 0 && n <= |amounts| == |quotes|
    ensures Proportional(t, SaleFills(t, amounts, quotes, n))
  {
    if n > 0 {
      SaleFillsShare(t, amounts, quotes, n - 1);
    }
  }

  lemma {:induction false} OurSoldIsShare(t: Terms, fills: seq<Fill>)
    requires t.total > 0 && Proportional(t, fills)
    ensures OurSold(fills) == Share(t.ourTokens, KolSold(fills), t.total)
  {
    ShareAdds(t.ourTokens, 0, 0, t.total);
    if fills != [] {
      var n := |fills| - 1;
      OurSoldIsShare(t, fills[..n]);
      ShareAdds(t.ourTokens, KolSold(fills[..n]), fills[n].kolTokens, t.total);
    }
  }

  /** Every token is sold, and none twice: the fills account for the whole position of the
      wallet and of ours, force-close included. */
  lemma PositionIsConserved(t: Terms, amounts: seq<nat>, quotes: seq<Quote>, forcePool: real)
    requires t.total > 0 && |amounts| == |quotes|
    ensures var fills := AllFills(t, amounts, quotes, forcePool);
            KolSold(fills) == t.total && OurSold(fills) == t.ourTokens && Proportional(t, fills)
  {
    SaleFillsAdd(t, amounts, quotes, |amounts|);
    SaleFillsShare(t, amounts, quotes, |amounts|);
    var before, fills := SaleFills(t, amounts, quotes, |amounts|), AllFills(t, amounts, quotes, forcePool);
    if fills != before {
      FillPush(before, fills[|before|]);
    }
    OurSoldIsShare(t, fills);
    ShareAdds(t.ourTokens, 0, 0, t.total);
  }

  /** What a row resolves to: our fills, what they brought, and whether a forced close was needed. */
  datatype Outcome = Outcome(fills: seq<Fill>, bnbOut: real, forceClosed: bool)

  /** A row without a positive entry price or without tokens of the wallet resolves to
      nothing. Otherwise the fills dispose of all the tokens that our stake bought, and a
      close was forced exactly when the wallet sold less than it had. */
  method Resolve(bnbIn: real, entryPrice: real, total: nat, supply: real, bnbUsd: real,
                 amounts: seq<nat>, quotes: seq<Quote>, forcePool: real) returns (outcome: Option<Outcome>)
    requires |amounts| == |quotes|
    ensures outcome.None? <==> entryPrice <= 0.0 || total == 0
    ensures outcome.Some? ==>
              && outcome.value.fills == AllFills(Terms(bnbIn / entryPrice, total, entryPrice, supply, bnbUsd), amounts, quotes, forcePool)
              && Mirrored(Terms(bnbIn / entryPrice, total, entryPrice, supply, bnbUsd), outcome.value.fills, amounts, quotes, forcePool)
              && outcome.value.bnbOut == Brought(outcome.value.fills)
              && OurSold(outcome.value.fills) == bnbIn / entryPrice
              && KolSold(outcome.value.fills) == total
              && (outcome.value.forceClosed <==> SumFirst(amounts, |amounts|) < total)
  {
    if entryPrice <= 0.0 || total == 0 {
      return None;
    }
    var t := Terms(bnbIn / entryPrice, total, entryPrice, supply, bnbUsd);
    var fills, bnbOut, cumKolSold, forceClosed := MirrorExits(t, amounts, quotes, forcePool);
    PositionIsConserved(t, amounts, quotes, forcePool);
    outcome := Some(Outcome(fills, bnbOut, forceClosed));
  }

  // ----- The average exit -----

  function Weighted(fills: seq<Fill>): real {
    if fills == [] then 0.0
    else Weighted(fills[..|fills| - 1]) + fills[|fills| - 1].mcap * fills[|fills| - 1].ourTokens
  }

  function AverageMcap(fills: seq<Fill>): real {
    if fills != [] && OurSold(fills) > 0.0 then Weighted(fills) / OurSold(fills) else 0.0
  }

  /** The average times the tokens sold is the sum of market cap times tokens; without tokens
      sold it is zero. */
  lemma AverageMeans(fills: seq<Fill>)
    ensures OurSold(fills) > 0.0 ==> AverageMcap(fills) * OurSold(fills) == Weighted(fills)
    ensures OurSold(fills) <= 0.0 ==> AverageMcap(fills) == 0.0
  {
    if OurSold(fills) > 0.0 {
      TimesBack(Weighted(fills), OurSold(fills));
    }
  }

  lemma TimesBack(w: real, s: real)
    requires s > 0.0
    ensures w / s * s == w
  {
  }

  lemma {:induction false} WeightedBetween(fills: seq<Fill>, lo: real, hi: real)
    requires forall k :: 0 <= k < |fills| ==> fills[k].ourTokens >= 0.0 && lo <= fills[k].mcap <= hi
    ensures lo * OurSold(fills) <= Weighted(fills) <= hi * OurSold(fills)
  {
    if fills != [] {
      var n := |fills| - 1;
      WeightedBetween(fills[..n], lo, hi);
      WeightStep(OurSold(fills[..n]), fills[n].ourTokens, fills[n].mcap, lo, hi);
    }
  }

  lemma WeightStep(sold: real, tokens: real, mcap: real, lo: real, hi: real)
    requires tokens >= 0.0 && lo <= mcap <= hi
    ensures lo * sold + mcap * tokens >= lo * (sold + tokens)
    ensures hi * sold + mcap * tokens <= hi * (sold + tokens)
  {
    assert (mcap - lo) * tokens >= 0.0 && (hi - mcap) * tokens >= 0.0;
  }

  lemma QuotientBetween(w: real, s: real, lo: real, hi: real)
    requires s > 0.0 && lo * s <= w <= hi * s
    ensures lo <= w / s <= hi
  {
    assert (w / s) * s == w;
  }

  lemma ShareNonnegative(ourTokens: real, a: nat, total: nat)
    requires total > 0 && ourTokens >= 0.0
    ensures Share(ourTokens, a, total) >= 0.0
  {
    assert a as real / total as real >= 0.0;
  }

  lemma AverageOf(t: Terms, fills: seq<Fill>, lo: real, hi: real)
    requires t.total > 0 && t.ourTokens > 0.0 && Proportional(t, fills) && OurSold(fills) == t.ourTokens
    requires forall k :: 0 <= k < |fills| ==> lo <= fills[k].mcap <= hi
    ensures lo <= AverageMcap(fills) <= hi
  {
    SharesNonnegative(t, fills);
    WeightedBetween(fills, lo, hi);
    QuotientBetween(Weighted(fills), OurSold(fills), lo, hi);
  }

  /** The average exit lies between the lowest and the highest exit of the fills. */
  lemma AverageBetween(t: Terms, amounts: seq<nat>, quotes: seq<Quote>, forcePool: real, lo: real, hi: real)
    requires t.total > 0 && |amounts| == |quotes| && t.ourTokens > 0.0
    requires var fills := AllFills(t, amounts, quotes, forcePool);
             forall k :: 0 <= k < |fills| ==> lo <= fills[k].mcap <= hi
    ensures lo <= AverageMcap(AllFills(t, amounts, quotes, forcePool)) <= hi
  {
    PositionIsConserved(t, amounts, quotes, forcePool);
    AverageOf(t, AllFills(t, amounts, quotes, forcePool), lo, hi);
  }

  lemma SharesNonnegative(t: Terms, fills: seq<Fill>)
    requires t.total > 0 && t.ourTokens >= 0.0 && Proportional(t, fills)
    ensures forall k :: 0 <= k < |fills| ==> fills[k].ourTokens >= 0.0
  {
    forall k | 0 <= k < |fills| ensures fills[k].ourTokens >= 0.0 {
      ShareNonnegative(t.ourTokens, fills[k].kolTokens, t.total);
    }
  }
}
