/** The confirm protocol: transactions of watched wallets are registered when first seen
    pending, dropped after a while, and routed to three sinks when mined, whether they
    were seen before or not. Steps interleave freely. */
module KolConfirm {
  import opened Common
  import opened Gmgn

  type Hash = nat

  const TTL_NS: nat := 300 * 1000000000

  datatype Tx = Tx(hash: Hash, from: Address, input: seq<Byte>, value: nat) {
    function Swap(): Option<Swap> {
      Decode(input, value)
    }
  }

  datatype PendingMeta = PendingMeta(kolName: string, side: Side, token: Address, registeredNs: nat)

  datatype Visibility = Public | Private

  /** What a sink is offered; a sink that is off or full drops it. */
  datatype Hit = Hit(tx: Tx, side: Side, token: Address, block: nat, kolName: string, visibility: Visibility)

  datatype Sinks = Sinks(trader: seq<Hit>, privateTrader: seq<Hit>, live: seq<Hit>)

  type KolIndex = map<Address, string>

  datatype State = State(pending: map<Hash, PendingMeta>, sinks: Sinks)

  /** First sight registers decoded trades of known wallets only; the latest sight wins. */
  function Registered(index: KolIndex, pending: map<Hash, PendingMeta>, tx: Tx, nowNs: nat): map<Hash, PendingMeta> {
    if tx.from in index && tx.Swap().Some? then
      pending[tx.hash := PendingMeta(index[tx.from], tx.Swap().value.side, tx.Swap().value.token, nowNs)]
    else pending
  }

  function Unexpired(pending: map<Hash, PendingMeta>, nowNs: nat): map<Hash, PendingMeta> {
    map h | h in pending && SatSub(nowNs, pending[h].registeredNs) < TTL_NS :: pending[h]
  }

  /** What one mined transaction offers to the sinks. */
  function Routed(index: KolIndex, s: State, tx: Tx, block: nat): Sinks {
    if tx.hash in s.pending then
      var m := s.pending[tx.hash];
      if m.side == Sell then
        var hit := Hit(tx, Sell, m.token, block, m.kolName, Public);
        Sinks(s.sinks.trader + [hit], s.sinks.privateTrader + [hit], s.sinks.live + [hit])
      else s.sinks
    else if tx.from in index && tx.Swap().Some? then
      var swap := tx.Swap().value;
      var hit := Hit(tx, swap.side, swap.token, block, index[tx.from], Private);
      Sinks(if swap.side == Sell then s.sinks.trader + [hit] else s.sinks.trader,
            s.sinks.privateTrader + [hit], s.sinks.live + [hit])
    else s.sinks
  }

  datatype Action = FirstSight(tx: Tx, nowNs: nat) | Sweep(nowNs: nat) | Mine(tx: Tx, block: nat)

  /** The watcher's index decides what is registered, the confirmer's what is recognised unseen. */
  datatype Indexes = Indexes(watch: KolIndex, confirm: KolIndex)

  function Next(ix: Indexes, s: State, a: Action): State {
    match a
    case FirstSight(tx, nowNs) => s.(pending := Registered(ix.watch, s.pending, tx, nowNs))
    case Sweep(nowNs) => s.(pending := Unexpired(s.pending, nowNs))
    case Mine(tx, block) => State(s.pending - {tx.hash}, Routed(ix.confirm, s, tx, block))
  }

  function Run(ix: Indexes, s: State, actions: seq<Action>): State {
    if actions == [] then s else Next(ix, Run(ix, s, actions[..|actions| - 1]), actions[|actions| - 1])
  }

  const START := State(map[], Sinks([], [], []))

  // ----- The objects -----

  class Confirmer {
    const index: KolIndex
    var pending: map<Hash, PendingMeta>
    var sinks: Sinks

    constructor (index: KolIndex)
      ensures pending == map[] && sinks == START.sinks && this.index == index
    {
      this.index := index;
      pending, sinks := map[], Sinks([], [], []);
    }

    function View(): State
      reads this
    {
      State(pending, sinks)
    }

    /** Called by the mempool watcher, with its own index, before it dispatches the hit. */
    method ProcessPending(watchIndex: KolIndex, tx: Tx, nowNs: nat)
      modifies this`pending
      ensures pending == Registered(watchIndex, old(pending), tx, nowNs)
    {
      if tx.from !in watchIndex {
        return;
      }
      var swap := DecodeCall(tx.input, tx.value);
      if swap.Some? {
        pending := pending[tx.hash := PendingMeta(watchIndex[tx.from], swap.value.side, swap.value.token, nowNs)];
      }
    }

    method SweepExpired(nowNs: nat)
      modifies this`pending
      ensures pending == Unexpired(old(pending), nowNs)
      ensures forall h :: h in pending <==> h in old(pending) && nowNs < old(pending)[h].registeredNs + 300000000000
    {
      pending := map h | h in pending && SatSub(nowNs, pending[h].registeredNs) < TTL_NS :: pending[h];
    }

    method ProcessTx(tx: Tx, block: nat)
      modifies this
      ensures View() == Next(Indexes(map[], index), old(View()), Mine(tx, block))
    {
      if tx.hash in pending {
        var m := pending[tx.hash];
        pending := pending - {tx.hash};
        if m.side == Sell {
          var hit := Hit(tx, Sell, m.token, block, m.kolName, Public);
          sinks := Sinks(sinks.trader + [hit], sinks.privateTrader + [hit], sinks.live + [hit]);
        }
      } else if tx.from in index {
        var swap := DecodeCall(tx.input, tx.value);
        if swap.Some? {
          var hit := Hit(tx, swap.value.side, swap.value.token, block, index[tx.from], Private);
          sinks := sinks.(privateTrader := sinks.privateTrader + [hit]);
          match swap.value.side {
            case Sell => sinks := sinks.(trader := sinks.trader + [hit], live := sinks.live + [hit]);
            case Buy => sinks := sinks.(live := sinks.live + [hit]);
          }
        }
      }
      assert tx.hash !in old(pending) ==> old(pending) - {tx.hash} == old(pending);
    }

    /** A whole block, transaction by transaction. */
    method ProcessBlock(txs: seq<Tx>, block: nat)
      modifies this
      ensures View() == Run(Indexes(map[], index), old(View()), MineAll(txs, block))
    {
      for i := 0 to |txs|
        invariant View() == Run(Indexes(map[], index), old(View()), MineAll(txs[..i], block))
      {
        ProcessTx(txs[i], block);
        assert txs[..i + 1] == txs[..i] + [txs[i]];
        assert MineAll(txs[..i + 1], block)[..i] == MineAll(txs[..i], block);
      }
      assert txs[..|txs|] == txs;
    }
  }

  function MineAll(txs: seq<Tx>, block: nat): seq<Action> {
    seq(|txs|, i requires 0 <= i < |txs| => Mine(txs[i], block))
  }

  // ----- Routing over every interleaving -----

  /** A hash identifies a transaction. */
  ghost predicate Honest(chain: Hash -> Tx, actions: seq<Action>) {
    forall i :: 0 <= i < |actions| && !actions[i].Sweep? ==> chain(actions[i].tx.hash) == actions[i].tx
  }

  /** Every registered entry is a decoded trade of a watched wallet, side and token as decoded. */
  ghost predicate Faithful(ix: Indexes, chain: Hash -> Tx, pending: map<Hash, PendingMeta>) {
    forall h :: h in pending ==>
      && chain(h).from in ix.watch
      && chain(h).Swap() == Some(Swap.Swap(pending[h].token, pending[h].side))
  }

  datatype Order = Order(tx: Tx, token: Address, block: nat)

  predicate IsSell(tx: Tx) {
    tx.Swap().Some? && tx.Swap().value.side == Sell
  }

  /** When `hash` was registered, if it still is after `actions`: by the latest first sight
      of a decoded trade of a watched wallet that no sweep found too old and no block took. */
  function RegisteredAt(watch: KolIndex, actions: seq<Action>, hash: Hash): Option<nat> {
    if actions == [] then None
    else
      var before := RegisteredAt(watch, actions[..|actions| - 1], hash);
      match actions[|actions| - 1]
      case FirstSight(tx, nowNs) => if tx.hash == hash && tx.from in watch && tx.Swap().Some? then Some(nowNs) else before
      case Sweep(nowNs) => if before.Some? && SatSub(nowNs, before.value) >= TTL_NS then None else before
      case Mine(tx, _) => if tx.hash == hash then None else before
  }

  /** The confirmer knows the wallet, or the transaction is registered after `before`. */
  predicate Noticed(ix: Indexes, before: seq<Action>, tx: Tx) {
    tx.from in ix.confirm || RegisteredAt(ix.watch, before, tx.hash).Some?
  }

  /** The sells among the hits, without what depends on how they were noticed. */
  function Sells(hits: seq<Hit>): seq<Order> {
    if hits == [] then []
    else
      var h := hits[|hits| - 1];
      Sells(hits[..|hits| - 1]) + if h.side == Sell then [Order(h.tx, h.token, h.block)] else []
  }

  /** The decoded sells among the mined transactions that are noticed, in mining order. */
  function NoticedSells(ix: Indexes, actions: seq<Action>): seq<Order> {
    if actions == [] then []
    else
      var a, before := actions[|actions| - 1], actions[..|actions| - 1];
      NoticedSells(ix, before)
      + if a.Mine? && IsSell(a.tx) && Noticed(ix, before, a.tx) then [Order(a.tx, a.tx.Swap().value.token, a.block)] else []
  }

  /** The decoded sells of known wallets among the mined transactions, in mining order. */
  function MinedSells(index: KolIndex, actions: seq<Action>): seq<Order> {
    if actions == [] then []
    else
      var a := actions[|actions| - 1];
      MinedSells(index, actions[..|actions| - 1])
      + if a.Mine? && a.tx.from in index && IsSell(a.tx) then [Order(a.tx, a.tx.Swap().value.token, a.block)] else []
  }

  lemma SellsPush(hits: seq<Hit>, h: Hit)
    ensures Sells(hits + [h]) == Sells(hits) + if h.side == Sell then [Order(h.tx, h.token, h.block)] else []
  {
    assert (hits + [h])[..|hits|] == hits;
  }

  /** `hit` stands for the mined transaction: as registered and public, or as the confirmer
      knows the wallet and private. */
  predicate HitOf(ix: Indexes, s: State, hit: Hit, tx: Tx, side: Side, block: nat)
    requires tx.Swap().Some?
  {
    && hit.side == side && Order(hit.tx, hit.token, hit.block) == Order(tx, tx.Swap().value.token, block)
    && (tx.hash in s.pending ==> hit.visibility == Public && hit.kolName == s.pending[tx.hash].kolName)
    && (tx.hash !in s.pending && tx.from in ix.confirm ==> hit.visibility == Private && hit.kolName == ix.confirm[tx.from])
  }

  /** Everything a mined transaction does to the sinks: a sell that is registered or of a
      known wallet goes once to each; a registered buy to none, an unregistered one of a known
      wallet to the private and the live sink; nothing else goes anywhere. */
  lemma RoutesOnce(ix: Indexes, chain: Hash -> Tx, s: State, tx: Tx, block: nat)
    requires Faithful(ix, chain, s.pending) && chain(tx.hash) == tx
    ensures var s' := Next(ix, s, Mine(tx, block)); var noticed := tx.hash in s.pending || tx.from in ix.confirm;
            && (noticed && IsSell(tx) ==>
                  exists hit :: HitOf(ix, s, hit, tx, Sell, block)
                                && s'.sinks == Sinks(s.sinks.trader + [hit], s.sinks.privateTrader + [hit], s.sinks.live + [hit]))
            && (tx.from in ix.confirm && tx.hash !in s.pending && tx.Swap().Some? && !IsSell(tx) ==>
                  exists hit :: HitOf(ix, s, hit, tx, Buy, block)
                                && s'.sinks == s.sinks.(privateTrader := s.sinks.privateTrader + [hit], live := s.sinks.live + [hit]))
            && (tx.hash in s.pending && !IsSell(tx) ==> s'.sinks == s.sinks)
            && (!noticed || tx.Swap().None? ==> s'.sinks == s.sinks)
  {
    if tx.hash in s.pending {
      var m := s.pending[tx.hash];
      var hit := Hit(tx, Sell, m.token, block, m.kolName, Public);
      if m.side == Sell {
        assert HitOf(ix, s, hit, tx, Sell, block);
      }
    } else if tx.from in ix.confirm && tx.Swap().Some? {
      var swap := tx.Swap().value;
      var hit := Hit(tx, swap.side, swap.token, block, ix.confirm[tx.from], Private);
      assert HitOf(ix, s, hit, tx, swap.side, block);
    }
  }

  ghost predicate RoutedSoFar(ix: Indexes, chain: Hash -> Tx, s: State, actions: seq<Action>) {
    && Faithful(ix, chain, s.pending)
    && Sells(s.sinks.trader) == NoticedSells(ix, actions)
    && Sells(s.sinks.privateTrader) == NoticedSells(ix, actions)
    && Sells(s.sinks.live) == NoticedSells(ix, actions)
    && |s.sinks.trader| == |NoticedSells(ix, actions)|
  }

  /** The registry is what the actions say, hash by hash. */
  lemma {:induction false} RegistryIsHistory(ix: Indexes, actions: seq<Action>, hash: Hash)
    ensures var pending := Run(ix, START, actions).pending; var at := RegisteredAt(ix.watch, actions, hash);
            (hash in pending <==> at.Some?) && (hash in pending ==> pending[hash].registeredNs == at.value)
  {
    if actions != [] {
      RegistryIsHistory(ix, actions[..|actions| - 1], hash);
    }
  }

  lemma NoticedPush(ix: Indexes, actions: seq<Action>, tx: Tx, block: nat)
    ensures NoticedSells(ix, actions + [Mine(tx, block)]) ==
            NoticedSells(ix, actions) + if IsSell(tx) && Noticed(ix, actions, tx) then [Order(tx, tx.Swap().value.token, block)] else []
  {
    assert (actions + [Mine(tx, block)])[..|actions|] == actions;
  }

  lemma SinksPush(s: Sinks, hit: Hit)
    ensures Sells(s.trader + [hit]) == Sells(s.trader) + if hit.side == Sell then [Order(hit.tx, hit.token, hit.block)] else []
    ensures Sells(s.privateTrader + [hit]) == Sells(s.privateTrader) + if hit.side == Sell then [Order(hit.tx, hit.token, hit.block)] else []
    ensures Sells(s.live + [hit]) == Sells(s.live) + if hit.side == Sell then [Order(hit.tx, hit.token, hit.block)] else []
  {
    SellsPush(s.trader, hit);
    SellsPush(s.privateTrader, hit);
    SellsPush(s.live, hit);
  }

  lemma MineRoutes(ix: Indexes, chain: Hash -> Tx, s: State, actions: seq<Action>, tx: Tx, block: nat)
    requires RoutedSoFar(ix, chain, s, actions) && chain(tx.hash) == tx
    requires tx.hash in s.pending <==> RegisteredAt(ix.watch, actions, tx.hash).Some?
    ensures RoutedSoFar(ix, chain, Next(ix, s, Mine(tx, block)), actions + [Mine(tx, block)])
  {
    NoticedPush(ix, actions, tx, block);
    RoutesOnce(ix, chain, s, tx, block);
    var s' := Next(ix, s, Mine(tx, block));
    if IsSell(tx) && Noticed(ix, actions, tx) {
      var hit :| HitOf(ix, s, hit, tx, Sell, block)
                 && s'.sinks == Sinks(s.sinks.trader + [hit], s.sinks.privateTrader + [hit], s.sinks.live + [hit]);
      SinksPush(s.sinks, hit);
    } else if tx.from in ix.confirm && tx.hash !in s.pending && tx.Swap().Some? {
      var hit :| HitOf(ix, s, hit, tx, Buy, block)
                 && s'.sinks == s.sinks.(privateTrader := s.sinks.privateTrader + [hit], live := s.sinks.live + [hit]);
      SinksPush(s.sinks, hit);
    }
  }

  /** Over every interleaving of first sights, sweeps and blocks, each sink is offered exactly
      the decoded sells that were mined while registered or by a known wallet, once each and in
      mining order, and the public trader is offered nothing else. */
  lemma {:induction false} RunsRoute(ix: Indexes, chain: Hash -> Tx, actions: seq<Action>)
    requires Honest(chain, actions)
    ensures RoutedSoFar(ix, chain, Run(ix, START, actions), actions)
  {
    if actions != [] {
      var n := |actions| - 1;
      var a, before := actions[n], Run(ix, START, actions[..n]);
      RunsRoute(ix, chain, actions[..n]);
      assert actions == actions[..n] + [a];
      match a
      case FirstSight(tx, nowNs) => assert chain(tx.hash) == tx;
      case Sweep(nowNs) =>
      case Mine(tx, block) =>
        RegistryIsHistory(ix, actions[..n], tx.hash);
        MineRoutes(ix, chain, before, actions[..n], tx, block);
    }
  }

  /** If the confirmer knows every watched wallet, what was seen pending does not matter. */
  lemma {:induction false} NoticedIsMined(ix: Indexes, chain: Hash -> Tx, actions: seq<Action>)
    requires ix.watch.Keys <= ix.confirm.Keys && Honest(chain, actions)
    ensures NoticedSells(ix, actions) == MinedSells(ix.confirm, actions)
  {
    if actions != [] {
      var n := |actions| - 1;
      NoticedIsMined(ix, chain, actions[..n]);
      if actions[n].Mine? {
        RunsRoute(ix, chain, actions[..n]);
        RegistryIsHistory(ix, actions[..n], actions[n].tx.hash);
      }
    }
  }

  function MinedOnly(actions: seq<Action>): seq<Action> {
    if actions == [] then []
    else MinedOnly(actions[..|actions| - 1]) + if actions[|actions| - 1].Mine? then [actions[|actions| - 1]] else []
  }

  lemma {:induction false} MinedSellsOfMined(index: KolIndex, actions: seq<Action>)
    ensures MinedSells(index, MinedOnly(actions)) == MinedSells(index, actions)
  {
    if actions != [] {
      var n := |actions| - 1;
      MinedSellsOfMined(index, actions[..n]);
      var mined := MinedOnly(actions[..n]);
      if actions[n].Mine? {
        assert (mined + [actions[n]])[..|mined|] == mined;
        assert MinedOnly(actions) == mined + [actions[n]];
      } else {
        assert MinedOnly(actions) == mined;
      }
    }
  }

  /** The same sells in each of the three sinks. */
  predicate SameSells(a: Sinks, b: Sinks) {
    Sells(a.trader) == Sells(b.trader) && Sells(a.privateTrader) == Sells(b.privateTrader) && Sells(a.live) == Sells(b.live)
  }

  /** The exits the sinks are offered do not depend on what was seen pending, or when. */
  ghost predicate VisibilityIndependent(ix: Indexes) {
    forall chain: Hash -> Tx, a: seq<Action>, b: seq<Action> ::
      Honest(chain, a) && Honest(chain, b) && MinedOnly(a) == MinedOnly(b) ==>
        SameSells(Run(ix, START, a).sinks, Run(ix, START, b).sinks)
  }

  /** A sell by any wallet: the selector and one token word, no value attached. */
  function SampleSell(from: Address): Tx {
    Tx(0, from, SELECTOR + seq(32, i => if i < 12 then 0 else 1), 0)
  }

  lemma SampleDecodes(from: Address)
    ensures IsSell(SampleSell(from))
  {
    var tx := SampleSell(from);
    var body := tx.input[4..];
    assert tx.input[..4] == SELECTOR;
    assert |body| == 32 && WordAt(body, 0) == body;
    var word := WordAt(body, 0);
    assert forall i :: 0 <= i < 12 ==> word[i] == 0;
    assert word[12] == 1;
    assert word[12..32][0] == 1 && WBNB[0] == 0xbb && ROUTER[0] == 0x1d;
    assert IsToken(word);
    assert FirstToken(body, 0).Some?;
  }

  /** A wallet only the watcher knows gives two runs that differ in nothing but a first sight. */
  lemma UnknownToConfirmer(ix: Indexes, from: Address)
    requires from in ix.watch && from !in ix.confirm
    ensures !VisibilityIndependent(ix)
  {
    var tx := SampleSell(from);
    var chain := (h: Hash) => tx;
    var a, b := [Mine(tx, 0)], [FirstSight(tx, 0), Mine(tx, 0)];
    SampleDecodes(from);
    assert a[..0] == [] && b[..1] == [FirstSight(tx, 0)] && b[..1][..0] == [];
    assert MinedOnly(a) == [] + [Mine(tx, 0)];
    assert MinedOnly(b[..1]) == [] && b[..|b| - 1] == b[..1];
    assert MinedOnly(b) == [] + [Mine(tx, 0)];
    assert Run(ix, START, a).sinks.live == [];
    var hit := Hit(tx, Sell, tx.Swap().value.token, 0, ix.watch[from], Public);
    assert Run(ix, START, b[..1]).pending[tx.hash].side == Sell;
    assert Run(ix, START, b).sinks.live == [] + [hit];
    SellsPush([], hit);
    assert Honest(chain, a) && Honest(chain, b);
  }

  /** Exactly when exit routing is independent of visibility: when the confirmer knows every
      wallet the watcher knows. Both load one file, but a failed load leaves the former empty. */
  lemma VisibilityIndependentIff(ix: Indexes)
    ensures VisibilityIndependent(ix) <==> ix.watch.Keys <= ix.confirm.Keys
  {
    if ix.watch.Keys <= ix.confirm.Keys {
      forall chain: Hash -> Tx, a: seq<Action>, b: seq<Action> |
        Honest(chain, a) && Honest(chain, b) && MinedOnly(a) == MinedOnly(b)
        ensures SameSells(Run(ix, START, a).sinks, Run(ix, START, b).sinks)
      {
        RunsRoute(ix, chain, a);
        RunsRoute(ix, chain, b);
        NoticedIsMined(ix, chain, a);
        NoticedIsMined(ix, chain, b);
        MinedSellsOfMined(ix.confirm, a);
        MinedSellsOfMined(ix.confirm, b);
      }
    } else {
      var from :| from in ix.watch.Keys && from !in ix.confirm.Keys;
      UnknownToConfirmer(ix, from);
    }
  }
}
