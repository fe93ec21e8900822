/** The per-token watcher: a map of copied-out trail states, ticked once a block. */
module TrailWatcher {
  import opened Common
  import opened TrailRule
  import opened TrailMachine
  import FS = FlowStats
  import T = TrailTheorems

  type Address = nat

  /** A position, every tick it has been shown while held, and how many trades of the token
      had been fed at each. */
  datatype Record = Record(pos: Position, ticks: seq<Tick>, fed: seq<nat>) {
    function Push(t: Tick, m: nat): Record {
      Record(pos, ticks + [t], fed + [m])
    }

    /** `exit` is what the rule decides at the last tick, and no earlier tick was an exit. */
    ghost predicate Decides(cfg: TrailConfig, exit: Option<ExitReason>) {
      && ticks != []
      && exit == WatchDecide(cfg, pos, ticks, true)
      && FirstExit(cfg, pos, ticks, true) == (if exit.Some? then Some((|ticks| - 1, exit.value)) else None)
    }
  }

  /** Each stored state says what its ticks say, and none of those ticks was an exit. */
  ghost predicate Tracks(cfg: TrailConfig, states: map<Address, Snapshot>, log: map<Address, Record>) {
    && states.Keys == log.Keys
    && forall k :: k in states ==>
         && Refines(states[k], cfg, log[k].pos, Seen(log[k].ticks))
         && FirstExit(cfg, log[k].pos, log[k].ticks, true).None?
  }

  lemma SeenPush(ticks: seq<Tick>, t: Tick)
    ensures Seen(ticks + [t]) == match t.price case None => Seen(ticks) case Some(p) => Seen(ticks) + [p]
  {
    assert (ticks + [t])[..|ticks|] == ticks;
  }

  /** One tick more: the first exit so far is the old one or the decision now. */
  lemma FirstExitPush(cfg: TrailConfig, pos: Position, ticks: seq<Tick>, t: Tick, dump: bool)
    ensures FirstExit(cfg, pos, ticks + [t], dump) ==
            match FirstExit(cfg, pos, ticks, dump)
            case Some(x) => Some(x)
            case None =>
              match WatchDecide(cfg, pos, ticks + [t], dump)
              case Some(r) => Some((|ticks|, r))
              case None => None
  {
    assert (ticks + [t])[..|ticks|] == ticks;
  }

  lemma TracksUpdate(cfg: TrailConfig, states: map<Address, Snapshot>, log: map<Address, Record>,
                     token: Address, s: Snapshot, r: Record)
    requires Tracks(cfg, states, log)
    requires Refines(s, cfg, r.pos, Seen(r.ticks)) && FirstExit(cfg, r.pos, r.ticks, true).None?
    ensures Tracks(cfg, states[token := s], log[token := r])
  {
  }

  lemma TracksDrop(cfg: TrailConfig, states: map<Address, Snapshot>, log: map<Address, Record>, token: Address)
    requires Tracks(cfg, states, log)
    ensures Tracks(cfg, states - {token}, log - {token})
  {
  }

  lemma RecordDecides(cfg: TrailConfig, r: Record, tick: Tick, m: nat, exit: Option<ExitReason>)
    requires FirstExit(cfg, r.pos, r.ticks, true).None? && exit == WatchDecide(cfg, r.pos, r.ticks + [tick], true)
    ensures r.Push(tick, m).Decides(cfg, exit)
  {
    FirstExitPush(cfg, r.pos, r.ticks, tick, true);
  }

  /** One tick of one state: vote first, then a step; a block without a price can only time out. */
  method TickState(cfg: TrailConfig, state: TrailState, ghost pos: Position, ghost ticks: seq<Tick>, tick: Tick)
    returns (exit: Option<ExitReason>)
    requires state.Valid() && Refines(state.View(), cfg, pos, Seen(ticks))
    modifies state, state.priceHistory
    ensures state.Valid()
    ensures exit == WatchDecide(cfg, pos, ticks + [tick], true)
    ensures exit.None? ==> Refines(state.View(), cfg, pos, Seen(ticks + [tick]))
  {
    ghost var s := state.View();
    assert (ticks + [tick])[..|ticks|] == ticks;
    SeenPush(ticks, tick);
    match tick.price {
      case None =>
        exit := if SatSub(tick.block, state.openedBlock) >= cfg.maxHoldBlocks then Some(Timeout) else None;
      case Some(price) =>
        var votes: Option<nat> := None;
        if state.armed && state.count >= HISTORY_LEN {
          votes := state.ComputeVotes(price, tick.flow);
          VoteRefines(s, cfg, pos, Seen(ticks), price, tick.flow);
        }
        if votes.Some? && votes.value >= 3 {
          exit := Some(SignalVote);
        } else {
          StepRefines(s, cfg, pos, Seen(ticks), price, tick.block);
          exit := state.Step(cfg, price, tick.block);
        }
    }
  }

  lemma Overwrite<K, V>(m: map<K, V>, k: K, a: V, b: V)
    ensures m[k := a] - {k} == m - {k}
    ensures m[k := a][k := b] == m[k := b]
    ensures k in m && m[k] == a ==> m[k := a] == m
  {
  }

  // ----- The flow figures -----

  /** The figures the vote reads off the deque of a token whose trades are `feed`. */
  function FlowOf(feed: seq<FS.Trade>): Flow {
    var deque := FS.DequeOf(feed);
    Flow(FS.SumCounts(FS.LastN(deque, 3), true), FS.SumCounts(FS.LastN(deque, 10), true), FS.SumFlow(FS.LastN(deque, 3)))
  }

  /** A token has figures once it has a trade. */
  function FlowAfter(feed: seq<FS.Trade>): Option<Flow> {
    if feed == [] then None else Some(FlowOf(feed))
  }

  /** Buys of the last three and ten active blocks, and the wei bought and sold in three. */
  datatype Sums = Sums(buys3: nat, buys10: nat, bought3: nat, sold3: nat) {
    function Flow(): Flow {
      TrailRule.Flow.Flow(buys3, buys10, bought3 - sold3)
    }
  }

  /** The sums over the raw trades. */
  function SumsOf(feed: seq<FS.Trade>): Sums
    requires feed != []
  {
    var last3, last10 := FS.From(feed, FS.Cutoff(feed, 3)), FS.From(feed, FS.Cutoff(feed, 10));
    Sums(FS.Count(last3, true), FS.Count(last10, true), FS.Volume(last3, true), FS.Volume(last3, false))
  }

  /** Trades in block order, and few and small enough that nothing overflows. */
  ghost predicate Orderly(feed: seq<FS.Trade>) {
    FS.Nondecreasing(feed) && |feed| < FS.U32 && FS.Volume(feed, true) + FS.Volume(feed, false) < FS.I128
  }

  lemma FlowIsRaw(feed: seq<FS.Trade>)
    requires feed != [] && Orderly(feed)
    ensures FlowOf(feed) == SumsOf(feed).Flow()
  {
    FS.FiguresOverBlocks(feed, 3, true);
    FS.FiguresOverBlocks(feed, 10, true);
  }

  lemma OrderlyPrefix(feed: seq<FS.Trade>, m: nat)
    requires Orderly(feed) && m <= |feed|
    ensures Orderly(feed[..m])
  {
    assert feed == feed[..m] + feed[m..];
    FS.CountConcat(feed[..m], feed[m..], true);
    FS.CountConcat(feed[..m], feed[m..], false);
  }

  method ReadFlow(stats: FS.TokenStats) returns (f: Flow)
    requires stats.Valid()
    ensures f == FlowOf(stats.log)
  {
    var buys3 := stats.CountLast(3, true);
    var buys10 := stats.CountLast(10, true);
    var net3 := stats.NetFlowLast(3);
    f := Flow(buys3, buys10, net3);
  }

  /** What a token's trades say to a vote. */
  type Figures = seq<FS.Trade> -> Option<Flow>

  /** Every tick of the record carries the figures of the trades fed by then. */
  ghost predicate FedBy(r: Record, feed: seq<FS.Trade>, figures: Figures) {
    && |r.fed| == |r.ticks|
    && (forall i :: 0 <= i < |r.fed| ==> r.fed[i] <= |feed| && r.ticks[i].flow == figures(feed[..r.fed[i]]))
    && (forall i, j :: 0 <= i < j < |r.fed| ==> r.fed[i] <= r.fed[j])
  }

  lemma FedMore(r: Record, feed: seq<FS.Trade>, figures: Figures, t: FS.Trade)
    requires FedBy(r, feed, figures)
    ensures FedBy(r, feed + [t], figures)
  {
    forall i | 0 <= i < |r.fed| ensures (feed + [t])[..r.fed[i]] == feed[..r.fed[i]] {}
  }

  /** The record after one more tick, with the figures of `feed`. */
  function Shown(r: Record, feed: seq<FS.Trade>, figures: Figures, block: nat, price: Option<real>): Record {
    r.Push(Tick(block, price, figures(feed)), |feed|)
  }

  lemma FedPush(r: Record, feed: seq<FS.Trade>, figures: Figures, block: nat, price: Option<real>)
    requires FedBy(r, feed, figures)
    ensures FedBy(Shown(r, feed, figures, block, price), feed, figures)
  {
    var r' := Shown(r, feed, figures, block, price);
    var n := |r.fed|;
    assert feed[..|feed|] == feed;
    forall i | 0 <= i <= n ensures r'.fed[i] <= |feed| && r'.ticks[i].flow == figures(feed[..r'.fed[i]]) {
      if i < n {
        assert r'.fed[i] == r.fed[i] && r'.ticks[i] == r.ticks[i];
      }
    }
  }

  function FeedIn(feeds: map<Address, seq<FS.Trade>>, token: Address): seq<FS.Trade> {
    if token in feeds then feeds[token] else []
  }

  ghost predicate AllFed(log: map<Address, Record>, feeds: map<Address, seq<FS.Trade>>, figures: Figures) {
    forall k :: k in log ==> FedBy(log[k], FeedIn(feeds, k), figures)
  }

  lemma AllFedUpdate(log: map<Address, Record>, feeds: map<Address, seq<FS.Trade>>, figures: Figures, token: Address, r: Record)
    requires AllFed(log, feeds, figures) && FedBy(r, FeedIn(feeds, token), figures)
    ensures AllFed(log[token := r], feeds, figures) && AllFed(log - {token}, feeds, figures)
  {
  }

  lemma ShownIsFed(log: map<Address, Record>, feeds: map<Address, seq<FS.Trade>>, figures: Figures, token: Address, r: Record,
                   block: nat, price: Option<real>)
    requires AllFed(log, feeds, figures) && (if token in log then r == log[token] else r.ticks == [] && r.fed == [])
    ensures var shown := Shown(r, FeedIn(feeds, token), figures, block, price);
            && FedBy(shown, FeedIn(feeds, token), figures)
            && AllFed(log[token := shown], feeds, figures) && AllFed(log - {token}, feeds, figures)
  {
    FedPush(r, FeedIn(feeds, token), figures, block, price);
    AllFedUpdate(log, feeds, figures, token, Shown(r, FeedIn(feeds, token), figures, block, price));
  }

  /** A trade of any token leaves every record fed. */
  lemma AllFedMore(log: map<Address, Record>, feeds: map<Address, seq<FS.Trade>>, figures: Figures, token: Address, t: FS.Trade)
    requires AllFed(log, feeds, figures)
    ensures AllFed(log, feeds[token := FeedIn(feeds, token) + [t]], figures)
  {
    if token in log {
      FedMore(log[token], FeedIn(feeds, token), figures, t);
    }
  }

  lemma VoteIsVote(cfg: TrailConfig, pos: Position, before: seq<real>, ticks: seq<Tick>)
    requires ticks != [] && before == Seen(ticks[..|ticks| - 1])
    ensures var t := ticks[|ticks| - 1];
            WatchDecide(cfg, pos, ticks, true) == Some(SignalVote) <==>
            t.price.Some? && VoteFires(cfg, pos, before, t.price.value, t.flow)
  {
  }

  /** The vote at a price, over the prices before it and four sums: ten prices with a positive
      oldest, a peak before this price that armed the position, and three of four inequalities. */
  ghost predicate VoteOn(cfg: TrailConfig, pos: Position, before: seq<real>, price: real, sums: Sums, peak: real) {
    && |before| >= 10 && before[|before| - 10] > 0.0
    && peak >= pos.entry * (1.0 + cfg.armPct)
    && T.SignalsAt(before, price, sums.buys3, sums.buys10, sums.bought3 - sums.sold3) >= 3
  }

  /** A whole run ends in a vote exactly when a price came with its last tick, trades had been
      fed, and the vote held of the prices before it and the sums over the raw trades fed by then. */
  lemma VotedOnFeedIff(cfg: TrailConfig, r: Record, feed: seq<FS.Trade>, figures: Figures, exit: Option<ExitReason>,
                       sums: Sums, peak: real)
    requires r.Decides(cfg, exit) && FedBy(r, feed, figures) && Orderly(feed)
    requires T.IsPeak(peak, r.pos, Seen(r.ticks[..|r.ticks| - 1]))
    requires var fed := feed[..r.fed[|r.ticks| - 1]];
             figures(fed) == FlowAfter(fed) && (fed != [] ==> sums == SumsOf(fed))
    ensures var n := |r.ticks| - 1;
            exit == Some(SignalVote) <==>
            && r.ticks[n].price.Some? && r.fed[n] > 0
            && VoteOn(cfg, r.pos, Seen(r.ticks[..n]), r.ticks[n].price.value, sums, peak)
  {
    var n := |r.ticks| - 1;
    VotedOn(cfg, r, feed, figures, exit);
    OrderlyPrefix(feed, r.fed[n]);
    FlowAfterIsRaw(feed[..r.fed[n]]);
    if r.ticks[n].price.Some? {
      SumsVote(cfg, r.pos, Seen(r.ticks[..n]), r.ticks[n].price.value, figures(feed[..r.fed[n]]), sums, peak);
    }
  }

  lemma VotedOn(cfg: TrailConfig, r: Record, feed: seq<FS.Trade>, figures: Figures, exit: Option<ExitReason>)
    requires r.Decides(cfg, exit) && FedBy(r, feed, figures)
    ensures var n := |r.ticks| - 1;
            exit == Some(SignalVote) <==>
            r.ticks[n].price.Some? && VoteFires(cfg, r.pos, Seen(r.ticks[..n]), r.ticks[n].price.value, figures(feed[..r.fed[n]]))
  {
    VoteIsVote(cfg, r.pos, Seen(r.ticks[..|r.ticks| - 1]), r.ticks);
  }

  lemma SumsVote(cfg: TrailConfig, pos: Position, before: seq<real>, price: real, flow: Option<Flow>, sums: Sums, peak: real)
    requires T.IsPeak(peak, pos, before) && (flow.Some? ==> flow.value == sums.Flow())
    ensures VoteFires(cfg, pos, before, price, flow) <==> flow.Some? && VoteOn(cfg, pos, before, price, sums, peak)
  {
    T.VoteMeans(cfg, pos, before, price, flow, peak);
  }

  lemma FlowAfterIsRaw(feed: seq<FS.Trade>)
    requires Orderly(feed)
    ensures FlowAfter(feed) == if feed == [] then None else Some(SumsOf(feed).Flow())
  {
    if feed != [] {
      FlowIsRaw(feed);
    }
  }

  /** Every token that was traded has the deque of its feed. */
  ghost predicate DequesOf(stats: map<Address, seq<FS.BlockStats>>, feeds: map<Address, seq<FS.Trade>>) {
    && stats.Keys == feeds.Keys
    && forall k :: k in stats ==> feeds[k] != [] && stats[k] == FS.DequeOf(feeds[k])
  }

  lemma DequesUpdate(stats: map<Address, seq<FS.BlockStats>>, feeds: map<Address, seq<FS.Trade>>, token: Address,
                     blocks: seq<FS.BlockStats>, feed: seq<FS.Trade>)
    requires DequesOf(stats, feeds) && feed != [] && blocks == FS.DequeOf(feed)
    ensures DequesOf(stats[token := blocks], feeds[token := feed])
  {
  }

  /** One trade on one deque. */
  method IngestDeque(blocks: seq<FS.BlockStats>, ghost feed: seq<FS.Trade>, block: nat, isBuy: bool, wei: FS.Wei)
    returns (blocks': seq<FS.BlockStats>)
    requires blocks == FS.DequeOf(feed)
    ensures blocks' == FS.DequeOf(feed + [FS.Trade(block, isBuy, wei)])
  {
    var entry := new FS.TokenStats.Load(blocks, feed);
    entry.Ingest(block, isBuy, wei);
    blocks' := entry.blocks;
  }

  lemma EmptyDeque()
    ensures FS.DequeOf([]) == []
  {
  }

  method ReadDeque(blocks: seq<FS.BlockStats>, ghost feed: seq<FS.Trade>) returns (f: Flow)
    requires blocks == FS.DequeOf(feed)
    ensures f == FlowOf(feed)
  {
    var entry := new FS.TokenStats.Load(blocks, feed);
    f := ReadFlow(entry);
  }

  /** The rolling statistics of every token that was traded, shared by feed and watcher. */
  class StatsCache {
    var stats: map<Address, seq<FS.BlockStats>>
    /** All trades of every token so far. */
    ghost var feeds: map<Address, seq<FS.Trade>>

    ghost predicate Valid()
      reads this
    {
      DequesOf(stats, feeds)
    }

    constructor ()
      ensures Valid() && feeds == map[]
    {
      stats, feeds := map[], map[];
    }

    /** One trade, in its token's statistics; no other feed changes. */
    method Ingest(token: Address, block: nat, isBuy: bool, wei: FS.Wei)
      requires Valid()
      modifies this
      ensures Valid()
      ensures feeds == old(feeds)[token := FeedIn(old(feeds), token) + [FS.Trade(block, isBuy, wei)]]
    {
      EmptyDeque();
      var blocks := IngestDeque(if token in stats then stats[token] else [], FeedIn(feeds, token), block, isBuy, wei);
      Store(token, blocks, FeedIn(feeds, token) + [FS.Trade(block, isBuy, wei)]);
    }

    method Store(token: Address, blocks: seq<FS.BlockStats>, ghost feed: seq<FS.Trade>)
      requires Valid() && feed != [] && blocks == FS.DequeOf(feed)
      modifies this
      ensures Valid() && feeds == old(feeds)[token := feed] && stats == old(stats)[token := blocks]
    {
      DequesUpdate(stats, feeds, token, blocks, feed);
      stats := stats[token := blocks];
      feeds := feeds[token := feed];
    }

    /** The figures of a token, if it was ever traded. */
    method FlowFor(token: Address) returns (flow: Option<Flow>)
      requires Valid()
      ensures flow == FlowAfter(FeedIn(feeds, token))
    {
      if token !in stats {
        return None;
      }
      var f := ReadDeque(stats[token], feeds[token]);
      return Some(f);
    }
  }

  // ----- The watcher -----

  /** What the watcher holds: the stored states, and what every held token has been shown. */
  datatype Book = Book(states: map<Address, Snapshot>, log: map<Address, Record>)

  /** What a tick of `token` makes of the book, given the record it continues, if any. The exit
      is the first that the rule gives on everything the position has been shown, and only
      this token's entry changes. */
  ghost predicate Processed(cfg: TrailConfig, was: Book, now: Book, continued: Option<Record>, token: Address,
                            feed: seq<FS.Trade>, figures: Figures, block: nat, price: Option<real>, exit: Option<ExitReason>) {
    match continued
    case None => exit == None && now == was
    case Some(r) =>
      var shown := Shown(r, feed, figures, block, price);
      && shown.Decides(cfg, exit) && FedBy(shown, feed, figures)
      && now.log == (if exit.Some? then was.log - {token} else was.log[token := shown])
      && forall k :: k != token && k in now.states ==> k in was.states && now.states[k] == was.states[k]
  }

  class Watcher {
    const cfg: TrailConfig
    var states: map<Address, Snapshot>
    /** What every held token has been shown. */
    ghost var log: map<Address, Record>

    ghost predicate Valid()
      reads this
    {
      Tracks(cfg, states, log)
    }

    ghost function View(): Book
      reads this
    {
      Book(states, log)
    }

    constructor (cfg: TrailConfig)
      ensures Valid() && log == map[] && this.cfg == cfg
    {
      this.cfg := cfg;
      states, log := map[], map[];
    }

    /** The record that a tick of `token` continues, if there is one: the ledger is
        asked only for a token that is not tracked yet. */
    ghost function Continues(token: Address, ready: bool, ledger: Option<Position>): Option<Record>
      reads this
    {
      if !ready then None
      else if token in log then Some(log[token])
      else if ledger.Some? then Some(Record(ledger.value, [], []))
      else None
    }

    /** One position at one block, with the flow figures of its token's trades so far. */
    method ProcessOne(token: Address, ready: bool, ledger: Option<Position>, block: nat, price: Option<real>, cache: StatsCache)
      returns (exit: Option<ExitReason>)
      requires Valid() && cache.Valid() && AllFed(log, cache.feeds, FlowAfter)
      modifies this
      ensures Valid() && AllFed(log, cache.feeds, FlowAfter)
      ensures Processed(cfg, old(View()), View(), old(Continues(token, ready, ledger)), token,
                        FeedIn(cache.feeds, token), FlowAfter, block, price, exit)
    {
      var flow := cache.FlowFor(token);
      exit := ProcessFed(token, ready, ledger, block, price, flow, cache.feeds, FlowAfter);
    }

    /** The part after the figures are read. */
    method ProcessFed(token: Address, ready: bool, ledger: Option<Position>, block: nat, price: Option<real>, flow: Option<Flow>,
                      ghost feeds: map<Address, seq<FS.Trade>>, ghost figures: Figures) returns (exit: Option<ExitReason>)
      requires Valid() && AllFed(log, feeds, figures) && flow == figures(FeedIn(feeds, token))
      modifies this
      ensures Valid() && AllFed(log, feeds, figures)
      ensures Processed(cfg, old(View()), View(), old(Continues(token, ready, ledger)), token,
                        FeedIn(feeds, token), figures, block, price, exit)
    {
      if !ready {
        return None;
      }
      if token !in states && ledger.None? {
        return None;
      }
      ShownIsFed(log, feeds, figures, token, Continues(token, true, ledger).value, block, price);
      exit := ProcessTick(token, ledger, Tick(block, price, flow), |FeedIn(feeds, token)|);
    }

    /** The part that does not look at the feed. */
    method ProcessTick(token: Address, ledger: Option<Position>, tick: Tick, ghost m: nat) returns (exit: Option<ExitReason>)
      requires Valid() && Continues(token, true, ledger).Some?
      modifies this
      ensures Valid()
      ensures var shown := old(Continues(token, true, ledger)).value.Push(tick, m);
              && shown.Decides(cfg, exit)
              && log == if exit.Some? then old(log) - {token} else old(log)[token := shown]
      ensures forall k :: k != token && k in states ==> k in old(states) && states[k] == old(states)[k]
    {
      if token !in states {
        Register(token, ledger.value);
      }
      ghost var r := log[token];
      exit := TickOne(token, tick, m);
      Overwrite(old(log), token, r, r.Push(tick, m));
    }

    /** First sight: a fresh state, from the ledger's position. */
    method Register(token: Address, pos: Position)
      requires Valid() && token !in log
      modifies this
      ensures Valid()
      ensures log == old(log)[token := Record(pos, [], [])]
      ensures states == old(states)[token := Initial(pos, pos.openedBlock)]
    {
      InitialRefines(cfg, pos, pos.openedBlock);
      TracksUpdate(cfg, states, log, token, Initial(pos, pos.openedBlock), Record(pos, [], []));
      states := states[token := Initial(pos, pos.openedBlock)];
      log := log[token := Record(pos, [], [])];
    }

    /** The part after the state is known to be in the map. */
    method TickOne(token: Address, tick: Tick, ghost m: nat) returns (exit: Option<ExitReason>)
      requires Valid() && token in log
      modifies this
      ensures Valid()
      ensures old(log[token]).Push(tick, m).Decides(cfg, exit)
      ensures log == if exit.Some? then old(log) - {token} else old(log)[token := old(log[token]).Push(tick, m)]
      ensures forall k :: k != token && k in states ==> k in old(states) && states[k] == old(states)[k]
    {
      ghost var record := log[token];
      var state := new TrailState(states[token]);
      exit := TickState(cfg, state, record.pos, record.ticks, tick);
      RecordDecides(cfg, record, tick, m, exit);
      if exit.Some? {
        TracksDrop(cfg, states, log, token);
        states := states - {token};
        log := log - {token};
      } else {
        TracksUpdate(cfg, states, log, token, state.View(), record.Push(tick, m));
        var s := state.View();
        states := states[token := s];
        log := log[token := record.Push(tick, m)];
      }
    }
  }
}
