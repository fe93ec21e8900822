/** The pipeline as a step system: sources offer, decoder workers take and send on, the
    dedupe task records and publishes, and the janitor sweeps, in any interleaving. */
module Pipeline {
  import opened Common
  import opened Dedupe

  /** `decodes` stands for the outcome of decoding and signer recovery on the payload. */
  datatype RawTx = RawTx(id: nat, hash: Hash, source: Source, recvNs: nat, decodes: bool)

  /** A worker that is not idle has decoded a transaction and waits to send it on. */
  datatype Worker = Idle | Busy(tx: RawTx)

  datatype Event =
    | Published(tx: RawTx, entry: FirstSeen)
    | Duplicated(tx: RawTx)
    | Failed(tx: RawTx)
    | Sweep(nowNs: nat, shard: set<Hash>)

  datatype Config = Config(rawCapacity: nat, decodedCapacity: nat, ttlNs: nat)

  /** `accepted` and `sent` are what was ever put into the two queues, `history` is everything
      that left the pipeline, and the sweeps, each in order. */
  datatype State = State(
    raw: seq<RawTx>,
    workers: seq<Worker>,
    decoded: seq<RawTx>,
    table: map<Hash, FirstSeen>,
    accepted: seq<RawTx>,
    sent: seq<RawTx>,
    history: seq<Event>)

  datatype Action =
    | Offer(tx: RawTx)
    | Take(worker: nat)
    | Send(worker: nat)
    | Dedupe
    | Janitor(nowNs: nat, shard: set<Hash>)

  function Initial(workers: nat): State {
    State([], seq(workers, _ => Idle), [], map[], [], [], [])
  }

  predicate Enabled(cfg: Config, s: State, a: Action) {
    match a
    case Offer(_) => true
    case Take(w) => w < |s.workers| && s.workers[w].Idle? && s.raw != []
    case Send(w) => w < |s.workers| && s.workers[w].Busy? && |s.decoded| < cfg.decodedCapacity
    case Dedupe => s.decoded != []
    case Janitor(nowNs, _) => nowNs <= U64_MAX
  }

  function Next(cfg: Config, s: State, a: Action): State
    requires Enabled(cfg, s, a)
  {
    match a
    case Offer(tx) =>
      // a full queue drops the incoming transaction
      if |s.raw| < cfg.rawCapacity then s.(raw := s.raw + [tx], accepted := s.accepted + [tx]) else s
    case Take(w) =>
      var tx := s.raw[0];
      if tx.decodes then s.(raw := s.raw[1..], workers := s.workers[w := Busy(tx)])
      else s.(raw := s.raw[1..], history := s.history + [Failed(tx)])
    case Send(w) =>
      s.(workers := s.workers[w := Idle], decoded := s.decoded + [s.workers[w].tx], sent := s.sent + [s.workers[w].tx])
    case Dedupe =>
      var tx := s.decoded[0];
      var table := Sighted(s.table, tx.hash, tx.source, tx.recvNs, cfg.ttlNs);
      s.(decoded := s.decoded[1..],
         table := table,
         history := s.history + [if tx.hash in s.table then Duplicated(tx) else Published(tx, table[tx.hash])])
    case Janitor(nowNs, shard) =>
      s.(table := Swept(s.table, nowNs, shard), history := s.history + [Sweep(nowNs, shard)])
  }

  ghost predicate CanRun(cfg: Config, s: State, actions: seq<Action>)
    decreases |actions|
  {
    actions == [] || (Enabled(cfg, s, actions[0]) && CanRun(cfg, Next(cfg, s, actions[0]), actions[1..]))
  }

  ghost function Run(cfg: Config, s: State, actions: seq<Action>): State
    requires CanRun(cfg, s, actions)
    decreases |actions|
  {
    if actions == [] then s else Run(cfg, Next(cfg, s, actions[0]), actions[1..])
  }

  // ----- Every accepted transaction is in exactly one place -----

  function HeldBy(w: Worker): multiset<RawTx> {
    if w.Busy? then multiset{w.tx} else multiset{}
  }

  function Held(workers: seq<Worker>): multiset<RawTx> {
    if workers == [] then multiset{} else Held(workers[..|workers| - 1]) + HeldBy(workers[|workers| - 1])
  }

  /** The transactions that left, whatever became of them. */
  function Left(history: seq<Event>): seq<RawTx> {
    if history == [] then []
    else Left(history[..|history| - 1]) + if history[|history| - 1].Sweep? then [] else [history[|history| - 1].tx]
  }

  ghost predicate Conserved(s: State) {
    multiset(s.accepted) == multiset(s.raw) + Held(s.workers) + multiset(s.decoded) + multiset(Left(s.history))
  }

  lemma {:induction false} HeldInitially(n: nat)
    ensures Held(seq(n, _ => Idle)) == multiset{}
  {
    if n > 0 {
      assert seq(n, _ => Idle)[..n - 1] == seq(n - 1, _ => Idle);
      HeldInitially(n - 1);
    }
  }

  /** Filling an idle worker adds one transaction to those held. */
  lemma {:induction false} HeldFill(workers: seq<Worker>, w: nat, tx: RawTx)
    requires w < |workers| && workers[w].Idle?
    ensures Held(workers[w := Busy(tx)]) == Held(workers) + multiset{tx}
  {
    var n := |workers| - 1;
    var filled := workers[w := Busy(tx)];
    if w < n {
      HeldFill(workers[..n], w, tx);
      assert filled[..n] == workers[..n][w := Busy(tx)];
    } else {
      assert filled[..n] == workers[..n];
    }
  }

  lemma HeldFree(workers: seq<Worker>, w: nat)
    requires w < |workers| && workers[w].Busy?
    ensures Held(workers[w := Idle]) + multiset{workers[w].tx} == Held(workers)
  {
    HeldFill(workers[w := Idle], w, workers[w].tx);
    assert workers[w := Idle][w := workers[w]] == workers;
  }

  lemma Push(s: seq<RawTx>, tx: RawTx)
    ensures multiset(s + [tx]) == multiset(s) + multiset{tx}
  {
  }

  lemma Pop(s: seq<RawTx>)
    requires s != []
    ensures multiset(s) == multiset{s[0]} + multiset(s[1..])
  {
    assert s == [s[0]] + s[1..];
  }

  lemma LeftPush(history: seq<Event>, e: Event)
    ensures Left(history + [e]) == Left(history) + if e.Sweep? then [] else [e.tx]
  {
    assert (history + [e])[..|history|] == history;
  }

  lemma TakeConserves(cfg: Config, s: State, w: nat)
    requires Enabled(cfg, s, Take(w)) && Conserved(s)
    ensures Conserved(Next(cfg, s, Take(w)))
  {
    var tx := s.raw[0];
    Pop(s.raw);
    if tx.decodes {
      HeldFill(s.workers, w, tx);
    } else {
      LeftPush(s.history, Failed(tx));
      Push(Left(s.history), tx);
    }
  }

  lemma SendConserves(cfg: Config, s: State, w: nat)
    requires Enabled(cfg, s, Send(w)) && Conserved(s)
    ensures Conserved(Next(cfg, s, Send(w)))
  {
    HeldFree(s.workers, w);
    Push(s.decoded, s.workers[w].tx);
  }

  lemma DedupeConserves(cfg: Config, s: State)
    requires Enabled(cfg, s, Dedupe) && Conserved(s)
    ensures Conserved(Next(cfg, s, Dedupe))
  {
    var s' := Next(cfg, s, Dedupe);
    var e := s'.history[|s.history|];
    assert s'.history == s.history + [e] && !e.Sweep? && e.tx == s.decoded[0];
    Pop(s.decoded);
    LeftPush(s.history, e);
    Push(Left(s.history), e.tx);
  }

  lemma OfferConserves(cfg: Config, s: State, tx: RawTx)
    requires Conserved(s)
    ensures Conserved(Next(cfg, s, Offer(tx)))
  {
    Push(s.raw, tx);
    Push(s.accepted, tx);
  }

  lemma StepConserves(cfg: Config, s: State, a: Action)
    requires Enabled(cfg, s, a) && Conserved(s)
    ensures Conserved(Next(cfg, s, a))
  {
    match a
    case Offer(tx) => OfferConserves(cfg, s, tx);
    case Take(w) => TakeConserves(cfg, s, w);
    case Send(w) => SendConserves(cfg, s, w);
    case Dedupe => DedupeConserves(cfg, s);
    case Janitor(nowNs, shard) => LeftPush(s.history, Sweep(nowNs, shard));
  }

  /** Over every interleaving. */
  lemma {:induction false} RunsConserve(cfg: Config, s: State, actions: seq<Action>)
    requires CanRun(cfg, s, actions) && Conserved(s)
    ensures Conserved(Run(cfg, s, actions))
    decreases |actions|
  {
    if actions != [] {
      StepConserves(cfg, s, actions[0]);
      RunsConserve(cfg, Next(cfg, s, actions[0]), actions[1..]);
    }
  }

  // ----- The queues -----

  /** A transaction is accepted exactly when the raw queue has room; a full queue drops it. */
  lemma OfferIff(cfg: Config, s: State, tx: RawTx)
    ensures var s' := Next(cfg, s, Offer(tx));
            && (|s.raw| < cfg.rawCapacity ==> s'.accepted == s.accepted + [tx] && s'.raw == s.raw + [tx])
            && (|s.raw| >= cfg.rawCapacity ==> s' == s)
  {
  }

  /** The transactions that were recorded, first or again, in order. */
  function Recorded(history: seq<Event>): seq<RawTx> {
    if history == [] then []
    else
      var e := history[|history| - 1];
      Recorded(history[..|history| - 1]) + if e.Published? || e.Duplicated? then [e.tx] else []
  }

  /** `part` is the end of `all`. */
  ghost predicate EndOf(part: seq<RawTx>, all: seq<RawTx>) {
    |part| <= |all| && part == all[|all| - |part|..]
  }

  /** Neither queue exceeds its capacity and both are first in, first out: what waits is the
      end of what was put in, and what was recorded is all that was sent before. */
  ghost predicate InOrder(cfg: Config, s: State) {
    && |s.raw| <= cfg.rawCapacity && |s.decoded| <= cfg.decodedCapacity
    && EndOf(s.raw, s.accepted)
    && Recorded(s.history) + s.decoded == s.sent
  }

  lemma RecordedPush(history: seq<Event>, e: Event)
    ensures Recorded(history + [e]) == Recorded(history) + if e.Published? || e.Duplicated? then [e.tx] else []
  {
    assert (history + [e])[..|history|] == history;
  }

  lemma EndPush(part: seq<RawTx>, all: seq<RawTx>, tx: RawTx)
    requires EndOf(part, all)
    ensures EndOf(part + [tx], all + [tx])
    ensures part != [] ==> EndOf(part[1..], all)
  {
  }

  lemma TakeInOrder(cfg: Config, s: State, w: nat)
    requires Enabled(cfg, s, Take(w)) && InOrder(cfg, s)
    ensures InOrder(cfg, Next(cfg, s, Take(w)))
  {
    EndPush(s.raw, s.accepted, s.raw[0]);
    RecordedPush(s.history, Failed(s.raw[0]));
  }

  lemma SendInOrder(cfg: Config, s: State, w: nat)
    requires Enabled(cfg, s, Send(w)) && InOrder(cfg, s)
    ensures InOrder(cfg, Next(cfg, s, Send(w)))
  {
  }

  lemma MoveOne(done: seq<RawTx>, waiting: seq<RawTx>)
    requires waiting != []
    ensures done + [waiting[0]] + waiting[1..] == done + waiting
  {
  }

  lemma DedupeInOrder(cfg: Config, s: State)
    requires Enabled(cfg, s, Dedupe) && InOrder(cfg, s)
    ensures InOrder(cfg, Next(cfg, s, Dedupe))
  {
    var e := Next(cfg, s, Dedupe).history[|s.history|];
    assert Next(cfg, s, Dedupe).history == s.history + [e] && e.tx == s.decoded[0];
    RecordedPush(s.history, e);
    MoveOne(Recorded(s.history), s.decoded);
  }

  lemma StepInOrder(cfg: Config, s: State, a: Action)
    requires Enabled(cfg, s, a) && InOrder(cfg, s)
    ensures InOrder(cfg, Next(cfg, s, a))
  {
    match a
    case Offer(tx) => EndPush(s.raw, s.accepted, tx);
    case Take(w) => TakeInOrder(cfg, s, w);
    case Send(w) => SendInOrder(cfg, s, w);
    case Dedupe => DedupeInOrder(cfg, s);
    case Janitor(nowNs, shard) => RecordedPush(s.history, Sweep(nowNs, shard));
  }

  /** Over every interleaving. */
  lemma {:induction false} RunsInOrder(cfg: Config, s: State, actions: seq<Action>)
    requires CanRun(cfg, s, actions) && InOrder(cfg, s)
    ensures InOrder(cfg, Run(cfg, s, actions))
    decreases |actions|
  {
    if actions != [] {
      StepInOrder(cfg, s, actions[0]);
      RunsInOrder(cfg, Next(cfg, s, actions[0]), actions[1..]);
    }
  }

  /** From an empty pipeline. */
  lemma QueuesFromEmpty(cfg: Config, workers: nat, actions: seq<Action>)
    requires CanRun(cfg, Initial(workers), actions)
    ensures InOrder(cfg, Run(cfg, Initial(workers), actions))
  {
    var s := Initial(workers);
    assert Recorded(s.history) == [];
    assert InOrder(cfg, s);
    RunsInOrder(cfg, s, actions);
  }
}
