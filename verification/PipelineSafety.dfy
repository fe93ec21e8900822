/** What the pipeline guarantees about repeated hashes, and that it drains. */
module PipelineSafety {
  import opened Common
  import opened Dedupe
  import opened Pipeline

  predicate Publishes(e: Event, hash: Hash) {
    e.Published? && e.tx.hash == hash
  }

  /** A sweep that reaches the shard of `hash` after `expiresAtNs`. */
  predicate Kills(e: Event, hash: Hash, expiresAtNs: nat) {
    e.Sweep? && hash in e.shard && expiresAtNs < e.nowNs
  }

  /** The publish at `i` of `history` was forgotten before position `j`. */
  ghost predicate ForgottenBetween(history: seq<Event>, ttlNs: nat, i: nat, j: nat)
    requires i < j <= |history| && history[i].Published?
  {
    exists k :: i < k < j && Kills(history[k], history[i].tx.hash, SatAdd(history[i].tx.recvNs, ttlNs))
  }

  /** Where `hash` was last published; -1 if never. */
  function LastPublish(history: seq<Event>, hash: Hash): (i: int)
    ensures -1 <= i < |history|
    ensures i >= 0 ==> Publishes(history[i], hash)
  {
    if history == [] then -1
    else if Publishes(history[|history| - 1], hash) then |history| - 1
    else LastPublish(history[..|history| - 1], hash)
  }

  /** The sightings of `hash` that were duplicates. */
  function Repeats(history: seq<Event>, hash: Hash): seq<(Source, nat)> {
    if history == [] then []
    else
      var e := history[|history| - 1];
      Repeats(history[..|history| - 1], hash) + if e.Duplicated? && e.tx.hash == hash then [(e.tx.source, e.tx.recvNs)] else []
  }

  /** The entry that the publish at `i` and the duplicates after it account for. */
  function Explained(history: seq<Event>, ttlNs: nat, i: nat): FirstSeen
    requires i < |history| && history[i].Published?
  {
    var tx := history[i].tx;
    FirstSeen(tx.recvNs, [(tx.source, tx.recvNs)] + Repeats(history[i + 1..], tx.hash), SatAdd(tx.recvNs, ttlNs))
  }

  /** The table is what the history says: an entry is that of the last publish, which no
      sweep has forgotten; a hash without an entry was never published or has been forgotten. */
  ghost predicate TableExplained(history: seq<Event>, ttlNs: nat, table: map<Hash, FirstSeen>) {
    forall h: Hash :: HashExplained(history, ttlNs, table, h)
  }

  ghost predicate HashExplained(history: seq<Event>, ttlNs: nat, table: map<Hash, FirstSeen>, h: Hash) {
    var i := LastPublish(history, h);
    && (h in table ==> i >= 0 && table[h] == Explained(history, ttlNs, i) && !ForgottenBetween(history, ttlNs, i, |history|))
    && (h !in table && i >= 0 ==> ForgottenBetween(history, ttlNs, i, |history|))
  }

  /** Between two publishes of one hash, a sweep forgot the first. */
  ghost predicate RepublishedOnlyForgotten(history: seq<Event>, ttlNs: nat) {
    forall i, j :: 0 <= i < j < |history| && history[i].Published? && Publishes(history[j], history[i].tx.hash) ==>
      ForgottenBetween(history, ttlNs, i, j)
  }

  ghost predicate Safe(cfg: Config, s: State) {
    TableExplained(s.history, cfg.ttlNs, s.table) && RepublishedOnlyForgotten(s.history, cfg.ttlNs)
  }

  // ----- Each step keeps it -----

  lemma ForgottenPush(history: seq<Event>, ttlNs: nat, i: nat, e: Event)
    requires i < |history| && history[i].Published?
    ensures ForgottenBetween(history + [e], ttlNs, i, |history|) <==> ForgottenBetween(history, ttlNs, i, |history|)
    ensures ForgottenBetween(history + [e], ttlNs, i, |history| + 1) <==>
            ForgottenBetween(history, ttlNs, i, |history|) || Kills(e, history[i].tx.hash, SatAdd(history[i].tx.recvNs, ttlNs))
  {
    var h := history + [e];
    assert forall k :: 0 <= k < |history| ==> h[k] == history[k];
    assert h[|history|] == e;
    if ForgottenBetween(history, ttlNs, i, |history|) {
      var k :| i < k < |history| && Kills(history[k], history[i].tx.hash, SatAdd(history[i].tx.recvNs, ttlNs));
      assert Kills(h[k], h[i].tx.hash, SatAdd(h[i].tx.recvNs, ttlNs));
    }
    if Kills(e, history[i].tx.hash, SatAdd(history[i].tx.recvNs, ttlNs)) {
      assert Kills(h[|history|], h[i].tx.hash, SatAdd(h[i].tx.recvNs, ttlNs));
    }
  }

  lemma LastPublishPush(history: seq<Event>, hash: Hash, e: Event)
    ensures LastPublish(history + [e], hash) == if Publishes(e, hash) then |history| else LastPublish(history, hash)
  {
    assert (history + [e])[..|history|] == history;
  }

  lemma ExplainedPush(history: seq<Event>, ttlNs: nat, i: nat, e: Event)
    requires i < |history| && history[i].Published?
    ensures var was := Explained(history, ttlNs, i); var now := Explained(history + [e], ttlNs, i);
            now == if e.Duplicated? && e.tx.hash == history[i].tx.hash
                    then was.(sources := was.sources + [(e.tx.source, e.tx.recvNs)]) else was
  {
    assert (history + [e])[i + 1..] == history[i + 1..] + [e];
    assert (history[i + 1..] + [e])[..|history| - i - 1] == history[i + 1..];
  }

  /** A sighting of another hash changes nothing that is said of `h`. */
  lemma OtherExplains(history: seq<Event>, ttlNs: nat, table: map<Hash, FirstSeen>, table': map<Hash, FirstSeen>,
                                         h: Hash, e: Event)
    requires HashExplained(history, ttlNs, table, h)
    requires !e.Sweep? && (e.Failed? || e.tx.hash != h)
    requires (h in table <==> h in table') && (h in table ==> table[h] == table'[h])
    ensures HashExplained(history + [e], ttlNs, table', h)
  {
    var i := LastPublish(history, h);
    LastPublishPush(history, h, e);
    if i >= 0 {
      ForgottenPush(history, ttlNs, i, e);
      ExplainedPush(history, ttlNs, i, e);
    }
  }

  lemma RepeatExplains(history: seq<Event>, ttlNs: nat, table: map<Hash, FirstSeen>, tx: RawTx)
    requires HashExplained(history, ttlNs, table, tx.hash) && tx.hash in table
    ensures HashExplained(history + [Duplicated(tx)], ttlNs, Sighted(table, tx.hash, tx.source, tx.recvNs, ttlNs), tx.hash)
  {
    var i := LastPublish(history, tx.hash);
    LastPublishPush(history, tx.hash, Duplicated(tx));
    ForgottenPush(history, ttlNs, i, Duplicated(tx));
    ExplainedPush(history, ttlNs, i, Duplicated(tx));
  }

  lemma PublishExplains(history: seq<Event>, ttlNs: nat, table: map<Hash, FirstSeen>, tx: RawTx, entry: FirstSeen)
    requires tx.hash !in table
    ensures HashExplained(history + [Published(tx, entry)], ttlNs, Sighted(table, tx.hash, tx.source, tx.recvNs, ttlNs), tx.hash)
  {
    var history' := history + [Published(tx, entry)];
    LastPublishPush(history, tx.hash, Published(tx, entry));
    assert history'[|history| + 1..] == [];
  }

  lemma SightedExplains(cfg: Config, s: State, h: Hash)
    requires s.decoded != [] && HashExplained(s.history, cfg.ttlNs, s.table, h)
    ensures var s' := Next(cfg, s, Action.Dedupe); HashExplained(s'.history, cfg.ttlNs, s'.table, h)
  {
    var tx := s.decoded[0];
    var s' := Next(cfg, s, Action.Dedupe);
    if tx.hash != h {
      OtherExplains(s.history, cfg.ttlNs, s.table, s'.table, h, s'.history[|s.history|]);
    } else if h in s.table {
      RepeatExplains(s.history, cfg.ttlNs, s.table, tx);
    } else {
      PublishExplains(s.history, cfg.ttlNs, s.table, tx, s'.table[h]);
    }
  }

  lemma SweepExplains(cfg: Config, s: State, h: Hash, nowNs: nat, shard: set<Hash>)
    requires Enabled(cfg, s, Janitor(nowNs, shard)) && HashExplained(s.history, cfg.ttlNs, s.table, h)
    ensures var s' := Next(cfg, s, Janitor(nowNs, shard)); HashExplained(s'.history, cfg.ttlNs, s'.table, h)
  {
    var e := Sweep(nowNs, shard);
    var i := LastPublish(s.history, h);
    LastPublishPush(s.history, h, e);
    if i >= 0 {
      ForgottenPush(s.history, cfg.ttlNs, i, e);
      ExplainedPush(s.history, cfg.ttlNs, i, e);
    }
  }

  lemma StepExplains(cfg: Config, s: State, a: Action, h: Hash)
    requires Enabled(cfg, s, a) && HashExplained(s.history, cfg.ttlNs, s.table, h)
    ensures var s' := Next(cfg, s, a); HashExplained(s'.history, cfg.ttlNs, s'.table, h)
  {
    match a
    case Take(w) =>
      if !s.raw[0].decodes {
        OtherExplains(s.history, cfg.ttlNs, s.table, s.table, h, Failed(s.raw[0]));
      }
    case Dedupe => SightedExplains(cfg, s, h);
    case Janitor(nowNs, shard) => SweepExplains(cfg, s, h, nowNs, shard);
    case _ =>
  }

  /** The publish before the last one was forgotten earlier still. */
  lemma ForgottenLater(history: seq<Event>, ttlNs: nat, i: nat, j: nat, n: nat)
    requires i < j <= n <= |history| && history[i].Published? && ForgottenBetween(history, ttlNs, i, j)
    ensures ForgottenBetween(history, ttlNs, i, n)
  {
  }

  lemma {:induction false} EarlierPublishes(history: seq<Event>, hash: Hash, i: nat)
    requires i < |history| && Publishes(history[i], hash)
    ensures i <= LastPublish(history, hash)
  {
    if !Publishes(history[|history| - 1], hash) {
      EarlierPublishes(history[..|history| - 1], hash, i);
    }
  }

  /** When a hash has no entry, every publish of it has been forgotten by now. */
  lemma AllForgotten(cfg: Config, s: State, i: nat)
    requires Safe(cfg, s) && i < |s.history| && s.history[i].Published? && s.history[i].tx.hash !in s.table
    ensures ForgottenBetween(s.history, cfg.ttlNs, i, |s.history|)
  {
    var h := s.history[i].tx.hash;
    EarlierPublishes(s.history, h, i);
    var last := LastPublish(s.history, h);
    assert HashExplained(s.history, cfg.ttlNs, s.table, h);
    if i < last {
      ForgottenLater(s.history, cfg.ttlNs, i, last, |s.history|);
    }
  }

  /** Adding an event keeps the separation if, in case it publishes, all was forgotten. */
  lemma SeparationPush(history: seq<Event>, ttlNs: nat, e: Event)
    requires RepublishedOnlyForgotten(history, ttlNs)
    requires forall i :: 0 <= i < |history| && history[i].Published? && Publishes(e, history[i].tx.hash) ==>
               ForgottenBetween(history, ttlNs, i, |history|)
    ensures RepublishedOnlyForgotten(history + [e], ttlNs)
  {
    var history' := history + [e];
    forall i, j | 0 <= i < j < |history'| && history'[i].Published? && Publishes(history'[j], history'[i].tx.hash)
      ensures ForgottenBetween(history', ttlNs, i, j)
    {
      if j < |history| {
        assert ForgottenBetween(history, ttlNs, i, j);
        var k :| i < k < j && Kills(history[k], history[i].tx.hash, SatAdd(history[i].tx.recvNs, ttlNs));
        assert history'[k] == history[k];
      } else {
        ForgottenPush(history, ttlNs, i, e);
      }
    }
  }

  lemma StepSafe(cfg: Config, s: State, a: Action)
    requires Enabled(cfg, s, a) && Safe(cfg, s)
    ensures Safe(cfg, Next(cfg, s, a))
  {
    var s' := Next(cfg, s, a);
    forall h: Hash ensures HashExplained(s'.history, cfg.ttlNs, s'.table, h) {
      assert HashExplained(s.history, cfg.ttlNs, s.table, h);
      StepExplains(cfg, s, a, h);
    }
    if s'.history != s.history {
      var e := s'.history[|s.history|];
      assert s'.history == s.history + [e];
      forall i | 0 <= i < |s.history| && s.history[i].Published? && Publishes(e, s.history[i].tx.hash)
        ensures ForgottenBetween(s.history, cfg.ttlNs, i, |s.history|)
      {
        AllForgotten(cfg, s, i);
      }
      SeparationPush(s.history, cfg.ttlNs, e);
    }
  }

  lemma {:induction false} RunsSafe(cfg: Config, s: State, actions: seq<Action>)
    requires CanRun(cfg, s, actions) && Safe(cfg, s)
    ensures Safe(cfg, Run(cfg, s, actions))
    decreases |actions|
  {
    if actions != [] {
      StepSafe(cfg, s, actions[0]);
      RunsSafe(cfg, Next(cfg, s, actions[0]), actions[1..]);
    }
  }

  /** The clock of every sweep fits its word, so an entry whose expiry saturated is never forgotten. */
  ghost predicate SweptInTime(history: seq<Event>) {
    forall k :: 0 <= k < |history| && history[k].Sweep? ==> history[k].nowNs <= U64_MAX
  }

  lemma {:induction false} ClocksFit(cfg: Config, s: State, actions: seq<Action>)
    requires CanRun(cfg, s, actions) && SweptInTime(s.history)
    ensures SweptInTime(Run(cfg, s, actions).history)
    decreases |actions|
  {
    if actions != [] {
      ClocksFit(cfg, Next(cfg, s, actions[0]), actions[1..]);
    }
  }

  /** Between positions `i` and `j` a sweep of the hash published at `i` came more than the TTL
      after that transaction was received. */
  ghost predicate SweptAfterTtl(history: seq<Event>, ttlNs: nat, i: nat, j: nat)
    requires i < j <= |history| && history[i].Published?
  {
    exists k :: i < k < j && history[k].Sweep? && history[i].tx.hash in history[k].shard
                && history[k].nowNs > history[i].tx.recvNs + ttlNs
  }

  lemma ForgottenIsAfterTtl(history: seq<Event>, ttlNs: nat, i: nat, j: nat)
    requires i < j <= |history| && history[i].Published? && SweptInTime(history)
    ensures ForgottenBetween(history, ttlNs, i, j) <==> SweptAfterTtl(history, ttlNs, i, j)
  {
    if ForgottenBetween(history, ttlNs, i, j) {
      var k :| i < k < j && Kills(history[k], history[i].tx.hash, SatAdd(history[i].tx.recvNs, ttlNs));
      assert history[k].nowNs > history[i].tx.recvNs + ttlNs;
    }
    if SweptAfterTtl(history, ttlNs, i, j) {
      var k :| i < k < j && history[k].Sweep? && history[i].tx.hash in history[k].shard
               && history[k].nowNs > history[i].tx.recvNs + ttlNs;
      assert Kills(history[k], history[i].tx.hash, SatAdd(history[i].tx.recvNs, ttlNs));
    }
  }

  /** From an empty pipeline, over every interleaving: each accepted transaction is in
      exactly one place, every entry is explained, and a hash is published again only after
      a sweep of it more than the TTL after the published transaction was received. */
  lemma {:induction false} PipelineIsSafe(cfg: Config, workers: nat, actions: seq<Action>)
    requires CanRun(cfg, Initial(workers), actions)
    ensures Conserved(Run(cfg, Initial(workers), actions)) && Safe(cfg, Run(cfg, Initial(workers), actions))
    ensures var history := Run(cfg, Initial(workers), actions).history;
            forall i, j :: 0 <= i < j < |history| && history[i].Published? && Publishes(history[j], history[i].tx.hash) ==>
              SweptAfterTtl(history, cfg.ttlNs, i, j)
  {
    HeldInitially(workers);
    RunsConserve(cfg, Initial(workers), actions);
    RunsSafe(cfg, Initial(workers), actions);
    ClocksFit(cfg, Initial(workers), actions);
    var history := Run(cfg, Initial(workers), actions).history;
    forall i, j | 0 <= i < j < |history| && history[i].Published? && Publishes(history[j], history[i].tx.hash)
      ensures SweptAfterTtl(history, cfg.ttlNs, i, j)
    {
      ForgottenIsAfterTtl(history, cfg.ttlNs, i, j);
    }
  }

  /** Within the TTL of its last publish, and for ever if the end of that time does not fit the
      clock, an entry survives every sweep unchanged. */
  lemma EntrySurvives(cfg: Config, s: State, hash: Hash, nowNs: nat, shard: set<Hash>)
    requires Safe(cfg, s) && hash in s.table && Enabled(cfg, s, Janitor(nowNs, shard))
    requires var i := LastPublish(s.history, hash);
             i >= 0 ==> nowNs <= s.history[i].tx.recvNs + cfg.ttlNs || s.history[i].tx.recvNs + cfg.ttlNs > U64_MAX
    ensures var s' := Next(cfg, s, Janitor(nowNs, shard)); hash in s'.table && s'.table[hash] == s.table[hash]
  {
    assert HashExplained(s.history, cfg.ttlNs, s.table, hash);
  }

  /** Exactly when the next transaction is published: when every earlier publish of its
      hash has been forgotten, so "one event per unique transaction" holds up to the TTL. */
  lemma PublishedIff(cfg: Config, s: State)
    requires Safe(cfg, s) && s.decoded != []
    ensures var tx := s.decoded[0]; var history' := Next(cfg, s, Action.Dedupe).history;
            history'[|s.history|].Published? <==>
              forall i :: 0 <= i < |s.history| && Publishes(s.history[i], tx.hash) ==> ForgottenBetween(s.history, cfg.ttlNs, i, |s.history|)
  {
    var tx := s.decoded[0];
    assert HashExplained(s.history, cfg.ttlNs, s.table, tx.hash);
    if tx.hash !in s.table {
      forall i | 0 <= i < |s.history| && Publishes(s.history[i], tx.hash)
        ensures ForgottenBetween(s.history, cfg.ttlNs, i, |s.history|)
      {
        AllForgotten(cfg, s, i);
      }
    } else {
      assert Publishes(s.history[LastPublish(s.history, tx.hash)], tx.hash);
    }
  }

  /** What the read side is told about a hash: the time of its last publish, until a sweep
      forgets it; duplicates never change the answer. */
  lemma FirstSeenIsPublishTime(cfg: Config, s: State, hash: Hash)
    requires Safe(cfg, s)
    ensures var i := LastPublish(s.history, hash);
            && (hash in s.table <==> i >= 0 && !ForgottenBetween(s.history, cfg.ttlNs, i, |s.history|))
            && (hash in s.table ==> s.table[hash].firstNs == s.history[i].tx.recvNs)
  {
    assert HashExplained(s.history, cfg.ttlNs, s.table, hash);
  }

  // ----- A hash published twice -----

  /** Offer to publish, by one worker. */
  function Pass(tx: RawTx): seq<Action> {
    [Offer(tx), Take(0), Send(0), Action.Dedupe]
  }

  function SweepAll(tx: RawTx, nowNs: nat): seq<Action> {
    [Janitor(nowNs, {tx.hash})]
  }

  lemma {:induction false} RunAppends(cfg: Config, s: State, a: seq<Action>, b: seq<Action>)
    requires CanRun(cfg, s, a) && CanRun(cfg, Run(cfg, s, a), b)
    ensures CanRun(cfg, s, a + b) && Run(cfg, s, a + b) == Run(cfg, Run(cfg, s, a), b)
    decreases |a|
  {
    if a == [] {
      assert a + b == b;
    } else {
      assert (a + b)[0] == a[0] && (a + b)[1..] == a[1..] + b;
      RunAppends(cfg, Next(cfg, s, a[0]), a[1..], b);
    }
  }

  lemma RunCons(cfg: Config, s: State, a: Action, rest: seq<Action>)
    requires Enabled(cfg, s, a) && CanRun(cfg, Next(cfg, s, a), rest)
    ensures CanRun(cfg, s, [a] + rest) && Run(cfg, s, [a] + rest) == Run(cfg, Next(cfg, s, a), rest)
  {
    assert ([a] + rest)[1..] == rest;
  }

  predicate Quiescent(s: State) {
    s.raw == [] && s.decoded == [] && |s.workers| > 0 && s.workers[0].Idle?
  }

  /** A transaction that nothing is in front of goes through in four steps, and is published if its hash is unknown. */
  lemma PassPublishes(cfg: Config, s: State, tx: RawTx)
    requires Quiescent(s) && tx.decodes && tx.hash !in s.table && cfg.rawCapacity > 0 && cfg.decodedCapacity > 0
    ensures CanRun(cfg, s, Pass(tx))
    ensures var s' := Run(cfg, s, Pass(tx)); var entry := Entry(tx.source, tx.recvNs, cfg.ttlNs);
            && Quiescent(s') && s'.history == s.history + [Published(tx, entry)]
            && s'.table == s.table[tx.hash := entry]
  {
    var offered := Next(cfg, s, Offer(tx));
    var taken := Next(cfg, offered, Take(0));
    var sent := Next(cfg, taken, Send(0));
    RunCons(cfg, sent, Action.Dedupe, []);
    RunCons(cfg, taken, Send(0), [Action.Dedupe]);
    RunCons(cfg, offered, Take(0), [Send(0), Action.Dedupe]);
    RunCons(cfg, s, Offer(tx), [Take(0), Send(0), Action.Dedupe]);
  }

  lemma SweepForgets(cfg: Config, s: State, tx: RawTx, nowNs: nat)
    requires tx.hash in s.table && s.table[tx.hash].expiresAtNs < nowNs <= U64_MAX
    ensures CanRun(cfg, s, SweepAll(tx, nowNs))
    ensures var s' := Run(cfg, s, SweepAll(tx, nowNs));
            s' == s.(table := Swept(s.table, nowNs, {tx.hash}), history := s.history + [Sweep(nowNs, {tx.hash})])
            && tx.hash !in s'.table
  {
    assert SweepAll(tx, nowNs)[1..] == [];
  }

  /** From an empty pipeline a hash can be published, swept after its expiry, and published
      again, whenever its expiry is not the largest time there is. */
  lemma PublishedTwice(cfg: Config, workers: nat, tx: RawTx)
    requires workers > 0 && cfg.rawCapacity > 0 && cfg.decodedCapacity > 0 && tx.decodes
    requires tx.recvNs + cfg.ttlNs < U64_MAX
    ensures var actions := Pass(tx) + SweepAll(tx, tx.recvNs + cfg.ttlNs + 1) + Pass(tx);
            && CanRun(cfg, Initial(workers), actions)
            && var history := Run(cfg, Initial(workers), actions).history;
               |history| == 3 && history[0].Published? && history[0].tx == tx && Publishes(history[2], tx.hash)
  {
    var nowNs := tx.recvNs + cfg.ttlNs + 1;
    var start := Initial(workers);
    PassPublishes(cfg, start, tx);
    var once := Run(cfg, start, Pass(tx));
    SweepForgets(cfg, once, tx, nowNs);
    RunAppends(cfg, start, Pass(tx), SweepAll(tx, nowNs));
    var swept := Run(cfg, once, SweepAll(tx, nowNs));
    PassPublishes(cfg, swept, tx);
    RunAppends(cfg, start, Pass(tx) + SweepAll(tx, nowNs), Pass(tx));
  }

  /** In the history `tx` is published, and its hash is again. */
  ghost predicate Republished(history: seq<Event>, tx: RawTx) {
    exists i, j :: 0 <= i < j < |history| && history[i].Published? && history[i].tx == tx && Publishes(history[j], tx.hash)
  }

  ghost predicate Republishes(cfg: Config, workers: nat, tx: RawTx, actions: seq<Action>) {
    CanRun(cfg, Initial(workers), actions) && Republished(Run(cfg, Initial(workers), actions).history, tx)
  }

  lemma NeverForgotten(history: seq<Event>, ttlNs: nat, i: nat, j: nat)
    requires SweptInTime(history) && i < j <= |history| && history[i].Published?
    requires history[i].tx.recvNs + ttlNs >= U64_MAX
    ensures !ForgottenBetween(history, ttlNs, i, j)
  {
  }

  lemma NeverRepublished(cfg: Config, workers: nat, tx: RawTx, actions: seq<Action>)
    requires CanRun(cfg, Initial(workers), actions) && tx.recvNs + cfg.ttlNs >= U64_MAX
    ensures !Republished(Run(cfg, Initial(workers), actions).history, tx)
  {
    var history := Run(cfg, Initial(workers), actions).history;
    PipelineIsSafe(cfg, workers, actions);
    ClocksFit(cfg, Initial(workers), actions);
    forall i, j | 0 <= i < j < |history| && history[i].Published? && history[i].tx == tx
      ensures !Publishes(history[j], tx.hash)
    {
      NeverForgotten(history, cfg.ttlNs, i, j);
    }
  }

  /** Exactly when some run publishes a transaction and its hash once more: when a clock can
      pass its expiry. */
  lemma RepublishedIff(cfg: Config, workers: nat, tx: RawTx)
    requires workers > 0 && cfg.rawCapacity > 0 && cfg.decodedCapacity > 0 && tx.decodes
    ensures (exists actions :: Republishes(cfg, workers, tx, actions)) <==> tx.recvNs + cfg.ttlNs < U64_MAX
  {
    if tx.recvNs + cfg.ttlNs < U64_MAX {
      PublishedTwice(cfg, workers, tx);
      var actions := Pass(tx) + SweepAll(tx, tx.recvNs + cfg.ttlNs + 1) + Pass(tx);
      var history := Run(cfg, Initial(workers), actions).history;
      assert history[0].tx == tx && Publishes(history[2], tx.hash);
      assert Republishes(cfg, workers, tx, actions);
    } else {
      forall actions | CanRun(cfg, Initial(workers), actions)
        ensures !Republished(Run(cfg, Initial(workers), actions).history, tx)
      {
        NeverRepublished(cfg, workers, tx, actions);
      }
    }
  }

  // ----- Draining -----

  /** How many internal steps are still owed: three for a raw transaction, two for a held
      one, one for a decoded one. */
  function Owed(s: State): nat {
    3 * |s.raw| + 2 * |Held(s.workers)| + |s.decoded|
  }

  predicate Internal(a: Action) {
    a.Take? || a.Send? || a.Dedupe?
  }

  lemma StepsPay(cfg: Config, s: State, a: Action)
    requires Enabled(cfg, s, a)
    ensures Internal(a) ==> Owed(Next(cfg, s, a)) < Owed(s)
    ensures a.Janitor? ==> Owed(Next(cfg, s, a)) == Owed(s)
  {
    match a
    case Take(w) =>
      if s.raw[0].decodes {
        HeldFill(s.workers, w, s.raw[0]);
      }
    case Send(w) =>
      HeldFree(s.workers, w);
    case _ =>
  }

  lemma {:induction false} HeldMeansBusy(workers: seq<Worker>) returns (w: nat)
    requires Held(workers) != multiset{}
    ensures w < |workers| && workers[w].Busy?
  {
    if workers[|workers| - 1].Busy? {
      w := |workers| - 1;
    } else {
      w := HeldMeansBusy(workers[..|workers| - 1]);
    }
  }

  /** No deadlock: while anything is in flight some internal step can be taken. */
  lemma SomethingToDo(cfg: Config, s: State) returns (a: Action)
    requires Owed(s) > 0 && |s.workers| > 0 && cfg.decodedCapacity > 0
    ensures Internal(a) && Enabled(cfg, s, a)
  {
    if s.decoded != [] {
      a := Action.Dedupe;
    } else if Held(s.workers) != multiset{} {
      var w := HeldMeansBusy(s.workers);
      a := Send(w);
    } else if s.workers[0].Idle? {
      a := Take(0);
    } else {
      a := Send(0);
    }
  }

  /** The number of internal steps among the actions. */
  function Work(actions: seq<Action>): nat {
    if actions == [] then 0 else (if Internal(actions[0]) then 1 else 0) + Work(actions[1..])
  }

  /** With no new input no run takes more internal steps than are owed at its start. */
  lemma {:induction false} DrainBound(cfg: Config, s: State, actions: seq<Action>)
    requires CanRun(cfg, s, actions)
    requires forall i :: 0 <= i < |actions| ==> !actions[i].Offer?
    ensures Work(actions) + Owed(Run(cfg, s, actions)) <= Owed(s)
    decreases |actions|
  {
    if actions != [] {
      StepsPay(cfg, s, actions[0]);
      DrainBound(cfg, Next(cfg, s, actions[0]), actions[1..]);
    }
  }

  /** When no internal step is left, everything accepted has been published, found to be a
      duplicate, or failed to decode. */
  lemma DrainedIsSettled(cfg: Config, s: State)
    requires Conserved(s) && |s.workers| > 0 && cfg.decodedCapacity > 0
    requires forall a :: Internal(a) ==> !Enabled(cfg, s, a)
    ensures multiset(s.accepted) == multiset(Left(s.history))
  {
    if Owed(s) > 0 {
      var a := SomethingToDo(cfg, s);
    }
  }
}
