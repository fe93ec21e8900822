/** Holder reconstruction from token transfers: running balances, the holder index, the
    early-buyer cohort and the share of the ten largest holders. */
module Holders {
  import opened Common

  type Address = nat

  const EARLY_BUYER_N: nat := 20

  datatype Transfer = Transfer(from: Address, to: Address, amount: nat)

  // ----- What the transfers say -----

  /** What `a` received minus what it sent. */
  function Net(log: seq<Transfer>, a: Address): int {
    if log == [] then 0
    else
      var ev := log[|log| - 1];
      Net(log[..|log| - 1], a) - (if ev.from == a then ev.amount else 0) + if ev.to == a then ev.amount else 0
  }

  /** The last transfer turned `to` from no holder into one, and it came from the launchpad. */
  predicate Opens(log: seq<Transfer>, launchpad: Address, excluded: set<Address>)
    requires log != []
  {
    var ev := log[|log| - 1];
    && ev.from == launchpad && ev.to !in excluded
    && Net(log[..|log| - 1], ev.to) <= 0 && Net(log, ev.to) > 0
  }

  /** The first distinct addresses that a launchpad transfer turned into holders, at most twenty. */
  function EarlyBuyers(log: seq<Transfer>, launchpad: Address, excluded: set<Address>): seq<Address> {
    if log == [] then []
    else
      var early := EarlyBuyers(log[..|log| - 1], launchpad, excluded);
      var t := log[|log| - 1].to;
      if Opens(log, launchpad, excluded) && |early| < EARLY_BUYER_N && t !in early then early + [t] else early
  }

  lemma {:induction false} EarlyBuyersDistinct(log: seq<Transfer>, launchpad: Address, excluded: set<Address>)
    ensures var early := EarlyBuyers(log, launchpad, excluded);
            && |early| <= EARLY_BUYER_N
            && (forall i, j :: 0 <= i < j < |early| ==> early[i] != early[j])
            && (forall i :: 0 <= i < |early| ==> early[i] !in excluded)
  {
    if log != [] {
      EarlyBuyersDistinct(log[..|log| - 1], launchpad, excluded);
    }
  }

  // ----- The cohort and the first buyers -----

  /** The first distinct addresses that received something from the launchpad, at most twenty. */
  function FirstBuyers(log: seq<Transfer>, launchpad: Address, excluded: set<Address>): seq<Address> {
    if log == [] then []
    else
      var buyers := FirstBuyers(log[..|log| - 1], launchpad, excluded);
      var ev := log[|log| - 1];
      if IsBuy(ev, launchpad, excluded) && |buyers| < EARLY_BUYER_N && ev.to !in buyers then buyers + [ev.to] else buyers
  }

  predicate IsBuy(ev: Transfer, launchpad: Address, excluded: set<Address>) {
    ev.from == launchpad && ev.to !in excluded && ev.amount > 0
  }

  predicate BoughtBefore(log: seq<Transfer>, launchpad: Address, excluded: set<Address>, a: Address) {
    exists i :: 0 <= i < |log| && log[i].to == a && IsBuy(log[i], launchpad, excluded)
  }

  /** If the `i`-th transfer is a first buy while the cohort has room, the buyer holds
      nothing before it, and something after. */
  predicate StartsEmpty(log: seq<Transfer>, launchpad: Address, excluded: set<Address>, i: nat)
    requires i < |log|
  {
    IsBuy(log[i], launchpad, excluded) ==>
      || BoughtBefore(log[..i], launchpad, excluded, log[i].to)
      || |FirstBuyers(log[..i], launchpad, excluded)| == EARLY_BUYER_N
      || Opens(log[..i + 1], launchpad, excluded)
  }

  predicate SameCohort(log: seq<Transfer>, launchpad: Address, excluded: set<Address>) {
    EarlyBuyers(log, launchpad, excluded) == FirstBuyers(log, launchpad, excluded)
  }

  lemma {:induction false} FirstBuyersBought(log: seq<Transfer>, launchpad: Address, excluded: set<Address>, a: Address)
    ensures |FirstBuyers(log, launchpad, excluded)| <= EARLY_BUYER_N
    ensures a in FirstBuyers(log, launchpad, excluded) ==> BoughtBefore(log, launchpad, excluded, a)
  {
    if log != [] {
      var n := |log| - 1;
      FirstBuyersBought(log[..n], launchpad, excluded, a);
      if BoughtBefore(log[..n], launchpad, excluded, a) {
        var i :| 0 <= i < n && log[..n][i].to == a && IsBuy(log[..n][i], launchpad, excluded);
        assert log[i].to == a && IsBuy(log[i], launchpad, excluded);
      }
      assert log[n].to == a && IsBuy(log[n], launchpad, excluded) ==> BoughtBefore(log, launchpad, excluded, a);
    }
  }

  lemma OpenersBuy(log: seq<Transfer>, launchpad: Address, excluded: set<Address>)
    requires log != [] && Opens(log, launchpad, excluded)
    ensures IsBuy(log[|log| - 1], launchpad, excluded)
  {
  }

  lemma {:induction false} RoomMeansAll(log: seq<Transfer>, launchpad: Address, excluded: set<Address>, a: Address)
    requires |FirstBuyers(log, launchpad, excluded)| < EARLY_BUYER_N && BoughtBefore(log, launchpad, excluded, a)
    ensures a in FirstBuyers(log, launchpad, excluded)
  {
    var n := |log| - 1;
    var i :| 0 <= i < |log| && log[i].to == a && IsBuy(log[i], launchpad, excluded);
    if i < n {
      assert log[..n][i] == log[i];
      RoomMeansAll(log[..n], launchpad, excluded, a);
    }
  }

  /** One transfer more keeps cohort and first buyers equal exactly when a new buyer opens. */
  lemma CohortStep(log: seq<Transfer>, launchpad: Address, excluded: set<Address>, i: nat)
    requires i < |log| && SameCohort(log[..i], launchpad, excluded)
    ensures SameCohort(log[..i + 1], launchpad, excluded) <==> StartsEmpty(log, launchpad, excluded, i)
  {
    var a := log[i].to;
    var before, now := log[..i], log[..i + 1];
    assert now[..i] == before && now[i] == log[i];
    FirstBuyersBought(before, launchpad, excluded, a);
    if Opens(now, launchpad, excluded) {
      OpenersBuy(now, launchpad, excluded);
    }
    if |FirstBuyers(before, launchpad, excluded)| < EARLY_BUYER_N && BoughtBefore(before, launchpad, excluded, a) {
      RoomMeansAll(before, launchpad, excluded, a);
    }
  }

  lemma {:induction false} CohortUpTo(log: seq<Transfer>, launchpad: Address, excluded: set<Address>, n: nat)
    requires n <= |log| && forall i :: 0 <= i < n ==> StartsEmpty(log, launchpad, excluded, i)
    ensures SameCohort(log[..n], launchpad, excluded)
  {
    if n > 0 {
      CohortUpTo(log, launchpad, excluded, n - 1);
      CohortStep(log, launchpad, excluded, n - 1);
    }
  }

  /** Exactly when the cohort is the first distinct buyers throughout: when every new buyer
      holds nothing yet. A buyer who was sent tokens before buying is left out. */
  lemma CohortIsFirstBuyersIff(log: seq<Transfer>, launchpad: Address, excluded: set<Address>)
    ensures (forall n :: 0 <= n <= |log| ==> SameCohort(log[..n], launchpad, excluded)) <==>
            (forall i :: 0 <= i < |log| ==> StartsEmpty(log, launchpad, excluded, i))
  {
    if forall i :: 0 <= i < |log| ==> StartsEmpty(log, launchpad, excluded, i) {
      forall n | 0 <= n <= |log| ensures SameCohort(log[..n], launchpad, excluded) {
        CohortUpTo(log, launchpad, excluded, n);
      }
    }
    if forall n :: 0 <= n <= |log| ==> SameCohort(log[..n], launchpad, excluded) {
      forall i | 0 <= i < |log| ensures StartsEmpty(log, launchpad, excluded, i) {
        assert SameCohort(log[..i], launchpad, excluded) && SameCohort(log[..i + 1], launchpad, excluded);
        CohortStep(log, launchpad, excluded, i);
      }
    }
  }

  /** It can fail: the buyer here was sent tokens before buying. */
  lemma CohortMissesHolders()
    ensures var log := [Transfer(5, 7, 1), Transfer(1, 7, 1)];
            FirstBuyers(log, 1, {0, 1}) == [7] && EarlyBuyers(log, 1, {0, 1}) == []
  {
    var one, log := [Transfer(5, 7, 1)], [Transfer(5, 7, 1), Transfer(1, 7, 1)];
    assert log[..1] == one && one[..0] == [];
    assert Net(one, 7) == 1;
  }

  lemma NetPush(log: seq<Transfer>, ev: Transfer, a: Address)
    ensures Net(log + [ev], a) == Net(log, a) - (if ev.from == a then ev.amount else 0) + if ev.to == a then ev.amount else 0
  {
    assert (log + [ev])[..|log|] == log;
  }

  function NetOf(log: seq<Transfer>): Address -> int {
    (a: Address) => Net(log, a)
  }

  // ----- The walk -----

  function BalanceIn(balances: map<Address, int>, a: Address): int {
    if a in balances then balances[a] else 0
  }

  /** The balances are `net`, and the index is exactly the addresses with a positive one. */
  ghost predicate Agrees(balances: map<Address, int>, holders: set<Address>, net: Address -> int, excluded: set<Address>) {
    forall a: Address ::
      && (a !in excluded ==> BalanceIn(balances, a) == net(a))
      && (a in holders <==> a !in excluded && net(a) > 0)
  }

  function Plus(net: Address -> int, t: Address, amount: int): Address -> int {
    (a: Address) => if a == t then net(a) + amount else net(a)
  }

  /** A transfer is a debit and a credit, also when sender and receiver are one. */
  lemma NetIsBoth(log: seq<Transfer>, ev: Transfer, a: Address)
    ensures Net(log + [ev], a) == Plus(Plus(NetOf(log), ev.from, 0 - ev.amount), ev.to, ev.amount)(a)
  {
    NetPush(log, ev, a);
  }

  lemma AgreesAfter(balances: map<Address, int>, holders: set<Address>, log: seq<Transfer>, ev: Transfer, excluded: set<Address>)
    requires Agrees(balances, holders, Plus(Plus(NetOf(log), ev.from, 0 - ev.amount), ev.to, ev.amount), excluded)
    ensures Agrees(balances, holders, NetOf(log + [ev]), excluded)
  {
    forall a: Address ensures NetOf(log + [ev])(a) == Plus(Plus(NetOf(log), ev.from, 0 - ev.amount), ev.to, ev.amount)(a) {
      NetIsBoth(log, ev, a);
    }
  }

  /** A transfer extends the cohort if it is from the launchpad and its receiver becomes a holder. */
  lemma EarlyPush(log: seq<Transfer>, ev: Transfer, launchpad: Address, excluded: set<Address>)
    requires launchpad in excluded
    ensures var early := EarlyBuyers(log, launchpad, excluded); var net := Plus(NetOf(log), ev.from, 0 - ev.amount);
            EarlyBuyers(log + [ev], launchpad, excluded) ==
            if ev.to !in excluded && net(ev.to) <= 0 && net(ev.to) + ev.amount > 0
               && ev.from == launchpad && |early| < EARLY_BUYER_N && ev.to !in early
            then early + [ev.to] else early
  {
    assert (log + [ev])[..|log|] == log;
    NetPush(log, ev, ev.to);
  }

  class Walk {
    const launchpad: Address
    const excluded: set<Address>
    var balances: map<Address, int>
    var holders: set<Address>
    var early: seq<Address>
    var earlySet: set<Address>
    ghost var log: seq<Transfer>

    ghost predicate Valid()
      reads this
    {
      && launchpad in excluded
      && Agrees(balances, holders, NetOf(log), excluded)
      && early == EarlyBuyers(log, launchpad, excluded)
      && (forall a: Address :: a in earlySet <==> a in early)
    }

    constructor (launchpad: Address)
      ensures Valid() && log == [] && this.launchpad == launchpad && excluded == {launchpad, 0}
    {
      this.launchpad := launchpad;
      excluded := {launchpad, 0};
      balances, holders, early, earlySet, log := map[], {}, [], {}, [];
    }

    method Debit(f: Address, amount: nat, ghost net: Address -> int)
      requires Agrees(balances, holders, net, excluded)
      modifies this`balances, this`holders
      ensures Agrees(balances, holders, Plus(net, f, 0 - amount), excluded)
    {
      if f !in excluded {
        balances := balances[f := BalanceIn(balances, f) - amount];
        if balances[f] <= 0 && f in holders {
          holders := holders - {f};
        }
      }
    }

    /** Says whether `t` became a holder. */
    method Credit(t: Address, amount: nat, ghost net: Address -> int) returns (entered: bool)
      requires Agrees(balances, holders, net, excluded)
      modifies this`balances, this`holders
      ensures Agrees(balances, holders, Plus(net, t, amount), excluded)
      ensures entered <==> t !in excluded && net(t) <= 0 && net(t) + amount > 0
    {
      entered := false;
      if t !in excluded {
        balances := balances[t := BalanceIn(balances, t) + amount];
        if balances[t] > 0 && t !in holders {
          holders := holders + {t};
          entered := true;
        }
      }
    }

    method Apply(ev: Transfer)
      requires Valid()
      modifies this
      ensures Valid() && log == old(log) + [ev]
    {
      ghost var net := NetOf(log);
      Debit(ev.from, ev.amount, net);
      var entered := Credit(ev.to, ev.amount, Plus(net, ev.from, 0 - ev.amount));
      AgreesAfter(balances, holders, log, ev, excluded);
      EarlyPush(log, ev, launchpad, excluded);
      if entered && ev.from == launchpad && |early| < EARLY_BUYER_N && ev.to !in earlySet {
        early := early + [ev.to];
        earlySet := earlySet + {ev.to};
      }
      log := log + [ev];
    }

    /** All transfers of one block. */
    method ApplyBlock(evs: seq<Transfer>)
      requires Valid()
      modifies this
      ensures Valid() && log == old(log) + evs
    {
      for i := 0 to |evs|
        invariant Valid() && log == old(log) + evs[..i]
      {
        Apply(evs[i]);
        assert evs[..i + 1] == evs[..i] + [evs[i]];
      }
      assert evs[..|evs|] == evs;
    }

    /** The amounts of the ten largest holders and of all of them. */
    method TopAmounts(ranked: seq<Address>) returns (top: int, total: int)
      requires Valid() && forall i :: 0 <= i < |ranked| ==> ranked[i] in holders
      ensures total == SumOf(ranked, NetOf(log)) && top == SumOf(ranked[..Min(|ranked|, 10)], NetOf(log))
    {
      ghost var net := NetOf(log);
      total, top := 0, 0;
      for i := 0 to |ranked|
        invariant total == SumOf(ranked[..i], net)
        invariant top == SumOf(ranked[..Min(i, 10)], net)
      {
        var b := BalanceIn(balances, ranked[i]);
        assert ranked[i] in holders && b == net(ranked[i]);
        SumPush(ranked[..i], ranked[i], net);
        assert ranked[..i + 1] == ranked[..i] + [ranked[i]];
        total := total + b;
        if i < 10 {
          top := top + b;
        }
      }
      assert ranked[..|ranked|] == ranked;
    }

    method CountEarly() returns (n: nat)
      ensures n == Remaining(early, holders)
    {
      n := 0;
      for i := 0 to |early|
        invariant n == Remaining(early[..i], holders)
      {
        assert early[..i + 1][..i] == early[..i];
        if early[i] in holders {
          n := n + 1;
        }
      }
      assert early[..|early|] == early;
    }

    /** The figures at the end of a block; `ranked` is the sorted list of holders. The share
        is zero without holders, else in (0, 1], and one exactly with at most ten holders; the
        amount behind it is the most that any ten or fewer holders have together. */
    method Snapshot(ranked: seq<Address>) returns (holderCount: nat, top10Share: real, earlyRemaining: nat)
      requires Valid() && IsRanking(ranked, holders, NetOf(log))
      ensures holderCount == |holders|
      ensures top10Share == Share(ranked, NetOf(log))
      ensures holders == {} ==> top10Share == 0.0
      ensures holders != {} ==> 0.0 < top10Share <= 1.0 && (top10Share == 1.0 <==> holderCount <= 10)
      ensures NoTenAbove(ranked, holders, NetOf(log))
      ensures earlyRemaining == |HeldOf(early, holders)| <= |early| <= 20
    {
      var top, total := TopAmounts(ranked);
      top10Share := if holders != {} && total > 0 then top as real / total as real else 0.0;
      assert ranked == [] <==> holders == {};
      holderCount := |holders|;
      earlyRemaining := CountEarly();
      EarlyBuyersDistinct(log, launchpad, excluded);
      RemainingCounts(early, holders);
      RankedArePositive(balances, holders, NetOf(log), excluded, ranked);
      ShareRange(ranked, holders, NetOf(log));
      TopTenIsBest(ranked, holders, NetOf(log));
    }
  }

  function Remaining(early: seq<Address>, holders: set<Address>): (n: nat)
    ensures n <= |early|
  {
    if early == [] then 0
    else Remaining(early[..|early| - 1], holders) + if early[|early| - 1] in holders then 1 else 0
  }

  function HeldOf(early: seq<Address>, holders: set<Address>): set<Address> {
    set a | a in early && a in holders
  }

  lemma HeldPush(front: seq<Address>, a: Address, holders: set<Address>)
    ensures HeldOf(front + [a], holders) == HeldOf(front, holders) + if a in holders then {a} else {}
  {
  }

  /** Counting the cohort's holders one by one is counting them as a set. */
  lemma {:induction false} RemainingCounts(early: seq<Address>, holders: set<Address>)
    requires Distinct(early)
    ensures Remaining(early, holders) == |HeldOf(early, holders)|
  {
    if early != [] {
      var n := |early| - 1;
      RemainingCounts(early[..n], holders);
      HeldPush(early[..n], early[n], holders);
      assert early == early[..n] + [early[n]];
      assert early[n] !in HeldOf(early[..n], holders);
    }
  }

  // ----- The ten largest -----

  function SumOf(xs: seq<Address>, bal: Address -> int): int {
    if xs == [] then 0 else SumOf(xs[..|xs| - 1], bal) + bal(xs[|xs| - 1])
  }

  /** The holders, each once, by falling balance. */
  ghost predicate IsRanking(ranked: seq<Address>, holders: set<Address>, bal: Address -> int) {
    && (forall a: Address :: a in holders <==> a in ranked)
    && Distinct(ranked)
    && Falling(ranked, bal)
  }

  predicate Distinct(xs: seq<Address>) {
    forall i, j :: 0 <= i < j < |xs| ==> xs[i] != xs[j]
  }

  predicate Falling(xs: seq<Address>, bal: Address -> int) {
    forall i, j :: 0 <= i < j < |xs| ==> bal(xs[i]) >= bal(xs[j])
  }

  function Share(ranked: seq<Address>, bal: Address -> int): real {
    var total := SumOf(ranked, bal);
    if ranked != [] && total > 0 then SumOf(ranked[..Min(|ranked|, 10)], bal) as real / total as real else 0.0
  }

  lemma SumPush(xs: seq<Address>, x: Address, bal: Address -> int)
    ensures SumOf(xs + [x], bal) == SumOf(xs, bal) + bal(x)
  {
    assert (xs + [x])[..|xs|] == xs;
  }

  lemma {:induction false} SumSplit(xs: seq<Address>, ys: seq<Address>, bal: Address -> int)
    ensures SumOf(xs + ys, bal) == SumOf(xs, bal) + SumOf(ys, bal)
  {
    if ys == [] {
      assert xs + ys == xs;
    } else {
      var n := |ys| - 1;
      assert xs + ys == (xs + ys[..n]) + [ys[n]];
      SumPush(xs + ys[..n], ys[n], bal);
      SumSplit(xs, ys[..n], bal);
    }
  }

  function Without(xs: seq<Address>, k: nat): seq<Address>
    requires k < |xs|
  {
    xs[..k] + xs[k + 1..]
  }

  lemma {:induction false} SumWithout(xs: seq<Address>, k: nat, bal: Address -> int)
    requires k < |xs|
    ensures SumOf(xs, bal) == SumOf(Without(xs, k), bal) + bal(xs[k])
  {
    assert xs == (xs[..k] + [xs[k]]) + xs[k + 1..];
    SumSplit(xs[..k] + [xs[k]], xs[k + 1..], bal);
    SumPush(xs[..k], xs[k], bal);
    SumSplit(xs[..k], xs[k + 1..], bal);
  }

  ghost predicate Among(chosen: seq<Address>, ranked: seq<Address>) {
    forall k :: 0 <= k < |chosen| ==> chosen[k] in ranked
  }

  lemma DropLast(ranked: seq<Address>, chosen: seq<Address>)
    requires ranked != [] && Among(chosen, ranked) && ranked[|ranked| - 1] !in chosen
    ensures Among(chosen, ranked[..|ranked| - 1])
  {
    forall k | 0 <= k < |chosen| ensures chosen[k] in ranked[..|ranked| - 1] {
      assert chosen[k] in ranked && chosen[k] in chosen;
      var i :| 0 <= i < |ranked| && ranked[i] == chosen[k];
    }
  }

  lemma WithoutDistinct(ranked: seq<Address>, chosen: seq<Address>, k: nat)
    requires Distinct(chosen) && Among(chosen, ranked) && k < |chosen|
    ensures Distinct(Without(chosen, k)) && Among(Without(chosen, k), ranked) && chosen[k] !in Without(chosen, k)
  {
    forall i | 0 <= i < |chosen| - 1 ensures Without(chosen, k)[i] == chosen[if i < k then i else i + 1] {}
  }

  lemma {:induction false} AddLast(ranked: seq<Address>, bal: Address -> int, chosen: seq<Address>, k: nat)
    requires Falling(ranked, bal) && k < |chosen| <= |ranked| && chosen[k] == ranked[|ranked| - 1]
    requires SumOf(Without(chosen, k), bal) <= SumOf(ranked[..|chosen| - 1], bal)
    ensures SumOf(chosen, bal) <= SumOf(ranked[..|chosen|], bal)
  {
    var m := |chosen| - 1;
    SumWithout(chosen, k, bal);
    assert ranked[..m + 1] == ranked[..m] + [ranked[m]];
    SumPush(ranked[..m], ranked[m], bal);
    assert bal(ranked[m]) >= bal(ranked[|ranked| - 1]);
  }

  /** Any distinct choice among ranked addresses is no longer than the ranking and worth no
      more than as many of its first. */
  lemma {:induction false} FirstAreLargest(ranked: seq<Address>, bal: Address -> int, chosen: seq<Address>)
    requires Falling(ranked, bal) && Distinct(chosen) && Among(chosen, ranked)
    ensures |chosen| <= |ranked| && SumOf(chosen, bal) <= SumOf(ranked[..|chosen|], bal)
  {
    if ranked != [] {
      var front, z := ranked[..|ranked| - 1], ranked[|ranked| - 1];
      if z in chosen {
        var k :| 0 <= k < |chosen| && chosen[k] == z;
        var rest := Without(chosen, k);
        WithoutDistinct(ranked, chosen, k);
        DropLast(ranked, rest);
        FirstAreLargest(front, bal, rest);
        assert front[..|rest|] == ranked[..|rest|];
        AddLast(ranked, bal, chosen, k);
      } else {
        DropLast(ranked, chosen);
        FirstAreLargest(front, bal, chosen);
        assert front[..|chosen|] == ranked[..|chosen|];
      }
    }
  }

  ghost predicate Positive(xs: seq<Address>, bal: Address -> int) {
    forall i :: 0 <= i < |xs| ==> bal(xs[i]) > 0
  }

  predicate AllIn(chosen: seq<Address>, holders: set<Address>) {
    forall k :: 0 <= k < |chosen| ==> chosen[k] in holders
  }

  /** Whoever is in the index has a positive net amount. */
  lemma RankedArePositive(balances: map<Address, int>, holders: set<Address>, net: Address -> int, excluded: set<Address>,
                          ranked: seq<Address>)
    requires Agrees(balances, holders, net, excluded) && IsRanking(ranked, holders, net)
    ensures Positive(ranked, net)
  {
    forall i | 0 <= i < |ranked| ensures net(ranked[i]) > 0 {
      assert ranked[i] in holders;
    }
  }

  lemma {:induction false} SumPositive(xs: seq<Address>, bal: Address -> int)
    requires Positive(xs, bal)
    ensures SumOf(xs, bal) >= 0 && (SumOf(xs, bal) > 0 <==> xs != [])
  {
    if xs != [] {
      SumPositive(xs[..|xs| - 1], bal);
    }
  }

  lemma PrefixSum(ranked: seq<Address>, bal: Address -> int, k: nat)
    requires Positive(ranked, bal) && k <= |ranked|
    ensures SumOf(ranked[..k], bal) <= SumOf(ranked, bal)
    ensures SumOf(ranked[..k], bal) == SumOf(ranked, bal) <==> k == |ranked|
  {
    assert ranked == ranked[..k] + ranked[k..];
    SumSplit(ranked[..k], ranked[k..], bal);
    SumPositive(ranked[k..], bal);
  }

  /** The amount behind the share is the most any ten or fewer holders have together. */
  lemma TopTenIsMaximal(ranked: seq<Address>, holders: set<Address>, bal: Address -> int, chosen: seq<Address>)
    requires IsRanking(ranked, holders, bal) && Positive(ranked, bal)
    requires Distinct(chosen) && |chosen| <= 10 && AllIn(chosen, holders)
    ensures SumOf(chosen, bal) <= SumOf(ranked[..Min(|ranked|, 10)], bal)
  {
    FirstAreLargest(ranked, bal, chosen);
    var top := ranked[..Min(|ranked|, 10)];
    assert top[..|chosen|] == ranked[..|chosen|];
    PrefixSum(top, bal, |chosen|);
  }

  /** No ten or fewer holders have more together than the first ten of the ranking. */
  ghost predicate NoTenAbove(ranked: seq<Address>, holders: set<Address>, bal: Address -> int) {
    forall chosen: seq<Address> :: Distinct(chosen) && |chosen| <= 10 && AllIn(chosen, holders) ==>
      SumOf(chosen, bal) <= SumOf(ranked[..Min(|ranked|, 10)], bal)
  }

  lemma TopTenIsBest(ranked: seq<Address>, holders: set<Address>, bal: Address -> int)
    requires IsRanking(ranked, holders, bal) && Positive(ranked, bal)
    ensures NoTenAbove(ranked, holders, bal)
  {
    forall chosen: seq<Address> | Distinct(chosen) && |chosen| <= 10 && AllIn(chosen, holders)
      ensures SumOf(chosen, bal) <= SumOf(ranked[..Min(|ranked|, 10)], bal)
    {
      TopTenIsMaximal(ranked, holders, bal, chosen);
    }
  }

  /** The share is zero without holders, else positive and at most one; it is one exactly
      when there are at most ten holders. */
  lemma ShareRange(ranked: seq<Address>, holders: set<Address>, bal: Address -> int)
    requires IsRanking(ranked, holders, bal) && Positive(ranked, bal)
    ensures holders == {} ==> Share(ranked, bal) == 0.0
    ensures holders != {} ==> 0.0 < Share(ranked, bal) <= 1.0
    ensures holders != {} ==> (Share(ranked, bal) == 1.0 <==> |holders| <= 10)
  {
    RankingSize(ranked, holders);
    if ranked != [] {
      var k := Min(|ranked|, 10);
      SumPositive(ranked, bal);
      SumPositive(ranked[..k], bal);
      PrefixSum(ranked, bal, k);
      RatioRange(SumOf(ranked[..k], bal), SumOf(ranked, bal));
    }
  }

  lemma RatioRange(top: int, total: int)
    requires 0 < top <= total
    ensures 0.0 < top as real / total as real <= 1.0
    ensures top as real / total as real == 1.0 <==> top == total
  {
    var r := top as real / total as real;
    assert r * total as real == top as real;
  }

  lemma {:induction false} RankingSize(ranked: seq<Address>, holders: set<Address>)
    requires Distinct(ranked) && forall a: Address :: a in holders <==> a in ranked
    ensures |holders| == |ranked|
  {
    if ranked == [] {
      assert holders == {};
    } else {
      var n := |ranked| - 1;
      assert ranked[n] in holders;
      forall a: Address ensures a in holders - {ranked[n]} <==> a in ranked[..n] {
        if a in ranked {
          var i :| 0 <= i <= n && ranked[i] == a;
        }
      }
      RankingSize(ranked[..n], holders - {ranked[n]});
    }
  }
}
