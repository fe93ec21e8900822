/** Per-KOL paper budgets: reserve a fraction of the cash, credit what comes back. All
    amounts are 128-bit; additions saturate at the type's bounds, as does the product
    that sizes a position. */
module Budget {
  import opened Common

  const U128_MAX: nat := 0xffff_ffff_ffff_ffff_ffff_ffff_ffff_ffff
  const I128_MAX: int := 0x7fff_ffff_ffff_ffff_ffff_ffff_ffff_ffff
  const I128_MIN: int := -0x8000_0000_0000_0000_0000_0000_0000_0000

  datatype Params = Params(initialWei: nat, bps: nat, dustWei: nat)

  datatype KolBudget = KolBudget(initialWei: nat, cash: nat, committed: nat, pnl: int, taken: nat, skipped: nat)

  function Clamp(x: int, lo: int, hi: int): int {
    Max(lo, Min(x, hi))
  }

  function New(p: Params): KolBudget {
    KolBudget(p.initialWei, p.initialWei, 0, 0, 0, 0)
  }

  /** The size of the next position: a fraction of the cash, rounded down. */
  function Want(p: Params, b: KolBudget): nat {
    Min(p.bps * b.cash, U128_MAX) / 10000
  }

  predicate Refuses(p: Params, b: KolBudget) {
    Want(p, b) < p.dustWei
  }

  function Reserved(p: Params, b: KolBudget): KolBudget {
    if Refuses(p, b) then b.(skipped := b.skipped + 1)
    else b.(cash := SatSub(b.cash, Want(p, b)), committed := Min(b.committed + Want(p, b), U128_MAX), taken := b.taken + 1)
  }

  function Closed(b: KolBudget, bnbIn: nat, bnbOut: nat): KolBudget {
    var inp, outp := Min(bnbIn, U128_MAX), Min(bnbOut, U128_MAX);
    var delta := Clamp(Min(outp, I128_MAX) - Min(inp, I128_MAX), I128_MIN, I128_MAX);
    b.(committed := SatSub(b.committed, inp),
       cash := Min(b.cash + outp, U128_MAX),
       pnl := Clamp(b.pnl + delta, I128_MIN, I128_MAX))
  }

  function Equity(b: KolBudget): nat {
    Min(b.cash + b.committed, U128_MAX)
  }

  /** The sizing in plain arithmetic: `w` is the whole part of `bps` ten-thousandths of the
      cash, the product stopping at the largest word, and it is refused under the dust floor. */
  predicate Sized(bps: nat, cash: nat, dustWei: nat, reserved: Option<nat>) {
    var product := Min(bps * cash, 0xffff_ffff_ffff_ffff_ffff_ffff_ffff_ffff);
    match reserved
    case None => product < 10000 * dustWei
    case Some(w) => 10000 * w <= product < 10000 * (w + 1) && product >= 10000 * dustWei
  }

  lemma WantIsSized(p: Params, b: KolBudget)
    ensures Sized(p.bps, b.cash, p.dustWei, if Refuses(p, b) then None else Some(Want(p, b)))
  {
  }

  /** The record after an attempt: a refusal is counted, a reservation moves `w` from cash to
      commitments, as far as there is cash and room. */
  predicate Attempted(was: KolBudget, now: KolBudget, reserved: Option<nat>) {
    match reserved
    case None => now == was.(skipped := was.skipped + 1)
    case Some(w) =>
      && now.initialWei == was.initialWei && now.pnl == was.pnl && now.skipped == was.skipped
      && now.taken == was.taken + 1
      && (w <= was.cash ==> now.cash == was.cash - w)
      && (w > was.cash ==> now.cash == 0)
      && (was.committed + w <= 0xffff_ffff_ffff_ffff_ffff_ffff_ffff_ffff ==> now.committed == was.committed + w)
      && (was.committed + w > 0xffff_ffff_ffff_ffff_ffff_ffff_ffff_ffff ==> now.committed == 0xffff_ffff_ffff_ffff_ffff_ffff_ffff_ffff)
  }

  /** The record after a close whose amounts fit a signed word: what came back joins the cash,
      what was put in leaves the commitments, and their difference is realised, each stopping
      at the bounds of its word. */
  predicate Settled(was: KolBudget, now: KolBudget, bnbIn: nat, bnbOut: nat) {
    && now.initialWei == was.initialWei && now.taken == was.taken && now.skipped == was.skipped
    && (bnbIn <= was.committed ==> now.committed == was.committed - bnbIn)
    && (bnbIn > was.committed ==> now.committed == 0)
    && (was.cash + bnbOut <= 0xffff_ffff_ffff_ffff_ffff_ffff_ffff_ffff ==> now.cash == was.cash + bnbOut)
    && (was.cash + bnbOut > 0xffff_ffff_ffff_ffff_ffff_ffff_ffff_ffff ==> now.cash == 0xffff_ffff_ffff_ffff_ffff_ffff_ffff_ffff)
    && (-0x8000_0000_0000_0000_0000_0000_0000_0000 <= was.pnl + bnbOut - bnbIn <= 0x7fff_ffff_ffff_ffff_ffff_ffff_ffff_ffff ==> now.pnl == was.pnl + bnbOut - bnbIn)
    && (was.pnl + bnbOut - bnbIn > 0x7fff_ffff_ffff_ffff_ffff_ffff_ffff_ffff ==> now.pnl == 0x7fff_ffff_ffff_ffff_ffff_ffff_ffff_ffff)
    && (was.pnl + bnbOut - bnbIn < -0x8000_0000_0000_0000_0000_0000_0000_0000 ==> now.pnl == -0x8000_0000_0000_0000_0000_0000_0000_0000)
  }

  lemma ClosedIsSettled(b: KolBudget, bnbIn: nat, bnbOut: nat)
    requires bnbIn <= 0x7fff_ffff_ffff_ffff_ffff_ffff_ffff_ffff && bnbOut <= 0x7fff_ffff_ffff_ffff_ffff_ffff_ffff_ffff
    ensures Settled(b, Closed(b, bnbIn, bnbOut), bnbIn, bnbOut)
  {
  }

  class Book {
    const params: Params
    var kols: map<string, KolBudget>

    constructor (params: Params, loaded: map<string, KolBudget>)
      ensures kols == loaded && this.params == params
    {
      this.params := params;
      kols := loaded;
    }

    /** The record a KOL has, or gets on first use. */
    function RecordOf(name: string): KolBudget
      reads this
    {
      if name in kols then kols[name] else New(params)
    }

    /** Reserves a position for one KOL; nobody else's record changes. */
    method TryReserve(name: string) returns (reserved: Option<nat>)
      modifies this
      ensures kols == old(kols)[name := Reserved(params, old(RecordOf(name)))]
      ensures reserved == if Refuses(params, old(RecordOf(name))) then None else Some(Want(params, old(RecordOf(name))))
      ensures Sized(params.bps, old(RecordOf(name)).cash, params.dustWei, reserved)
      ensures name !in old(kols) ==> kols[name].initialWei == params.initialWei && kols[name].taken + kols[name].skipped == 1
      ensures name in kols && Attempted(old(RecordOf(name)), kols[name], reserved)
      ensures kols.Keys == old(kols.Keys) + {name} && forall k :: k in kols && k != name ==> kols[k] == old(kols)[k]
    {
      WantIsSized(params, RecordOf(name));
      if name !in kols {
        kols := kols[name := New(params)];
      }
      var e := kols[name];
      var want := Min(params.bps * e.cash, U128_MAX) / 10000;
      if want < params.dustWei {
        kols := kols[name := e.(skipped := e.skipped + 1)];
        return None;
      }
      e := e.(cash := SatSub(e.cash, want));
      e := e.(committed := Min(e.committed + want, U128_MAX));
      e := e.(taken := e.taken + 1);
      kols := kols[name := e];
      return Some(want);
    }

    /** Credits one close; a KOL without a record is left without one. */
    method CreditClose(name: string, bnbIn: nat, bnbOut: nat)
      modifies this
      ensures kols == if name in old(kols) then old(kols)[name := Closed(old(kols)[name], bnbIn, bnbOut)] else old(kols)
      ensures name in kols && bnbIn <= I128_MAX && bnbOut <= I128_MAX ==> Settled(old(kols)[name], kols[name], bnbIn, bnbOut)
    {
      if name !in kols {
        return;
      }
      var e := kols[name];
      var inp, outp := Min(bnbIn, U128_MAX), Min(bnbOut, U128_MAX);
      e := e.(committed := SatSub(e.committed, inp));
      e := e.(cash := Min(e.cash + outp, U128_MAX));
      var delta := Clamp(Min(outp, I128_MAX) - Min(inp, I128_MAX), I128_MIN, I128_MAX);
      e := e.(pnl := Clamp(e.pnl + delta, I128_MIN, I128_MAX));
      kols := kols[name := e];
    }
  }

  // ----- Conservation over runs of one KOL -----

  /** `Close` names the outstanding reservation it settles. */
  datatype Event = Reserve | Close(index: nat, bnbOut: nat)

  /** A record and the reservations that are still out. */
  datatype Account = Account(b: KolBudget, out: seq<nat>)

  function Without(out: seq<nat>, i: nat): seq<nat>
    requires i < |out|
  {
    out[..i] + out[i + 1..]
  }

  predicate Possible(a: Account, e: Event) {
    e.Reserve? || e.index < |a.out|
  }

  function Apply(p: Params, a: Account, e: Event): Account
    requires Possible(a, e)
  {
    match e
    case Reserve => Account(Reserved(p, a.b), if Refuses(p, a.b) then a.out else a.out + [Want(p, a.b)])
    case Close(i, bnbOut) => Account(Closed(a.b, a.out[i], bnbOut), Without(a.out, i))
  }

  ghost predicate CanRun(p: Params, a: Account, events: seq<Event>)
    decreases |events|
  {
    events == [] || (Possible(a, events[0]) && CanRun(p, Apply(p, a, events[0]), events[1..]))
  }

  ghost function Run(p: Params, a: Account, events: seq<Event>): Account
    requires CanRun(p, a, events)
    decreases |events|
  {
    if events == [] then a else Run(p, Apply(p, a, events[0]), events[1..])
  }

  function Sum(xs: seq<nat>): nat {
    if xs == [] then 0 else Sum(xs[..|xs| - 1]) + xs[|xs| - 1]
  }

  /** All that ever came back. */
  function Proceeds(events: seq<Event>): nat {
    if events == [] then 0 else (if events[0].Close? then events[0].bnbOut else 0) + Proceeds(events[1..])
  }

  /** Cash and commitments are the initial pot plus what was realised, and the
      commitments are the reservations still out. */
  ghost predicate Balanced(a: Account) {
    && a.b.cash + a.b.committed == a.b.initialWei + a.b.pnl
    && a.b.committed == Sum(a.out)
  }

  lemma {:induction false} SumSplit(a: seq<nat>, b: seq<nat>)
    ensures Sum(a + b) == Sum(a) + Sum(b)
  {
    if b == [] {
      assert a + b == a;
    } else {
      assert (a + b)[..|a| + |b| - 1] == a + b[..|b| - 1];
      SumSplit(a, b[..|b| - 1]);
    }
  }

  lemma {:induction false} SumWithout(out: seq<nat>, i: nat)
    requires i < |out|
    ensures Sum(Without(out, i)) + out[i] == Sum(out)
  {
    SumSplit(out[..i], out[i + 1..]);
    SumSplit(out[..i], [out[i]]);
    SumSplit(out[..i] + [out[i]], out[i + 1..]);
    assert out == out[..i] + [out[i]] + out[i + 1..];
    assert Sum([out[i]]) == out[i];
  }

  /** A fraction of at most the whole never asks for more than the cash. */
  lemma WantWithinCash(p: Params, b: KolBudget)
    requires p.bps <= 10000
    ensures Want(p, b) <= b.cash
  {
    assert p.bps * b.cash <= 10000 * b.cash;
  }

  /** Nothing saturates while the pot and everything that comes back fit in a signed word. */
  lemma StepBalances(p: Params, a: Account, e: Event)
    requires p.bps <= 10000 && Possible(a, e) && Balanced(a)
    requires a.b.cash + a.b.committed + (if e.Close? then e.bnbOut else 0) <= I128_MAX
    requires a.b.initialWei <= I128_MAX
    ensures Balanced(Apply(p, a, e))
    ensures Apply(p, a, e).b.initialWei == a.b.initialWei
    ensures Apply(p, a, e).b.cash + Apply(p, a, e).b.committed <= a.b.cash + a.b.committed + (if e.Close? then e.bnbOut else 0)
  {
    match e
    case Reserve =>
      WantWithinCash(p, a.b);
      assert (a.out + [Want(p, a.b)])[..|a.out|] == a.out;
    case Close(i, bnbOut) =>
      SumWithout(a.out, i);
  }

  /** Over every run in which no amount overflows, money is conserved. */
  lemma {:induction false} RunsBalance(p: Params, a: Account, events: seq<Event>)
    requires p.bps <= 10000 && CanRun(p, a, events) && Balanced(a)
    requires a.b.cash + a.b.committed + Proceeds(events) <= I128_MAX && a.b.initialWei <= I128_MAX
    ensures Balanced(Run(p, a, events))
    ensures Run(p, a, events).b.cash + Run(p, a, events).b.committed <= I128_MAX
    ensures Run(p, a, events).b.initialWei == a.b.initialWei
    decreases |events|
  {
    if events != [] {
      StepBalances(p, a, events[0]);
      RunsBalance(p, Apply(p, a, events[0]), events[1..]);
    }
  }

  /** What the reservations settled by a run had put in. */
  ghost function Costs(p: Params, a: Account, events: seq<Event>): nat
    requires CanRun(p, a, events)
    decreases |events|
  {
    if events == [] then 0
    else (if events[0].Close? then a.out[events[0].index] else 0) + Costs(p, Apply(p, a, events[0]), events[1..])
  }

  /** The realised profit of such a run is what came back less what had been put in. */
  lemma {:induction false} RunsRealise(p: Params, a: Account, events: seq<Event>)
    requires p.bps <= 10000 && CanRun(p, a, events) && Balanced(a)
    requires a.b.cash + a.b.committed + Proceeds(events) <= I128_MAX && a.b.initialWei <= I128_MAX
    ensures Run(p, a, events).b.pnl == a.b.pnl + Proceeds(events) - Costs(p, a, events)
    decreases |events|
  {
    if events != [] {
      StepBalances(p, a, events[0]);
      StepRealises(p, a, events[0]);
      RunsRealise(p, Apply(p, a, events[0]), events[1..]);
    }
  }

  lemma StepRealises(p: Params, a: Account, e: Event)
    requires Possible(a, e) && Balanced(a)
    requires a.b.cash + a.b.committed + (if e.Close? then e.bnbOut else 0) <= I128_MAX && a.b.initialWei <= I128_MAX
    ensures Apply(p, a, e).b.pnl == a.b.pnl + if e.Close? then e.bnbOut - a.out[e.index] else 0
  {
    if e.Close? {
      SumWithout(a.out, e.index);
    }
  }

  /** In particular every record reachable from a fresh one: equity is the pot plus what was realised. */
  lemma ReachableBalances(p: Params, events: seq<Event>)
    requires p.bps <= 10000 && CanRun(p, Account(New(p), []), events)
    requires p.initialWei + Proceeds(events) <= I128_MAX
    ensures var a := Run(p, Account(New(p), []), events);
            && Equity(a.b) == a.b.cash + a.b.committed == p.initialWei + a.b.pnl
            && a.b.committed == Sum(a.out)
  {
    RunsBalance(p, Account(New(p), []), events);
  }

  /** A reservation moves cash to commitments one for one exactly when it does not exceed
      the cash; beyond that the cash stops at zero and money appears from nowhere. */
  lemma ReserveConservesIff(p: Params, b: KolBudget)
    requires !Refuses(p, b) && b.committed + Want(p, b) <= U128_MAX
    ensures Reserved(p, b).cash + Reserved(p, b).committed == b.cash + b.committed <==> Want(p, b) <= b.cash
  {
  }

  // ----- Straight reservations -----

  function Pow(x: nat, k: nat): nat {
    if k == 0 then 1 else x * Pow(x, k - 1)
  }

  /** The record after `k` attempts in a row. */
  function After(p: Params, b: KolBudget, k: nat): KolBudget {
    if k == 0 then b else Reserved(p, After(p, b, k - 1))
  }

  lemma OneReserveKeeps(p: Params, b: KolBudget)
    requires p.bps <= 10000
    ensures Reserved(p, b).cash * 10000 >= b.cash * (10000 - p.bps)
  {
    WantWithinCash(p, b);
    assert 10000 * Want(p, b) <= p.bps * b.cash;
    assert b.cash * (10000 - p.bps) == b.cash * 10000 - p.bps * b.cash;
    assert b.cash * (10000 - p.bps) <= b.cash * 10000;
  }

  lemma DecayStep(before: nat, after: nat, cash: nat, t: nat, q: nat, ts: nat, qs: nat)
    requires after * t >= before * q && before * ts >= cash * qs
    ensures after * (t * ts) >= cash * (q * qs)
  {
    calc {
      after * (t * ts);
      (after * t) * ts;
    >= { MulLe(before * q, after * t, ts); }
      (before * q) * ts;
      (before * ts) * q;
    >= { MulLe(cash * qs, before * ts, q); }
      (cash * qs) * q;
      cash * (q * qs);
    }
  }

  /** Straight reservations shrink the cash at most geometrically. */
  lemma {:induction false} CashDecay(p: Params, b: KolBudget, k: nat)
    requires p.bps <= 10000
    ensures After(p, b, k).cash * Pow(10000, k) >= b.cash * Pow(10000 - p.bps, k)
  {
    if k > 0 {
      var prev, q := After(p, b, k - 1), 10000 - p.bps;
      CashDecay(p, b, k - 1);
      OneReserveKeeps(p, prev);
      DecayStep(prev.cash, Reserved(p, prev).cash, b.cash, 10000, q, Pow(10000, k - 1), Pow(q, k - 1));
    }
  }

  /** Each one that succeeds takes at least the dust floor, so there are at most cash/dust. */
  lemma {:induction false} TakenBound(p: Params, b: KolBudget, k: nat)
    requires p.bps <= 10000
    ensures After(p, b, k).cash + (After(p, b, k).taken - b.taken) * p.dustWei <= b.cash
    ensures After(p, b, k).taken >= b.taken
  {
    if k > 0 {
      var prev := After(p, b, k - 1);
      TakenBound(p, b, k - 1);
      WantWithinCash(p, prev);
      if !Refuses(p, prev) {
        assert (prev.taken + 1 - b.taken) * p.dustWei == (prev.taken - b.taken) * p.dustWei + p.dustWei;
      }
    }
  }

  lemma DustQuotient(t: nat, dust: nat, cash: nat)
    requires dust >= 1 && t * dust <= cash
    ensures t <= cash / dust
  {
    if t > cash / dust {
      assert (cash / dust + 1) * dust > cash;
      MulLe(cash / dust + 1, t, dust);
    }
  }

  lemma AtMostCashOverDust(p: Params, b: KolBudget, k: nat)
    requires p.bps <= 10000 && p.dustWei >= 1
    ensures b.taken <= After(p, b, k).taken <= b.taken + b.cash / p.dustWei
  {
    TakenBound(p, b, k);
    DustQuotient(After(p, b, k).taken - b.taken, p.dustWei, b.cash);
  }

  /** A refusal changes nothing but the counter, so it repeats until a close brings cash. */
  lemma {:induction false} RefusalPersists(p: Params, b: KolBudget, k: nat)
    requires Refuses(p, b)
    ensures After(p, b, k) == b.(skipped := b.skipped + k)
    ensures Refuses(p, After(p, b, k))
  {
    if k > 0 {
      RefusalPersists(p, b, k - 1);
    }
  }
}
