/** The fee split of pkg/economy/feeburn.go and its settlement at epoch boundaries. */
module FeeBurn {
  import opened Word64
  import opened Results

  const PHI_NUMERATOR := 7
  const PHI_DENOMINATOR := 100
  const SECONDS_PER_YEAR := 31536000
  const EPOCH_BLOCKS := 2880
  const EPOCH_SECONDS := 86400

  datatype Ratio = Ratio(num: nat, den: nat)

  datatype Split = Split(pay: u64, burn: u64, apr: Ratio)

  datatype Error = NoFees | BadState

  function Times(a: nat, b: nat): nat { a * b }

  function Floor(a: nat, b: nat): (q: nat)
    requires b > 0
    ensures q * b <= a < q * b + b
  {
    a / b
  }

  /** The ceiling before the rounding floor of one satoshi: 7 percent of the stake a year, for the epoch. */
  function RawCap(stake: u64, seconds: u64): nat {
    Floor(Times(stake * PHI_NUMERATOR, seconds), SECONDS_PER_YEAR * PHI_DENOMINATOR)
  }

  /** AprFrom. */
  function AprFrom(payout: u64, stake: u64, seconds: u64): Ratio {
    if stake == 0 || seconds == 0 then Ratio(0, 1)
    else Ratio(Floor(payout * SECONDS_PER_YEAR, seconds), stake)
  }

  /** BurnSplit; every conversion from a big integer to uint64 keeps the low 64 bits only. */
  function BurnSplit(fees: u64, stake: u64, supply: u64, seconds: u64): Result<Split, Error> {
    if fees == 0 then Err(NoFees)
    else if supply == 0 || stake == 0 || seconds == 0 then Err(BadState)
    else
      var raw := RawCap(stake, seconds);
      var cap := if raw == 0 then 1 else raw;
      if fees <= cap then Ok(Split(fees % MOD, 0, AprFrom(fees, stake, seconds)))
      else Ok(Split(cap % MOD, (fees - cap) % MOD, AprFrom(cap % MOD, stake, seconds)))
  }

  /** In numbers: the ceiling is the largest whole amount within 7 percent a year of the stake, for these seconds. */
  lemma CapExactly(stake: u64, seconds: u64)
    ensures 3153600000 * RawCap(stake, seconds) <= 7 * stake * seconds < 3153600000 * (RawCap(stake, seconds) + 1)
  {
  }

  /** And the yield is the largest whole one, over the stake, that the payout makes in a year of such epochs. */
  lemma YieldExactly(payout: u64, stake: u64, seconds: u64)
    requires stake > 0 && seconds > 0
    ensures var apr := AprFrom(payout, stake, seconds);
            apr.den == stake && apr.num * seconds <= payout * 31536000 < apr.num * seconds + seconds
  {
  }

  /** Nothing is lost to truncation: the payout is the smaller of the fees and the ceiling, the burn is the exact
      rest, and the split fails only for missing fees or an empty state. */
  lemma SplitExact(fees: u64, stake: u64, supply: u64, seconds: u64)
    ensures var r := BurnSplit(fees, stake, supply, seconds);
            && (r.Ok? <==> fees > 0 && supply > 0 && stake > 0 && seconds > 0)
            && (r.Ok? ==>
                  var cap := if RawCap(stake, seconds) >= 1 then RawCap(stake, seconds) else 1;
                  && r.value.pay == (if fees < cap then fees else cap)
                  && r.value.pay + r.value.burn == fees
                  && r.value.apr == AprFrom(r.value.pay, stake, seconds))
  {
  }

  lemma {:induction false} TimesGrows(x: nat, y: nat, t: nat)
    requires x < y
    ensures x * t + t <= y * t
  {
    if t > 0 {
      TimesGrows(x, y, t - 1);
    }
  }

  lemma ScaleDown(x: nat, y: nat, t: nat)
    requires t > 0 && x * t <= y * t
    ensures x <= y
  {
    if y < x {
      TimesGrows(y, x, t);
      assert false;
    }
  }

  /** A payout within the raw ceiling annualises to at most 7 percent of the stake. */
  lemma CapBoundsApr(pay: u64, stake: u64, seconds: u64)
    requires seconds > 0 && stake > 0 && pay <= RawCap(stake, seconds)
    ensures 100 * AprFrom(pay, stake, seconds).num <= 7 * stake
  {
    var annual := AprFrom(pay, stake, seconds).num;
    var unit := SECONDS_PER_YEAR * PHI_DENOMINATOR;
    assert annual * seconds <= pay * SECONDS_PER_YEAR;
    assert pay * unit <= RawCap(stake, seconds) * unit <= Times(7 * stake, seconds);
    assert (100 * annual) * seconds == 100 * (annual * seconds);
    ScaleDown(100 * annual, 7 * stake, seconds);
  }

  /** The realised yield respects the target exactly when the ceiling is at least one satoshi before rounding,
      or one satoshi per epoch is itself within the target. */
  lemma AprWithinTargetExactly(fees: u64, stake: u64, supply: u64, seconds: u64)
    requires BurnSplit(fees, stake, supply, seconds).Ok?
    ensures var apr := BurnSplit(fees, stake, supply, seconds).value.apr;
            && apr.den == stake
            && (apr.num * PHI_DENOMINATOR <= PHI_NUMERATOR * apr.den
                <==> RawCap(stake, seconds) >= 1 || PHI_DENOMINATOR * Floor(SECONDS_PER_YEAR, seconds) <= PHI_NUMERATOR * stake)
  {
    SplitExact(fees, stake, supply, seconds);
    var split := BurnSplit(fees, stake, supply, seconds).value;
    if RawCap(stake, seconds) >= 1 {
      CapBoundsApr(split.pay, stake, seconds);
    } else {
      assert split.pay == 1;
    }
  }

  /** One satoshi in fees, one staked, over a day: it is paid out, which is 365 a year on a stake of 1. */
  lemma YieldBeyondTarget()
    ensures BurnSplit(1, 1, 1, EPOCH_SECONDS) == Ok(Split(1, 0, Ratio(365, 1)))
    ensures 365 * PHI_DENOMINATOR > PHI_NUMERATOR * 1
  {
    assert RawCap(1, EPOCH_SECONDS) == 0;
    assert Floor(SECONDS_PER_YEAR, EPOCH_SECONDS) == 365;
  }

  // ---------------------------------------------------------------- epochs

  /** Fees waiting for the next boundary, and the running totals of the mining statistics. */
  datatype Ledger = Ledger(waiting: u64, paid: u64, burned: u64)
  {
    /** All the fees the ledger knows of, as the uint64 total they are kept in. */
    function Sum(): u64 { Add(Add(waiting, paid), burned) }
  }

  datatype Event = Fee(amount: u64) | Block(height: u64, stake: u64)

  /** settleEpochFees at a new height; a zero stake is shown as one. */
  function Settle(l: Ledger, height: u64, stake: u64, supply: u64): Ledger {
    if height % EPOCH_BLOCKS != 0 || l.waiting == 0 then l
    else
      var r := BurnSplit(l.waiting, if stake == 0 then 1 else stake, supply, EPOCH_SECONDS);
      if r.Err? then l.(waiting := 0)
      else Ledger(0, Add(l.paid, r.value.pay), Add(l.burned, r.value.burn))
  }

  function Next(l: Ledger, e: Event, supply: u64): Ledger {
    match e
    case Fee(amount) => l.(waiting := Add(l.waiting, amount))
    case Block(height, stake) => Settle(l, height, stake, supply)
  }

  function Run(l: Ledger, es: seq<Event>, supply: u64): Ledger {
    if es == [] then l else Next(Run(l, es[..|es| - 1], supply), es[|es| - 1], supply)
  }

  /** All the fees added in a run, as a uint64 total. */
  function FeesAdded(es: seq<Event>): u64 {
    if es == [] then 0
    else Add(FeesAdded(es[..|es| - 1]), if es[|es| - 1].Fee? then es[|es| - 1].amount else 0)
  }

  lemma SplitKeepsSum(waiting: u64, paid: u64, burned: u64, pay: u64, burn: u64)
    requires pay + burn == waiting
    ensures Add(Add(0, Add(paid, pay)), Add(burned, burn)) == Add(Add(waiting, paid), burned)
  {
    AddCases(paid, pay);
    AddCases(burned, burn);
    AddCases(waiting, paid);
    AddCases(Add(waiting, paid), burned);
    AddCases(Add(paid, pay), Add(burned, burn));
  }

  lemma SettleConserves(l: Ledger, height: u64, stake: u64, supply: u64)
    requires supply > 0
    ensures Settle(l, height, stake, supply).Sum() == l.Sum()
  {
    if height % EPOCH_BLOCKS == 0 && l.waiting != 0 {
      var s := if stake == 0 then 1 else stake;
      SplitExact(l.waiting, s, supply, EPOCH_SECONDS);
      var split := BurnSplit(l.waiting, s, supply, EPOCH_SECONDS).value;
      SplitKeepsSum(l.waiting, l.paid, l.burned, split.pay, split.burn);
    }
  }

  /** What a day's settlement comes to, in numbers: only at heights that 2880 divides, the fees waiting are paid out up
      to 604800 / 3153600000 of the stake, or one satoshi if that is less, and the rest is burned. */
  lemma SettleExactly(l: Ledger, height: u64, stake: u64, supply: u64)
    requires supply > 0
    ensures var l' := Settle(l, height, stake, supply);
            var share := 604800 * (if stake == 0 then 1 else stake) / 3153600000;
            var cap := if share >= 1 then share else 1;
            var paid := if l.waiting < cap then l.waiting else cap;
            if height % 2880 == 0
            then l'.waiting == 0 && l'.paid == (l.paid + paid) % MOD && l'.burned == (l.burned + l.waiting - paid) % MOD
            else l' == l
  {
    var s := if stake == 0 then 1 else stake;
    if height % EPOCH_BLOCKS == 0 && l.waiting != 0 {
      SplitExact(l.waiting, s, supply, EPOCH_SECONDS);
      assert RawCap(s, EPOCH_SECONDS) == 604800 * s / 3153600000;
    }
  }

  lemma FeeConserves(w: u64, p: u64, b: u64, amount: u64)
    ensures Add(Add(Add(w, amount), p), b) == Add(Add(Add(w, p), b), amount)
  {
    AddCases(w, amount);
    AddCases(w, p);
    AddCases(Add(w, amount), p);
    AddCases(Add(w, p), b);
    AddCases(Add(Add(w, amount), p), b);
    AddCases(Add(Add(w, p), b), amount);
  }

  /** Over every run, the fees added are the fees waiting plus those paid plus those burned (as uint64 totals):
      the branch that would drop an epoch's fees is never taken. */
  lemma {:induction false} FeesAccountedFor(es: seq<Event>, supply: u64)
    requires supply > 0
    ensures Run(Ledger(0, 0, 0), es, supply).Sum() == FeesAdded(es)
  {
    if es != [] {
      var l := Run(Ledger(0, 0, 0), es[..|es| - 1], supply);
      FeesAccountedFor(es[..|es| - 1], supply);
      NextConserves(l, es[|es| - 1], supply);
    }
  }

  lemma NextConserves(l: Ledger, e: Event, supply: u64)
    requires supply > 0
    ensures Next(l, e, supply).Sum() == Add(l.Sum(), if e.Fee? then e.amount else 0)
  {
    match e
    case Fee(amount) => FeeConserves(l.waiting, l.paid, l.burned, amount);
    case Block(height, stake) =>
      SettleConserves(l, height, stake, supply);
      AddCases(l.Sum(), 0);
  }

  /** The same fees, not reduced. */
  function FeesExact(es: seq<Event>): nat {
    if es == [] then 0 else FeesExact(es[..|es| - 1]) + (if es[|es| - 1].Fee? then es[|es| - 1].amount else 0)
  }

  /** As long as all the fees together fit in 64 bits, every satoshi is waiting, paid or burned. */
  lemma {:induction false} EverySatoshi(es: seq<Event>, supply: u64)
    requires supply > 0 && FeesExact(es) < MOD
    ensures var l := Run(Ledger(0, 0, 0), es, supply); l.waiting + l.paid + l.burned == FeesExact(es)
  {
    if es != [] {
      EverySatoshi(es[..|es| - 1], supply);
      NextExact(Run(Ledger(0, 0, 0), es[..|es| - 1], supply), es[|es| - 1], supply);
    }
  }

  lemma NextExact(l: Ledger, e: Event, supply: u64)
    requires supply > 0 && l.waiting + l.paid + l.burned + (if e.Fee? then e.amount else 0) < MOD
    ensures var l' := Next(l, e, supply);
            l'.waiting + l'.paid + l'.burned == l.waiting + l.paid + l.burned + (if e.Fee? then e.amount else 0)
  {
    if e.Block? && e.height % EPOCH_BLOCKS == 0 && l.waiting != 0 {
      SplitExact(l.waiting, if e.stake == 0 then 1 else e.stake, supply, EPOCH_SECONDS);
    }
  }

  /** Every fee of the run is accounted for: as a uint64 total always, to the satoshi while all of them fit. */
  ghost predicate Accounts(l: Ledger, es: seq<Event>) {
    && l.Sum() == FeesAdded(es)
    && (FeesExact(es) < MOD ==> l.waiting + l.paid + l.burned == FeesExact(es))
  }

  lemma RunAccounts(es: seq<Event>, supply: u64)
    requires supply > 0
    ensures Accounts(Run(Ledger(0, 0, 0), es, supply), es)
  {
    FeesAccountedFor(es, supply);
    if FeesExact(es) < MOD {
      EverySatoshi(es, supply);
    }
  }

  lemma RunSnoc(es: seq<Event>, e: Event, supply: u64)
    ensures Run(Ledger(0, 0, 0), es + [e], supply) == Next(Run(Ledger(0, 0, 0), es, supply), e, supply)
  {
    assert (es + [e])[..|es|] == es;
  }

  /** The node's side of it: the accumulator and the statistics, changed in place. */
  class EpochFees {
    const supply: u64
    var feesSat: u64
    var feePayoutTotal: u64
    var burnedTotal: u64
    ghost var events: seq<Event>   // all that has happened

    constructor (supply: u64)
      requires supply > 0
      ensures Valid() && events == [] && this.supply == supply
    {
      this.supply := supply;
      feesSat, feePayoutTotal, burnedTotal := 0, 0, 0;
      events := [];
    }

    function View(): Ledger
      reads this
    {
      Ledger(feesSat, feePayoutTotal, burnedTotal)
    }

    /** The fields are what the events come to. */
    ghost predicate Valid()
      reads this
    {
      supply > 0 && View() == Run(Ledger(0, 0, 0), events, supply)
    }

    /** add: a fee joins those waiting, and nothing is lost. */
    method AddFee(fee: u64)
      requires Valid()
      modifies this`feesSat, this`events
      ensures Valid() && events == old(events) + [Fee(fee)] && Accounts(View(), events)
    {
      RunSnoc(events, Fee(fee), supply);
      feesSat := Add(feesSat, fee);
      events := events + [Fee(fee)];
      RunAccounts(events, supply);
    }

    /** take. */
    method Take() returns (fees: u64)
      modifies this`feesSat
      ensures fees == old(feesSat) && feesSat == 0
    {
      fees := feesSat;
      feesSat := 0;
    }

    /** Settles at epoch boundaries only; the epoch's fees are paid out or burned, never dropped. */
    method SettleEpochFees(newHeight: u64, totalStake: u64)
      requires Valid()
      modifies this
      ensures Valid() && events == old(events) + [Block(newHeight, totalStake)] && Accounts(View(), events)
      ensures newHeight % EPOCH_BLOCKS == 0 ==> feesSat == 0
      ensures newHeight % EPOCH_BLOCKS != 0 ==> View() == old(View())
    {
      RunSnoc(events, Block(newHeight, totalStake), supply);
      events := events + [Block(newHeight, totalStake)];
      RunAccounts(events, supply);
      if newHeight % EPOCH_BLOCKS != 0 {
        return;
      }
      var fees := Take();
      if fees == 0 {
        return;
      }
      var stake := totalStake;
      if stake == 0 {
        stake := 1;
      }
      var r := BurnSplit(fees, stake, supply, EPOCH_SECONDS);
      if r.Err? {
        return;
      }
      burnedTotal := Add(burnedTotal, r.value.burn);
      feePayoutTotal := Add(feePayoutTotal, r.value.pay);
    }
  }
}
