/**
 * The KingdomOfEther ledger as its test suite pins it down: one title, one
 * holder at a time, a claim price that grows by half (rounded down) with every
 * claim, a 1% fee kept for the owner, and an owner-controlled pause flag.
 *
 * Amounts are in wei. Callers and the deployer are plain addresses; the
 * transaction's sender and attached value become parameters.
 */
module KingdomLedger {
  import opened Bytes32Encoding

  /** A 20-byte account address. */
  type Address = a: int | 0 <= a < 0x10000000000000000000000000000000000000000

  /** A `bytes32` display name as the ledger stores it. */
  type Name = s: seq<byte> | |s| == WIDTH witness ZeroBytes(WIDTH)

  /** The floor claim price, 0.0001 ether in wei. */
  const FLOOR_PRICE: nat := 100_000_000_000_000

  /** The sentinel text held by the owner while the throne is vacant: the UTF-8 bytes of "[Vacant]". */
  const VACANT_TEXT: seq<byte> := [0x5b, 0x56, 0x61, 0x63, 0x61, 0x6e, 0x74, 0x5d]

  /** The `bytes32` value of the sentinel: "[Vacant]" right-padded with zero bytes. */
  const VACANT: Name := PadRight(VACANT_TEXT)

  lemma VacantTextIsUtf8()
    ensures VACANT_TEXT == Utf8OfAscii("[Vacant]")
  {
  }

  // ---------------------------------------------------------------------
  // Arithmetic of a claim

  /** The next claim price, `price * 150 / 100` with truncation: the price plus half of it, rounded down. */
  function NextClaimPrice(price: nat): (r: nat)
    ensures r == price + price / 2
  {
    var q, m := price / 2, price % 2;
    assert price * 150 == (3 * q + m) * 100 + 50 * m;
    price * 150 / 100
  }

  /** The fee kept from a payment, `payment * 1 / 100`. */
  function Fee(payment: nat): (r: nat)
    ensures 100 * r <= payment < 100 * (r + 1)
  {
    payment * 1 / 100
  }

  /** The claim price after `n` claims since deployment or the last renunciation. */
  function PriceAfterClaims(n: nat): (p: nat)
    ensures p >= FLOOR_PRICE
  {
    if n == 0 then FLOOR_PRICE else NextClaimPrice(PriceAfterClaims(n - 1))
  }

  /** Every claim strictly raises the price. */
  lemma PriceStrictlyIncreases(n: nat)
    ensures PriceAfterClaims(n) < PriceAfterClaims(n + 1)
  {
  }

  /** The price never falls as claims accumulate. */
  lemma {:induction false} PriceMonotonic(m: nat, n: nat)
    requires m <= n
    ensures PriceAfterClaims(m) <= PriceAfterClaims(n)
  {
    if m < n {
      PriceMonotonic(m, n - 1);
      PriceStrictlyIncreases(n - 1);
    }
  }

  /** The fees owed for a sequence of payments. */
  function FeesOf(payments: seq<nat>): nat
  {
    if payments == [] then 0
    else FeesOf(payments[..|payments| - 1]) + Fee(payments[|payments| - 1])
  }

  /** The sum of a sequence of payments. */
  function Total(payments: seq<nat>): nat
  {
    if payments == [] then 0
    else Total(payments[..|payments| - 1]) + payments[|payments| - 1]
  }

  lemma FeesOfAppend(payments: seq<nat>, p: nat)
    ensures FeesOf(payments + [p]) == FeesOf(payments) + Fee(p)
  {
    assert (payments + [p])[..|payments|] == payments;
  }

  /** The accumulated fees are at most 1% of what was paid. */
  lemma {:induction false} FeesAtMostOnePercent(payments: seq<nat>)
    ensures 100 * FeesOf(payments) <= Total(payments)
  {
    if payments != [] {
      FeesAtMostOnePercent(payments[..|payments| - 1]);
    }
  }

  // ---------------------------------------------------------------------
  // The ledger

  class KingdomOfEther {
    const owner: Address
    var monarch: Address
    var monarchNames: map<Address, Name>
    var claimPrice: nat
    var accumulatedFees: nat
    var paused: bool

    /** Claims since deployment or the last renunciation. */
    ghost var claimsSinceReset: nat
    /** Payments made by claims since deployment or the last sweep. */
    ghost var paymentsSinceSweep: seq<nat>
    /** Every address that has ever claimed the title. */
    ghost var claimants: set<Address>

    /**
     * The ledger's invariant: the owner and the monarch have names, every
     * past claimant has a name, the monarch is the
     * owner or a past claimant, the price is the floor raised once per claim
     * since the last reset, and the fees are 1% of each payment since the
     * last sweep.
     */
    ghost predicate Valid()
      reads this
    {
      && owner in monarchNames
      && monarch in monarchNames
      && claimants <= monarchNames.Keys
      && (monarch == owner || monarch in claimants)
      && claimPrice == PriceAfterClaims(claimsSinceReset)
      && accumulatedFees == FeesOf(paymentsSinceSweep)
    }

    /** Deployment by `deployer`: the deployer owns the ledger and holds the vacant throne. */
    constructor (deployer: Address)
      ensures Valid()
      ensures owner == deployer && monarch == deployer
      ensures monarchNames == map[deployer := VACANT]
      ensures MonarchNames(deployer) == VACANT
      ensures forall a | a != deployer :: MonarchNames(a) == ZeroBytes(WIDTH)
      ensures claimPrice == FLOOR_PRICE && accumulatedFees == 0 && !paused
      ensures claimsSinceReset == 0 && paymentsSinceSweep == [] && claimants == {}
    {
      owner := deployer;
      monarch := deployer;
      monarchNames := map[deployer := VACANT];
      claimPrice := FLOOR_PRICE;
      accumulatedFees := 0;
      paused := false;
      claimsSinceReset := 0;
      paymentsSinceSweep := [];
      claimants := {};
    }

    /** The `monarchNames` accessor: the recorded name, or 32 zero bytes for an address never named. */
    function MonarchNames(a: Address): Name
      reads this
    {
      if a in monarchNames then monarchNames[a] else ZeroBytes(WIDTH)
    }

    /** `caller` pays `payment` to take the title under `name`. */
    method BecomeMonarch(name: Name, payment: nat, caller: Address)
      requires Valid()
      requires !paused
      requires payment >= claimPrice
      modifies this
      ensures Valid()
      ensures monarch == caller
      ensures monarchNames == old(monarchNames)[caller := name]
      ensures MonarchNames(caller) == name
      ensures forall a | a != caller :: MonarchNames(a) == old(MonarchNames(a))
      ensures claimPrice == old(claimPrice) * 150 / 100
      ensures old(claimPrice) < claimPrice
      ensures accumulatedFees == old(accumulatedFees) + payment / 100
      ensures paused == old(paused)
      ensures claimsSinceReset == old(claimsSinceReset) + 1
      ensures paymentsSinceSweep == old(paymentsSinceSweep) + [payment]
      ensures claimants == old(claimants) + {caller}
    {
      var fee := Fee(payment);
      var newPrice := NextClaimPrice(claimPrice);
      assert newPrice == PriceAfterClaims(claimsSinceReset + 1);
      FeesOfAppend(paymentsSinceSweep, payment);
      monarchNames := monarchNames[caller := name];
      monarch := caller;
      accumulatedFees := accumulatedFees + fee;
      claimPrice := newPrice;
      claimsSinceReset := claimsSinceReset + 1;
      paymentsSinceSweep := paymentsSinceSweep + [payment];
      claimants := claimants + {caller};
      forall a | a != caller
        ensures MonarchNames(a) == old(MonarchNames(a))
      {
      }
    }

    /** The current monarch gives up the title: the owner holds the vacant throne again at the floor price. */
    method RenounceMonarchy(caller: Address)
      requires Valid()
      requires caller == monarch
      modifies this
      ensures Valid()
      ensures monarch == owner
      ensures monarchNames == old(monarchNames)[owner := VACANT]
      ensures MonarchNames(owner) == VACANT
      ensures forall a | a != owner :: MonarchNames(a) == old(MonarchNames(a))
      ensures claimPrice == FLOOR_PRICE
      ensures accumulatedFees == old(accumulatedFees) && paused == old(paused)
      ensures claimsSinceReset == 0
      ensures paymentsSinceSweep == old(paymentsSinceSweep) && claimants == old(claimants)
    {
      monarch := owner;
      monarchNames := monarchNames[owner := VACANT];
      claimPrice := FLOOR_PRICE;
      claimsSinceReset := 0;
    }

    /** The owner stops claims. */
    method PauseContract(caller: Address)
      requires Valid()
      requires caller == owner
      modifies this
      ensures Valid()
      ensures paused
      ensures monarch == old(monarch) && monarchNames == old(monarchNames)
      ensures claimPrice == old(claimPrice) && accumulatedFees == old(accumulatedFees)
      ensures claimsSinceReset == old(claimsSinceReset)
      ensures paymentsSinceSweep == old(paymentsSinceSweep) && claimants == old(claimants)
    {
      paused := true;
    }

    /** The owner allows claims again. */
    method UnpauseContract(caller: Address)
      requires Valid()
      requires caller == owner
      modifies this
      ensures Valid()
      ensures !paused
      ensures monarch == old(monarch) && monarchNames == old(monarchNames)
      ensures claimPrice == old(claimPrice) && accumulatedFees == old(accumulatedFees)
      ensures claimsSinceReset == old(claimsSinceReset)
      ensures paymentsSinceSweep == old(paymentsSinceSweep) && claimants == old(claimants)
    {
      paused := false;
    }

    /** The owner withdraws the accumulated fees, whatever they amount to. */
    method SweepFees(caller: Address)
      requires Valid()
      requires caller == owner
      modifies this
      ensures Valid()
      ensures accumulatedFees == 0
      ensures monarch == old(monarch) && monarchNames == old(monarchNames)
      ensures claimPrice == old(claimPrice) && paused == old(paused)
      ensures claimsSinceReset == old(claimsSinceReset)
      ensures paymentsSinceSweep == [] && claimants == old(claimants)
    {
      accumulatedFees := 0;
      paymentsSinceSweep := [];
    }
  }
}
