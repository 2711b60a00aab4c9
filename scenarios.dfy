/**
 * The test suite's scenarios replayed against the ledger model. Each one
 * deploys a fresh ledger (the suite's `beforeEach`), performs the same calls
 * and returns what the suite reads back; the postconditions are the suite's
 * expectations. Names are read back as the client library shows a `bytes32`:
 * its `Hexlify` rendering.
 */
module KingdomScenarios {
  import opened Bytes32Encoding
  import opened KingdomLedger

  /** The UTF-8 bytes of "Monarch1" and "Monarch2", the names the suite claims with. */
  const MONARCH1_TEXT: seq<byte> := [0x4d, 0x6f, 0x6e, 0x61, 0x72, 0x63, 0x68, 0x31]
  const MONARCH2_TEXT: seq<byte> := [0x4d, 0x6f, 0x6e, 0x61, 0x72, 0x63, 0x68, 0x32]

  lemma MonarchTextsAreUtf8()
    ensures MONARCH1_TEXT == Utf8OfAscii("Monarch1")
    ensures MONARCH2_TEXT == Utf8OfAscii("Monarch2")
  {
  }

  /** The `bytes32` argument for a text, produced by the helper and read as 32 bytes. */
  method NameArgument(text: seq<byte>) returns (hex: seq<char>, name: Name)
    requires |text| <= WIDTH
    ensures |name| == WIDTH && name == PadRight(text)
    ensures hex == Hexlify(name) && DecodeBytes32(hex) == Some(name)
  {
    var r := Bytes32(text);
    hex := r.value;
    name := DecodeBytes32(hex).value;
  }

  /** "should set the owner as the initial monarch". */
  method InitialMonarchIsOwner(owner: Address) returns (monarch: Address, ownerName: seq<char>, expected: seq<char>)
    ensures monarch == owner
    ensures ownerName == expected
    ensures expected == Hexlify(VACANT)
  {
    var contract := new KingdomOfEther(owner);
    monarch := contract.monarch;
    ownerName := Hexlify(contract.MonarchNames(owner));
    var hex, _ := NameArgument(VACANT_TEXT);
    expected := hex;
  }

  /** "should allow the owner to pause and unpause the contract". */
  method PauseAndUnpause(owner: Address) returns (pausedAfterPause: bool, pausedAfterUnpause: bool)
    ensures pausedAfterPause
    ensures !pausedAfterUnpause
  {
    var contract := new KingdomOfEther(owner);
    contract.PauseContract(owner);
    pausedAfterPause := contract.paused;
    contract.UnpauseContract(owner);
    pausedAfterUnpause := contract.paused;
  }

  /** "should allow a user to become the new monarch". */
  method UserBecomesMonarch(owner: Address, user1: Address)
    returns (monarch: Address, userName: seq<char>, expected: seq<char>, priceBefore: nat, priceAfter: nat)
    ensures monarch == user1
    ensures userName == expected && expected == Hexlify(PadRight(MONARCH1_TEXT))
    ensures priceAfter == priceBefore * 150 / 100
  {
    var contract := new KingdomOfEther(owner);
    priceBefore := contract.claimPrice;
    var hex, name := NameArgument(MONARCH1_TEXT);
    contract.BecomeMonarch(name, priceBefore, user1);
    monarch := contract.monarch;
    userName := Hexlify(contract.MonarchNames(user1));
    expected := hex;
    priceAfter := contract.claimPrice;
  }

  /** "should allow the current monarch to renounce monarchy". */
  method MonarchRenounces(owner: Address, user1: Address)
    returns (monarch: Address, ownerName: seq<char>, expected: seq<char>, price: nat)
    ensures monarch == owner
    ensures ownerName == expected && expected == Hexlify(VACANT)
    ensures price == 100_000_000_000_000
  {
    var contract := new KingdomOfEther(owner);
    var _, name := NameArgument(MONARCH1_TEXT);
    contract.BecomeMonarch(name, contract.claimPrice, user1);
    contract.RenounceMonarchy(user1);
    monarch := contract.monarch;
    ownerName := Hexlify(contract.MonarchNames(owner));
    var hex, _ := NameArgument(VACANT_TEXT);
    expected := hex;
    price := contract.claimPrice;
  }

  /** "the first Monarch after the owner deployment should pay at least 0.0001 ether". */
  method FirstClaimPrice(owner: Address) returns (price: nat)
    ensures price == 100_000_000_000_000
  {
    var contract := new KingdomOfEther(owner);
    price := contract.claimPrice;
  }

  /** "should increase by claim price by 1.5x after every monarch". */
  method PriceCompounds(owner: Address, user1: Address, user2: Address)
    returns (initial: nat, afterFirst: nat, afterSecond: nat)
    ensures initial == 100_000_000_000_000
    ensures afterFirst == initial * 150 / 100 == 150_000_000_000_000
    ensures afterSecond == afterFirst * 150 / 100 == 225_000_000_000_000
  {
    var contract := new KingdomOfEther(owner);
    initial := contract.claimPrice;
    var _, name := NameArgument(MONARCH1_TEXT);
    contract.BecomeMonarch(name, initial, user1);
    afterFirst := contract.claimPrice;
    contract.BecomeMonarch(name, afterFirst, user2);
    afterSecond := contract.claimPrice;
  }

  /** "should accumulate fees and allow the owner to sweep them". */
  method FeesAccumulateAndSweep(owner: Address, user1: Address)
    returns (price: nat, feesAfterClaim: nat, feesAfterSweep: nat)
    ensures feesAfterClaim == price * 1 / 100 == 1_000_000_000_000
    ensures feesAfterSweep == 0
  {
    var contract := new KingdomOfEther(owner);
    price := contract.claimPrice;
    var _, name := NameArgument(MONARCH1_TEXT);
    contract.BecomeMonarch(name, price, user1);
    feesAfterClaim := contract.accumulatedFees;
    contract.SweepFees(owner);
    feesAfterSweep := contract.accumulatedFees;
  }

  /** "should have a new monarch on each becomeMonarch calls". */
  method EachClaimReplacesMonarch(owner: Address, user1: Address, user2: Address)
    returns (first: Address, firstName: seq<char>, second: Address, secondName: seq<char>)
    ensures first == user1 && firstName == Hexlify(PadRight(MONARCH1_TEXT))
    ensures second == user2 && secondName == Hexlify(PadRight(MONARCH2_TEXT))
  {
    var contract := new KingdomOfEther(owner);
    var _, name1 := NameArgument(MONARCH1_TEXT);
    contract.BecomeMonarch(name1, contract.claimPrice, user1);
    first := contract.monarch;
    firstName := Hexlify(contract.MonarchNames(user1));
    var _, name2 := NameArgument(MONARCH2_TEXT);
    contract.BecomeMonarch(name2, contract.claimPrice, user2);
    second := contract.monarch;
    secondName := Hexlify(contract.MonarchNames(user2));
  }
}
