# KingdomOfEther, modelled from its test suite

KingdomOfEther is a small Ethereum contract. It holds one title, the "monarch". Anyone can take the title by paying at least the current claim price. The price then grows by half, rounded down, and a 1% fee is kept for the owner. The tests only ever pay exactly the claim price, so there the fee is 1% of that price. The owner can pause claims and sweep the fees. The monarch can renounce the title, which puts the owner back on a vacant throne at the floor price. The contract's own source is not part of this model. Its behaviour is taken from what the test file `test/MonarchOfEtherScroll.js` asserts about it.

The project has three modules:

- `Bytes32Encoding` (`bytes32.dfy`) models the test suite's `bytes32` helper. The helper takes the UTF-8 bytes of a text and rejects anything over 32 bytes. It hex-encodes the bytes behind `0x`, then appends `'0'` characters until the string is 66 characters long. The helper has a final length check that throws "invalid web3 implicit bytes32"; the model proves it can never fire. The client-library calls the helper relies on are given explicit definitions: `Hexlify` writes two lowercase hex digits per byte after `0x`, `Unhexlify` is its inverse, and `DecodeBytes32` reads such a string as a 32-byte value. The main results are these. Padding the hex string with `'0'` gives the same string as hex-encoding the text right-padded with zero bytes. That padded value is exactly what a `bytes32` argument decodes to.
- `KingdomLedger` (`kingdom.dfy`) models the ledger as a class. Its fields are the owner, the monarch, the name map, the claim price, the accumulated fees and the pause flag. Each contract call becomes a method with `modifies this`. Three ghost fields record history: the number of claims since the last reset, the payments since the last sweep, and the set of past claimants. The invariant `Valid()` ties the real fields to this history. The price is the floor raised once per claim, the fees are 1% of each payment, and every monarch is the owner or a past claimant with a recorded name.
- `KingdomScenarios` (`scenarios.dfy`) replays each `it` block of the suite. Each one deploys a fresh ledger, makes the same calls, and returns what the test reads back. Its postconditions are the test's `expect`s.

Amounts are in wei. Addresses are integers below 2^160. The transaction's sender and attached value are explicit parameters (`caller`, `payment`).

## Model

| member | source | states |
|---|---|---|
| `Bytes32Encoding.Utf8OfAscii` | test/MonarchOfEtherScroll.js:5 | for ASCII text, the UTF-8 bytes are the character codes, one byte per character |
| `Bytes32Encoding.HexOf` | test/MonarchOfEtherScroll.js:9 | the hex digits of a byte string: two per byte, all lowercase |
| `Bytes32Encoding.Hexlify` | test/MonarchOfEtherScroll.js:9 | the hex rendering is `0x` followed by two lowercase hex digits per byte |
| `Bytes32Encoding.ParseHex` | test/MonarchOfEtherScroll.js:9 | a successful parse yields one byte per two characters |
| `Bytes32Encoding.Unhexlify` | test/MonarchOfEtherScroll.js:9 | a successful read of a hex string means it had the `0x` prefix and two characters per byte |
| `Bytes32Encoding.ParseHexOf` | test/MonarchOfEtherScroll.js:9 | parsing the hex digits of any byte string gives that byte string back |
| `Bytes32Encoding.UnhexlifyHexlify` | test/MonarchOfEtherScroll.js:9 | `Unhexlify` undoes `Hexlify` for every byte string |
| `Bytes32Encoding.DecodeBytes32` | test/MonarchOfEtherScroll.js:51 | a hex string read as a `bytes32` argument gives exactly 32 bytes and came from a 66-character string |
| `Bytes32Encoding.PadRight` | test/MonarchOfEtherScroll.js:10-12 | the `bytes32` value of a text is 32 bytes: the text first, zero bytes after it |
| `Bytes32Encoding.PaddedHexIsHexOfPadded` | test/MonarchOfEtherScroll.js:9-12 | appending `'0'` characters to the hex of the text, up to 66 characters, equals the hex of the text right-padded with zero bytes |
| `Bytes32Encoding.Bytes32` | test/MonarchOfEtherScroll.js:4-17 | fails exactly when the text exceeds 32 bytes, and then only with "String too long"; the "invalid web3 implicit bytes32" error is never returned; a success is 66 characters long, starts with the unchanged hex of the text, has only `'0'` characters after it, equals the hex of the zero-padded value, and decodes back to that value |
| `KingdomLedger.NextClaimPrice` | test/MonarchOfEtherScroll.js:49 | the new price `price * 150 / 100` is the old price plus half of it, rounded down |
| `KingdomLedger.Fee` | test/MonarchOfEtherScroll.js:114 | the fee `payment * 1 / 100` is the largest amount whose hundredfold fits in the payment |
| `KingdomLedger.PriceAfterClaims` | test/MonarchOfEtherScroll.js:84-104 | after any number of claims since a reset, the price is never below the 0.0001-ether floor |
| `KingdomLedger.PriceStrictlyIncreases` | test/MonarchOfEtherScroll.js:93-103 | each further claim strictly raises the price |
| `KingdomLedger.PriceMonotonic` | test/MonarchOfEtherScroll.js:93-103 | more claims since a reset never give a lower price |
| `KingdomLedger.FeesAtMostOnePercent` | test/MonarchOfEtherScroll.js:113-114 | the fees owed for a sequence of payments are at most 1% of their total |
| `KingdomLedger.KingdomOfEther.constructor` | test/MonarchOfEtherScroll.js:32-37 | deployment makes the deployer both owner and monarch, makes `monarchNames(owner)` read `[Vacant]` and every other address read 32 zero bytes, sets the price to 10^14 wei, the fees to 0 and the ledger unpaused |
| `KingdomLedger.KingdomOfEther.BecomeMonarch` | test/MonarchOfEtherScroll.js:47-60 | the caller becomes monarch and `monarchNames(caller)` reads the new name, while every other address reads what it did before; the price becomes `old * 150 / 100` and strictly grows; the fees grow by `payment / 100`; the pause flag is kept; the invariant is preserved |
| `KingdomLedger.KingdomOfEther.RenounceMonarchy` | test/MonarchOfEtherScroll.js:62-77 | the owner is monarch again, `monarchNames(owner)` reads `[Vacant]`, and the price is back at 10^14 wei; every other address reads the name it had, and the fees and pause flag are unchanged |
| `KingdomLedger.KingdomOfEther.PauseContract` | test/MonarchOfEtherScroll.js:39-41 | the owner's call sets `paused`; nothing else changes |
| `KingdomLedger.KingdomOfEther.UnpauseContract` | test/MonarchOfEtherScroll.js:43-44 | the owner's call clears `paused`; nothing else changes |
| `KingdomLedger.KingdomOfEther.SweepFees` | test/MonarchOfEtherScroll.js:116-119 | the owner's call sets the accumulated fees to 0 whatever they were; nothing else changes |
| `KingdomScenarios.NameArgument` | test/MonarchOfEtherScroll.js:51 | for a text of at most 32 bytes, the helper's string is the hex of the zero-padded text, and passing it as an argument yields that 32-byte value |
| `KingdomScenarios.InitialMonarchIsOwner` | test/MonarchOfEtherScroll.js:32-37 | after deployment the monarch is the owner, and the owner's name reads back as `bytes32("[Vacant]")` |
| `KingdomScenarios.PauseAndUnpause` | test/MonarchOfEtherScroll.js:39-45 | `paused` reads true after pausing and false after unpausing |
| `KingdomScenarios.UserBecomesMonarch` | test/MonarchOfEtherScroll.js:47-60 | after user1 pays the price, user1 is monarch, its name reads back as `bytes32("Monarch1")`, and the price is the old price times 150 over 100 |
| `KingdomScenarios.MonarchRenounces` | test/MonarchOfEtherScroll.js:62-77 | after user1 claims and renounces, the owner is monarch under `bytes32("[Vacant]")` and the price is 10^14 wei |
| `KingdomScenarios.FirstClaimPrice` | test/MonarchOfEtherScroll.js:79-82 | a fresh ledger's price is 10^14 wei |
| `KingdomScenarios.PriceCompounds` | test/MonarchOfEtherScroll.js:84-104 | two successive claims at the current price take it from 10^14 to 1.5 * 10^14 and then to 2.25 * 10^14 wei |
| `KingdomScenarios.FeesAccumulateAndSweep` | test/MonarchOfEtherScroll.js:106-120 | after one claim at the price, the fees are `price * 1 / 100` (10^12 wei); after the owner's sweep they are 0 |
| `KingdomScenarios.EachClaimReplacesMonarch` | test/MonarchOfEtherScroll.js:122-144 | after user1's claim user1 is monarch named `Monarch1`; after user2's claim user2 is monarch named `Monarch2` |

## Left out

- The Solidity contract `KingdomOfEther` is not part of this model. Its behaviour comes from the test file's assertions. Where the tests leave a case open, the lines below name the assumption the model makes.
- KingdomLedger.KingdomOfEther.BecomeMonarch: every test pays exactly `claimPrice`. For a larger payment the model assumes two things the tests do not decide. The fee is 1% of the payment (`payment / 100`), not of the price. The next price comes from the old price, not from the payment.
- KingdomLedger.KingdomOfEther.BecomeMonarch: the failure paths are not modelled. These are a payment below the price, a claim while paused, and a name that is not 32 bytes. The tests never exercise them, so they are preconditions and not error results.
- KingdomLedger.KingdomOfEther.RenounceMonarchy: a caller who is not the monarch is a precondition, because the tests never exercise that case. Renouncing is not gated on the pause flag; the tests neither allow nor forbid it while paused.
- KingdomLedger.KingdomOfEther.PauseContract, KingdomLedger.KingdomOfEther.UnpauseContract and KingdomLedger.KingdomOfEther.SweepFees: a caller other than the owner is a precondition, never an error result, because the tests only call these as the owner.
- Ether transfers are not modelled. These are the payout to the displaced monarch and the sweep payout to the owner. The tests never look at balances.
- KingdomLedger.NextClaimPrice and KingdomLedger.Fee: 256-bit overflow is not modelled. Prices and fees are unbounded naturals. The price would only exceed 2^256 after several hundred claims without a renunciation.
- `ethers.toUtf8Bytes` for non-ASCII text: the encoder takes the UTF-8 bytes as its input. `Utf8OfAscii` only covers ASCII text, which is all the tests use.
- `DecodeBytes32` accepts upper- and lower-case hex digits as the client library does, but `Hexlify` only produces lowercase. Nothing else of the client library, such as ABI encoding of other types, is modelled.
- `ethers.parseEther("0.0001")` is the constant 10^14 (`FLOOR_PRICE`).
- The test harness is not modelled: deployment through `getContractFactory`, `getSigners`, `async`/`await` and the `expect` assertions. Signers are plain addresses, and each scenario method deploys its own ledger as `beforeEach` does.
