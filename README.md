# User-account state and fee tiers of an on-chain order-book exchange

This Dafny project models the account-state layer of the exchange program,
`program/src/state.rs`. The layer has three parts.

- **The user-account order slab.** A user account is a fixed-size byte buffer. It
  starts with a 109-byte serialised `UserAccountHeader`. A dense array of 16-byte
  little-endian `u128` order ids follows it. The header's `number_of_orders` says
  how many slots are in use. `UserAccounts.UserAccount` is a class holding the
  in-memory header and the buffer (an `array<u8>`). Its methods do what the
  source's methods do: read, swap-remove, append, first-match search, write the
  header back, and parse. Each slab operation (read, remove, add, find) is proved
  against the ghost function `Orders()`, which decodes the occupied prefix into a
  `seq<u128>`; `Parse` and `Write` are proved against the header codec.
- **The fee-tier resolver.** The tier ladder on raw SRM/MSRM balances, the
  owner/mint checks on a discount-token account, the fixed taker-rate table in
  32.32 fixed point, the maker rebate, the taker fee and fee removal (`FeeTiers`).
- **Record layout and tag checks.** The account tag, `DexState::check`, and a
  hand-written encoder and decoder for the header's byte layout. Fields go in
  declaration order, integers are little-endian, and the tag is one byte holding
  its variant index. `is_initialized` and the unpacking checks are modelled too
  (`State`).

Modules: `Bytes` (integer widths, little-endian codec), `Errors` (result type,
error kinds), `FixedPoint` (the fixed-point helpers), `FeeTiers`, `State`,
`UserAccounts`.

Assumptions, not drawn from `state.rs`:

- `fp32_mul`, `fp32_div` and `FP_32_ONE` are imported from the module `crate::utils`,
  which is not part of this model. They are DEFINED here as
  `Fp32Mul(a, r) = floor(a * r / 2^32)`, `Fp32Div(a, r) = floor(a * 2^32 / r)`
  with `r > 0`, and `FpOne = 2^32`.
- `SRM_MINT` and `MSRM_MINT` are imported from the module `crate::processor`, which
  is not part of this model. They are two distinct placeholder keys. No lemma depends
  on their values, only on their being different.
- `UserAccountHeader` is unpacked through the host's `Pack::unpack`. `State.Unpack`
  models that as: wrong length gives `InvalidAccountData`; a tag byte naming no
  variant gives `InvalidAccountData`; a header that is not initialised gives
  `UninitializedAccount`.
- The class invariant `Valid()` bounds the buffer by the host's 10 MiB account size
  limit. This keeps the 32-bit slot arithmetic of `add_order` (`number_of_orders * 16`
  and `number_of_orders + 1`) from wrapping. `AddOrder` asserts that the product
  stays below 2^32.

Three consequences that are easy to misread (the third follows from the assumed
fixed-point definitions above):

- With the truncated table rate `(20 << 32) / 10_000 = 8589934`, the taker fee at
  tier Srm2 on 1,000,000 is 1999, not 2000 (`FeeTiers.Srm2Example`).
- Both the owner check and the mint check in `get` fail with `InvalidArgument`.
  There are no separate owner-mismatch and unrecognised-mint errors.
- `FixedPoint.MulThenDiv` proves that multiplying and then dividing by the same
  rate returns to within one unit for rates of at least 1.0. Below 1.0 the bound
  can fail: a rate of about 0.9 · 2^32 loses 2 on an amount of 10, and a rate of 1
  loses every amount below 2^32 (`FixedPoint.MulThenDivBelowOneExamples`,
  `FixedPoint.RateOneLosesAll`). For
  every positive rate r the loss stays below `2^32 / r + 1` (`FixedPoint.MulThenDivLoss`).

## Model

| member | source | states |
|---|---|---|
| `Bytes.LeDecodeEncode` | program/src/state.rs:161-164 | decoding the little-endian encoding of any value that fits the width gives the value back |
| `Bytes.LeEncodeDecode` | program/src/state.rs:161-164 | encoding a decoded byte string at its own width gives the same bytes, so every byte string is the encoding of exactly one value |
| `Bytes.LeEncodeInjective` | program/src/state.rs:174 | two values with the same little-endian encoding are equal |
| `Bytes.U128FromLe` | program/src/state.rs:162-164 | `u128::from_le_bytes` of 16 bytes is a `u128` whose `to_le_bytes` is those same bytes |
| `Bytes.U128ToLe` | program/src/state.rs:174-185 | `u128::to_le_bytes` gives 16 bytes whose little-endian value is the number |
| `Bytes.U128RoundTrip` | program/src/state.rs:174 | `from_le_bytes(to_le_bytes(x)) == x` for every `u128` |
| `FixedPoint.Fp32Mul` | program/src/state.rs:15 | (assumed helper) the product is rounded down: `p * 2^32 <= a * r < (p + 1) * 2^32` |
| `FixedPoint.Fp32Div` | program/src/state.rs:15 | (assumed helper) the quotient is rounded down: `q * r <= a * 2^32 < (q + 1) * r`, for `r > 0` |
| `FixedPoint.MulByOne` | program/src/state.rs:15 | multiplying by `FP_32_ONE` is the identity |
| `FixedPoint.MulBelowOne` | program/src/state.rs:15 | a rate of at most 1.0 never makes an amount larger |
| `FixedPoint.MulMonotoneInRate` | program/src/state.rs:15 | a larger rate never gives a smaller product |
| `FixedPoint.DivAtLeastOne` | program/src/state.rs:15 | dividing by a rate of at least 1.0 never makes an amount larger |
| `FixedPoint.MulThenDiv` | program/src/state.rs:15 | for a rate of at least 1.0, multiplying then dividing returns `a` or `a - 1` |
| `FixedPoint.MulThenDivLoss` | program/src/state.rs:15 | for every positive rate, multiplying then dividing loses less than `2^32 / r + 1` units |
| `FixedPoint.MulThenDivBelowOneExamples` | program/src/state.rs:15 | below 1.0 the one-unit bound fails: rate 3865470566 takes 10 to 8, and rate 1 takes 2^32 - 1 to 0 |
| `FixedPoint.RateOneLosesAll` | program/src/state.rs:15 | at the smallest rate, every amount below 2^32 multiplies to 0 and divides back to 0 |
| `FeeTiers.Rank` | program/src/state.rs:213-221 | the tiers are ranked 0 to 6 in declaration order, Base lowest and MSrm highest |
| `FeeTiers.FromSrmAndMsrmBalances` | program/src/state.rs:224-235 | the result is MSrm if and only if at least one MSRM base unit is held |
| `FeeTiers.LadderThreshold` | program/src/state.rs:224-235 | without MSRM, the tier reaches a given SRM tier iff the SRM balance is at least that tier's threshold (10^8, 10^9, 10^10, 10^11, 10^12); a balance equal to a threshold gets the higher tier |
| `FeeTiers.LadderPicksHighestMet` | program/src/state.rs:224-235 | without MSRM, the tier is the highest SRM tier whose threshold the balance meets |
| `FeeTiers.TierMonotone` | program/src/state.rs:224-235 | holding more SRM or more MSRM never lowers the tier rank |
| `FeeTiers.MsrmDominates` | program/src/state.rs:227 | any MSRM holding ranks above every SRM-only balance |
| `FeeTiers.Get` | program/src/state.rs:237-252 | a parse failure propagates unchanged; a wrong owner or a mint that is neither MSRM nor SRM gives `InvalidArgument`; otherwise MSRM resolves via `(0, amount)` and SRM via `(amount, 0)` |
| `FeeTiers.SrmAccountNeverMsrm` | program/src/state.rs:243-251 | an SRM account never yields the MSrm tier, whatever its balance |
| `FeeTiers.MsrmAccountTier` | program/src/state.rs:243-251 | an MSRM account yields MSrm with a positive balance and Base with an empty one |
| `FeeTiers.TakerRate` | program/src/state.rs:254-264 | every taker rate is below 1.0 in 32.32 fixed point |
| `FeeTiers.TakerRateIsBasisPoints` | program/src/state.rs:254-264 | the table entry of a tier is `(bp << 32) / 10_000` with bp = 22 - 2 * rank (22, 20, 18, 16, 14, 12, 10) |
| `FeeTiers.TakerRateStrictlyDecreasing` | program/src/state.rs:254-264 | a higher tier has a strictly lower taker rate |
| `FeeTiers.MakerRebateRate` | program/src/state.rs:267-270 | `(5 << 32) / 10_000` for MSrm and `(3 << 32) / 10_000` for every other tier; every rebate rate is positive and strictly below the taker rate of every tier |
| `FeeTiers.MakerRebate` | program/src/state.rs:266-272 | the rebate is the quantity times the rebate rate, rounded down in 32.32 fixed point; it never exceeds the quantity, so it fits in u64 |
| `FeeTiers.TakerFee` | program/src/state.rs:279-282 | the taker fee is the quantity times the taker rate, rounded down in 32.32 fixed point; it never exceeds the quantity |
| `FeeTiers.RemoveTakerFee` | program/src/state.rs:274-277 | the divisor `FP_32_ONE + rate` is nonzero; the result is the largest `n` with `n * (2^32 + rate) <= gross * 2^32`, and is at most the gross quantity |
| `FeeTiers.RemoveThenChargeWithinGross` | program/src/state.rs:274-282 | the net quantity plus the taker fee charged on it never exceeds the gross quantity |
| `FeeTiers.TakerFeeMonotone` | program/src/state.rs:254-282 | a higher tier never pays a larger taker fee on the same quantity |
| `FeeTiers.RebateCoveredByFee` | program/src/state.rs:254-272 | the rebate of any maker tier never exceeds the taker fee of any tier on the same quantity |
| `FeeTiers.Srm2Example` | program/src/state.rs:224-282 | 150 whole SRM give Srm2; the Srm2 rate is 8589934; the taker fee on 1,000,000 is 1999 |
| `State.TagToByte` | program/src/state.rs:18-24 | a tag is written as its variant index, which is below 3 |
| `State.TagFromByte` | program/src/state.rs:18-24 | a byte decodes to a tag iff it is below 3, and the decoded tag is written back as the same byte |
| `State.TagRoundTrip` | program/src/state.rs:18-24 | every tag decodes from its own byte |
| `State.Check` | program/src/state.rs:81-86 | the state is accepted unchanged iff its tag is DexState; otherwise `InvalidAccountData` |
| `State.EncodeHeader` | program/src/state.rs:116-121 | the packed header is exactly `LEN = 109` bytes |
| `State.U64At` | program/src/state.rs:123-125 | a u64 field is read as the little-endian value of its 8 bytes |
| `State.DecodeHeader` | program/src/state.rs:123-125 | decoding succeeds iff the input is 109 bytes and the tag byte names a variant; every failure is `InvalidAccountData` |
| `State.DecodeEncodeHeader` | program/src/state.rs:116-125 | unpacking the 109-byte packing of any header gives back the same header |
| `State.EncodeDecodeHeader` | program/src/state.rs:116-125 | bytes that decode are exactly the packing of what they decode to |
| `State.IsInitialized` | program/src/state.rs:128-132 | a header is initialised exactly when its tag byte is 2, the `UserAccount` variant |
| `State.Unpack` | program/src/state.rs:123-132 | a header handed out by unpack is initialised (`tag == UserAccount`) and packs back to the input bytes |
| `State.UnpackOutcome` | program/src/state.rs:123-132 | unpack succeeds iff the input is 109 bytes with tag byte 2; tag bytes 0 and 1 give `UninitializedAccount`; a wrong length or a tag byte of 3 or more gives `InvalidAccountData` |
| `State.UnpackPacked` | program/src/state.rs:116-132 | a packed header unpacks to itself iff `is_initialized` holds, and to `UninitializedAccount` otherwise |
| `UserAccounts.SlabOrders` | program/src/state.rs:193-196 | the decoded prefix has `n` entries, and the 16-byte little-endian encoding of entry i is exactly the buffer's bytes `[109 + 16i, 109 + 16i + 16)` |
| `UserAccounts.WriteSlot` | program/src/state.rs:173-174 | writing a slot keeps the buffer's length and leaves the 109 header bytes as they were |
| `UserAccounts.WriteSlotFrame` | program/src/state.rs:173-174 | writing a slot changes only its own 16 bytes, so a vacated slot is not cleared |
| `UserAccounts.SlotFitsBelowCapacity` | program/src/state.rs:181-186 | slot i fits in the buffer iff i is below `(len - 109) / 16` |
| `UserAccounts.ReadAfterWrite` | program/src/state.rs:172-174 | after writing id v into slot i, slot i reads v and every other slot reads what it read before |
| `UserAccounts.SlabAfterOverwrite` | program/src/state.rs:171-175 | overwriting an occupied slot replaces exactly that element of the order list |
| `UserAccounts.SlabAfterAppend` | program/src/state.rs:180-188 | writing the first free slot and counting it appends the id to the order list |
| `UserAccounts.SlabShrink` | program/src/state.rs:176 | counting one slot fewer drops the last order id |
| `UserAccounts.SlabIgnoresHeader` | program/src/state.rs:153-155 | rewriting the 109 header bytes leaves the order list unchanged |
| `UserAccounts.SwapRemoveSpec` | program/src/state.rs:167-178 | swap-removal shortens the list by one, moves the last id into position i unless i was last, keeps every other position, and removes exactly one occurrence of the removed id (multiset) |
| `UserAccounts.SlabAfterSwapRemove` | program/src/state.rs:171-176 | copying the last slot's id into slot i (skipped when i is last) and counting one slot fewer swap-removes element i of the decoded order list |
| `UserAccounts.UserAccount.Orders` | program/src/state.rs:134-137 | the abstract order list has exactly `number_of_orders` ids |
| `UserAccounts.UserAccount.constructor` | program/src/state.rs:140-145 | binds the given header to the given buffer |
| `UserAccounts.UserAccount.Parse` | program/src/state.rs:146-151 | fails exactly when unpacking the first 109 bytes fails, with the same error; otherwise binds the unpacked header to the same buffer |
| `UserAccounts.UserAccount.Write` | program/src/state.rs:153-155 | the buffer becomes the header's packing followed by the untouched slab bytes; re-parsing those bytes gives the in-memory header; the order list is unchanged |
| `UserAccounts.UserAccount.ReadOrder` | program/src/state.rs:157-165 | `InvalidOrderIndex` iff the index is at least `number_of_orders`; otherwise the id in that slot (the u128 whose little-endian bytes are at `109 + 16 * index`); changes nothing |
| `UserAccounts.UserAccount.StoreSlot` | program/src/state.rs:173-174 | copies the id's 16 little-endian bytes into the slot and changes no other byte |
| `UserAccounts.UserAccount.RemoveOrder` | program/src/state.rs:167-178 | `InvalidOrderIndex` iff the index is at least `number_of_orders`, with header and buffer untouched; otherwise the count drops by one, the order list is the swap-removal of the old one, only the removed slot's bytes change (to the old last id), and the header bytes in the buffer stay stale until Write |
| `UserAccounts.UserAccount.AddOrder` | program/src/state.rs:180-189 | `UserAccountFull` iff `109 + 16 * (number_of_orders + 1)` exceeds the buffer length, with nothing changed; otherwise the id is written in slot `number_of_orders`, the order list gains it at the end, the count rises by one, and no other byte changes |
| `UserAccounts.UserAccount.FindOrderIndex` | program/src/state.rs:191-201 | the smallest index whose slot holds the id, or `OrderNotFound` iff no slot of the prefix holds it; changes nothing |
| `UserAccounts.AddThenFind` | program/src/state.rs:180-201 | after adding an id not yet present, searching for it finds slot `number_of_orders - 1` |

`UserAccounts.ThreeSlotScenario` works through a buffer with room for three orders
(`program/src/state.rs:167-189`). Three adds succeed, a fourth gives `UserAccountFull`,
and removing slot 0 leaves `[C, B]`.

## Left out

- The host's shared account handle (`AccountInfo`, `Rc<RefCell<&mut [u8]>>`, borrows): the buffer is one array owned by the handle, and aliasing between several handles on one buffer is not modelled.
- The Borsh serialisation library: replaced by the hand-written header codec. The layout is the one Borsh gives these field types.
- `spl_token` account parsing in `get`: `FeeTiers.Get` takes the parse outcome, a token-account record `{owner, mint, amount}` or an error, which it propagates.
- `FixedPoint.Fp32Mul`: the helper's 128-bit intermediate and its conversion back to u64 are not modelled (`crate::utils` is outside this model). The result is an unbounded integer. The fee functions prove that their own results fit in u64.
- `FixedPoint.Fp32Div`: same as `Fp32Mul`. A zero divisor is excluded by its precondition.
- `msg!` logging in `get`: no effect on results.
- `Side`, `SelfTradeBehavior`, `CallBackInfo` and the `Order` trait: data declarations with no behaviour here.
- `DexState`: only the tag check is modelled. The record is a datatype with its fields, but its byte layout is not, because no operation in this file depends on it.
- `UserAccounts.UserAccount.Parse`: requires a buffer of at least 109 bytes. The source slices `[..109]` and aborts on a shorter buffer.
- `UserAccounts.UserAccount.Write`: requires a buffer of at least 109 bytes. The source's `unwrap` aborts on a shorter one.
- `UserAccounts.UserAccount.ReadOrder`, `RemoveOrder`, `AddOrder`, `FindOrderIndex`: require `Valid()`, meaning the dense prefix fits in the buffer and the buffer is at most 10 MiB. A header claiming more orders than fit in the buffer is not modelled. On such a header the source behaves method by method: `read_order` aborts on the out-of-bounds slice for an index below the count whose slot lies past the end; `remove_order` of the last index reads nothing and only decrements, while any other index reads the last slot and aborts; `add_order` finds no slot through `get_mut` and returns `UserAccountFull` without aborting; `find_order_index` aborts only when the search reaches a slot past the end before a match. For 2^28 or more orders, the source's 32-bit product in `add_order` could wrap, which the 10 MiB bound rules out.
- `usize` overflow of `order_index * 16` is not modelled; indices are below `number_of_orders`.
- The matching engine, token transfers and instruction dispatch are not part of this file.
