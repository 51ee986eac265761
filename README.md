# Swap instruction assembly for the Meteora dynamic bonding curve

This project models how `buy` and `sell` in `meteora_dbc_py/meteora_dbc.py` put a swap
transaction together for the dynamic-bonding-curve program. It leaves out the network
calls, signing and printing, and covers:

- the curve filter, which turns the pool configuration's curve slots into
  `(sqrt_price, liquidity)` pairs and drops the zero-price padding slots;
- the 24-byte swap payload: the discriminator `f8 c6 9e 91 e1 75 87 c8`, then `amount_in`
  and `minimum_amount_out` as little-endian u64 values. It also has a decoder, so the
  round trip can be proved;
- the 15-entry account list of the swap instruction, in its *buy* and *sell* orders;
- the instruction sequences of `buy` and `sell`: compute budget, the temporary quote
  account's create and initialise steps, the optional creation of an associated base
  account, the swap, and the closes. It also covers the guards that make the source return
  `False`.

Modules, one file each: `Wrappers` (Option/Result), `Constants` (the addresses of
`constants.py`), `Pool` (the decoded record fields the assembly reads), `Curve`,
`LittleEndian`, `SwapPayload`, `Accounts` and `Trade`.

Addresses are `Pubkey(base58)` values. Nothing relies on two addresses being different. In
particular, the referral token account is the same address as the program id, and the token
program fills two slots. Results the source gets from outside arrive as parameters:

- the pool records;
- the wallet's token accounts for the base mint;
- the associated token address;
- the seeded temporary account's address, seed and rent;
- the base balance;
- the integer swap amount.

Where the source catches an exception and returns `False`, the model returns
`Err(...)` with the reason. The source collapses every reason to `False`. An `Ok` carries the
instruction list that the source would compile and send.

The program has no payload decoder; `DecodeSwapData` is this model's own inverse of the
encoder, so the round trip can be stated.

## Model

| member | source | states |
|---|---|---|
| `Constants.ReferralIsProgram` | meteora_dbc_py/constants.py:3-8 | the referral token account and the program id are the same address, and it differs from the token program |
| `Curve.CurvePairs` | meteora_dbc_py/meteora_dbc.py:56-60 | the filtered curve is no longer than the input, and no retained pair has sqrt_price 0 |
| `Curve.NonzeroIndices` | meteora_dbc_py/meteora_dbc.py:215-219 | reference selection: strictly increasing positions, each holding a nonzero-price point, covering every such point |
| `Curve.CurvePairsAppend` | meteora_dbc_py/meteora_dbc.py:56-60 | filtering a concatenation is the concatenation of the filtered parts, so relative order is kept |
| `Curve.CurvePairsSelectsNonzero` | meteora_dbc_py/meteora_dbc.py:215-219 | the filtered curve is exactly `(sqrt_price, liquidity)` of the nonzero-price points, one per point, in original order |
| `LittleEndian.LeBytes` | meteora_dbc_py/meteora_dbc.py:147 | the little-endian encoding has exactly the requested width |
| `LittleEndian.LeValueBound` | meteora_dbc_py/meteora_dbc.py:147 | a k-byte little-endian string denotes a value below 256^k |
| `LittleEndian.LeRoundTrip` | meteora_dbc_py/meteora_dbc.py:147 | decoding the bytes of any value that fits the width gives the value back |
| `LittleEndian.LeBytesOfValue` | meteora_dbc_py/meteora_dbc.py:147-148 | re-encoding the value of any byte string gives the same bytes (the encoding is injective) |
| `LittleEndian.PackU64` | meteora_dbc_py/meteora_dbc.py:147 | `struct.pack("<Q", n)` succeeds exactly for n in [0, 2^64), then gives 8 bytes whose little-endian value is n; otherwise it fails, naming n |
| `LittleEndian.UnpackU64` | meteora_dbc_py/meteora_dbc.py:298-300 | every 8-byte string is the packing of the u64 it decodes to |
| `SwapPayload.EncodeSwapData` | meteora_dbc_py/meteora_dbc.py:146-148 | succeeds iff both amounts are u64. The payload is 24 bytes: the discriminator, then amount_in, then minimum_amount_out, each little-endian. Otherwise the first out-of-range amount is reported |
| `SwapPayload.BuildSwapData` | meteora_dbc_py/meteora_dbc.py:298-300 | growing the bytearray by successive extends yields exactly EncodeSwapData, failing in the same cases |
| `SwapPayload.DecodeSwapData` | meteora_dbc_py/meteora_dbc.py:146-148 | decoding succeeds iff the payload is 24 bytes with the swap discriminator. A wrong length or a wrong discriminator each give their own error |
| `SwapPayload.DecodeEncode` | meteora_dbc_py/meteora_dbc.py:146-148 | every pair of u64 amounts decodes back from its payload |
| `SwapPayload.EncodeDecode` | meteora_dbc_py/meteora_dbc.py:298-300 | every payload that decodes is exactly the encoding of its decoded amounts |
| `Accounts.BuyAccounts` | meteora_dbc_py/meteora_dbc.py:129-145 | 15 entries: only index 9 (the payer) signs, indices 2-6 and 9 exactly are writable, quote account at 3, base account at 4 |
| `Accounts.SellAccounts` | meteora_dbc_py/meteora_dbc.py:281-297 | 15 entries: the same flags, with the base account at 3 and the quote account at 4 |
| `Accounts.BuySellMirror` | meteora_dbc_py/meteora_dbc.py:281-297 | buy and sell lists agree at every index except 3 and 4, which are exchanged. With distinct token accounts the two lists differ |
| `Accounts.SwapAccountsRepeatAddresses` | meteora_dbc_py/meteora_dbc.py:140-144 | in both lists slots 10 and 11 are the same entry and slots 12 and 14 name the same address, so the layout does not rely on distinct entries |
| `Trade.SellWithDefaults` | meteora_dbc_py/meteora_dbc.py:198-201 | `sell` called with its defaults (100%, default budget) fails only on a zero balance or a non-u64 amount, and otherwise closes the base account last |
| `Accounts.BuyAccountsFollowSchema` | meteora_dbc_py/meteora_dbc.py:129-145 | the buy list is the role schema (authority, config, pool, input, output, vaults, mints, payer, programs, referral, event authority, program) with quote as input |
| `Accounts.SellAccountsFollowSchema` | meteora_dbc_py/meteora_dbc.py:281-297 | the sell list is the same role schema with base as input |
| `Trade.Buy` | meteora_dbc_py/meteora_dbc.py:35-169 | slippage, compute limit and price default to 5, 100 000 and 1 000 000. It fails only when amount_in is not u64. Otherwise the sequence is: limit, price, create (rent + amount_in lamports), init, an associated-account creation exactly when the wallet has no base account, the swap (payload for amount_in and minimum 0, buy account list), close quote account |
| `Trade.Sell` | meteora_dbc_py/meteora_dbc.py:194-332 | the percentage defaults to 100 and the budget as for buy. A percentage outside [1, 100] fails first, then a zero balance, then a non-u64 amount. Otherwise: limit, price, create (rent only), init, swap (sell account list, minimum 0), close quote account, and a final close of the base account iff the percentage is 100 |

## Left out

- Network I/O is not modelled: fetching the pool state and configuration, listing token
  accounts by owner, the token balance, the rent query, the blockhash, sending and
  confirming. Their results are parameters, and the final confirmation flag is not modelled.
- Signing and address derivation are not modelled: keypairs, message compilation, versioned
  transactions, `create_with_seed` and the associated-address derivation. These are
  hash-based library code, so their outputs are given addresses.
- The random seed (from `os.urandom` and base64) is a parameter, because it is
  nondeterministic.
- The floating-point scaling `int(quote_in * 10 ** decimals)` and
  `int(base_balance * (percentage / 100))` is not modelled. The resulting integer amount is a
  parameter of `Trade.Buy` and `Trade.Sell`.
- The swap estimate and its curve and fee arithmetic are not modelled. The module
  `swap_estimate` is not part of this model, and its result is only printed. For the same
  reason the filtered curve is modelled on its own and is not computed inside `Trade.Buy`
  or `Trade.Sell`.
- The account decoders (`pool_config`, `pool_state`, `pool_utils`) are not part of this
  model. The records hold the fields the assembly reads, plus three that only the estimate
  or the amount scaling reads: the curve, the token decimals and the pool's `sqrtPrice`.
- Trade.Buy: the lamports value `rent + amount_in` is left unbounded. The key library's own
  rejection of a value that is not u64 is not shown, so it is not modelled. The same holds for
  the compute-unit arguments in `Trade.Buy` and `Trade.Sell`.
- Trade.Sell: the balance is taken as an integer whose zero value triggers the early exit.
  The balance helper is not part of this model, so other falsy results it might return are
  not modelled.
- Other exceptions are not modelled, apart from the out-of-range pack error. These are the
  exceptions that the catch-all handler would turn into `False`.
- Printing is not modelled.
- Trade.Buy: the default `quote_in = 0.1` is not modelled, because the method takes the
  already-scaled integer amount. The defaults of `slippage`, `unit_budget` and `unit_price`
  are modelled.
