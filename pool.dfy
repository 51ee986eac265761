/**
 * The fields of the decoded pool records that the swap assembly reads.
 * Decoding them from account bytes is not part of this model.
 */
module Pool {
  import opened Constants

  /** One slot of the configuration's fixed-capacity curve array (two u128 values). */
  datatype CurvePoint = CurvePoint(sqrtPrice: nat, liquidity: nat)

  /** Immutable pool configuration. */
  datatype PoolConfig = PoolConfig(quoteMint: Pubkey, tokenDecimal: nat, curve: seq<CurvePoint>)

  /** Live pool state. */
  datatype PoolState = PoolState(
    config: Pubkey,
    pool: Pubkey,
    baseMint: Pubkey,
    baseVault: Pubkey,
    quoteVault: Pubkey,
    sqrtPrice: nat)
}
