/**
 * The fifteen account metas of the swap instruction.  The program reads its
 * accounts by position, so buy and sell must agree everywhere but in the two
 * token-account slots, which they fill in opposite order.
 */
module Accounts {
  import opened Constants
  import opened Pool

  /** `AccountMeta(pubkey, is_signer, is_writable)`. */
  datatype AccountMeta = AccountMeta(pubkey: Pubkey, isSigner: bool, isWritable: bool)

  const SwapAccountCount: nat := 15

  /** The slots the swap writes to: pool, both token accounts, both vaults and the payer. */
  predicate WritableSlot(i: int) {
    2 <= i <= 6 || i == 9
  }

  /** The account list of a buy: quote tokens in (slot 3), base tokens out (slot 4). */
  function BuyAccounts(state: PoolState, config: PoolConfig, quoteTokenAccount: Pubkey,
                       baseTokenAccount: Pubkey, payer: Pubkey): (r: seq<AccountMeta>)
    ensures |r| == SwapAccountCount
    ensures forall i :: 0 <= i < |r| ==> (r[i].isSigner <==> i == 9)
    ensures forall i :: 0 <= i < |r| ==> (r[i].isWritable <==> WritableSlot(i))
    ensures r[3].pubkey == quoteTokenAccount && r[4].pubkey == baseTokenAccount
    ensures r[9].pubkey == payer
  {
    [ AccountMeta(PoolAuthority, false, false),
      AccountMeta(state.config, false, false),
      AccountMeta(state.pool, false, true),
      AccountMeta(quoteTokenAccount, false, true),
      AccountMeta(baseTokenAccount, false, true),
      AccountMeta(state.baseVault, false, true),
      AccountMeta(state.quoteVault, false, true),
      AccountMeta(state.baseMint, false, false),
      AccountMeta(config.quoteMint, false, false),
      AccountMeta(payer, true, true),
      AccountMeta(TokenProgramId, false, false),
      AccountMeta(TokenProgramId, false, false),
      AccountMeta(ReferralTokenAcc, false, false),
      AccountMeta(EventAuth, false, false),
      AccountMeta(MeteoraDbcProgram, false, false) ]
  }

  /** The account list of a sell: base tokens in (slot 3), quote tokens out (slot 4). */
  function SellAccounts(state: PoolState, config: PoolConfig, baseTokenAccount: Pubkey,
                        quoteTokenAccount: Pubkey, payer: Pubkey): (r: seq<AccountMeta>)
    ensures |r| == SwapAccountCount
    ensures forall i :: 0 <= i < |r| ==> (r[i].isSigner <==> i == 9)
    ensures forall i :: 0 <= i < |r| ==> (r[i].isWritable <==> WritableSlot(i))
    ensures r[3].pubkey == baseTokenAccount && r[4].pubkey == quoteTokenAccount
    ensures r[9].pubkey == payer
  {
    [ AccountMeta(PoolAuthority, false, false),
      AccountMeta(state.config, false, false),
      AccountMeta(state.pool, false, true),
      AccountMeta(baseTokenAccount, false, true),
      AccountMeta(quoteTokenAccount, false, true),
      AccountMeta(state.baseVault, false, true),
      AccountMeta(state.quoteVault, false, true),
      AccountMeta(state.baseMint, false, false),
      AccountMeta(config.quoteMint, false, false),
      AccountMeta(payer, true, true),
      AccountMeta(TokenProgramId, false, false),
      AccountMeta(TokenProgramId, false, false),
      AccountMeta(ReferralTokenAcc, false, false),
      AccountMeta(EventAuth, false, false),
      AccountMeta(MeteoraDbcProgram, false, false) ]
  }

  /**
   * Buy and sell over the same pool and the same two token accounts agree at
   * every index except 3 and 4, where their entries are exchanged.
   */
  lemma BuySellMirror(state: PoolState, config: PoolConfig, quoteTokenAccount: Pubkey,
                      baseTokenAccount: Pubkey, payer: Pubkey)
    ensures var buy := BuyAccounts(state, config, quoteTokenAccount, baseTokenAccount, payer);
            var sell := SellAccounts(state, config, baseTokenAccount, quoteTokenAccount, payer);
            && (forall i :: 0 <= i < SwapAccountCount && i != 3 && i != 4 ==> buy[i] == sell[i])
            && buy[3] == sell[4] && buy[4] == sell[3]
            && (quoteTokenAccount != baseTokenAccount ==> buy != sell)
  {
  }

  /**
   * The list repeats addresses: the two token-program slots are identical,
   * and the referral slot names the program id.  Nothing about the layout
   * depends on the entries being distinct.
   */
  lemma SwapAccountsRepeatAddresses(state: PoolState, config: PoolConfig, quoteTokenAccount: Pubkey,
                                    baseTokenAccount: Pubkey, payer: Pubkey)
    ensures var buy := BuyAccounts(state, config, quoteTokenAccount, baseTokenAccount, payer);
            var sell := SellAccounts(state, config, baseTokenAccount, quoteTokenAccount, payer);
            && buy[10] == buy[11] && buy[12].pubkey == buy[14].pubkey
            && sell[10] == sell[11] && sell[12].pubkey == sell[14].pubkey
  {
    ReferralIsProgram();
  }

  /** The role each slot plays in the program's account schema. */
  datatype Role =
    | RPoolAuthority | RConfig | RPool | RInputTokenAccount | ROutputTokenAccount
    | RBaseVault | RQuoteVault | RBaseMint | RQuoteMint | RPayer
    | RInputTokenProgram | ROutputTokenProgram | RReferralTokenAccount | REventAuthority | RProgram

  /** The program's account order, by role. */
  const SwapSchema: seq<Role> :=
    [ RPoolAuthority, RConfig, RPool, RInputTokenAccount, ROutputTokenAccount,
      RBaseVault, RQuoteVault, RBaseMint, RQuoteMint, RPayer,
      RInputTokenProgram, ROutputTokenProgram, RReferralTokenAccount, REventAuthority, RProgram ]

  /** The concrete participants of one swap; only the two token accounts depend on direction. */
  datatype SwapParties = SwapParties(
    state: PoolState, config: PoolConfig,
    inputTokenAccount: Pubkey, outputTokenAccount: Pubkey, payer: Pubkey)

  function RoleAddress(role: Role, p: SwapParties): Pubkey {
    match role
    case RPoolAuthority => PoolAuthority
    case RConfig => p.state.config
    case RPool => p.state.pool
    case RInputTokenAccount => p.inputTokenAccount
    case ROutputTokenAccount => p.outputTokenAccount
    case RBaseVault => p.state.baseVault
    case RQuoteVault => p.state.quoteVault
    case RBaseMint => p.state.baseMint
    case RQuoteMint => p.config.quoteMint
    case RPayer => p.payer
    case RInputTokenProgram => TokenProgramId
    case ROutputTokenProgram => TokenProgramId
    case RReferralTokenAccount => ReferralTokenAcc
    case REventAuthority => EventAuth
    case RProgram => MeteoraDbcProgram
  }

  predicate RoleSigns(role: Role) {
    role == RPayer
  }

  predicate RoleWrites(role: Role) {
    role in {RPool, RInputTokenAccount, ROutputTokenAccount, RBaseVault, RQuoteVault, RPayer}
  }

  /** The account list the schema prescribes for the given participants. */
  function SchemaAccounts(p: SwapParties): seq<AccountMeta> {
    seq(|SwapSchema|, i requires 0 <= i < |SwapSchema| =>
      AccountMeta(RoleAddress(SwapSchema[i], p), RoleSigns(SwapSchema[i]), RoleWrites(SwapSchema[i])))
  }

  /** A buy is the schema with the quote account as input and the base account as output. */
  lemma BuyAccountsFollowSchema(state: PoolState, config: PoolConfig, quoteTokenAccount: Pubkey,
                                baseTokenAccount: Pubkey, payer: Pubkey)
    ensures BuyAccounts(state, config, quoteTokenAccount, baseTokenAccount, payer)
         == SchemaAccounts(SwapParties(state, config, quoteTokenAccount, baseTokenAccount, payer))
  {
  }

  /** A sell is the schema with the base account as input and the quote account as output. */
  lemma SellAccountsFollowSchema(state: PoolState, config: PoolConfig, baseTokenAccount: Pubkey,
                                 quoteTokenAccount: Pubkey, payer: Pubkey)
    ensures SellAccounts(state, config, baseTokenAccount, quoteTokenAccount, payer)
         == SchemaAccounts(SwapParties(state, config, baseTokenAccount, quoteTokenAccount, payer))
  {
  }
}
