/**
 * The instruction sequences that `buy` and `sell` hand to the transaction
 * compiler.  Everything the source fetches over the network, derives with
 * hashing or draws at random arrives here as a parameter.
 */
module Trade {
  import opened Wrappers
  import opened Constants
  import opened Pool
  import opened LittleEndian
  import opened SwapPayload
  import opened Accounts

  /** The instructions a buy or sell transaction is made of. */
  datatype Instruction =
    | SetComputeUnitLimit(units: int)
    | SetComputeUnitPrice(microLamports: int)
    | CreateAccountWithSeed(fromPubkey: Pubkey, toPubkey: Pubkey, base: Pubkey, seed: string,
                            lamports: int, space: nat, owner: Pubkey)
    | InitializeAccount(programId: Pubkey, account: Pubkey, mint: Pubkey, owner: Pubkey)
    | CreateAssociatedTokenAccount(payer: Pubkey, walletOwner: Pubkey, mint: Pubkey)
    | CloseAccount(programId: Pubkey, account: Pubkey, dest: Pubkey, owner: Pubkey)
    | Invoke(programId: Pubkey, data: seq<Byte>, accounts: seq<AccountMeta>)

  /** Why a trade returns `False` without sending anything. */
  datatype TradeError =
    | PercentageOutOfRange(percentage: int)
    | ZeroBaseBalance
    | SwapDataRejected(error: PackError)

  datatype ComputeBudget = ComputeBudget(unitBudget: int, unitPrice: int)

  /** The compute budget both trades use unless the caller gives one: 100 000 units at 1 000 000 micro-lamports. */
  const DefaultBudget: ComputeBudget := ComputeBudget(100_000, 1_000_000)

  /**
   * The temporary quote-token account: its address derived from the payer
   * and a random seed, the seed itself, and the rent-exempt minimum balance.
   */
  datatype TempAccount = TempAccount(address: Pubkey, seed: string, rent: int)

  /** The first four instructions of both directions: budget, then create and initialise the temporary account. */
  predicate OpensTempAccount(ixs: seq<Instruction>, budget: ComputeBudget, payer: Pubkey,
                             temp: TempAccount, quoteMint: Pubkey, lamports: int)
  {
    && |ixs| >= 4
    && ixs[0] == SetComputeUnitLimit(budget.unitBudget)
    && ixs[1] == SetComputeUnitPrice(budget.unitPrice)
    && ixs[2] == CreateAccountWithSeed(payer, temp.address, payer, temp.seed, lamports, AccountSpace, TokenProgramId)
    && ixs[3] == InitializeAccount(TokenProgramId, temp.address, quoteMint, payer)
  }

  /** A call of the swap program with the given accounts, `amount_in` and a zero minimum output. */
  predicate SwapCall(ix: Instruction, accounts: seq<AccountMeta>, amountIn: int) {
    && ix.Invoke?
    && ix.programId == MeteoraDbcProgram
    && ix.accounts == accounts
    && EncodeSwapData(amountIn, 0) == Ok(ix.data)
  }

  /** Closing an account of the payer, the lamports going back to the payer. */
  function CloseToPayer(account: Pubkey, payer: Pubkey): Instruction {
    CloseAccount(TokenProgramId, account, payer, payer)
  }

  /**
   * `buy`.  `ownedBaseAccounts` is what the wallet already holds for the base
   * mint (the first one is used); `associatedBaseAccount` is the wallet's
   * associated address for it, used, and created, when it holds none.
   * `slippage` is accepted and has no effect: the minimum output is always 0.
   * The trailing parameters carry the source's defaults.
   */
  method Buy(payer: Pubkey, state: PoolState, config: PoolConfig, quoteAmountIn: int,
             ownedBaseAccounts: seq<Pubkey>, associatedBaseAccount: Pubkey, temp: TempAccount,
             slippage: int := 5, budget: ComputeBudget := DefaultBudget)
    returns (r: Result<seq<Instruction>, TradeError>)
    ensures r.Ok? <==> InU64(quoteAmountIn)
    ensures r.Err? ==> r.error == SwapDataRejected(ArgumentOutOfRange(quoteAmountIn))
    ensures r.Ok? ==>
      var ixs := r.value;
      var owned := |ownedBaseAccounts| > 0;
      var baseTokenAccount := if owned then ownedBaseAccounts[0] else associatedBaseAccount;
      var s := if owned then 4 else 5;
      && |ixs| == s + 2
      && OpensTempAccount(ixs, budget, payer, temp, config.quoteMint, temp.rent + quoteAmountIn)
      && (!owned ==> ixs[4] == CreateAssociatedTokenAccount(payer, payer, state.baseMint))
      && SwapCall(ixs[s], BuyAccounts(state, config, temp.address, baseTokenAccount, payer), quoteAmountIn)
      && ixs[s + 1] == CloseToPayer(temp.address, payer)
  {
    var baseTokenAccount: Pubkey;
    var baseAccountIx: Option<Instruction>;
    if |ownedBaseAccounts| > 0 {
      baseTokenAccount := ownedBaseAccounts[0];
      baseAccountIx := None;
    } else {
      baseTokenAccount := associatedBaseAccount;
      baseAccountIx := Some(CreateAssociatedTokenAccount(payer, payer, state.baseMint));
    }
    var createQuote :=
      CreateAccountWithSeed(payer, temp.address, payer, temp.seed, temp.rent + quoteAmountIn, AccountSpace, TokenProgramId);
    var initQuote := InitializeAccount(TokenProgramId, temp.address, config.quoteMint, payer);
    var accounts := BuyAccounts(state, config, temp.address, baseTokenAccount, payer);
    var data := BuildSwapData(quoteAmountIn, 0);
    if data.Err? {
      return Err(SwapDataRejected(data.error));
    }
    var swap := Invoke(MeteoraDbcProgram, data.value, accounts);
    var closeQuote := CloseToPayer(temp.address, payer);

    var instructions := [SetComputeUnitLimit(budget.unitBudget), SetComputeUnitPrice(budget.unitPrice),
                         createQuote, initQuote];
    if baseAccountIx.Some? {
      instructions := instructions + [baseAccountIx.value];
    }
    ghost var s := |instructions|;
    instructions := instructions + [swap, closeQuote];
    assert instructions[s] == swap && instructions[s + 1] == closeQuote;
    assert SwapCall(swap, accounts, quoteAmountIn);
    return Ok(instructions);
  }

  /**
   * `sell`.  `baseBalance` is the wallet's base-token balance and
   * `baseAmountIn` the share of it being sold; `baseTokenAccount` is the
   * wallet's associated base-token address.  The percentage is checked before
   * anything else, the balance before any instruction is built.  The
   * trailing parameters carry the source's defaults: by default the whole
   * balance is sold and the base account is closed.
   */
  method Sell(payer: Pubkey, state: PoolState, config: PoolConfig, baseBalance: int,
              baseAmountIn: int, baseTokenAccount: Pubkey, temp: TempAccount,
              percentage: int := 100, slippage: int := 5, budget: ComputeBudget := DefaultBudget)
    returns (r: Result<seq<Instruction>, TradeError>)
    ensures !(1 <= percentage <= 100) ==> r == Err(PercentageOutOfRange(percentage))
    ensures 1 <= percentage <= 100 && baseBalance == 0 ==> r == Err(ZeroBaseBalance)
    ensures 1 <= percentage <= 100 && baseBalance != 0 && !InU64(baseAmountIn) ==>
      r == Err(SwapDataRejected(ArgumentOutOfRange(baseAmountIn)))
    ensures r.Ok? <==> 1 <= percentage <= 100 && baseBalance != 0 && InU64(baseAmountIn)
    ensures r.Ok? ==>
      var ixs := r.value;
      && |ixs| == (if percentage == 100 then 7 else 6)
      && OpensTempAccount(ixs, budget, payer, temp, config.quoteMint, temp.rent)
      && SwapCall(ixs[4], SellAccounts(state, config, baseTokenAccount, temp.address, payer), baseAmountIn)
      && ixs[5] == CloseToPayer(temp.address, payer)
      && (percentage == 100 ==> ixs[6] == CloseToPayer(baseTokenAccount, payer))
  {
    if !(1 <= percentage <= 100) {
      return Err(PercentageOutOfRange(percentage));
    }
    if baseBalance == 0 {
      return Err(ZeroBaseBalance);
    }
    var createQuote :=
      CreateAccountWithSeed(payer, temp.address, payer, temp.seed, temp.rent, AccountSpace, TokenProgramId);
    var initQuote := InitializeAccount(TokenProgramId, temp.address, config.quoteMint, payer);
    var accounts := SellAccounts(state, config, baseTokenAccount, temp.address, payer);
    var data := BuildSwapData(baseAmountIn, 0);
    if data.Err? {
      return Err(SwapDataRejected(data.error));
    }
    var swap := Invoke(MeteoraDbcProgram, data.value, accounts);
    var closeQuote := CloseToPayer(temp.address, payer);

    var instructions := [SetComputeUnitLimit(budget.unitBudget), SetComputeUnitPrice(budget.unitPrice),
                         createQuote, initQuote, swap, closeQuote];
    if percentage == 100 {
      instructions := instructions + [CloseToPayer(baseTokenAccount, payer)];
    }
    return Ok(instructions);
  }

  /** A sell with every default: the base account is closed last. */
  method SellWithDefaults(payer: Pubkey, state: PoolState, config: PoolConfig, baseBalance: int,
                          baseAmountIn: int, baseTokenAccount: Pubkey, temp: TempAccount)
    returns (r: Result<seq<Instruction>, TradeError>)
    ensures r.Ok? <==> baseBalance != 0 && InU64(baseAmountIn)
    ensures r.Ok? ==> |r.value| == 7 && r.value[0] == SetComputeUnitLimit(100_000)
                      && r.value[6] == CloseToPayer(baseTokenAccount, payer)
  {
    r := Sell(payer, state, config, baseBalance, baseAmountIn, baseTokenAccount, temp);
  }
}
