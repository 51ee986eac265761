/**
 * The fixed addresses of the swap program and its collaborators, as the
 * repository's constants file declares them.  An address is kept as its
 * base58 text; the 32-byte decoding done by the key library is not modelled,
 * and nothing in the model relies on two constants being different.
 */
module Constants {

  /** A public key, identified by its base58 text. */
  datatype Pubkey = Pubkey(base58: string)

  const MeteoraDbcProgram: Pubkey := Pubkey("dbcij3LWUppWqq96dh6gJWwBifmcGfLSB5D4DuSMaqN")
  const SystemProgram: Pubkey := Pubkey("11111111111111111111111111111111")
  const TokenProgramId: Pubkey := Pubkey("TokenkegQfeZyiNwAJbNbGKPFXCWuBvf9Ss623VQ5DA")
  const PoolAuthority: Pubkey := Pubkey("FhVo3mqL8PW5pH5U2CN4XE33DokiyZnUwuGpH2hmHLuM")
  /** Declared beside the others; the swap assembly takes the configuration from the pool state instead. */
  const Config: Pubkey := Pubkey("A5LRRhbspMvLGp8P4a7H9VLKaL5VuHKg8usLsNnA9k7E")
  const ReferralTokenAcc: Pubkey := Pubkey("dbcij3LWUppWqq96dh6gJWwBifmcGfLSB5D4DuSMaqN")
  const EventAuth: Pubkey := Pubkey("8Ks12pbrD6PXxfty1hVQiE9sc289zgU1zHkvXhrSdriF")

  /** Size in bytes of a token account, used when the temporary quote account is created. */
  const AccountSpace: nat := 165

  /** The referral slot of every swap names the program itself: the two constants coincide. */
  lemma ReferralIsProgram()
    ensures ReferralTokenAcc == MeteoraDbcProgram
    ensures ReferralTokenAcc != TokenProgramId
  {
  }
}
