/**
 * The data of the swap instruction: an 8-byte method discriminator followed
 * by `amount_in` and `minimum_amount_out`, each a little-endian u64.  Buy
 * and sell write the same discriminator; direction is carried only by the
 * order of the accounts.
 */
module SwapPayload {
  import opened Wrappers
  import opened LittleEndian

  /** `bytearray.fromhex("f8c69e91e17587c8")`. */
  const SwapDiscriminator: seq<Byte> := [0xf8, 0xc6, 0x9e, 0x91, 0xe1, 0x75, 0x87, 0xc8]

  /** Length in bytes of a well-formed swap payload. */
  const SwapDataLength: nat := 24

  datatype SwapArgs = SwapArgs(amountIn: nat, minimumAmountOut: nat)

  datatype DecodeError = UnexpectedLength(length: nat) | InvalidDiscriminator

  /**
   * The payload for the two amounts.  The amounts are packed in order, so an
   * out-of-range `amount_in` is the one reported when both are out of range.
   */
  function EncodeSwapData(amountIn: int, minimumAmountOut: int): (r: Result<seq<Byte>, PackError>)
    ensures r.Ok? <==> InU64(amountIn) && InU64(minimumAmountOut)
    ensures !InU64(amountIn) ==> r == Err(ArgumentOutOfRange(amountIn))
    ensures InU64(amountIn) && !InU64(minimumAmountOut) ==> r == Err(ArgumentOutOfRange(minimumAmountOut))
    ensures r.Ok? ==> |r.value| == SwapDataLength
    ensures r.Ok? ==> r.value[..8] == SwapDiscriminator
    ensures r.Ok? ==> LeValue(r.value[8..16]) == amountIn && LeValue(r.value[16..24]) == minimumAmountOut
  {
    match PackU64(amountIn)
    case Err(e) => Err(e)
    case Ok(amountBytes) =>
      match PackU64(minimumAmountOut)
      case Err(e) => Err(e)
      case Ok(minimumBytes) =>
        var data := SwapDiscriminator + amountBytes + minimumBytes;
        assert data[8..16] == amountBytes;
        assert data[16..24] == minimumBytes;
        Ok(data)
  }

  /** The payload grown step by step, as the source extends its bytearray. */
  method BuildSwapData(amountIn: int, minimumAmountOut: int) returns (r: Result<seq<Byte>, PackError>)
    ensures r == EncodeSwapData(amountIn, minimumAmountOut)
  {
    var data := SwapDiscriminator;
    var packed := PackU64(amountIn);
    if packed.Err? {
      return Err(packed.error);
    }
    data := data + packed.value;
    packed := PackU64(minimumAmountOut);
    if packed.Err? {
      return Err(packed.error);
    }
    data := data + packed.value;
    assert data[8..16] == PackU64(amountIn).value;
    return Ok(data);
  }

  /** Reads a payload back; the inverse of EncodeSwapData. */
  function DecodeSwapData(data: seq<Byte>): (r: Result<SwapArgs, DecodeError>)
    ensures r.Ok? <==> |data| == SwapDataLength && data[..8] == SwapDiscriminator
    ensures |data| != SwapDataLength ==> r == Err(UnexpectedLength(|data|))
    ensures |data| == SwapDataLength && data[..8] != SwapDiscriminator ==> r == Err(InvalidDiscriminator)
  {
    if |data| != SwapDataLength then Err(UnexpectedLength(|data|))
    else if data[..8] != SwapDiscriminator then Err(InvalidDiscriminator)
    else Ok(SwapArgs(UnpackU64(data[8..16]), UnpackU64(data[16..24])))
  }

  /** Every pair of u64 amounts survives encoding and decoding. */
  lemma DecodeEncode(amountIn: nat, minimumAmountOut: nat)
    requires InU64(amountIn) && InU64(minimumAmountOut)
    ensures EncodeSwapData(amountIn, minimumAmountOut).Ok?
    ensures DecodeSwapData(EncodeSwapData(amountIn, minimumAmountOut).value)
         == Ok(SwapArgs(amountIn, minimumAmountOut))
  {
  }

  /** Every payload that decodes is the encoding of what it decodes to. */
  lemma EncodeDecode(data: seq<Byte>)
    requires DecodeSwapData(data).Ok?
    ensures EncodeSwapData(DecodeSwapData(data).value.amountIn, DecodeSwapData(data).value.minimumAmountOut)
         == Ok(data)
  {
    var args := DecodeSwapData(data).value;
    assert PackU64(args.amountIn) == Ok(data[8..16]);
    assert PackU64(args.minimumAmountOut) == Ok(data[16..24]);
    assert data == data[..8] + data[8..16] + data[16..24];
  }
}
