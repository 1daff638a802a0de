/** The shape of an emitted transaction. */
module TxData {
  import opened Field
  import opened Wrappers

  const TX_LENGTH := 60

  // Positions in the payload.
  const ENABLE_BALANCE_CHECK1 := 0
  const ACCOUNT_ID1 := 1
  const TOKEN_ID1 := 2
  const BALANCE1 := 3
  const SIGN1 := 4
  const AY1 := 5
  const NONCE1 := 6
  const ENABLE_BALANCE_CHECK2 := 7
  const ACCOUNT_ID2 := 8
  const TOKEN_ID2 := 9
  const BALANCE2 := 10
  const SIGN2 := 11
  const AY2 := 12
  const NONCE2 := 13
  const ENABLE_SIG_CHECK1 := 14
  const SIG_L2_HASH1 := 15
  const S1 := 16
  const R8X1 := 17
  const R8Y1 := 18
  const ENABLE_SIG_CHECK2 := 19
  const SIG_L2_HASH2 := 20
  const S2 := 21
  const R8X2 := 22
  const R8Y2 := 23
  const AMOUNT := 24
  const AMOUNT1 := 25
  const AMOUNT2 := 26
  const BALANCE3 := 27
  const BALANCE4 := 28
  const ORDER1_POS := 29
  const ORDER2_POS := 30
  const OLD_ORDER1_ID := 31
  const OLD_ORDER1_TOKEN_SELL := 32
  const OLD_ORDER1_FILLED_SELL := 33
  const OLD_ORDER1_AMOUNT_SELL := 34
  const OLD_ORDER1_TOKEN_BUY := 35
  const OLD_ORDER1_FILLED_BUY := 36
  const OLD_ORDER1_AMOUNT_BUY := 37
  const NEW_ORDER1_ID := 38
  const NEW_ORDER1_TOKEN_SELL := 39
  const NEW_ORDER1_FILLED_SELL := 40
  const NEW_ORDER1_AMOUNT_SELL := 41
  const NEW_ORDER1_TOKEN_BUY := 42
  const NEW_ORDER1_FILLED_BUY := 43
  const NEW_ORDER1_AMOUNT_BUY := 44
  const OLD_ORDER2_ID := 45
  const OLD_ORDER2_TOKEN_SELL := 46
  const OLD_ORDER2_FILLED_SELL := 47
  const OLD_ORDER2_AMOUNT_SELL := 48
  const OLD_ORDER2_TOKEN_BUY := 49
  const OLD_ORDER2_FILLED_BUY := 50
  const OLD_ORDER2_AMOUNT_BUY := 51
  const NEW_ORDER2_ID := 52
  const NEW_ORDER2_TOKEN_SELL := 53
  const NEW_ORDER2_FILLED_SELL := 54
  const NEW_ORDER2_AMOUNT_SELL := 55
  const NEW_ORDER2_TOKEN_BUY := 56
  const NEW_ORDER2_FILLED_BUY := 57
  const NEW_ORDER2_AMOUNT_BUY := 58
  const DST_IS_NEW := 59

  datatype TxType = Nop | Deposit | Transfer | Withdraw | PlaceOrder | SpotTrade

  datatype RawTx = RawTx(
    txType: TxType,
    payload: seq<Fr>,
    balancePath0: seq<Fr>,
    balancePath1: seq<Fr>,
    balancePath2: seq<Fr>,
    balancePath3: seq<Fr>,
    orderPath0: seq<Fr>,
    orderPath1: seq<Fr>,
    orderRoot0: Fr,
    orderRoot1: Fr,
    accountPath0: seq<Fr>,
    accountPath1: seq<Fr>,
    rootBefore: Fr,
    rootAfter: Fr,
    offset: Option<int>)
}
