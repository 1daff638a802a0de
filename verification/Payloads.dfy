/** The payload of each transaction, written slot by slot into a zeroed block of sixty. */
module Payloads {
  import opened Field
  import opened Wrappers
  import opened Records
  import opened Amounts
  import opened Transactions
  import opened TxData
  import opened Emission

  // ------------------------------------------------- what a few writes make

  lemma Zeroed()
    ensures seq(TX_LENGTH, _ => 0) == Payload(NO_FIELDS)
  {
    LaidIsPayload(seq(TX_LENGTH, _ => 0), NO_FIELDS);
    hide Payload;
  }

  lemma AmountWritten(f: Fields, v: Fr)
    ensures Payload(f)[AMOUNT := v]
         == Payload(f.(amount := v))
  {
    PayloadLaid(f);
    LaidIsPayload(Payload(f)[AMOUNT := v], f.(amount := v));
    hide Payload;
  }

  lemma Party1Written(f: Fields, x: Party)
    ensures Payload(f)[TOKEN_ID1 := x.token][ACCOUNT_ID1 := x.id][BALANCE1 := x.balance][NONCE1 := x.nonce]
              [SIGN1 := x.sign][AY1 := x.ay][ENABLE_BALANCE_CHECK1 := x.check]
         == Payload(f.(party1 := x))
  {
    PayloadLaid(f);
    LaidIsPayload(Payload(f)[TOKEN_ID1 := x.token][ACCOUNT_ID1 := x.id][BALANCE1 := x.balance][NONCE1 := x.nonce]
                    [SIGN1 := x.sign][AY1 := x.ay][ENABLE_BALANCE_CHECK1 := x.check], f.(party1 := x));
    hide Payload;
  }

  lemma Party2Written(f: Fields, x: Party)
    ensures Payload(f)[TOKEN_ID2 := x.token][ACCOUNT_ID2 := x.id][BALANCE2 := x.balance][NONCE2 := x.nonce]
              [SIGN2 := x.sign][AY2 := x.ay][ENABLE_BALANCE_CHECK2 := x.check]
         == Payload(f.(party2 := x))
  {
    PayloadLaid(f);
    LaidIsPayload(Payload(f)[TOKEN_ID2 := x.token][ACCOUNT_ID2 := x.id][BALANCE2 := x.balance][NONCE2 := x.nonce]
                    [SIGN2 := x.sign][AY2 := x.ay][ENABLE_BALANCE_CHECK2 := x.check], f.(party2 := x));
    hide Payload;
  }

  lemma Sig1Written(f: Fields, x: SigFields)
    ensures Payload(f)[SIG_L2_HASH1 := x.hash][S1 := x.s][R8X1 := x.r8x][R8Y1 := x.r8y]
              [ENABLE_SIG_CHECK1 := x.check]
         == Payload(f.(sig1 := x))
  {
    PayloadLaid(f);
    LaidIsPayload(Payload(f)[SIG_L2_HASH1 := x.hash][S1 := x.s][R8X1 := x.r8x][R8Y1 := x.r8y]
                    [ENABLE_SIG_CHECK1 := x.check], f.(sig1 := x));
    hide Payload;
  }

  lemma Sig2Written(f: Fields, x: SigFields)
    ensures Payload(f)[SIG_L2_HASH2 := x.hash][S2 := x.s][R8X2 := x.r8x][R8Y2 := x.r8y]
              [ENABLE_SIG_CHECK2 := x.check]
         == Payload(f.(sig2 := x))
  {
    PayloadLaid(f);
    LaidIsPayload(Payload(f)[SIG_L2_HASH2 := x.hash][S2 := x.s][R8X2 := x.r8x][R8Y2 := x.r8y]
                    [ENABLE_SIG_CHECK2 := x.check], f.(sig2 := x));
    hide Payload;
  }

  lemma DstWritten(f: Fields, v: Fr)
    ensures Payload(f)[DST_IS_NEW := v]
         == Payload(f.(dstIsNew := v))
  {
    PayloadLaid(f);
    LaidIsPayload(Payload(f)[DST_IS_NEW := v], f.(dstIsNew := v));
    hide Payload;
  }

  lemma OldOrder1Written(f: Fields, x: OrderFields)
    ensures Payload(f)[OLD_ORDER1_ID := x.id][OLD_ORDER1_TOKEN_SELL := x.tokenSell]
              [OLD_ORDER1_FILLED_SELL := x.filledSell][OLD_ORDER1_AMOUNT_SELL := x.amountSell]
              [OLD_ORDER1_TOKEN_BUY := x.tokenBuy][OLD_ORDER1_FILLED_BUY := x.filledBuy]
              [OLD_ORDER1_AMOUNT_BUY := x.amountBuy]
         == Payload(f.(old1 := x))
  {
    PayloadLaid(f);
    LaidIsPayload(Payload(f)[OLD_ORDER1_ID := x.id][OLD_ORDER1_TOKEN_SELL := x.tokenSell]
                    [OLD_ORDER1_FILLED_SELL := x.filledSell][OLD_ORDER1_AMOUNT_SELL := x.amountSell]
                    [OLD_ORDER1_TOKEN_BUY := x.tokenBuy][OLD_ORDER1_FILLED_BUY := x.filledBuy]
                    [OLD_ORDER1_AMOUNT_BUY := x.amountBuy], f.(old1 := x));
    hide Payload;
  }

  lemma OldOrder2Written(f: Fields, x: OrderFields)
    ensures Payload(f)[OLD_ORDER2_ID := x.id][OLD_ORDER2_TOKEN_SELL := x.tokenSell]
              [OLD_ORDER2_FILLED_SELL := x.filledSell][OLD_ORDER2_AMOUNT_SELL := x.amountSell]
              [OLD_ORDER2_TOKEN_BUY := x.tokenBuy][OLD_ORDER2_FILLED_BUY := x.filledBuy]
              [OLD_ORDER2_AMOUNT_BUY := x.amountBuy]
         == Payload(f.(old2 := x))
  {
    PayloadLaid(f);
    LaidIsPayload(Payload(f)[OLD_ORDER2_ID := x.id][OLD_ORDER2_TOKEN_SELL := x.tokenSell]
                    [OLD_ORDER2_FILLED_SELL := x.filledSell][OLD_ORDER2_AMOUNT_SELL := x.amountSell]
                    [OLD_ORDER2_TOKEN_BUY := x.tokenBuy][OLD_ORDER2_FILLED_BUY := x.filledBuy]
                    [OLD_ORDER2_AMOUNT_BUY := x.amountBuy], f.(old2 := x));
    hide Payload;
  }

  lemma NewOrder1Written(f: Fields, x: OrderFields)
    ensures Payload(f)[NEW_ORDER1_ID := x.id][NEW_ORDER1_TOKEN_SELL := x.tokenSell]
              [NEW_ORDER1_FILLED_SELL := x.filledSell][NEW_ORDER1_AMOUNT_SELL := x.amountSell]
              [NEW_ORDER1_TOKEN_BUY := x.tokenBuy][NEW_ORDER1_FILLED_BUY := x.filledBuy]
              [NEW_ORDER1_AMOUNT_BUY := x.amountBuy]
         == Payload(f.(new1 := x))
  {
    PayloadLaid(f);
    LaidIsPayload(Payload(f)[NEW_ORDER1_ID := x.id][NEW_ORDER1_TOKEN_SELL := x.tokenSell]
                    [NEW_ORDER1_FILLED_SELL := x.filledSell][NEW_ORDER1_AMOUNT_SELL := x.amountSell]
                    [NEW_ORDER1_TOKEN_BUY := x.tokenBuy][NEW_ORDER1_FILLED_BUY := x.filledBuy]
                    [NEW_ORDER1_AMOUNT_BUY := x.amountBuy], f.(new1 := x));
    hide Payload;
  }

  lemma NewOrder2Written(f: Fields, x: OrderFields)
    ensures Payload(f)[NEW_ORDER2_ID := x.id][NEW_ORDER2_TOKEN_SELL := x.tokenSell]
              [NEW_ORDER2_FILLED_SELL := x.filledSell][NEW_ORDER2_AMOUNT_SELL := x.amountSell]
              [NEW_ORDER2_TOKEN_BUY := x.tokenBuy][NEW_ORDER2_FILLED_BUY := x.filledBuy]
              [NEW_ORDER2_AMOUNT_BUY := x.amountBuy]
         == Payload(f.(new2 := x))
  {
    PayloadLaid(f);
    LaidIsPayload(Payload(f)[NEW_ORDER2_ID := x.id][NEW_ORDER2_TOKEN_SELL := x.tokenSell]
                    [NEW_ORDER2_FILLED_SELL := x.filledSell][NEW_ORDER2_AMOUNT_SELL := x.amountSell]
                    [NEW_ORDER2_TOKEN_BUY := x.tokenBuy][NEW_ORDER2_FILLED_BUY := x.filledBuy]
                    [NEW_ORDER2_AMOUNT_BUY := x.amountBuy], f.(new2 := x));
    hide Payload;
  }

  lemma AmountsWritten(f: Fields, x: Fr, y: Fr, pos1: Fr, pos2: Fr)
    ensures Payload(f)[AMOUNT1 := x][AMOUNT2 := y][ORDER1_POS := pos1][ORDER2_POS := pos2]
         == Payload(f.(amount1 := x, amount2 := y, pos1 := pos1, pos2 := pos2))
  {
    PayloadLaid(f);
    LaidIsPayload(Payload(f)[AMOUNT1 := x][AMOUNT2 := y][ORDER1_POS := pos1][ORDER2_POS := pos2],
                  f.(amount1 := x, amount2 := y, pos1 := pos1, pos2 := pos2));
    hide Payload;
  }

  lemma BalancesWritten(f: Fields, x: Fr, y: Fr)
    ensures Payload(f)[BALANCE3 := x][BALANCE4 := y]
         == Payload(f.(balance3 := x, balance4 := y))
  {
    PayloadLaid(f);
    LaidIsPayload(Payload(f)[BALANCE3 := x][BALANCE4 := y], f.(balance3 := x, balance4 := y));
    hide Payload;
  }

  // ------------------------------------------------------------ the payloads

  method KeyUpdatePayload(a: nat, balance: Fr, acc: AccountState, sign: Fr, ay: Fr) returns (payload: seq<Fr>)
    ensures var party := PartyOf(a, 0, balance, acc);
            payload == Payload(NO_FIELDS.(party1 := party, party2 := party.(sign := sign, ay := ay), dstIsNew := 1))
  {
    hide FrOf, Payload;
    ghost var party := PartyOf(a, 0, balance, acc);
    ghost var f := NO_FIELDS;
    payload := seq(TX_LENGTH, _ => 0);
    Zeroed();
    payload := payload[TOKEN_ID1 := FrOf(0)];
    payload := payload[ACCOUNT_ID1 := FrOf(a)];
    payload := payload[BALANCE1 := balance];
    payload := payload[NONCE1 := acc.nonce];
    payload := payload[SIGN1 := acc.sign];
    payload := payload[AY1 := acc.ay];
    payload := payload[ENABLE_BALANCE_CHECK1 := 1];
    Party1Written(f, party);
    f := f.(party1 := party);
    payload := payload[TOKEN_ID2 := FrOf(0)];
    payload := payload[ACCOUNT_ID2 := FrOf(a)];
    payload := payload[BALANCE2 := balance];
    payload := payload[NONCE2 := acc.nonce];
    payload := payload[SIGN2 := sign];
    payload := payload[AY2 := ay];
    payload := payload[ENABLE_BALANCE_CHECK2 := 1];
    Party2Written(f, party.(sign := sign, ay := ay));
    f := f.(party2 := party.(sign := sign, ay := ay));
    payload := payload[DST_IS_NEW := 1];
    DstWritten(f, 1);
  }

  method DepositPayload(a: nat, t: nat, amount: Fr, balance: Fr, acc: AccountState) returns (payload: seq<Fr>)
    ensures var party := PartyOf(a, t, balance, acc);
            payload == Payload(NO_FIELDS.(party1 := party, party2 := party.(balance := Add(balance, amount)),
                                          amount := amount))
  {
    hide FrOf, Payload, Add;
    ghost var party := PartyOf(a, t, balance, acc);
    ghost var f := NO_FIELDS;
    payload := seq(TX_LENGTH, _ => 0);
    Zeroed();
    payload := payload[AMOUNT := amount];
    AmountWritten(f, amount);
    f := f.(amount := amount);
    payload := payload[TOKEN_ID1 := FrOf(t)];
    payload := payload[ACCOUNT_ID1 := FrOf(a)];
    payload := payload[BALANCE1 := balance];
    payload := payload[NONCE1 := acc.nonce];
    payload := payload[SIGN1 := acc.sign];
    payload := payload[AY1 := acc.ay];
    payload := payload[ENABLE_BALANCE_CHECK1 := 1];
    Party1Written(f, party);
    f := f.(party1 := party);
    payload := payload[TOKEN_ID2 := FrOf(t)];
    payload := payload[ACCOUNT_ID2 := FrOf(a)];
    payload := payload[BALANCE2 := Add(balance, amount)];
    payload := payload[NONCE2 := acc.nonce];
    payload := payload[SIGN2 := acc.sign];
    payload := payload[AY2 := acc.ay];
    payload := payload[ENABLE_BALANCE_CHECK2 := 1];
    Party2Written(f, party.(balance := Add(balance, amount)));
    f := f.(party2 := party.(balance := Add(balance, amount)));
    payload := payload[DST_IS_NEW := 0];
    DstWritten(f, 0);
  }

  method WithdrawPayload(a: nat, t: nat, amount: Fr, balance: Fr, acc: AccountState, sig: Signature)
    returns (payload: seq<Fr>)
    ensures var party := PartyOf(a, t, balance, acc);
            payload == Payload(NO_FIELDS.(
              party1 := party, party2 := party.(balance := Sub(balance, amount), nonce := Add(acc.nonce, 1)),
              amount := amount, sig1 := SigOf(sig)))
  {
    hide FrOf, Payload, Add, Sub;
    ghost var party := PartyOf(a, t, balance, acc);
    ghost var f := NO_FIELDS;
    payload := seq(TX_LENGTH, _ => 0);
    Zeroed();
    payload := payload[AMOUNT := amount];
    AmountWritten(f, amount);
    f := f.(amount := amount);
    payload := payload[TOKEN_ID1 := FrOf(t)];
    payload := payload[ACCOUNT_ID1 := FrOf(a)];
    payload := payload[BALANCE1 := balance];
    payload := payload[NONCE1 := acc.nonce];
    payload := payload[SIGN1 := acc.sign];
    payload := payload[AY1 := acc.ay];
    payload := payload[ENABLE_BALANCE_CHECK1 := 1];
    Party1Written(f, party);
    f := f.(party1 := party);
    payload := payload[TOKEN_ID2 := FrOf(t)];
    payload := payload[ACCOUNT_ID2 := FrOf(a)];
    payload := payload[BALANCE2 := Sub(balance, amount)];
    payload := payload[NONCE2 := Add(acc.nonce, 1)];
    payload := payload[SIGN2 := acc.sign];
    payload := payload[AY2 := acc.ay];
    payload := payload[ENABLE_BALANCE_CHECK2 := 1];
    ghost var party2 := party.(balance := Sub(balance, amount), nonce := Add(acc.nonce, 1));
    Party2Written(f, party2);
    f := f.(party2 := party2);
    payload := payload[SIG_L2_HASH1 := sig.hash];
    payload := payload[S1 := sig.s];
    payload := payload[R8X1 := sig.r8x];
    payload := payload[R8Y1 := sig.r8y];
    payload := payload[ENABLE_SIG_CHECK1 := 1];
    Sig1Written(f, SigOf(sig));
  }

  /** `received` is the recipient's balance after the transfer. */
  method TransferPayload(from: nat, to: nat, t: nat, amount: Fr, balance: Fr, received: Fr, sender: AccountState,
                         recipient: AccountState,
                         sig: Signature) returns (payload: seq<Fr>)
    ensures payload == Payload(NO_FIELDS.(
              party1 := PartyOf(from, t, balance, sender), party2 := PartyOf(to, t, received, recipient),
              amount := amount, sig1 := SigOf(sig)))
  {
    hide FrOf, Payload;
    ghost var f := NO_FIELDS;
    payload := seq(TX_LENGTH, _ => 0);
    Zeroed();
    payload := payload[AMOUNT := amount];
    AmountWritten(f, amount);
    f := f.(amount := amount);
    payload := payload[TOKEN_ID1 := FrOf(t)];
    payload := payload[ACCOUNT_ID1 := FrOf(from)];
    payload := payload[BALANCE1 := balance];
    payload := payload[NONCE1 := sender.nonce];
    payload := payload[SIGN1 := sender.sign];
    payload := payload[AY1 := sender.ay];
    payload := payload[ENABLE_BALANCE_CHECK1 := 1];
    Party1Written(f, PartyOf(from, t, balance, sender));
    f := f.(party1 := PartyOf(from, t, balance, sender));
    payload := payload[TOKEN_ID2 := FrOf(t)];
    payload := payload[ACCOUNT_ID2 := FrOf(to)];
    payload := payload[BALANCE2 := received];
    payload := payload[NONCE2 := recipient.nonce];
    payload := payload[SIGN2 := recipient.sign];
    payload := payload[AY2 := recipient.ay];
    payload := payload[ENABLE_BALANCE_CHECK2 := 1];
    Party2Written(f, PartyOf(to, t, received, recipient));
    f := f.(party2 := PartyOf(to, t, received, recipient));
    payload := payload[SIG_L2_HASH1 := sig.hash];
    payload := payload[S1 := sig.s];
    payload := payload[R8X1 := sig.r8x];
    payload := payload[R8Y1 := sig.r8y];
    payload := payload[ENABLE_SIG_CHECK1 := 1];
    Sig1Written(f, SigOf(sig));
    f := f.(sig1 := SigOf(sig));
    payload := payload[DST_IS_NEW := 0];
    DstWritten(f, 0);
  }

  /** The slots of a trade that describe its two accounts; the token ids are those of the orders. */
  method TradePartiesPayload(party1: Party, party2: Party, sig1: Signature, sig2: Signature) returns (payload: seq<Fr>)
    requires party1.check == party2.check == 1
    ensures payload == Payload(NO_FIELDS.(party1 := party1, party2 := party2, sig1 := SigOf(sig1), sig2 := SigOf(sig2)))
  {
    hide FrOf, Payload;
    ghost var f := NO_FIELDS;
    payload := seq(TX_LENGTH, _ => 0);
    Zeroed();
    payload := payload[TOKEN_ID1 := party1.token];
    payload := payload[ACCOUNT_ID1 := party1.id];
    payload := payload[BALANCE1 := party1.balance];
    payload := payload[NONCE1 := party1.nonce];
    payload := payload[SIGN1 := party1.sign];
    payload := payload[AY1 := party1.ay];
    payload := payload[ENABLE_BALANCE_CHECK1 := 1];
    Party1Written(f, party1);
    f := f.(party1 := party1);
    payload := payload[TOKEN_ID2 := party2.token];
    payload := payload[ACCOUNT_ID2 := party2.id];
    payload := payload[BALANCE2 := party2.balance];
    payload := payload[NONCE2 := party2.nonce];
    payload := payload[SIGN2 := party2.sign];
    payload := payload[AY2 := party2.ay];
    payload := payload[ENABLE_BALANCE_CHECK2 := 1];
    Party2Written(f, party2);
    f := f.(party2 := party2);
    payload := payload[SIG_L2_HASH1 := sig1.hash];
    payload := payload[S1 := sig1.s];
    payload := payload[R8X1 := sig1.r8x];
    payload := payload[R8Y1 := sig1.r8y];
    payload := payload[ENABLE_SIG_CHECK1 := 1];
    Sig1Written(f, SigOf(sig1));
    f := f.(sig1 := SigOf(sig1));
    payload := payload[SIG_L2_HASH2 := sig2.hash];
    payload := payload[S2 := sig2.s];
    payload := payload[R8X2 := sig2.r8x];
    payload := payload[R8Y2 := sig2.r8y];
    payload := payload[ENABLE_SIG_CHECK2 := 1];
    Sig2Written(f, SigOf(sig2));
  }

  /**
   * The slots of a trade that describe the orders found in the two positions, the amounts and the other two balances.
   */
  method TradeOrdersPayload(before: seq<Fr>, ghost f0: Fields, old1: Order, old2: Order, pos1: nat, pos2: nat,
                            amount1: Fr, amount2: Fr, balance3: Fr, balance4: Fr) returns (payload: seq<Fr>)
    requires before == Payload(f0)
    ensures payload == Payload(f0.(old1 := OldFields(old1), old2 := OldFields(old2), amount1 := amount1,
                                   amount2 := amount2,
                                   pos1 := FrOf(pos1), pos2 := FrOf(pos2), balance3 := balance3, balance4 := balance4))
  {
    hide FrOf, Payload;
    ghost var f := f0;
    payload := before;
    payload := payload[OLD_ORDER1_ID := FrOf(old1.orderId)];
    payload := payload[OLD_ORDER1_TOKEN_SELL := old1.tokenSell];
    payload := payload[OLD_ORDER1_FILLED_SELL := old1.filledSell];
    payload := payload[OLD_ORDER1_AMOUNT_SELL := old1.totalSell];
    payload := payload[OLD_ORDER1_TOKEN_BUY := old1.tokenBuy];
    payload := payload[OLD_ORDER1_FILLED_BUY := old1.filledBuy];
    payload := payload[OLD_ORDER1_AMOUNT_BUY := old1.totalBuy];
    OldOrder1Written(f, OldFields(old1));
    f := f.(old1 := OldFields(old1));
    payload := payload[OLD_ORDER2_ID := FrOf(old2.orderId)];
    payload := payload[OLD_ORDER2_TOKEN_SELL := old2.tokenSell];
    payload := payload[OLD_ORDER2_FILLED_SELL := old2.filledSell];
    payload := payload[OLD_ORDER2_AMOUNT_SELL := old2.totalSell];
    payload := payload[OLD_ORDER2_TOKEN_BUY := old2.tokenBuy];
    payload := payload[OLD_ORDER2_FILLED_BUY := old2.filledBuy];
    payload := payload[OLD_ORDER2_AMOUNT_BUY := old2.totalBuy];
    OldOrder2Written(f, OldFields(old2));
    f := f.(old2 := OldFields(old2));
    payload := payload[AMOUNT1 := amount1];
    payload := payload[AMOUNT2 := amount2];
    payload := payload[ORDER1_POS := FrOf(pos1)];
    payload := payload[ORDER2_POS := FrOf(pos2)];
    AmountsWritten(f, amount1, amount2, FrOf(pos1), FrOf(pos2));
    f := f.(amount1 := amount1, amount2 := amount2, pos1 := FrOf(pos1), pos2 := FrOf(pos2));
    payload := payload[BALANCE3 := balance3];
    payload := payload[BALANCE4 := balance4];
    BalancesWritten(f, balance3, balance4);
  }

  /** The slots of a trade that describe the two orders after it; a total that does not compress is a panic. */
  method TradeNewOrdersPayload(before: seq<Fr>, ghost f0: Fields, order1: Order, order2: Order)
    returns (r: Result<seq<Fr>>)
    requires before == Payload(f0)
    ensures r.Ok? <==> Compressible(order1) && Compressible(order2)
    ensures r.Ok? ==> r.value == Payload(f0.(new1 := NewFields(order1), new2 := NewFields(order2)))
    ensures r.Err? ==> r.reason == "too big for 35bit significand"
  {
    hide FrOf, Payload, CompressedFr, Compress, Decompress;
    ghost var f := f0;
    var payload := before;
    var sell1 := CompressFr(order1.totalSell);
    var buy1 := CompressFr(order1.totalBuy);
    if sell1.Err? || buy1.Err? {
      return Err("too big for 35bit significand");
    }
    CompressedValue(order1.totalSell, sell1.value);
    CompressedValue(order1.totalBuy, buy1.value);
    payload := payload[NEW_ORDER1_ID := FrOf(order1.orderId)];
    payload := payload[NEW_ORDER1_TOKEN_SELL := order1.tokenSell];
    payload := payload[NEW_ORDER1_FILLED_SELL := order1.filledSell];
    payload := payload[NEW_ORDER1_AMOUNT_SELL := sell1.value];
    payload := payload[NEW_ORDER1_TOKEN_BUY := order1.tokenBuy];
    payload := payload[NEW_ORDER1_FILLED_BUY := order1.filledBuy];
    payload := payload[NEW_ORDER1_AMOUNT_BUY := buy1.value];
    NewOrder1Written(f, NewFields(order1));
    f := f.(new1 := NewFields(order1));
    var sell2 := CompressFr(order2.totalSell);
    var buy2 := CompressFr(order2.totalBuy);
    if sell2.Err? || buy2.Err? {
      return Err("too big for 35bit significand");
    }
    CompressedValue(order2.totalSell, sell2.value);
    CompressedValue(order2.totalBuy, buy2.value);
    payload := payload[NEW_ORDER2_ID := FrOf(order2.orderId)];
    payload := payload[NEW_ORDER2_TOKEN_SELL := order2.tokenSell];
    payload := payload[NEW_ORDER2_FILLED_SELL := order2.filledSell];
    payload := payload[NEW_ORDER2_AMOUNT_SELL := sell2.value];
    payload := payload[NEW_ORDER2_TOKEN_BUY := order2.tokenBuy];
    payload := payload[NEW_ORDER2_FILLED_BUY := order2.filledBuy];
    payload := payload[NEW_ORDER2_AMOUNT_BUY := buy2.value];
    NewOrder2Written(f, NewFields(order2));
    r := Ok(payload);
  }

  lemma CompressedValue(x: Fr, value: Fr)
    requires Compress(x) == Ok(value)
    ensures CompressedFr(x) == value
  {
    ModUnique(P, 0, value);
    hide Compress;
  }
}
