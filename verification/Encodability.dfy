/** Which emitted records the encoder accepts: the records of the ledger layer meet the layouts of the public data. */
module Encodability {
  import opened Field
  import opened Wrappers
  import opened Records
  import opened Ledger
  import opened Amounts
  import opened Transactions
  import opened TxData
  import opened TxEncoder
  import opened Emission
  import opened Witness
  import opened TradeWitness

  function WidthsOf(levels: Levels): Widths {
    Widths(levels.account, levels.balance, levels.order)
  }

  /** A layout is accepted when each of its fields is. */
  lemma {:induction false} FitsIff(payload: seq<Fr>, fields: seq<FieldSpec>)
    requires InPayload(payload, fields)
    ensures FieldsFit(payload, fields) <==>
              forall i :: 0 <= i < |fields| ==> FieldFits(payload[fields[i].idx], fields[i])
    decreases |fields|
  {
    hide FieldFits;
    if fields != [] {
      FitsIff(payload, fields[1..]);
      assert forall i :: 0 <= i < |fields| - 1 ==> fields[1..][i] == fields[i + 1];
      assert forall i :: 1 <= i < |fields| ==> fields[i] == fields[1..][i - 1];
    }
  }

  /** An id inside its tree fits the width of the tree's level. */
  lemma IdFits(level: nat, id: nat, idx: nat)
    requires level < 32 && id < Pow2(level)
    ensures FrOf(id) == id && FieldFits(id, FieldSpec(idx, level, false))
  {
    IndexFits(level, id);
    Pow2Monotone(level, 63);
  }

  lemma CommonFit(p: seq<Fr>, levels: Levels, id1: nat, id2: nat, t: nat)
    requires levels.account < 32 && levels.balance < 32 && |p| == TX_LENGTH
    requires id1 < Pow2(levels.account) && id2 < Pow2(levels.account) && t < Pow2(levels.balance)
    requires p[ACCOUNT_ID1] == FrOf(id1) && p[ACCOUNT_ID2] == FrOf(id2) && p[TOKEN_ID1] == FrOf(t)
    ensures InPayload(p, CommonFields(WidthsOf(levels)))
    ensures FieldsFit(p, CommonFields(WidthsOf(levels))) <==> p[AMOUNT] < Pow2(128)
  {
    hide Pow2, FrOf, FieldsFit, FieldFits;
    var w := WidthsOf(levels);
    IdFits(levels.account, id1, ACCOUNT_ID1);
    IdFits(levels.account, id2, ACCOUNT_ID2);
    IdFits(levels.balance, t, TOKEN_ID1);
    WideFits(p[AMOUNT], FieldSpec(AMOUNT, 128, false));
    PlanFits(p, w);
    FitsIff(p, CommonFields(w));
    assert CommonFields(w)[3] == FieldSpec(AMOUNT, 128, false);
  }

  lemma WideFits(value: Fr, f: FieldSpec)
    requires f.width >= 64
    ensures FieldFits(value, f) <==> value < Pow2(f.width)
  {
    hide Pow2;
  }

  lemma CommonRecord(levels: Levels, f: Fields, id1: nat, id2: nat, t: nat)
    requires levels.account < 32 && levels.balance < 32
    requires id1 < Pow2(levels.account) && id2 < Pow2(levels.account) && t < Pow2(levels.balance)
    requires f.party1.id == FrOf(id1) && f.party2.id == FrOf(id2) && f.party1.token == FrOf(t)
    ensures InPayload(Payload(f), CommonFields(WidthsOf(levels)))
    ensures FieldsFit(Payload(f), CommonFields(WidthsOf(levels))) <==> f.amount < Pow2(128)
    ensures Payload(f)[DST_IS_NEW] == f.dstIsNew && Payload(f)[AMOUNT] == f.amount
  {
    PayloadLaid(f);
    hide Pow2, FrOf, FieldsFit, CommonFields, Payload;
    CommonFit(Payload(f), levels, id1, id2, t);
  }

  /** A deposit record is accepted exactly when its amount has 128 bits. */
  lemma DepositEncodable(s: Ledger, a: nat, t: nat, amount: Fr, after: Ledger, offset: Option<int>)
    requires Shape(s) && a < Pow2(s.levels.account) && t < Pow2(s.levels.balance)
    ensures Encodable(DepositRaw(s, a, t, amount, after, offset), WidthsOf(s.levels)) <==> amount < Pow2(128)
  {
    assert s.levels.account < 32 && s.levels.balance < 32;
    hide Pow2, Payload, FrOf, FieldsFit, CommonFields, SpotFields, KeyFields, TradeHead, At, BalanceOf, Add, Shape;
    hide BalancePath, AccountPath, StateRoot, TrivialOrderPath;
    CommonRecord(s.levels, DepositFields(s, a, t, amount), a, a, t);
  }

  lemma WithdrawEncodable(s: Ledger, a: nat, t: nat, amount: Fr, sig: Signature, after: Ledger, offset: Option<int>)
    requires Shape(s) && a < Pow2(s.levels.account) && t < Pow2(s.levels.balance)
    ensures Encodable(WithdrawRaw(s, a, t, amount, sig, after, offset), WidthsOf(s.levels)) <==> amount < Pow2(128)
  {
    assert s.levels.account < 32 && s.levels.balance < 32;
    hide Pow2, Payload, FrOf, FieldsFit, CommonFields, SpotFields, KeyFields, TradeHead, At, BalanceOf, Add, Sub;
    hide Shape, BalancePath, AccountPath, StateRoot, TrivialOrderPath;
    CommonRecord(s.levels, WithdrawFields(s, a, t, amount, sig), a, a, t);
  }

  lemma TransferEncodable(s: Ledger, from: nat, to: nat, t: nat, amount: Fr, sig: Signature, after: Ledger,
                          offset: Option<int>)
    requires Shape(s) && from < Pow2(s.levels.account) && to < Pow2(s.levels.account) && t < Pow2(s.levels.balance)
    ensures Encodable(TransferRaw(s, from, to, t, amount, sig, after, offset), WidthsOf(s.levels)) <==>
              amount < Pow2(128)
  {
    assert s.levels.account < 32 && s.levels.balance < 32;
    hide Pow2, Payload, FrOf, FieldsFit, CommonFields, SpotFields, KeyFields, TradeHead, At, BalanceOf, Add, Shape;
    hide BalancePath, AccountPath, StateRoot, TrivialOrderPath;
    CommonRecord(s.levels, TransferFields(s, from, to, t, amount, sig), from, to, t);
  }

  /** An empty transaction is always accepted. */
  lemma NopEncodable(s: Ledger, w: Widths)
    ensures Encodable(NopRaw(s), w)
  {
    hide Payload, BalancePath, AccountPath, StateRoot, TrivialOrderPath;
    NoFields(Payload(NO_FIELDS));
  }

  /** A key is accepted exactly when its sign is one bit. */
  lemma KeyUpdateEncodable(s: Ledger, a: nat, sign: Fr, ay: Fr, after: Ledger, offset: Option<int>)
    requires Shape(s) && a < Pow2(s.levels.account)
    ensures Encodable(KeyUpdateRaw(s, a, sign, ay, after, offset), WidthsOf(s.levels)) <==> sign < 2
  {
    assert s.levels.account < 32;
    IdFits(s.levels.account, a, ACCOUNT_ID1);
    FieldHas254Bits();
    hide Payload, FrOf, CommonFields, SpotFields, TradeHead, At, BalanceOf, Shape, BalancePath, AccountPath;
    hide StateRoot, TrivialOrderPath;
    KeyRecord(s.levels, KeyUpdateFields(s, a, sign, ay), a);
  }

  lemma KeyRecord(levels: Levels, f: Fields, a: nat)
    requires levels.account < 32 && a < Pow2(levels.account) && f.party1.id == FrOf(a)
    ensures InPayload(Payload(f), KeyFields(WidthsOf(levels)))
    ensures FieldsFit(Payload(f), KeyFields(WidthsOf(levels))) <==> f.party2.sign < 2
    ensures Payload(f)[DST_IS_NEW] == f.dstIsNew && Payload(f)[AMOUNT] == f.amount
  {
    PayloadLaid(f);
    OneBitFits(f.party2.sign, FieldSpec(SIGN2, 1, false));
    hide Pow2, FrOf, FieldsFit, FieldFits, Payload;
    var w := WidthsOf(levels);
    IdFits(levels.account, a, ACCOUNT_ID1);
    FieldHas254Bits();
    WideFits(f.party2.ay, FieldSpec(AY2, 254, false));
    PlanFits(Payload(f), w);
    FitsIff(Payload(f), KeyFields(w));
    assert KeyFields(w)[1] == FieldSpec(SIGN2, 1, false) && KeyFields(w)[2] == FieldSpec(AY2, 254, false);
  }

  lemma OneBitFits(value: Fr, f: FieldSpec)
    requires f.width == 1 && !f.lenient
    ensures FieldFits(value, f) <==> value < 2
  {
    assert Pow2(1) == 2;
    Pow2Monotone(1, 63);
  }

  lemma PowerOf(a: nat, b: nat, x: nat, y: nat)
    requires Pow2(a) == x && Pow2(b) == y
    ensures Pow2(a + b) == x * y
  {
    Pow2Sum(a, b);
  }

  /** The field order is below 2 to the 254. */
  lemma FieldHas254Bits()
    ensures P <= Pow2(254)
  {
    WordSize();
    assert Pow2(30) == 1073741824 by { Pow2Sum(30, 2); assert Pow2(2) == 4; }
    hide Pow2;
    PowerOf(32, 32, 4294967296, 4294967296);
    PowerOf(64, 64, 18446744073709551616, 18446744073709551616);
    PowerOf(128, 64, 340282366920938463463374607431768211456, 18446744073709551616);
    PowerOf(192, 32, 6277101735386680763835789423207666416102355444464034512896, 4294967296);
    PowerOf(224, 30, 26959946667150639794667015087019630673637144422540572481103610249216, 1073741824);
  }

  // ----------------------------------------------------------------- trades

  /** One of the order's two amounts is used up to the unit; beyond it does not count. */
  predicate UsedUp(o: Order) {
    o.filledBuy == o.totalBuy || o.filledSell == o.totalSell
  }

  /** The heading of a trade says which of its orders is used up. */
  lemma TradeHeading(f: Fields, order1: Order, order2: Order)
    requires f.new1 == NewFields(order1) && f.new2 == NewFields(order2) && Compressible(order1) && Compressible(order2)
    ensures TradeHead(Payload(f)) == (if UsedUp(order1) then 2 else 0) + (if UsedUp(order2) then 4 else 0)
  {
    PayloadLaid(f);
    CompressedBack(order1.totalSell);
    CompressedBack(order1.totalBuy);
    CompressedBack(order2.totalSell);
    CompressedBack(order2.totalBuy);
    hide Payload, Compress, Decompress, CompressedFr, FrOf;
  }

  /** What the layout of a trade asks of one of its orders: tokens and totals that fit, and an id below 2 to the 63. */
  predicate OrderEncodes(levels: Levels, o: Order) {
    && o.tokenSell < Pow2(levels.balance) && FrOf(o.orderId) < Pow2(63)
    && CompressedFr(o.totalSell) < Pow2(40) && CompressedFr(o.totalBuy) < Pow2(40)
  }

  lemma NarrowFits(value: Fr, f: FieldSpec)
    requires f.width < 63
    ensures !f.lenient ==> (FieldFits(value, f) <==> value < Pow2(f.width))
    ensures f.lenient ==> (FieldFits(value, f) <==> value < Pow2(63))
  {
    Pow2Monotone(f.width, 63);
    hide Pow2;
  }

  /** Reading the layout field by field. */
  lemma SpotFit(p: seq<Fr>, w: Widths)
    requires |p| == TX_LENGTH && w.account < 63 && w.token < 63 && w.order < 63
    ensures InPayload(p, SpotFields(w))
    ensures FieldsFit(p, SpotFields(w)) <==>
              && p[ACCOUNT_ID1] < Pow2(w.account) && p[ACCOUNT_ID2] < Pow2(w.account)
              && p[NEW_ORDER1_TOKEN_SELL] < Pow2(w.token) && p[NEW_ORDER2_TOKEN_SELL] < Pow2(w.token)
              && p[NEW_ORDER1_AMOUNT_SELL] < Pow2(40) && p[NEW_ORDER1_AMOUNT_BUY] < Pow2(40)
              && p[ORDER1_POS] < Pow2(w.order) && p[NEW_ORDER1_ID] < Pow2(63)
              && p[NEW_ORDER2_AMOUNT_SELL] < Pow2(40) && p[NEW_ORDER2_AMOUNT_BUY] < Pow2(40)
              && p[ORDER2_POS] < Pow2(w.order) && p[NEW_ORDER2_ID] < Pow2(63)
  {
    hide Pow2, FieldsFit, FieldFits;
    var s := SpotFields(w);
    PlanFits(p, w);
    FitsIff(p, s);
    forall i | 0 <= i < |s|
      ensures !s[i].lenient ==> (FieldFits(p[s[i].idx], s[i]) <==> p[s[i].idx] < Pow2(s[i].width))
      ensures s[i].lenient ==> (FieldFits(p[s[i].idx], s[i]) <==> p[s[i].idx] < Pow2(63))
    {
      NarrowFits(p[s[i].idx], s[i]);
    }
    assert |s| == 12;
    assert s[0] == FieldSpec(ACCOUNT_ID1, w.account, false) && s[1] == FieldSpec(ACCOUNT_ID2, w.account, false);
    assert s[2] == FieldSpec(NEW_ORDER1_TOKEN_SELL, w.token, false);
    assert s[3] == FieldSpec(NEW_ORDER2_TOKEN_SELL, w.token, false);
    assert s[4] == FieldSpec(NEW_ORDER1_AMOUNT_SELL, 40, false) && s[5] == FieldSpec(NEW_ORDER1_AMOUNT_BUY, 40, false);
    assert s[6] == FieldSpec(ORDER1_POS, w.order, false) && s[7] == FieldSpec(NEW_ORDER1_ID, 32, true);
    assert s[8] == FieldSpec(NEW_ORDER2_AMOUNT_SELL, 40, false) && s[9] == FieldSpec(NEW_ORDER2_AMOUNT_BUY, 40, false);
    assert s[10] == FieldSpec(ORDER2_POS, w.order, false) && s[11] == FieldSpec(NEW_ORDER2_ID, 32, true);
  }

  lemma TradePlan(raw: RawTx, w: Widths)
    requires raw.txType == SpotTrade && |raw.payload| == TX_LENGTH
    ensures InPayload(raw.payload, SpotFields(w))
    ensures Encodable(raw, w) <==> TradeHead(raw.payload) > 0 && FieldsFit(raw.payload, SpotFields(w))
  {
    PlanFits(raw.payload, w);
    hide TradeHead, FieldsFit, SpotFields, CommonFields, KeyFields;
  }

  lemma TradeFits(s: Ledger, tx: SpotTradeTx, p: seq<Fr>)
    requires Invariant(s) && MatchOrders(s, tx).Ok? && p == Payload(TradeFields(s, MatchOrders(s, tx).value, tx))
    requires tx.token1to2 < Pow2(s.levels.balance) && tx.token2to1 < Pow2(s.levels.balance)
    ensures |p| == TX_LENGTH && InPayload(p, SpotFields(WidthsOf(s.levels)))
    ensures var m := MatchOrders(s, tx).value;
            FieldsFit(p, SpotFields(WidthsOf(s.levels))) <==>
              OrderEncodes(s.levels, Order1After(m, tx)) && OrderEncodes(s.levels, Order2After(m, tx))
  {
    hide Invariant, MatchOrders, Pow2, FrOf, FieldsFit, Payload, CompressedFr, SpotFields, BalanceOf, At, Add;
    TradedSlots(s, tx);
    TradeParties(s, tx, p);
    PayloadLaid(TradeFields(s, MatchOrders(s, tx).value, tx));
    SmallLevels(s, tx.account1);
    SmallLevels(s, tx.account2);
    SpotFit(p, WidthsOf(s.levels));
  }

  lemma SmallLevels(s: Ledger, a: nat)
    requires Invariant(s) && a in s.accounts
    ensures a < Pow2(s.levels.account) && s.levels.balance < 32 && s.levels.order < 32 && s.levels.account < 32
  {
    hide Pow2, Synced, Slotted, Mapped;
  }

  /**
   * A trade's record is accepted exactly when the trade uses up at least one of its orders to the
   * unit and both orders fit the layout. Any other trade makes the forging of its block panic.
   */
  lemma TradeEncodable(s: Ledger, tx: SpotTradeTx, offset: Option<int>)
    requires Invariant(s) && Traded(s, tx).Ok? && tx.token1to2 < Pow2(s.levels.balance)
    requires tx.token2to1 < Pow2(s.levels.balance)
    ensures MatchOrders(s, tx).Ok?
    ensures var m := MatchOrders(s, tx).value;
            var order1, order2 := Order1After(m, tx), Order2After(m, tx);
            Encodable(TradeRaw(s, m, tx, Traded(s, tx).value, offset), WidthsOf(s.levels)) <==>
              (UsedUp(order1) || UsedUp(order2)) && OrderEncodes(s.levels, order1) && OrderEncodes(s.levels, order2)
  {
    TradedMatches(s, tx);
    var m := MatchOrders(s, tx).value;
    assert Compressible(m.order1) && Compressible(m.order2);
    hide Invariant, MatchOrders, Traded, Pow2, FieldsFit, Payload, Compressible, OrderEncodes, TradeHead, SpotFields;
    hide UsedUp, Encodable, WidthsOf;
    SameTotals(m, tx);
    TradeFits(s, tx, Payload(TradeFields(s, m, tx)));
    TradeHeading(TradeFields(s, m, tx), Order1After(m, tx), Order2After(m, tx));
    TradePlan(TradeRaw(s, m, tx, Traded(s, tx).value, offset), WidthsOf(s.levels));
  }
}
