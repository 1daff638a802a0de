/** What the public data of a block says of each operation, read bit by bit. */
module Published {
  import opened Field
  import opened Wrappers
  import opened Records
  import opened Ledger
  import opened Amounts
  import opened Transactions
  import opened BitEncoder
  import opened TxData
  import opened TxEncoder
  import opened Emission
  import opened Witness
  import opened TradeWitness
  import opened Blocks
  import opened Encodability
  import opened Fills
  import opened Emitted

  // ---------------------------------------------------------------- reading

  /** The number in `width` bits from a position on, least significant bit first. */
  function ReadAt(bits: seq<bool>, from: nat, width: nat): nat
    requires from + width <= |bits|
  {
    LsbValue(bits[from..from + width])
  }

  lemma {:induction false} WidthStep(fields: seq<FieldSpec>, i: nat)
    requires i < |fields|
    ensures TotalWidth(fields[..i + 1]) == TotalWidth(fields[..i]) + fields[i].width
  {
    if i > 0 {
      WidthStep(fields[1..], i - 1);
      assert fields[..i + 1][1..] == fields[1..][..i] && fields[..i][1..] == fields[1..][..i - 1];
    } else {
      assert fields[..1][1..] == [];
    }
  }

  lemma {:induction false} FieldBitsAt(payload: seq<Fr>, fields: seq<FieldSpec>, i: nat)
    requires InPayload(payload, fields) && i < |fields|
    ensures var from := TotalWidth(fields[..i]);
            && from + fields[i].width <= TotalWidth(fields)
            && FieldBits(payload, fields)[from..from + fields[i].width]
               == LsbBits(payload[fields[i].idx], fields[i].width)
  {
    var first, rest := LsbBits(payload[fields[0].idx], fields[0].width), FieldBits(payload, fields[1..]);
    if i == 0 {
      assert (first + rest)[0..fields[0].width] == first;
    } else {
      FieldBitsAt(payload, fields[1..], i - 1);
      assert fields[..i][1..] == fields[1..][..i - 1];
      var from, width := TotalWidth(fields[1..][..i - 1]), fields[i].width;
      assert (first + rest)[fields[0].width + from..fields[0].width + from + width] == rest[from..from + width];
    }
  }

  /** Field `i` of the layout stands in the record after the heading and the fields before it. */
  lemma RecordFieldAt(tx: RawTx, w: Widths, i: nat, from: nat)
    requires |tx.payload| == TX_LENGTH && Encodable(tx, w) && PlanOf(tx, w).Record? && i < |PlanOf(tx, w).fields|
    requires from == 3 + TotalWidth(PlanOf(tx, w).fields[..i])
    ensures var f := PlanOf(tx, w).fields[i];
            && f.idx < TX_LENGTH && from + f.width <= |TxBits(tx, w)|
            && ReadAt(TxBits(tx, w), from, f.width) == tx.payload[f.idx] % Pow2(f.width)
            && (!f.lenient ==> ReadAt(TxBits(tx, w), from, f.width) == tx.payload[f.idx])
  {
    hide PlanOf, RecordBits, LsbValue, TotalWidth, FieldsFit, LsbBits, Pow2, FieldBits;
    PlanReady(tx, w);
    var plan := PlanOf(tx, w);
    var head, body := LsbBits(plan.head, 3), FieldBits(tx.payload, plan.fields);
    var pad := Zeros(PadTo(|head + body|, RecordBits(w)));
    var f := plan.fields[i];
    FieldBitsAt(tx.payload, plan.fields, i);
    FieldValueAt(tx.payload, plan.fields, i);
    LsbRoundTrip(tx.payload[f.idx], f.width);
    assert TxBits(tx, w) == head + body + pad;
    assert (head + body + pad)[from..from + f.width] == body[from - 3..from - 3 + f.width];
  }

  lemma HeadingAt(tx: RawTx, w: Widths)
    requires |tx.payload| == TX_LENGTH && PlanOf(tx, w).Record?
    ensures 3 <= |TxBits(tx, w)| && ReadAt(TxBits(tx, w), 0, 3) == PlanOf(tx, w).head
  {
    hide PlanOf, RecordBits, TotalWidth, TxBits, LsbValue;
    RecordReadBack(tx, w);
    assert TxBits(tx, w)[0..3] == TxBits(tx, w)[..3];
  }

  // ---------------------------------------------------- records in a block

  /** The stretch of a block's public data that starts at this bit. */
  function RecordIn(block: L2Block, w: Widths, from: nat): seq<bool>
    requires from + RecordBits(w) <= |BytesToBits(block.publicData)|
  {
    BytesToBits(block.publicData)[from..from + RecordBits(w)]
  }

  lemma BlockRecord(block: L2Block, blockId: nat, txs: seq<RawTx>, w: Widths, i: nat, from: nat)
    requires IsBlock(block, blockId, txs, w) && i < |txs| && from == i * RecordBits(w)
    ensures |txs[i].payload| == TX_LENGTH && Encodable(txs[i], w) && PlanOf(txs[i], w).Record?
    ensures from + RecordBits(w) <= |BytesToBits(block.publicData)| && RecordIn(block, w, from) == TxBits(txs[i], w)
  {
    hide IsBlock, TxBits, RecordBits, BytesToBits, PlanOf, Encodable, BlockBits, WellFormed, AllEncodable;
    BlockFacts(block, blockId, txs, w, i);
    EncodableHasPlan(txs[i], w);
    BlockBitsAt(txs, w, i, from, |txs| * RecordBits(w));
  }

  // ---------------------------------------------- deposits and the like

  /** A heading, two account ids, a token and a 128-bit amount, one after the other. */
  ghost predicate SaysCommon(record: seq<bool>, w: Widths, heading: nat, id1: nat, id2: nat, t: nat, amount: Fr) {
    && 131 + 2 * w.account + w.token <= |record|
    && ReadAt(record, 0, 3) == heading
    && ReadAt(record, 3, w.account) == id1
    && ReadAt(record, 3 + w.account, w.account) == id2
    && ReadAt(record, 3 + 2 * w.account, w.token) == t
    && ReadAt(record, 3 + 2 * w.account + w.token, 128) == amount
  }

  lemma CommonSays(tx: RawTx, w: Widths, heading: nat)
    requires |tx.payload| == TX_LENGTH && Encodable(tx, w) && PlanOf(tx, w) == Record(heading, CommonFields(w))
    ensures SaysCommon(TxBits(tx, w), w, heading, tx.payload[ACCOUNT_ID1], tx.payload[ACCOUNT_ID2],
                       tx.payload[TOKEN_ID1], tx.payload[AMOUNT])
  {
    hide TxBits, Encodable, PlanOf, TotalWidth, ReadAt, Pow2;
    var f := CommonFields(w);
    WidthStep(f, 0);
    WidthStep(f, 1);
    WidthStep(f, 2);
    WidthOfNone(f);
    HeadingAt(tx, w);
    RecordFieldAt(tx, w, 0, 3);
    RecordFieldAt(tx, w, 1, 3 + w.account);
    RecordFieldAt(tx, w, 2, 3 + 2 * w.account);
    RecordFieldAt(tx, w, 3, 3 + 2 * w.account + w.token);
  }

  lemma WidthOfNone(fields: seq<FieldSpec>)
    ensures TotalWidth(fields[..0]) == 0
  {
  }

  /** A deposit is published with heading 0, the account twice, the token and the amount. */
  lemma DepositPublished(block: L2Block, blockId: nat, txs: seq<RawTx>, i: nat, from: nat,
                         s: Ledger, a: nat, t: nat, amount: Fr, after: Ledger, offset: Option<int>)
    requires IsBlock(block, blockId, txs, WidthsOf(s.levels)) && i < |txs| && from == i * RecordBits(WidthsOf(s.levels))
    requires Shape(s) && a < Pow2(s.levels.account) && t < Pow2(s.levels.balance)
    requires txs[i] == DepositRaw(s, a, t, amount, after, offset)
    ensures from + RecordBits(WidthsOf(s.levels)) <= |BytesToBits(block.publicData)|
    ensures SaysCommon(RecordIn(block, WidthsOf(s.levels), from), WidthsOf(s.levels), 0, a, a, t, amount)
  {
    SmallShape(s);
    hide IsBlock, RecordBits, BytesToBits, TxBits, Encodable, Shape, Pow2, Payload, FrOf, CommonFields, KeyFields;
    hide SpotFields, BalanceOf, At, Add, SaysCommon, RecordIn;
    BlockRecord(block, blockId, txs, WidthsOf(s.levels), i, from);
    PayloadLaid(DepositFields(s, a, t, amount));
    IndexFits(s.levels.account, a);
    IndexFits(s.levels.balance, t);
    CommonSays(txs[i], WidthsOf(s.levels), 0);
  }

  lemma SmallShape(s: Ledger)
    requires Shape(s)
    ensures s.levels.account < 32 && s.levels.balance < 32 && s.levels.order < 32
  {
    hide Pow2;
  }

  /** A withdrawal is published with heading 4, the account twice, the token and the amount. */
  lemma WithdrawPublished(block: L2Block, blockId: nat, txs: seq<RawTx>, i: nat, from: nat,
                          s: Ledger, a: nat, t: nat, amount: Fr, sig: Signature, after: Ledger, offset: Option<int>)
    requires IsBlock(block, blockId, txs, WidthsOf(s.levels)) && i < |txs| && from == i * RecordBits(WidthsOf(s.levels))
    requires Shape(s) && a < Pow2(s.levels.account) && t < Pow2(s.levels.balance)
    requires txs[i] == WithdrawRaw(s, a, t, amount, sig, after, offset)
    ensures from + RecordBits(WidthsOf(s.levels)) <= |BytesToBits(block.publicData)|
    ensures SaysCommon(RecordIn(block, WidthsOf(s.levels), from), WidthsOf(s.levels), 4, a, a, t, amount)
  {
    SmallShape(s);
    hide IsBlock, RecordBits, BytesToBits, TxBits, Encodable, Shape, Pow2, Payload, FrOf, CommonFields, KeyFields;
    hide SpotFields, BalanceOf, At, Add, Sub, SaysCommon, RecordIn;
    BlockRecord(block, blockId, txs, WidthsOf(s.levels), i, from);
    PayloadLaid(WithdrawFields(s, a, t, amount, sig));
    IndexFits(s.levels.account, a);
    IndexFits(s.levels.balance, t);
    CommonSays(txs[i], WidthsOf(s.levels), 4);
  }

  /** A transfer is published with heading 0, sender, recipient, token and amount. */
  lemma TransferPublished(block: L2Block, blockId: nat, txs: seq<RawTx>, i: nat, from: nat,
                          s: Ledger, sender: nat, to: nat, t: nat, amount: Fr, sig: Signature, after: Ledger,
                          offset: Option<int>)
    requires IsBlock(block, blockId, txs, WidthsOf(s.levels)) && i < |txs| && from == i * RecordBits(WidthsOf(s.levels))
    requires Shape(s) && sender < Pow2(s.levels.account) && to < Pow2(s.levels.account) && t < Pow2(s.levels.balance)
    requires txs[i] == TransferRaw(s, sender, to, t, amount, sig, after, offset)
    ensures from + RecordBits(WidthsOf(s.levels)) <= |BytesToBits(block.publicData)|
    ensures SaysCommon(RecordIn(block, WidthsOf(s.levels), from), WidthsOf(s.levels), 0, sender, to, t, amount)
  {
    SmallShape(s);
    hide IsBlock, RecordBits, BytesToBits, TxBits, Encodable, Shape, Pow2, Payload, FrOf, CommonFields, KeyFields;
    hide SpotFields, BalanceOf, At, Add, SaysCommon, RecordIn, BalancePath, AccountPath, TrivialOrderPath, StateRoot;
    BlockRecord(block, blockId, txs, WidthsOf(s.levels), i, from);
    PayloadLaid(TransferFields(s, sender, to, t, amount, sig));
    IndexFits(s.levels.account, sender);
    IndexFits(s.levels.account, to);
    IndexFits(s.levels.balance, t);
    CommonSays(txs[i], WidthsOf(s.levels), 0);
  }

  // -------------------------------------------------------------- new keys

  /** A heading of 1, an account id, the sign of its new key and the key. */
  ghost predicate SaysKey(record: seq<bool>, w: Widths, a: nat, sign: Fr, ay: Fr) {
    && 258 + w.account <= |record|
    && ReadAt(record, 0, 3) == 1
    && ReadAt(record, 3, w.account) == a
    && ReadAt(record, 3 + w.account, 1) == sign
    && ReadAt(record, 4 + w.account, 254) == ay
  }

  lemma KeySays(tx: RawTx, w: Widths)
    requires |tx.payload| == TX_LENGTH && Encodable(tx, w) && PlanOf(tx, w) == Record(1, KeyFields(w))
    ensures SaysKey(TxBits(tx, w), w, tx.payload[ACCOUNT_ID1], tx.payload[SIGN2], tx.payload[AY2])
  {
    hide TxBits, Encodable, PlanOf, TotalWidth, ReadAt, Pow2;
    var f := KeyFields(w);
    WidthStep(f, 0);
    WidthStep(f, 1);
    WidthOfNone(f);
    HeadingAt(tx, w);
    RecordFieldAt(tx, w, 0, 3);
    RecordFieldAt(tx, w, 1, 3 + w.account);
    RecordFieldAt(tx, w, 2, 4 + w.account);
  }

  /** A key update is published with the account and its new key. */
  lemma KeyUpdatePublished(block: L2Block, blockId: nat, txs: seq<RawTx>, i: nat, from: nat,
                           s: Ledger, a: nat, sign: Fr, ay: Fr, after: Ledger, offset: Option<int>)
    requires IsBlock(block, blockId, txs, WidthsOf(s.levels)) && i < |txs| && from == i * RecordBits(WidthsOf(s.levels))
    requires Shape(s) && a < Pow2(s.levels.account)
    requires txs[i] == KeyUpdateRaw(s, a, sign, ay, after, offset)
    ensures from + RecordBits(WidthsOf(s.levels)) <= |BytesToBits(block.publicData)|
    ensures SaysKey(RecordIn(block, WidthsOf(s.levels), from), WidthsOf(s.levels), a, sign, ay)
  {
    SmallShape(s);
    hide IsBlock, RecordBits, BytesToBits, TxBits, Encodable, Shape, Pow2, Payload, FrOf, CommonFields, KeyFields;
    hide SpotFields, BalanceOf, At, Add, SaysKey, RecordIn;
    BlockRecord(block, blockId, txs, WidthsOf(s.levels), i, from);
    PayloadLaid(KeyUpdateFields(s, a, sign, ay));
    IndexFits(s.levels.account, a);
    KeySays(txs[i], WidthsOf(s.levels));
  }

  /** An empty transaction is published as nothing but zeros. */
  lemma NopPublished(block: L2Block, blockId: nat, txs: seq<RawTx>, i: nat, from: nat, s: Ledger)
    requires IsBlock(block, blockId, txs, WidthsOf(s.levels)) && i < |txs| && from == i * RecordBits(WidthsOf(s.levels))
    requires txs[i] == NopRaw(s)
    ensures from + RecordBits(WidthsOf(s.levels)) <= |BytesToBits(block.publicData)|
    ensures forall k :: 0 <= k < RecordBits(WidthsOf(s.levels)) ==> !RecordIn(block, WidthsOf(s.levels), from)[k]
  {
    hide IsBlock, RecordBits, BytesToBits, Encodable, Payload, BalancePath, AccountPath, TrivialOrderPath, StateRoot;
    BlockRecord(block, blockId, txs, WidthsOf(s.levels), i, from);
    assert LsbBits(0, 3) == [false, false, false];
  }

  // ----------------------------------------------------------------- trades

  /** What a trade's record says of one order: compressed totals, its slot and the low bits of its id. */
  ghost predicate SaysOrder(record: seq<bool>, at: nat, w: Widths, order: Order, pos: nat)
    requires at + 112 + w.order <= |record|
  {
    && Decompress(ReadAt(record, at, 40)) == order.totalSell
    && Decompress(ReadAt(record, at + 40, 40)) == order.totalBuy
    && ReadAt(record, at + 80, w.order) == pos
    && ReadAt(record, at + 80 + w.order, 32) == order.orderId % P % 4294967296
  }

  /** The record of a trade: which orders are used up, both accounts, the tokens sold, and both orders. */
  ghost predicate SaysTrade(record: seq<bool>, w: Widths, a1: nat, a2: nat, order1: Order, pos1: nat, order2: Order,
                            pos2: nat) {
    && var orders := 3 + 2 * w.account + 2 * w.token;
    && orders + 224 + 2 * w.order <= |record|
    && ReadAt(record, 0, 3) == (if UsedUp(order1) then 2 else 0) + (if UsedUp(order2) then 4 else 0)
    && ReadAt(record, 3, w.account) == a1
    && ReadAt(record, 3 + w.account, w.account) == a2
    && ReadAt(record, 3 + 2 * w.account, w.token) == order1.tokenSell
    && ReadAt(record, 3 + 2 * w.account + w.token, w.token) == order2.tokenSell
    && SaysOrder(record, orders, w, order1, pos1)
    && SaysOrder(record, orders + 112 + w.order, w, order2, pos2)
  }

  /** The twelve fields of a trade by position. */
  ghost predicate SpotSaid(record: seq<bool>, w: Widths, p: seq<Fr>)
    requires |p| == TX_LENGTH
  {
    && var orders := 3 + 2 * w.account + 2 * w.token;
    && orders + 224 + 2 * w.order <= |record|
    && ReadAt(record, 3, w.account) == p[ACCOUNT_ID1] && ReadAt(record, 3 + w.account, w.account) == p[ACCOUNT_ID2]
    && ReadAt(record, 3 + 2 * w.account, w.token) == p[NEW_ORDER1_TOKEN_SELL]
    && ReadAt(record, 3 + 2 * w.account + w.token, w.token) == p[NEW_ORDER2_TOKEN_SELL]
    && ReadAt(record, orders, 40) == p[NEW_ORDER1_AMOUNT_SELL]
    && ReadAt(record, orders + 40, 40) == p[NEW_ORDER1_AMOUNT_BUY]
    && ReadAt(record, orders + 80, w.order) == p[ORDER1_POS]
    && ReadAt(record, orders + 80 + w.order, 32) == p[NEW_ORDER1_ID] % 4294967296
    && ReadAt(record, orders + 112 + w.order, 40) == p[NEW_ORDER2_AMOUNT_SELL]
    && ReadAt(record, orders + 112 + w.order + 40, 40) == p[NEW_ORDER2_AMOUNT_BUY]
    && ReadAt(record, orders + 112 + w.order + 80, w.order) == p[ORDER2_POS]
    && ReadAt(record, orders + 112 + w.order + 80 + w.order, 32) == p[NEW_ORDER2_ID] % 4294967296
  }

  lemma SpotPrefixes(w: Widths)
    ensures var f := SpotFields(w);
            && |f| == 12 && TotalWidth(f[..0]) == 0 && TotalWidth(f[..1]) == w.account
            && TotalWidth(f[..2]) == 2 * w.account
            && TotalWidth(f[..3]) == 2 * w.account + w.token && TotalWidth(f[..4]) == 2 * w.account + 2 * w.token
            && TotalWidth(f[..5]) == 40 + 2 * w.account + 2 * w.token
            && TotalWidth(f[..6]) == 80 + 2 * w.account + 2 * w.token
            && TotalWidth(f[..7]) == 80 + 2 * w.account + 2 * w.token + w.order
            && TotalWidth(f[..8]) == 112 + 2 * w.account + 2 * w.token + w.order
            && TotalWidth(f[..9]) == 152 + 2 * w.account + 2 * w.token + w.order
            && TotalWidth(f[..10]) == 192 + 2 * w.account + 2 * w.token + w.order
            && TotalWidth(f[..11]) == 192 + 2 * w.account + 2 * w.token + 2 * w.order
  {
    hide TotalWidth;
    var f := SpotFields(w);
    WidthOfNone(f);
    WidthStep(f, 0);
    WidthStep(f, 1);
    WidthStep(f, 2);
    WidthStep(f, 3);
    WidthStep(f, 4);
    WidthStep(f, 5);
    WidthStep(f, 6);
    WidthStep(f, 7);
    WidthStep(f, 8);
    WidthStep(f, 9);
    WidthStep(f, 10);
  }

  lemma SpotSays(tx: RawTx, w: Widths)
    requires |tx.payload| == TX_LENGTH && Encodable(tx, w) && PlanOf(tx, w).Record?
    requires PlanOf(tx, w).fields == SpotFields(w)
    ensures SpotSaid(TxBits(tx, w), w, tx.payload)
  {
    SpotPrefixes(w);
    WordSize();
    hide TxBits, Encodable, PlanOf, TotalWidth, ReadAt, Pow2;
    RecordFieldAt(tx, w, 0, 3);
    RecordFieldAt(tx, w, 1, 3 + w.account);
    RecordFieldAt(tx, w, 2, 3 + 2 * w.account);
    RecordFieldAt(tx, w, 3, 3 + 2 * w.account + w.token);
    var orders := 3 + 2 * w.account + 2 * w.token;
    RecordFieldAt(tx, w, 4, orders);
    RecordFieldAt(tx, w, 5, orders + 40);
    RecordFieldAt(tx, w, 6, orders + 80);
    RecordFieldAt(tx, w, 7, orders + 80 + w.order);
    RecordFieldAt(tx, w, 8, orders + 112 + w.order);
    RecordFieldAt(tx, w, 9, orders + 112 + w.order + 40);
    RecordFieldAt(tx, w, 10, orders + 112 + w.order + 80);
    RecordFieldAt(tx, w, 11, orders + 112 + w.order + 80 + w.order);
  }

  lemma SpotPlan(tx: RawTx, w: Widths)
    requires |tx.payload| == TX_LENGTH && tx.txType == SpotTrade && PlanOf(tx, w).Record?
    ensures PlanOf(tx, w) == Record(TradeHead(tx.payload), SpotFields(w))
  {
    hide TradeHead, SpotFields;
  }

  lemma HeldHeading(p: seq<Fr>, order1: Order, order2: Order)
    requires |p| == TX_LENGTH && HoldsCompressed(p, 38, order1) && HoldsCompressed(p, 52, order2)
    ensures TradeHead(p) == (if UsedUp(order1) then 2 else 0) + (if UsedUp(order2) then 4 else 0)
  {
    hide Decompress;
  }

  lemma TradeSays(record: seq<bool>, w: Widths, p: seq<Fr>, s: Ledger, tx: SpotTradeTx, pos1: nat, pos2: nat,
                  old1: Order, old2: Order, order1: Order, order2: Order, sell1: Fr, buy1: Fr, sell2: Fr, buy2: Fr)
    requires HoldsTrade(p, s, tx, pos1, pos2, old1, old2, order1, order2, sell1, buy1, sell2, buy2)
    requires tx.account1 % P == tx.account1 && tx.account2 % P == tx.account2 && pos1 % P == pos1 && pos2 % P == pos2
    requires SpotSaid(record, w, p) && ReadAt(record, 0, 3) == TradeHead(p)
    ensures SaysTrade(record, w, tx.account1, tx.account2, order1, pos1, order2, pos2)
  {
    hide ReadAt, Decompress, TradeHead, At, Add, HoldsOrder, HoldsSignature;
    HeldHeading(p, order1, order2);
    assert p[24..31][5] == p[29] && p[24..31][6] == p[30];
    assert p[0..7][1] == p[1] && p[7..14][1] == p[8];
  }

  /** A trade is published with its accounts and with both orders as they stand in their slots afterwards. */
  lemma TradePublished(block: L2Block, blockId: nat, txs: seq<RawTx>, i: nat, from: nat, s: Ledger, tx: SpotTradeTx,
                       offset: Option<int>)
    requires IsBlock(block, blockId, txs, WidthsOf(s.levels)) && i < |txs| && from == i * RecordBits(WidthsOf(s.levels))
    requires Invariant(s) && Traded(s, tx).Ok? && MatchOrders(s, tx).Ok?
    requires tx.token1to2 < Pow2(s.levels.balance) && tx.token2to1 < Pow2(s.levels.balance)
    requires txs[i] == TradeRaw(s, MatchOrders(s, tx).value, tx, Traded(s, tx).value, offset)
    ensures from + RecordBits(WidthsOf(s.levels)) <= |BytesToBits(block.publicData)|
    ensures var r, a1, a2 := Traded(s, tx).value, tx.account1, tx.account2;
            var slot1, slot2 := SlotOf(s, r, a1, tx.order1Id, tx.maker), SlotOf(s, r, a2, tx.order2Id, tx.taker);
            && slot1.Some? && slot2.Some?
            && SaysTrade(RecordIn(block, WidthsOf(s.levels), from), WidthsOf(s.levels), a1, a2,
                         OrderAt(r, a1, slot1.value), slot1.value, OrderAt(r, a2, slot2.value), slot2.value)
  {
    hide *;
    var w, m, r, a1, a2 := WidthsOf(s.levels), MatchOrders(s, tx).value, Traded(s, tx).value, tx.account1, tx.account2;
    BlockRecord(block, blockId, txs, w, i, from);
    TradeEmitted(s, tx, offset);
    TradeSettles(s, tx);
    TradeIds(s, tx);
    SpotPlan(txs[i], w);
    HeadingAt(txs[i], w);
    SpotSays(txs[i], w);
    TradeSays(TxBits(txs[i], w), w, txs[i].payload, s, tx, m.pos1, m.pos2,
              OrderAt(s, a1, m.pos1), OrderAt(s, a2, m.pos2), OrderAt(r, a1, m.pos1), OrderAt(r, a2, m.pos2),
              StoredBalance(s, a1, tx.token1to2), StoredBalance(s, a1, tx.token2to1),
              StoredBalance(s, a2, tx.token2to1), StoredBalance(s, a2, tx.token1to2));
  }

  lemma TradeIds(s: Ledger, tx: SpotTradeTx)
    requires Invariant(s) && MatchOrders(s, tx).Ok?
    requires tx.token1to2 < Pow2(s.levels.balance) && tx.token2to1 < Pow2(s.levels.balance)
    ensures var m := MatchOrders(s, tx).value;
            && tx.account1 % P == tx.account1 && tx.account2 % P == tx.account2
            && m.pos1 % P == m.pos1 && m.pos2 % P == m.pos2
  {
    hide Invariant, MatchOrders, Pow2;
    TradeIndices(s, tx);
  }
}
