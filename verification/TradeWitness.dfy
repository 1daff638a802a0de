/** The replay of a spot trade: two balance chains, two order slots and one chain of account roots. */
module TradeWitness {
  import opened Field
  import opened Wrappers
  import opened MerkleSpec
  import opened Records
  import opened Ledger
  import opened Slots
  import opened Batch
  import opened Amounts
  import opened Transactions
  import opened Settlement
  import opened Invariants
  import opened Conservation
  import opened TxData
  import opened Emission
  import opened Witness

  function OrderDigest(id: Fr, tokenSell: Fr, filledSell: Fr, totalSell: Fr, tokenBuy: Fr, filledBuy: Fr,
                       totalBuy: Fr): Fr {
    POSEIDON([Add(Add(id, Shl(tokenBuy, 32)), Shl(tokenSell, 64)), filledSell, filledBuy, totalSell, totalBuy])
  }

  /** The order that was in the first slot; its totals are in the payload as they are. */
  function OldOrder1(p: seq<Fr>): Fr
    requires |p| == TX_LENGTH
  {
    OrderDigest(p[OLD_ORDER1_ID], p[OLD_ORDER1_TOKEN_SELL], p[OLD_ORDER1_FILLED_SELL], p[OLD_ORDER1_AMOUNT_SELL],
                p[OLD_ORDER1_TOKEN_BUY], p[OLD_ORDER1_FILLED_BUY], p[OLD_ORDER1_AMOUNT_BUY])
  }

  /** The order that is there now; its totals are in the payload compressed. */
  function NewOrder1(p: seq<Fr>): Fr
    requires |p| == TX_LENGTH
  {
    OrderDigest(p[NEW_ORDER1_ID], p[NEW_ORDER1_TOKEN_SELL], p[NEW_ORDER1_FILLED_SELL],
                Decompress(p[NEW_ORDER1_AMOUNT_SELL]),
                p[NEW_ORDER1_TOKEN_BUY], p[NEW_ORDER1_FILLED_BUY], Decompress(p[NEW_ORDER1_AMOUNT_BUY]))
  }

  function OldOrder2(p: seq<Fr>): Fr
    requires |p| == TX_LENGTH
  {
    OrderDigest(p[OLD_ORDER2_ID], p[OLD_ORDER2_TOKEN_SELL], p[OLD_ORDER2_FILLED_SELL], p[OLD_ORDER2_AMOUNT_SELL],
                p[OLD_ORDER2_TOKEN_BUY], p[OLD_ORDER2_FILLED_BUY], p[OLD_ORDER2_AMOUNT_BUY])
  }

  function NewOrder2(p: seq<Fr>): Fr
    requires |p| == TX_LENGTH
  {
    OrderDigest(p[NEW_ORDER2_ID], p[NEW_ORDER2_TOKEN_SELL], p[NEW_ORDER2_FILLED_SELL],
                Decompress(p[NEW_ORDER2_AMOUNT_SELL]),
                p[NEW_ORDER2_TOKEN_BUY], p[NEW_ORDER2_FILLED_BUY], Decompress(p[NEW_ORDER2_AMOUNT_BUY]))
  }

  /** One side's balances: the sell leaf and the buy leaf change through one middle root. */
  datatype Sale = Sale(sellToken: nat, sellBalance: Fr, sold: Fr, sellPath: seq<Fr>, buyToken: nat, buyBalance: Fr,
                       bought: Fr, buyPath: seq<Fr>)
  {
    function RootBefore(): Fr {
      Fold(sellBalance, sellPath, sellToken)
    }

    predicate Chains() {
      Fold(Sub(sellBalance, sold), sellPath, sellToken) == Fold(Sub(buyBalance, bought), buyPath, buyToken)
    }

    function RootAfter(): Fr {
      Fold(buyBalance, buyPath, buyToken)
    }

    /** The same balances and paths under other token ids. */
    function With(sell: nat, buy: nat): Sale {
      this.(sellToken := sell, buyToken := buy)
    }
  }

  function Sale1(raw: RawTx): Sale
    requires |raw.payload| == TX_LENGTH
  {
    var p := raw.payload;
    Sale(p[TOKEN_ID1], p[BALANCE1], p[AMOUNT1], raw.balancePath0, p[NEW_ORDER1_TOKEN_BUY], p[BALANCE4], p[AMOUNT2],
         raw.balancePath3)
  }

  function Sale2(raw: RawTx): Sale
    requires |raw.payload| == TX_LENGTH
  {
    var p := raw.payload;
    Sale(p[NEW_ORDER2_TOKEN_SELL], p[BALANCE3], p[AMOUNT2], raw.balancePath2, p[TOKEN_ID2], p[BALANCE2], p[AMOUNT1],
         raw.balancePath1)
  }

  function Before1(raw: RawTx): Fr
    requires |raw.payload| == TX_LENGTH
  {
    var p := raw.payload;
    Digest(p[NONCE1], p[SIGN1], Sale1(raw).RootBefore(), p[AY1], Fold(OldOrder1(p), raw.orderPath0, p[ORDER1_POS]))
  }

  function After1(raw: RawTx): Fr
    requires |raw.payload| == TX_LENGTH
  {
    var p := raw.payload;
    Digest(p[NONCE1], p[SIGN1], Sale1(raw).RootAfter(), p[AY1], Fold(NewOrder1(p), raw.orderPath0, p[ORDER1_POS]))
  }

  function Before2(raw: RawTx): Fr
    requires |raw.payload| == TX_LENGTH
  {
    var p := raw.payload;
    Digest(p[NONCE2], p[SIGN2], Sale2(raw).RootBefore(), p[AY2], Fold(OldOrder2(p), raw.orderPath1, p[ORDER2_POS]))
  }

  function After2(raw: RawTx): Fr
    requires |raw.payload| == TX_LENGTH
  {
    var p := raw.payload;
    Digest(p[NONCE2], p[SIGN2], Sale2(raw).RootAfter(), p[AY2], Fold(NewOrder2(p), raw.orderPath1, p[ORDER2_POS]))
  }

  /** Everything a verifier can replay of a trade. */
  predicate TradeReplay(raw: RawTx) {
    && var p := raw.payload;
    && |p| == TX_LENGTH && p[AMOUNT1] < p[BALANCE1] && p[AMOUNT2] < p[BALANCE3]
    && Sale1(raw).Chains() && Sale2(raw).Chains()
    && Fold(OldOrder1(p), raw.orderPath0, p[ORDER1_POS]) == raw.orderRoot0
    && Fold(NewOrder2(p), raw.orderPath1, p[ORDER2_POS]) == raw.orderRoot1
    && Fold(Before1(raw), raw.accountPath0, p[ACCOUNT_ID1]) == raw.rootBefore
    && Fold(After1(raw), raw.accountPath0, p[ACCOUNT_ID1]) == Fold(Before2(raw), raw.accountPath1, p[ACCOUNT_ID2])
    && Fold(After2(raw), raw.accountPath1, p[ACCOUNT_ID2]) == raw.rootAfter
  }

  // --------------------------------------------------------- after the trade

  /**
   * The order each side trades with names the tokens of the trade, as far as a balance tree of this height tells tokens
   * apart.
   */
  predicate TokensAgree(levels: Levels, m: Matched, tx: SpotTradeTx) {
    var n := Pow2(levels.balance);
    && m.order1.tokenSell % n == tx.token1to2 % n && m.order1.tokenBuy % n == tx.token2to1 % n
    && m.order2.tokenSell % n == tx.token2to1 % n && m.order2.tokenBuy % n == tx.token1to2 % n
  }

  /** One side's record after the trade. */
  ghost predicate SideRecord(s: Ledger, r: Ledger, a: nat, pos: nat, order: Order, t: nat, x: Fr, t': nat, y: Fr) {
    && var before, after := At(s, a), At(r, a);
    && pos < |before.orderLeaves| && t < |before.balances| && t' < |before.balances|
    && after.balances == before.balances[t := x][t' := y]
    && after.orderLeaves == before.orderLeaves[pos := order.Hash()]
    && after.state == before.state.(balanceRoot := Root(after.balances, s.levels.balance),
                                    orderRoot := Root(after.orderLeaves, s.levels.order))
  }

  lemma UpdatedRecord(s: Ledger, r: Ledger, a: nat, account: Account, u: AccountUpdates, pos: nat, order: Order, t: nat,
                      x: Fr, t': nat, y: Fr)
    requires account.state == At(s, a).state && account.balances == At(s, a).balances
    requires account.orderLeaves == At(s, a).orderLeaves
    requires pos < |account.orderLeaves| && t < |account.balances| && t' < |account.balances|
    requires u.balanceUpdates == [(t, x), (t', y)] && u.orderUpdates == [(pos, order.Hash())] && u.newNonce == None
    requires At(r, a) == Updated(s.levels, account, u)
    ensures SideRecord(s, r, a, pos, order, t, x, t', y)
  {
    hide At, Root, ApplyUpdates, Order.Hash;
    TwoWrites(account.balances, t, x, t', y);
    OneWrite(account.orderLeaves, pos, order.Hash());
  }

  lemma TradedLeaves(s: Ledger, tx: SpotTradeTx)
    requires Invariant(s) && Traded(s, tx).Ok?
    ensures var r, a1, a2 := Traded(s, tx).value, tx.account1, tx.account2;
            && r.levels == s.levels && a1 != a2 && a1 < |s.leaves| && a2 < |s.leaves|
            && r.leaves == s.leaves[a1 := At(r, a1).state.Hash()][a2 := At(r, a2).state.Hash()]
  {
    MatchedPlacements(s, tx);
    KeyedExists(s, tx.account1);
    KeyedExists(s, tx.account2);
    Bounded(s, tx.account1);
    Bounded(s, tx.account2);
    MatchedRecords(s, tx);
    hide MatchOrders, Covered, Compressible, TradeUpdates, OrdersWritten, Updated, AccountState.Hash, EmptyAccount;
    hide Invariant;
  }

  /** Mapping another account's ids does not change where an order goes. */
  lemma PlacementApart(s: Ledger, r: Ledger, a: nat, orderId: nat)
    requires r.levels == s.levels && At(r, a) == At(s, a)
    requires (a, orderId) in r.positions <==> (a, orderId) in s.positions
    requires (a, orderId) in s.positions ==> r.positions[(a, orderId)] == s.positions[(a, orderId)]
    requires Placement(r, a, orderId).Ok?
    ensures Placement(s, a, orderId).Ok?
    ensures Placement(r, a, orderId).value.0 == Placement(s, a, orderId).value.0
    ensures Placement(r, a, orderId).value.1 == Placement(s, a, orderId).value.1
              == OrderAt(s, a, Placement(s, a, orderId).value.0)
  {
    hide NextPos, EmptyAccount;
  }

  lemma FirstPlacement(s: Ledger, a: nat, orderId: nat, b: nat)
    requires Placement(s, a, orderId).Ok? && b != a
    ensures var placed := Placement(s, a, orderId).value.2;
            && placed.levels == s.levels && At(placed, b) == At(s, b)
            && forall id: nat :: ((b, id) in placed.positions <==> (b, id) in s.positions)
                 && ((b, id) in s.positions ==> placed.positions[(b, id)] == s.positions[(b, id)])
  {
    hide NextPos, EmptyAccount;
  }

  /** The slots a trade settles in, and what they held. */
  lemma TradedSlots(s: Ledger, tx: SpotTradeTx)
    requires Invariant(s) && MatchOrders(s, tx).Ok?
    ensures var m := MatchOrders(s, tx).value;
            && tx.account1 in s.accounts && tx.account2 in s.accounts
            && m.pos1 < Pow2(s.levels.order) && m.pos2 < Pow2(s.levels.order)
            && m.old1 == OrderAt(s, tx.account1, m.pos1) && m.old2 == OrderAt(s, tx.account2, m.pos2)
  {
    MatchedPlacements(s, tx);
    KeyedExists(s, tx.account1);
    KeyedExists(s, tx.account2);
    hide MatchOrders, Invariant, Victim, Pow2, PickOrder, Placement, EmptyAccount;
    var m := MatchOrders(s, tx).value;
    FirstPlacement(s, tx.account1, m.order1.orderId, tx.account2);
    PlacementApart(s, Placement(s, tx.account1, m.order1.orderId).value.2, tx.account2, m.order2.orderId);
    PlacementCases(s, tx.account1, m.order1.orderId);
    PlacementCases(s, tx.account2, m.order2.orderId);
  }

  lemma TradedRecords(s: Ledger, tx: SpotTradeTx)
    requires Invariant(s) && Traded(s, tx).Ok?
    requires tx.token1to2 < Pow2(s.levels.balance) && tx.token2to1 < Pow2(s.levels.balance)
    ensures var r, m, a1, a2 := Traded(s, tx).value, MatchOrders(s, tx).value, tx.account1, tx.account2;
            && SideRecord(s, r, a1, m.pos1, Order1After(m, tx),
                          tx.token1to2, Sub(StoredBalance(s, a1, tx.token1to2), tx.amount1to2),
                          tx.token2to1, Add(StoredBalance(s, a1, tx.token2to1), tx.amount2to1))
            && SideRecord(s, r, a2, m.pos2, Order2After(m, tx),
                          tx.token1to2, Add(StoredBalance(s, a2, tx.token1to2), tx.amount1to2),
                          tx.token2to1, Sub(StoredBalance(s, a2, tx.token2to1), tx.amount2to1))
  {
    var m, a1, a2 := MatchOrders(s, tx).value, tx.account1, tx.account2;
    TradedSupply(s, tx, 0);
    MatchedRecords(s, tx);
    TradedSlots(s, tx);
    TradeReads(s, tx);
    Bounded(s, a1);
    Bounded(s, a2);
    Reads(s, a1);
    Reads(s, a2);
    hide Invariant, Synced, Slotted, MatchOrders, Traded, EmptyAccount, OrdersWritten, Updated, SideRecord, BalanceOf;
    hide StoredBalance, Add, Sub, Pow2, Order1After, Order2After, Order.Hash, Supply;
    var us, w, r := TradeUpdates(m, tx), OrdersWritten(m, tx), Traded(s, tx).value;
    UpdatedRecord(s, r, a1, At(w, a1), us[0], m.pos1, Order1After(m, tx),
                  tx.token1to2, us[0].balanceUpdates[0].1, tx.token2to1, us[0].balanceUpdates[1].1);
    UpdatedRecord(s, r, a2, At(w, a2), us[1], m.pos2, Order2After(m, tx),
                  tx.token1to2, us[1].balanceUpdates[0].1, tx.token2to1, us[1].balanceUpdates[1].1);
  }

  // ------------------------------------------------------------ the payload

  lemma OldFieldsDigest(p: seq<Fr>, m: Matched, f: Fields)
    requires Laid(p, f) && f.old1 == OldFields(m.old1) && f.old2 == OldFields(m.old2)
    ensures OldOrder1(p) == m.old1.Hash() && OldOrder2(p) == m.old2.Hash()
  {
    hide Shl, Add;
  }

  lemma CompressedBack(x: Fr)
    requires Compress(x).Ok?
    ensures Decompress(CompressedFr(x)) == x
  {
    RoundTrip(x);
    CompressedSize(x);
    ModUnique(P, 0, Compress(x).value);
    hide Compress, Decompress;
  }

  lemma NewFieldsDigest(p: seq<Fr>, order1: Order, order2: Order, f: Fields)
    requires Laid(p, f) && f.new1 == NewFields(order1) && f.new2 == NewFields(order2)
    requires Compressible(order1) && Compressible(order2)
    ensures NewOrder1(p) == order1.Hash() && NewOrder2(p) == order2.Hash()
  {
    CompressedBack(order1.totalSell);
    CompressedBack(order1.totalBuy);
    CompressedBack(order2.totalSell);
    CompressedBack(order2.totalBuy);
    hide Shl, Add, Compress, Decompress, CompressedFr;
  }

  // --------------------------------------------------------------- one side

  /** A row of balances sold from at `t` and bought into at `t'`. */
  function Sold(row: seq<Fr>, t: nat, sold: Fr, t': nat, bought: Fr): seq<Fr>
    requires t < |row| && t' < |row|
  {
    row[t := Sub(row[t], sold)][t' := Add(row[t'], bought)]
  }

  /** The sale a trade emits for a row: sell path before the trade, buy path after it. */
  function SaleOf(levels: Levels, row: seq<Fr>, t: nat, sold: Fr, t': nat, bought: Fr, after: seq<Fr>): Sale
    requires t < |row| && t' < |row|
  {
    Sale(t, row[t], sold, Path(row, levels.balance, t), t', Add(row[t'], bought), bought,
         Path(after, levels.balance, t'))
  }

  lemma SaleChains(levels: Levels, row: seq<Fr>, t: nat, sold: Fr, t': nat, bought: Fr)
    requires |row| == Pow2(levels.balance) && t < |row| && t' < |row|
    requires t != t' || (sold == 0 && bought == 0)
    ensures var after := Sold(row, t, sold, t', bought);
            var sale := SaleOf(levels, row, t, sold, t', bought, after);
            sale.RootBefore() == Root(row, levels.balance) && sale.Chains() && sale.RootAfter()
              == Root(after, levels.balance)
  {
    hide Path, Fold, Root, Pow2, Add, Sub;
    AddSub(row[t'], bought);
    if t != t' {
      TwoWriteChain(row, levels.balance, t, Sub(row[t], sold), t', Add(row[t'], bought));
    } else {
      Unchanged(row[t]);
      assert Sold(row, t, sold, t', bought) == row;
      FoldGivesRoot(row, levels.balance, t);
    }
  }

  /** Token ids that are congruent modulo the size of the tree make no difference. */
  lemma SaleModulo(sale: Sale, x: nat, y: nat, n: nat)
    requires |sale.sellPath| == n && |sale.buyPath| == n
    requires x % Pow2(n) == sale.sellToken % Pow2(n) && y % Pow2(n) == sale.buyToken % Pow2(n)
    ensures sale.With(x, y).RootBefore() == sale.RootBefore() && sale.With(x, y).RootAfter() == sale.RootAfter()
    ensures sale.With(x, y).Chains() <==> sale.Chains()
  {
    hide Fold, Sub, Pow2;
    FoldTellsApart(sale.sellPath, sale.sellBalance, x, sale.sellBalance, sale.sellToken);
    FoldTellsApart(sale.sellPath, Sub(sale.sellBalance, sale.sold), x, Sub(sale.sellBalance, sale.sold),
                   sale.sellToken);
    FoldTellsApart(sale.buyPath, sale.buyBalance, y, sale.buyBalance, sale.buyToken);
    FoldTellsApart(sale.buyPath, Sub(sale.buyBalance, sale.bought), y, Sub(sale.buyBalance, sale.bought),
                   sale.buyToken);
  }

  /** A sale that chains from the right root, where its folds tell token ids apart, is of the right tokens. */
  lemma SaleTellsFromStart(sale: Sale, x: nat, y: nat, n: nat)
    requires |sale.sellPath| == n && |sale.buyPath| == n && sale.Chains()
    requires sale.With(x, y).Chains() && sale.With(x, y).RootBefore() == sale.RootBefore()
    requires TellsApart(sale.sellPath, sale.sellBalance, x, sale.sellBalance, sale.sellToken)
    requires TellsApart(sale.buyPath, Sub(sale.buyBalance, sale.bought), y, Sub(sale.buyBalance, sale.bought),
                        sale.buyToken)
    ensures x % Pow2(n) == sale.sellToken % Pow2(n) && y % Pow2(n) == sale.buyToken % Pow2(n)
  {
    hide Fold, Sub, Pow2, TellsApart;
    FoldTellsApart(sale.sellPath, sale.sellBalance, x, sale.sellBalance, sale.sellToken);
    FoldTellsApart(sale.sellPath, Sub(sale.sellBalance, sale.sold), x, Sub(sale.sellBalance, sale.sold),
                   sale.sellToken);
    FoldTellsApart(sale.buyPath, Sub(sale.buyBalance, sale.bought), y, Sub(sale.buyBalance, sale.bought),
                   sale.buyToken);
  }

  /** The same for one that chains to the right root. */
  lemma SaleTellsFromEnd(sale: Sale, x: nat, y: nat, n: nat)
    requires |sale.sellPath| == n && |sale.buyPath| == n && sale.Chains()
    requires sale.With(x, y).Chains() && sale.With(x, y).RootAfter() == sale.RootAfter()
    requires TellsApart(sale.buyPath, sale.buyBalance, y, sale.buyBalance, sale.buyToken)
    requires TellsApart(sale.sellPath, Sub(sale.sellBalance, sale.sold), x, Sub(sale.sellBalance, sale.sold),
                        sale.sellToken)
    ensures x % Pow2(n) == sale.sellToken % Pow2(n) && y % Pow2(n) == sale.buyToken % Pow2(n)
  {
    hide Fold, Sub, Pow2, TellsApart;
    FoldTellsApart(sale.buyPath, sale.buyBalance, y, sale.buyBalance, sale.buyToken);
    FoldTellsApart(sale.buyPath, Sub(sale.buyBalance, sale.bought), y, Sub(sale.buyBalance, sale.bought),
                   sale.buyToken);
    FoldTellsApart(sale.sellPath, Sub(sale.sellBalance, sale.sold), x, Sub(sale.sellBalance, sale.sold),
                   sale.sellToken);
  }

  lemma Unchanged(x: Fr)
    ensures Add(x, 0) == x && Sub(x, 0) == x
  {
  }

  /** When both sides of a sale are one leaf, the chain breaks as soon as anything is sold, whatever tokens it names. */
  lemma OneTokenSale(levels: Levels, row: seq<Fr>, t: nat, sold: Fr, bought: Fr, value: Fr, x: nat, y: nat)
    requires t < |row|
    requires TellsApart(Path(row, levels.balance, t), Sub(row[t], sold), x, row[t], y)
    ensures SaleOf(levels, row, t, sold, t, bought, row[t := value]).With(x, y).Chains() ==> sold == 0
  {
    AddSub(row[t], bought);
    PathIgnoresOwnLeaf(row, levels.balance, t, value);
    FoldTellsApart(Path(row, levels.balance, t), Sub(row[t], sold), x, row[t], y);
    assert Sub(row[t], sold) == row[t] <==> sold == 0;
    hide Path, Fold, Add, Sub, TellsApart;
  }

  /** The order slot of a record, before and after a write. */
  lemma OrderSlotProof(levels: Levels, account: Account, pos: nat, order: Order)
    requires Sized(levels, account) && Synced(levels, account) && pos < Pow2(levels.order)
    ensures var path := Path(account.orderLeaves, levels.order, pos);
            && Fold(SlotOrder(account.orders, pos).Hash(), path, pos) == account.state.orderRoot
            && Fold(order.Hash(), path, pos) == Root(account.orderLeaves[pos := order.Hash()], levels.order)
  {
    hide Path, Fold, Root, Order.Hash, Pow2;
    FoldGivesRoot(account.orderLeaves, levels.order, pos);
    FoldAfterWrite(account.orderLeaves, levels.order, pos, order.Hash());
  }

  // --------------------------------------------------------- the whole trade

  lemma TradeIndices(s: Ledger, tx: SpotTradeTx)
    requires Invariant(s) && MatchOrders(s, tx).Ok?
    requires tx.token1to2 < Pow2(s.levels.balance) && tx.token2to1 < Pow2(s.levels.balance)
    ensures var m := MatchOrders(s, tx).value;
            FrOf(tx.account1) == tx.account1 && FrOf(tx.account2) == tx.account2 && FrOf(m.pos1)
              == m.pos1 && FrOf(m.pos2) == m.pos2
  {
    var m := MatchOrders(s, tx).value;
    TradedSlots(s, tx);
    Bounded(s, tx.account1);
    Bounded(s, tx.account2);
    IndexFits(s.levels.account, tx.account1);
    IndexFits(s.levels.account, tx.account2);
    IndexFits(s.levels.order, m.pos1);
    IndexFits(s.levels.order, m.pos2);
    hide MatchOrders, Pow2, FrOf, Slotted, Synced;
  }

  lemma TradeParties(s: Ledger, tx: SpotTradeTx, p: seq<Fr>)
    requires Invariant(s) && MatchOrders(s, tx).Ok? && p == Payload(TradeFields(s, MatchOrders(s, tx).value, tx))
    requires tx.token1to2 < Pow2(s.levels.balance) && tx.token2to1 < Pow2(s.levels.balance)
    ensures var m, x1, x2 := MatchOrders(s, tx).value, At(s, tx.account1).state, At(s, tx.account2).state;
            && |p| == TX_LENGTH && p[ACCOUNT_ID1] == tx.account1 && p[ACCOUNT_ID2] == tx.account2
            && p[NONCE1] == x1.nonce && p[SIGN1] == x1.sign && p[AY1] == x1.ay
            && p[NONCE2] == x2.nonce && p[SIGN2] == x2.sign && p[AY2] == x2.ay
            && p[ORDER1_POS] == m.pos1 && p[ORDER2_POS] == m.pos2
  {
    PayloadLaid(TradeFields(s, MatchOrders(s, tx).value, tx));
    TradeIndices(s, tx);
    hide Invariant, MatchOrders, At, BalanceOf, Add, Pow2, FrOf, Payload, OldFields, NewFields, OrderFieldsAt;
  }

  lemma TradeSales(s: Ledger, tx: SpotTradeTx, raw: RawTx)
    requires Traded(s, tx).Ok? && raw.payload == Payload(TradeFields(s, MatchOrders(s, tx).value, tx))
    ensures var m := MatchOrders(s, tx).value;
            && Sale1(raw) == Sale(m.order1.tokenSell, StoredBalance(s, tx.account1, tx.token1to2), tx.amount1to2,
                                  raw.balancePath0,
                                  m.order1.tokenBuy,
                                  Add(StoredBalance(s, tx.account1, tx.token2to1), tx.amount2to1), tx.amount2to1,
                                  raw.balancePath3)
            && Sale2(raw) == Sale(m.order2.tokenSell, StoredBalance(s, tx.account2, tx.token2to1), tx.amount2to1,
                                  raw.balancePath2,
                                  m.order2.tokenBuy,
                                  Add(StoredBalance(s, tx.account2, tx.token1to2), tx.amount1to2), tx.amount1to2,
                                  raw.balancePath1)
  {
    TradedMatches(s, tx);
    TradeReads(s, tx);
    PayloadLaid(TradeFields(s, MatchOrders(s, tx).value, tx));
    hide MatchOrders, Traded, At, BalanceOf, StoredBalance, Add, FrOf, Payload;
  }

  /** The fields of an emitted trade as its payload holds them. */
  lemma TradePayload(s: Ledger, tx: SpotTradeTx, raw: RawTx)
    requires Invariant(s) && Traded(s, tx).Ok? && raw.payload == Payload(TradeFields(s, MatchOrders(s, tx).value, tx))
    requires tx.token1to2 < Pow2(s.levels.balance) && tx.token2to1 < Pow2(s.levels.balance)
    ensures var p, m := raw.payload, MatchOrders(s, tx).value;
            var x1, x2 := At(s, tx.account1).state, At(s, tx.account2).state;
            && |p| == TX_LENGTH && p[ACCOUNT_ID1] == tx.account1 && p[ACCOUNT_ID2] == tx.account2
            && p[NONCE1] == x1.nonce && p[SIGN1] == x1.sign && p[AY1] == x1.ay
            && p[NONCE2] == x2.nonce && p[SIGN2] == x2.sign && p[AY2] == x2.ay
            && p[ORDER1_POS] == m.pos1 && p[ORDER2_POS] == m.pos2
            && Sale1(raw) == Sale(m.order1.tokenSell, StoredBalance(s, tx.account1, tx.token1to2), tx.amount1to2,
                                  raw.balancePath0,
                                  m.order1.tokenBuy,
                                  Add(StoredBalance(s, tx.account1, tx.token2to1), tx.amount2to1), tx.amount2to1,
                                  raw.balancePath3)
            && Sale2(raw) == Sale(m.order2.tokenSell, StoredBalance(s, tx.account2, tx.token2to1), tx.amount2to1,
                                  raw.balancePath2,
                                  m.order2.tokenBuy,
                                  Add(StoredBalance(s, tx.account2, tx.token1to2), tx.amount1to2), tx.amount1to2,
                                  raw.balancePath1)
  {
    TradedMatches(s, tx);
    hide *;
    TradeParties(s, tx, raw.payload);
    TradeSales(s, tx, raw);
  }

  lemma TradeOrderDigests(s: Ledger, tx: SpotTradeTx, p: seq<Fr>)
    requires Traded(s, tx).Ok? && p == Payload(TradeFields(s, MatchOrders(s, tx).value, tx))
    ensures var m := MatchOrders(s, tx).value;
            && OldOrder1(p) == m.old1.Hash() && NewOrder1(p) == Order1After(m, tx).Hash()
            && OldOrder2(p) == m.old2.Hash() && NewOrder2(p) == Order2After(m, tx).Hash()
  {
    hide Payload, Laid, OldOrder1, NewOrder1, OldOrder2, NewOrder2, Order.Hash, MatchOrders, Compressible, TradeApplied;
    hide PartyOf, BalanceOf, Add, OldFields, NewFields;
    var m := MatchOrders(s, tx).value;
    var f := TradeFields(s, m, tx);
    PayloadLaid(f);
    SameTotals(m, tx);
    OldFieldsDigest(p, m, f);
    NewFieldsDigest(p, Order1After(m, tx), Order2After(m, tx), f);
  }

  /** The first account's sale, as the record tells it: that of the trade under the token ids of the order. */
  function SaleByMaker(s: Ledger, tx: SpotTradeTx, r: Ledger): Sale
    requires tx.token1to2 < |At(s, tx.account1).balances| && tx.token2to1 < |At(s, tx.account1).balances|
  {
    SaleOf(s.levels, At(s, tx.account1).balances, tx.token1to2, tx.amount1to2, tx.token2to1, tx.amount2to1,
           At(r, tx.account1).balances)
  }

  lemma MakerSale(s: Ledger, tx: SpotTradeTx, offset: Option<int>)
    requires Invariant(s) && Traded(s, tx).Ok?
    requires tx.token1to2 < Pow2(s.levels.balance) && tx.token2to1 < Pow2(s.levels.balance)
    requires tx.token1to2 != tx.token2to1 || (tx.amount1to2 == 0 && tx.amount2to1 == 0)
    ensures var m, r, a := MatchOrders(s, tx).value, Traded(s, tx).value, tx.account1;
            && tx.token1to2 < |At(s, a).balances| && tx.token2to1 < |At(s, a).balances|
            && var sale := SaleByMaker(s, tx, r);
            && Sale1(TradeRaw(s, m, tx, r, offset)) == sale.With(m.order1.tokenSell, m.order1.tokenBuy)
            && |sale.sellPath| == s.levels.balance && |sale.buyPath| == s.levels.balance
            && sale.RootBefore() == At(s, a).state.balanceRoot && sale.Chains()
            && sale.RootAfter() == At(r, a).state.balanceRoot
  {
    var m, r, a := MatchOrders(s, tx).value, Traded(s, tx).value, tx.account1;
    TradedMatches(s, tx);
    TradePayload(s, tx, TradeRaw(s, m, tx, r, offset));
    TradedRecords(s, tx);
    TradedLeaves(s, tx);
    RecordInRange(s, a);
    Reads(s, a);
    hide Invariant, Slotted, MatchOrders, Traded, OrdersWritten, At, Add, Sub, Pow2, FrOf, Payload, Order.Hash;
    hide AccountState.Hash, Root, Path, Fold, Order1After, Order2After, Sale.Chains, Sale.RootBefore, Sale.RootAfter;
    SaleChains(s.levels, At(s, a).balances, tx.token1to2, tx.amount1to2, tx.token2to1, tx.amount2to1);
  }

  /** The first account's two digests, and its order slot. */
  lemma MakerDigests(s: Ledger, tx: SpotTradeTx, offset: Option<int>)
    requires Invariant(s) && Traded(s, tx).Ok?
    requires tx.token1to2 < Pow2(s.levels.balance) && tx.token2to1 < Pow2(s.levels.balance)
    ensures var m, r, a := MatchOrders(s, tx).value, Traded(s, tx).value, tx.account1;
            var raw := TradeRaw(s, m, tx, r, offset);
            && a < |s.leaves| && s.leaves[a] == At(s, a).state.Hash()
            && Before1(raw) == At(s, a).state.(balanceRoot := Sale1(raw).RootBefore()).Hash()
            && After1(raw) == At(r, a).state.(balanceRoot := Sale1(raw).RootAfter()).Hash()
            && Fold(OldOrder1(raw.payload), raw.orderPath0, raw.payload[ORDER1_POS]) == raw.orderRoot0
  {
    var m, r, a := MatchOrders(s, tx).value, Traded(s, tx).value, tx.account1;
    var raw := TradeRaw(s, m, tx, r, offset);
    TradedMatches(s, tx);
    TradePayload(s, tx, raw);
    TradeOrderDigests(s, tx, raw.payload);
    TradedRecords(s, tx);
    TradedLeaves(s, tx);
    TradedSlots(s, tx);
    MatchedRecords(s, tx);
    Reads(s, a);
    OrderSlotProof(s.levels, At(s, a), m.pos1, Order1After(m, tx));
    hide Invariant, Slotted, MatchOrders, Traded, OrdersWritten, At, Add, Sub, Pow2, FrOf, Payload, Order.Hash;
    hide AccountState.Hash, Root, Path, Fold, Order1After, Order2After, OldOrder1, NewOrder1, OldOrder2, NewOrder2;
    hide Sale1, Sale.RootBefore, Sale.RootAfter;
  }

  /** The first account's part of the replay. */
  lemma MakerReplays(s: Ledger, tx: SpotTradeTx, offset: Option<int>)
    requires Invariant(s) && Traded(s, tx).Ok? && TokensAgree(s.levels, MatchOrders(s, tx).value, tx)
    requires tx.token1to2 < Pow2(s.levels.balance) && tx.token2to1 < Pow2(s.levels.balance)
    requires tx.token1to2 != tx.token2to1 || (tx.amount1to2 == 0 && tx.amount2to1 == 0)
    ensures var m, r, a := MatchOrders(s, tx).value, Traded(s, tx).value, tx.account1;
            var raw := TradeRaw(s, m, tx, r, offset);
            && a < |s.leaves| && Sale1(raw).Chains()
            && Before1(raw) == s.leaves[a] && After1(raw) == At(r, a).state.Hash()
            && Fold(OldOrder1(raw.payload), raw.orderPath0, raw.payload[ORDER1_POS]) == raw.orderRoot0
  {
    hide Invariant, MatchOrders, Traded, At, Pow2, AccountState.Hash, Sale1, Before1, After1, OldOrder1, TradeRaw;
    hide Sale.Chains, Sale.RootBefore, Sale.RootAfter, SaleByMaker, Fold, Sale.With;
    TradedMatches(s, tx);
    MakerSale(s, tx, offset);
    MakerDigests(s, tx, offset);
    var m := MatchOrders(s, tx).value;
    var sale := SaleByMaker(s, tx, Traded(s, tx).value);
    OfMaker(s, tx, Traded(s, tx).value);
    SaleModulo(sale, m.order1.tokenSell, m.order1.tokenBuy, s.levels.balance);
  }

  lemma OfMaker(s: Ledger, tx: SpotTradeTx, r: Ledger)
    requires tx.token1to2 < |At(s, tx.account1).balances| && tx.token2to1 < |At(s, tx.account1).balances|
    ensures SaleByMaker(s, tx, r).sellToken == tx.token1to2 && SaleByMaker(s, tx, r).buyToken == tx.token2to1
  {
    hide At, Path;
  }

  /** A row written in the other order: the same for two tokens, and for one token when nothing moves. */
  lemma SoldEitherWay(row: seq<Fr>, t: nat, sold: Fr, t': nat, bought: Fr)
    requires t < |row| && t' < |row| && (t != t' || (sold == 0 && bought == 0))
    ensures row[t' := Add(row[t'], bought)][t := Sub(row[t], sold)] == Sold(row, t, sold, t', bought)
  {
    Unchanged(row[t]);
    hide Add, Sub;
  }

  /** The second account's sale. */
  function SaleByTaker(s: Ledger, tx: SpotTradeTx, r: Ledger): Sale
    requires tx.token1to2 < |At(s, tx.account2).balances| && tx.token2to1 < |At(s, tx.account2).balances|
  {
    SaleOf(s.levels, At(s, tx.account2).balances, tx.token2to1, tx.amount2to1, tx.token1to2, tx.amount1to2,
           At(r, tx.account2).balances)
  }

  lemma OfTaker(s: Ledger, tx: SpotTradeTx, r: Ledger)
    requires tx.token1to2 < |At(s, tx.account2).balances| && tx.token2to1 < |At(s, tx.account2).balances|
    ensures SaleByTaker(s, tx, r).sellToken == tx.token2to1 && SaleByTaker(s, tx, r).buyToken == tx.token1to2
  {
    hide At, Path;
  }

  lemma TakerSale(s: Ledger, tx: SpotTradeTx, offset: Option<int>)
    requires Invariant(s) && Traded(s, tx).Ok?
    requires tx.token1to2 < Pow2(s.levels.balance) && tx.token2to1 < Pow2(s.levels.balance)
    requires tx.token1to2 != tx.token2to1 || (tx.amount1to2 == 0 && tx.amount2to1 == 0)
    ensures var m, r, a := MatchOrders(s, tx).value, Traded(s, tx).value, tx.account2;
            && tx.token1to2 < |At(s, a).balances| && tx.token2to1 < |At(s, a).balances|
            && var sale := SaleByTaker(s, tx, r);
            && Sale2(TradeRaw(s, m, tx, r, offset)) == sale.With(m.order2.tokenSell, m.order2.tokenBuy)
            && |sale.sellPath| == s.levels.balance && |sale.buyPath| == s.levels.balance
            && sale.RootBefore() == At(s, a).state.balanceRoot && sale.Chains()
            && sale.RootAfter() == At(r, a).state.balanceRoot
  {
    var m, r, a := MatchOrders(s, tx).value, Traded(s, tx).value, tx.account2;
    TradedMatches(s, tx);
    TradePayload(s, tx, TradeRaw(s, m, tx, r, offset));
    TradedRecords(s, tx);
    TradedLeaves(s, tx);
    RecordInRange(s, a);
    Reads(s, a);
    hide Invariant, Slotted, MatchOrders, Traded, OrdersWritten, At, Add, Sub, Pow2, FrOf, Payload, Order.Hash, Sold;
    hide AccountState.Hash, Root, Path, Fold, Order1After, Order2After, Sale.Chains, Sale.RootBefore, Sale.RootAfter;
    SoldEitherWay(At(s, a).balances, tx.token2to1, tx.amount2to1, tx.token1to2, tx.amount1to2);
    SaleChains(s.levels, At(s, a).balances, tx.token2to1, tx.amount2to1, tx.token1to2, tx.amount1to2);
  }

  /** The second account's two digests, and its order slot. */
  lemma TakerDigests(s: Ledger, tx: SpotTradeTx, offset: Option<int>)
    requires Invariant(s) && Traded(s, tx).Ok?
    requires tx.token1to2 < Pow2(s.levels.balance) && tx.token2to1 < Pow2(s.levels.balance)
    ensures var m, r, a := MatchOrders(s, tx).value, Traded(s, tx).value, tx.account2;
            var raw := TradeRaw(s, m, tx, r, offset);
            && a < |s.leaves| && s.leaves[a] == At(s, a).state.Hash()
            && Before2(raw) == At(s, a).state.(balanceRoot := Sale2(raw).RootBefore()).Hash()
            && After2(raw) == At(r, a).state.(balanceRoot := Sale2(raw).RootAfter()).Hash()
            && Fold(NewOrder2(raw.payload), raw.orderPath1, raw.payload[ORDER2_POS]) == raw.orderRoot1
  {
    var m, r, a := MatchOrders(s, tx).value, Traded(s, tx).value, tx.account2;
    var raw := TradeRaw(s, m, tx, r, offset);
    TradedMatches(s, tx);
    TradePayload(s, tx, raw);
    TradeOrderDigests(s, tx, raw.payload);
    TradedRecords(s, tx);
    TradedLeaves(s, tx);
    TradedSlots(s, tx);
    MatchedRecords(s, tx);
    Reads(s, a);
    OrderSlotProof(s.levels, At(s, a), m.pos2, Order2After(m, tx));
    hide Invariant, Slotted, MatchOrders, Traded, OrdersWritten, At, Add, Sub, Pow2, FrOf, Payload, Order.Hash;
    hide AccountState.Hash, Root, Path, Fold, Order1After, Order2After, OldOrder1, NewOrder1, OldOrder2, NewOrder2;
    hide Sale2, Sale.RootBefore, Sale.RootAfter;
  }

  /** The second account's part of the replay. */
  lemma TakerReplays(s: Ledger, tx: SpotTradeTx, offset: Option<int>)
    requires Invariant(s) && Traded(s, tx).Ok? && TokensAgree(s.levels, MatchOrders(s, tx).value, tx)
    requires tx.token1to2 < Pow2(s.levels.balance) && tx.token2to1 < Pow2(s.levels.balance)
    requires tx.token1to2 != tx.token2to1 || (tx.amount1to2 == 0 && tx.amount2to1 == 0)
    ensures var m, r, a := MatchOrders(s, tx).value, Traded(s, tx).value, tx.account2;
            var raw := TradeRaw(s, m, tx, r, offset);
            && a < |s.leaves| && Sale2(raw).Chains()
            && Before2(raw) == s.leaves[a] && After2(raw) == At(r, a).state.Hash()
            && Fold(NewOrder2(raw.payload), raw.orderPath1, raw.payload[ORDER2_POS]) == raw.orderRoot1
  {
    hide Invariant, MatchOrders, Traded, At, Pow2, AccountState.Hash, Sale2, Before2, After2, NewOrder2, TradeRaw;
    hide Sale.Chains, Sale.RootBefore, Sale.RootAfter, SaleByTaker, Fold, Sale.With;
    TradedMatches(s, tx);
    TakerSale(s, tx, offset);
    TakerDigests(s, tx, offset);
    var m := MatchOrders(s, tx).value;
    var sale := SaleByTaker(s, tx, Traded(s, tx).value);
    OfTaker(s, tx, Traded(s, tx).value);
    SaleModulo(sale, m.order2.tokenSell, m.order2.tokenBuy, s.levels.balance);
  }

  lemma TradeAmounts(s: Ledger, tx: SpotTradeTx, offset: Option<int>)
    requires Invariant(s) && Traded(s, tx).Ok?
    requires tx.token1to2 < Pow2(s.levels.balance) && tx.token2to1 < Pow2(s.levels.balance)
    ensures var p := TradeRaw(s, MatchOrders(s, tx).value, tx, Traded(s, tx).value, offset).payload;
            && |p| == TX_LENGTH && p[AMOUNT1] < p[BALANCE1] && p[AMOUNT2] < p[BALANCE3]
            && p[ACCOUNT_ID1] == tx.account1 && p[ACCOUNT_ID2] == tx.account2
  {
    TradedMatches(s, tx);
    TradePayload(s, tx, TradeRaw(s, MatchOrders(s, tx).value, tx, Traded(s, tx).value, offset));
    TradeCovers(s, tx);
    hide Invariant, MatchOrders, Traded, At, Add, Pow2, Payload, StoredBalance, TokensAgree, TradeFields;
  }

  /** The first account's path, taken before, and the second's, taken after, meet in one middle root. */
  lemma TradeAccountChain(s: Ledger, tx: SpotTradeTx, offset: Option<int>)
    requires Invariant(s) && Traded(s, tx).Ok? && TokensAgree(s.levels, MatchOrders(s, tx).value, tx)
    requires tx.token1to2 < Pow2(s.levels.balance) && tx.token2to1 < Pow2(s.levels.balance)
    requires tx.token1to2 != tx.token2to1 || (tx.amount1to2 == 0 && tx.amount2to1 == 0)
    ensures var raw := TradeRaw(s, MatchOrders(s, tx).value, tx, Traded(s, tx).value, offset);
            && Fold(Before1(raw), raw.accountPath0, tx.account1) == raw.rootBefore
            && Fold(After1(raw), raw.accountPath0, tx.account1) == Fold(Before2(raw), raw.accountPath1, tx.account2)
            && Fold(After2(raw), raw.accountPath1, tx.account2) == raw.rootAfter
  {
    assert |s.leaves| == Pow2(s.levels.account);
    TradedMatches(s, tx);
    hide Invariant, MatchOrders, Traded, At, Pow2, AccountState.Hash, Root, Path, Fold, TokensAgree, OldOrder1;
    hide NewOrder1, OldOrder2, NewOrder2;
    hide TradeFields, Sale1, Sale2, Before1, Before2, After1, After2, Sale.Chains, BalancePath, OrderPath;
    var r, a1, a2 := Traded(s, tx).value, tx.account1, tx.account2;
    MakerReplays(s, tx, offset);
    TakerReplays(s, tx, offset);
    TradedLeaves(s, tx);
    TwoWriteChain(s.leaves, s.levels.account, a1, At(r, a1).state.Hash(), a2, At(r, a2).state.Hash());
  }

  lemma Assembled(raw: RawTx, a1: nat, a2: nat)
    requires |raw.payload| == TX_LENGTH && raw.payload[ACCOUNT_ID1] == a1 && raw.payload[ACCOUNT_ID2] == a2
    requires raw.payload[AMOUNT1] < raw.payload[BALANCE1] && raw.payload[AMOUNT2] < raw.payload[BALANCE3]
    requires Sale1(raw).Chains() && Sale2(raw).Chains()
    requires Fold(OldOrder1(raw.payload), raw.orderPath0, raw.payload[ORDER1_POS]) == raw.orderRoot0
    requires Fold(NewOrder2(raw.payload), raw.orderPath1, raw.payload[ORDER2_POS]) == raw.orderRoot1
    requires Fold(Before1(raw), raw.accountPath0, a1) == raw.rootBefore
    requires Fold(After1(raw), raw.accountPath0, a1) == Fold(Before2(raw), raw.accountPath1, a2)
    requires Fold(After2(raw), raw.accountPath1, a2) == raw.rootAfter
    ensures TradeReplay(raw)
  {
  }

  lemma AgreedTradeReplays(s: Ledger, tx: SpotTradeTx, offset: Option<int>)
    requires Invariant(s) && Traded(s, tx).Ok? && TokensAgree(s.levels, MatchOrders(s, tx).value, tx)
    requires tx.token1to2 < Pow2(s.levels.balance) && tx.token2to1 < Pow2(s.levels.balance)
    requires tx.token1to2 != tx.token2to1 || (tx.amount1to2 == 0 && tx.amount2to1 == 0)
    ensures TradeReplay(TradeRaw(s, MatchOrders(s, tx).value, tx, Traded(s, tx).value, offset))
  {
    TradedMatches(s, tx);
    hide *;
    MakerReplays(s, tx, offset);
    TakerReplays(s, tx, offset);
    TradeAccountChain(s, tx, offset);
    TradeAmounts(s, tx, offset);
    Assembled(TradeRaw(s, MatchOrders(s, tx).value, tx, Traded(s, tx).value, offset), tx.account1, tx.account2);
  }

  /** The digest of an account under a claimed balance root collides with nothing on its way to the state root. */
  ghost predicate ClaimDistinct(leaves: seq<Fr>, height: nat, a: nat, state: AccountState, balanceRoot: Fr) {
    && var claim := state.(balanceRoot := balanceRoot);
    && NoCollision(leaves, claim.Hash(), Path(leaves, height, a), a)
    && (claim.Hash() == state.Hash() ==> claim == state)
  }

  lemma DistinctClaim(leaves: seq<Fr>, height: nat, a: nat, state: AccountState, balanceRoot: Fr)
    requires |leaves| == Pow2(height) && a < |leaves| && leaves[a] == state.Hash()
    requires ClaimDistinct(leaves, height, a, state, balanceRoot)
    requires Fold(state.(balanceRoot := balanceRoot).Hash(), Path(leaves, height, a), a) == Root(leaves, height)
    ensures balanceRoot == state.balanceRoot
  {
    hide NoCollision, AccountState.Hash, Path, Fold, Root, Pow2;
    ProofIsBinding(leaves, height, a, state.(balanceRoot := balanceRoot).Hash(), Path(leaves, height, a));
  }

  /**
   * Every fold of the record distinguishes the token ids of the orders from those of the trade, and no digest collides.
   */
  ghost predicate TokensTold(s: Ledger, tx: SpotTradeTx, offset: Option<int>)
    requires Traded(s, tx).Ok?
  {
    && var m, r := MatchOrders(s, tx).value, Traded(s, tx).value;
    && var raw := TradeRaw(s, m, tx, r, offset);
    && var sale1, sale2 := Sale1(raw), Sale2(raw);
    && ClaimDistinct(s.leaves, s.levels.account, tx.account1, At(s, tx.account1).state, sale1.RootBefore())
    && ClaimDistinct(r.leaves, s.levels.account, tx.account2, At(r, tx.account2).state, sale2.RootAfter())
    && TellsApart(sale1.sellPath, sale1.sellBalance, m.order1.tokenSell, sale1.sellBalance, tx.token1to2)
    && TellsApart(sale1.buyPath, Sub(sale1.buyBalance, sale1.bought), m.order1.tokenBuy,
                  Sub(sale1.buyBalance, sale1.bought), tx.token2to1)
    && TellsApart(sale2.buyPath, sale2.buyBalance, m.order2.tokenBuy, sale2.buyBalance, tx.token1to2)
    && TellsApart(sale2.sellPath, Sub(sale2.sellBalance, sale2.sold), m.order2.tokenSell,
                  Sub(sale2.sellBalance, sale2.sold), tx.token2to1)
  }

  /**
   * What a replay says of the two sales: the first starts at a balance root, the second ends at one, and both chain.
   */
  lemma ReplayedSales(s: Ledger, tx: SpotTradeTx, offset: Option<int>)
    requires Invariant(s) && Traded(s, tx).Ok? && TokensTold(s, tx, offset)
    requires tx.token1to2 < Pow2(s.levels.balance) && tx.token2to1 < Pow2(s.levels.balance)
    requires TradeReplay(TradeRaw(s, MatchOrders(s, tx).value, tx, Traded(s, tx).value, offset))
    ensures var r := Traded(s, tx).value;
            var raw := TradeRaw(s, MatchOrders(s, tx).value, tx, r, offset);
            && Sale1(raw).Chains() && Sale1(raw).RootBefore() == At(s, tx.account1).state.balanceRoot
            && Sale2(raw).Chains() && Sale2(raw).RootAfter() == At(r, tx.account2).state.balanceRoot
  {
    hide Invariant, MatchOrders, Traded, At, Pow2, AccountState.Hash, Root, Path, Fold, OldOrder1, ClaimDistinct;
    hide NewOrder1, OldOrder2, NewOrder2, TradeFields, Sale1, Sale2, Before1, Before2, After1, After2, Sale.Chains;
    hide BalancePath, OrderPath, Sale.RootBefore, Sale.RootAfter, TellsApart;
    TradedMatches(s, tx);
    var r := Traded(s, tx).value;
    var raw := TradeRaw(s, MatchOrders(s, tx).value, tx, r, offset);
    ShapeFacts(s);
    MakerDigests(s, tx, offset);
    TakerDigests(s, tx, offset);
    TradeAmounts(s, tx, offset);
    TradedLeaves(s, tx);
    DistinctClaim(s.leaves, s.levels.account, tx.account1, At(s, tx.account1).state, Sale1(raw).RootBefore());
    DistinctClaim(r.leaves, s.levels.account, tx.account2, At(r, tx.account2).state, Sale2(raw).RootAfter());
  }

  lemma ToldTokensAgree(s: Ledger, tx: SpotTradeTx, offset: Option<int>)
    requires Invariant(s) && Traded(s, tx).Ok? && TokensTold(s, tx, offset)
    requires tx.token1to2 < Pow2(s.levels.balance) && tx.token2to1 < Pow2(s.levels.balance)
    requires tx.token1to2 != tx.token2to1 || (tx.amount1to2 == 0 && tx.amount2to1 == 0)
    requires TradeReplay(TradeRaw(s, MatchOrders(s, tx).value, tx, Traded(s, tx).value, offset))
    ensures TokensAgree(s.levels, MatchOrders(s, tx).value, tx)
  {
    hide Invariant, MatchOrders, Traded, At, Pow2, Sale1, Sale2, TradeRaw, Sub, SaleOf, ClaimDistinct, TradeReplay;
    hide Sale.Chains, Sale.RootBefore, Sale.RootAfter, SaleByMaker, SaleByTaker, Fold, TellsApart;
    TradedMatches(s, tx);
    ReplayedSales(s, tx, offset);
    MakerSale(s, tx, offset);
    TakerSale(s, tx, offset);
    var m, r := MatchOrders(s, tx).value, Traded(s, tx).value;
    OfMaker(s, tx, r);
    OfTaker(s, tx, r);
    SaleTellsFromStart(SaleByMaker(s, tx, r), m.order1.tokenSell, m.order1.tokenBuy, s.levels.balance);
    SaleTellsFromEnd(SaleByTaker(s, tx, r), m.order2.tokenSell, m.order2.tokenBuy, s.levels.balance);
  }

  /**
   * A trade of two tokens replays from its own record exactly when both orders name the tokens of the
   * trade, as far as the balance trees tell tokens apart; the converse as long as the record's folds
   * distinguish the token ids at all and none of its hashes collide.
   */
  lemma TradeReplays(s: Ledger, tx: SpotTradeTx, offset: Option<int>)
    requires Invariant(s) && Traded(s, tx).Ok?
    requires tx.token1to2 < Pow2(s.levels.balance) && tx.token2to1 < Pow2(s.levels.balance)
    requires tx.token1to2 != tx.token2to1 || (tx.amount1to2 == 0 && tx.amount2to1 == 0)
    ensures var m := MatchOrders(s, tx).value;
            var raw := TradeRaw(s, m, tx, Traded(s, tx).value, offset);
            && (TokensAgree(s.levels, m, tx) ==> TradeReplay(raw))
            && (TokensTold(s, tx, offset) ==> (TradeReplay(raw) <==> TokensAgree(s.levels, m, tx)))
  {
    hide *;
    TradedMatches(s, tx);
    if TokensAgree(s.levels, MatchOrders(s, tx).value, tx) {
      AgreedTradeReplays(s, tx, offset);
    } else if TokensTold(s, tx, offset) && TradeReplay(TradeRaw(s, MatchOrders(s, tx).value, tx, Traded(s, tx).value,
                                                                offset)) {
      ToldTokensAgree(s, tx, offset);
    }
  }

  /**
   * Along the path of the token, each side's balance less what it sells is told apart from the balance, under the
   * tokens its order names.
   */
  ghost predicate ChainsTold(s: Ledger, tx: SpotTradeTx)
    requires MatchOrders(s, tx).Ok?
  {
    && var m, t := MatchOrders(s, tx).value, tx.token1to2;
    && var x, y := StoredBalance(s, tx.account1, t), StoredBalance(s, tx.account2, t);
    && TellsApart(BalancePath(s, tx.account1, t), Sub(x, tx.amount1to2), m.order1.tokenSell, x, m.order1.tokenBuy)
    && TellsApart(BalancePath(s, tx.account2, t), Sub(y, tx.amount2to1), m.order2.tokenSell, y, m.order2.tokenBuy)
  }

  /**
   * With one token on both sides, whatever tokens the orders name, the record replays only when nothing
   * moves and the orders name the token, unless its folds confuse values or token ids, or its hashes collide.
   */
  lemma OneTokenTradeRejected(s: Ledger, tx: SpotTradeTx, offset: Option<int>)
    requires Invariant(s) && Traded(s, tx).Ok? && tx.token1to2 == tx.token2to1 < Pow2(s.levels.balance)
    ensures MatchOrders(s, tx).Ok?
    ensures var m, nothing := MatchOrders(s, tx).value, tx.amount1to2 == 0 && tx.amount2to1 == 0;
            var raw := TradeRaw(s, m, tx, Traded(s, tx).value, offset);
            && (nothing && TokensAgree(s.levels, m, tx) ==> TradeReplay(raw))
            && (ChainsTold(s, tx) && TradeReplay(raw) ==> nothing)
            && (ChainsTold(s, tx) && TokensTold(s, tx, offset) ==>
                  (TradeReplay(raw) <==> nothing && TokensAgree(s.levels, m, tx)))
  {
    hide *;
    TradedMatches(s, tx);
    var raw := TradeRaw(s, MatchOrders(s, tx).value, tx, Traded(s, tx).value, offset);
    if tx.amount1to2 == 0 && tx.amount2to1 == 0 {
      TradeReplays(s, tx, offset);
    } else if ChainsTold(s, tx) && TradeReplay(raw) {
      ReplayChains(raw);
      OneTokenChains(s, tx, offset);
    }
  }

  lemma ReplayChains(raw: RawTx)
    requires TradeReplay(raw)
    ensures |raw.payload| == TX_LENGTH && Sale1(raw).Chains() && Sale2(raw).Chains()
  {
    hide Sale.Chains, Fold;
  }

  lemma OneTokenChains(s: Ledger, tx: SpotTradeTx, offset: Option<int>)
    requires Invariant(s) && Traded(s, tx).Ok? && tx.token1to2 == tx.token2to1 < Pow2(s.levels.balance)
    requires MatchOrders(s, tx).Ok? && ChainsTold(s, tx)
    ensures var raw := TradeRaw(s, MatchOrders(s, tx).value, tx, Traded(s, tx).value, offset);
            && |raw.payload| == TX_LENGTH
            && (Sale1(raw).Chains() ==> tx.amount1to2 == 0) && (Sale2(raw).Chains() ==> tx.amount2to1 == 0)
  {
    hide Invariant, MatchOrders, Traded, At, Add, Sub, Pow2, TellsApart, Sale.Chains, Sale1, Sale2, Path, SaleOf;
    hide Sale.With, TradeFields;
    OneTokenSales(s, tx, offset);
    var m, row1, row2, t :=
      MatchOrders(s, tx).value, At(s, tx.account1).balances, At(s, tx.account2).balances, tx.token1to2;
    OneTokenSale(s.levels, row1, t, tx.amount1to2, tx.amount2to1, Add(row1[t], tx.amount2to1), m.order1.tokenSell,
                 m.order1.tokenBuy);
    OneTokenSale(s.levels, row2, t, tx.amount2to1, tx.amount1to2, Sub(row2[t], tx.amount2to1), m.order2.tokenSell,
                 m.order2.tokenBuy);
  }

  /**
   * What the record of a trade of one token claims of each side: the later of the two writes is what the tree keeps.
   */
  lemma OneTokenSales(s: Ledger, tx: SpotTradeTx, offset: Option<int>)
    requires Invariant(s) && Traded(s, tx).Ok? && tx.token1to2 == tx.token2to1 < Pow2(s.levels.balance)
    ensures MatchOrders(s, tx).Ok?
    ensures var t, row1, row2 := tx.token1to2, At(s, tx.account1).balances, At(s, tx.account2).balances;
            var raw := TradeRaw(s, MatchOrders(s, tx).value, tx, Traded(s, tx).value, offset);
            && t < |row1| && t < |row2| && StoredBalance(s, tx.account1, t) == row1[t]
            && StoredBalance(s, tx.account2, t) == row2[t]
            && var m := MatchOrders(s, tx).value;
            && Sale1(raw) == SaleOf(s.levels, row1, t, tx.amount1to2, t, tx.amount2to1,
                                    row1[t := Add(row1[t], tx.amount2to1)])
                             .With(m.order1.tokenSell, m.order1.tokenBuy)
            && Sale2(raw) == SaleOf(s.levels, row2, t, tx.amount2to1, t, tx.amount1to2,
                                    row2[t := Sub(row2[t], tx.amount2to1)])
                             .With(m.order2.tokenSell, m.order2.tokenBuy)
  {
    TradedMatches(s, tx);
    var m, r, a1, a2, t := MatchOrders(s, tx).value, Traded(s, tx).value, tx.account1, tx.account2, tx.token1to2;
    OneTokenRows(s, tx);
    TradedLeaves(s, tx);
    TradePayload(s, tx, TradeRaw(s, m, tx, r, offset));
    hide Invariant, MatchOrders, Traded, At, Add, Sub, Pow2, Payload, Root, Path, TokensAgree, Order1After;
    hide Order2After, TradeFields, Sale1, Sale2, OrderPath, StateRoot, AccountPath;
  }

  lemma Overwritten(row: seq<Fr>, t: nat, x: Fr, y: Fr)
    requires t < |row|
    ensures row[t := x][t := y] == row[t := y]
  {
  }

  lemma OneTokenRows(s: Ledger, tx: SpotTradeTx)
    requires Invariant(s) && Traded(s, tx).Ok? && tx.token1to2 == tx.token2to1 < Pow2(s.levels.balance)
    ensures var r, t := Traded(s, tx).value, tx.token1to2;
            var row1, row2 := At(s, tx.account1).balances, At(s, tx.account2).balances;
            && t < |row1| && t < |row2| && StoredBalance(s, tx.account1, t) == row1[t]
            && StoredBalance(s, tx.account2, t) == row2[t]
            && At(r, tx.account1).balances == row1[t := Add(row1[t], tx.amount2to1)]
            && At(r, tx.account2).balances == row2[t := Sub(row2[t], tx.amount2to1)]
  {
    TradedMatches(s, tx);
    TradedRecords(s, tx);
    hide Invariant, MatchOrders, Traded, At, Add, Sub, Pow2, AccountState.Hash, Order.Hash, Root, Order1After;
    hide Order2After;
    var t, row1, row2 := tx.token1to2, At(s, tx.account1).balances, At(s, tx.account2).balances;
    Overwritten(row1, t, Sub(row1[t], tx.amount1to2), Add(row1[t], tx.amount2to1));
    Overwritten(row2, t, Add(row2[t], tx.amount1to2), Sub(row2[t], tx.amount2to1));
  }
}
