/** What the record of each operation holds, slot by slot, in terms of the operation and of the state around it. */
module Emitted {
  import opened Field
  import opened Wrappers
  import opened MerkleSpec
  import opened Records
  import opened Ledger
  import opened Amounts
  import opened Transactions
  import opened TxData
  import opened Emission
  import opened Conservation
  import opened TradeWitness
  import opened Fills

  /** Seven slots from `k` on: an enabled account with one of its balances. */
  ghost predicate HoldsAccount(p: seq<Fr>, k: nat, a: nat, t: nat, balance: Fr, sign: Fr, ay: Fr, nonce: Fr)
    requires k + 7 <= |p|
  {
    p[k..k + 7] == [1, a % P, t % P, balance, sign, ay, nonce]
  }

  /** Five slots from `k` on: an enabled signature. */
  ghost predicate HoldsSignature(p: seq<Fr>, k: nat, sig: Signature)
    requires k + 5 <= |p|
  {
    p[k..k + 5] == [1, sig.hash, sig.s, sig.r8x, sig.r8y]
  }

  /** Seven slots from `k` on: an order as it is stored. */
  ghost predicate HoldsOrder(p: seq<Fr>, k: nat, o: Order)
    requires k + 7 <= |p|
  {
    p[k..k + 7] == [o.orderId % P, o.tokenSell, o.filledSell, o.totalSell, o.tokenBuy, o.filledBuy, o.totalBuy]
  }

  /** The same with both totals as significand and power of ten. */
  ghost predicate HoldsCompressed(p: seq<Fr>, k: nat, o: Order)
    requires k + 7 <= |p|
  {
    && p[k] == o.orderId % P && p[k + 1] == o.tokenSell && p[k + 2] == o.filledSell
    && Decompress(p[k + 3]) == o.totalSell
    && p[k + 4] == o.tokenBuy && p[k + 5] == o.filledBuy
    && Decompress(p[k + 6]) == o.totalBuy
  }

  /** These slots are not used. */
  ghost predicate Unused(p: seq<Fr>, from: nat, to: nat)
    requires from <= to <= |p|
  {
    forall k :: from <= k < to ==> p[k] == 0
  }

  /** A record on one account: its paths and roots are those of the state before, but for the root after. */
  ghost predicate OnOneAccount(raw: RawTx, s: Ledger, a: nat, t: nat, after: Ledger) {
    && raw.rootBefore == StateRoot(s) && raw.rootAfter == StateRoot(after)
    && raw.balancePath0 == raw.balancePath1 == raw.balancePath2 == raw.balancePath3 == BalancePath(s, a, t)
    && raw.accountPath0 == raw.accountPath1 == AccountPath(s, a)
    && raw.orderRoot0 == raw.orderRoot1 == At(s, a).state.orderRoot
    && raw.orderPath0 == raw.orderPath1 && EmptySlotPath(s.levels, raw.orderPath0)
  }

  /** A path of the first slot of an order tree without orders. */
  ghost predicate EmptySlotPath(levels: Levels, path: seq<Fr>) {
    |path| == levels.order && Fold(DEFAULT_ORDER.Hash(), path, 0) == Root(EmptyOrderLeaves(levels), levels.order)
  }

  lemma TrivialPath(levels: Levels)
    ensures EmptySlotPath(levels, TrivialOrderPath(levels))
  {
    hide Path, Fold, Root, Order.Hash;
    assert Pow2(levels.order) > 0;
    FoldGivesRoot(EmptyOrderLeaves(levels), levels.order, 0);
  }

  /** A payload without orders: two accounts, perhaps a signature, an amount and the mark of a new account. */
  lemma PlainPayload(f: Fields)
    requires f == NO_FIELDS.(party1 := f.party1, party2 := f.party2, sig1 := f.sig1, amount := f.amount,
                             dstIsNew := f.dstIsNew)
    ensures var p, sig := Payload(f), f.sig1;
            && |p| == 60 && p[0..7] == PartySlots(f.party1) && p[7..14] == PartySlots(f.party2)
            && p[14..19] == [sig.check, sig.hash, sig.s, sig.r8x, sig.r8y]
            && Unused(p, 19, 24) && p[24] == f.amount && Unused(p, 25, 59) && p[59] == f.dstIsNew
  {
  }

  lemma DepositEmitted(s: Ledger, a: nat, t: nat, amount: Fr, after: Ledger, offset: Option<int>)
    ensures var raw, x := DepositRaw(s, a, t, amount, after, offset), At(s, a).state;
            var p, balance := raw.payload, BalanceOf(s, a, t);
            && raw.txType == TxType.Deposit && raw.offset == offset && OnOneAccount(raw, s, a, t, after)
            && |p| == 60
            && HoldsAccount(p, 0, a, t, balance, x.sign, x.ay, x.nonce)
            && HoldsAccount(p, 7, a, t, Add(balance, amount), x.sign, x.ay, x.nonce)
            && Unused(p, 14, 24) && p[24] == amount && Unused(p, 25, 60)
  {
    hide Payload, EmptySlotPath, BalanceOf, At, Add, BalancePath, AccountPath, TrivialOrderPath, StateRoot;
    TrivialPath(s.levels);
    PlainPayload(DepositFields(s, a, t, amount));
  }

  lemma KeyUpdateEmitted(s: Ledger, a: nat, sign: Fr, ay: Fr, after: Ledger, offset: Option<int>)
    ensures var raw, x := KeyUpdateRaw(s, a, sign, ay, after, offset), At(s, a).state;
            var p, balance := raw.payload, BalanceOf(s, a, 0);
            && raw.txType == TxType.Deposit && raw.offset == offset && OnOneAccount(raw, s, a, 0, after)
            && |p| == 60
            && HoldsAccount(p, 0, a, 0, balance, x.sign, x.ay, x.nonce)
            && HoldsAccount(p, 7, a, 0, balance, sign, ay, x.nonce)
            && Unused(p, 14, 59) && p[59] == 1
  {
    hide Payload, EmptySlotPath, BalanceOf, At, Add, BalancePath, AccountPath, TrivialOrderPath, StateRoot;
    TrivialPath(s.levels);
    PlainPayload(KeyUpdateFields(s, a, sign, ay));
  }

  lemma WithdrawEmitted(s: Ledger, a: nat, t: nat, amount: Fr, sig: Signature, after: Ledger, offset: Option<int>)
    ensures var raw, x := WithdrawRaw(s, a, t, amount, sig, after, offset), At(s, a).state;
            var p, balance := raw.payload, BalanceOf(s, a, t);
            && raw.txType == TxType.Withdraw && raw.offset == offset && OnOneAccount(raw, s, a, t, after)
            && |p| == 60
            && HoldsAccount(p, 0, a, t, balance, x.sign, x.ay, x.nonce)
            && HoldsAccount(p, 7, a, t, Sub(balance, amount), x.sign, x.ay, Add(x.nonce, 1))
            && HoldsSignature(p, 14, sig) && Unused(p, 19, 24) && p[24] == amount && Unused(p, 25, 60)
  {
    hide Payload, EmptySlotPath, BalanceOf, At, Add, Sub, BalancePath, AccountPath, TrivialOrderPath, StateRoot;
    TrivialPath(s.levels);
    PlainPayload(WithdrawFields(s, a, t, amount, sig));
  }

  lemma TransferEmitted(s: Ledger, from: nat, to: nat, t: nat, amount: Fr, sig: Signature, after: Ledger,
                        offset: Option<int>)
    ensures var raw := TransferRaw(s, from, to, t, amount, sig, after, offset);
            var p, x, y := raw.payload, At(s, from).state, At(s, to).state;
            && raw.txType == TxType.Transfer && raw.offset == offset && |p| == 60
            && raw.rootBefore == StateRoot(s) && raw.rootAfter == StateRoot(after)
            && raw.balancePath0 == raw.balancePath2 == BalancePath(s, from, t)
            && raw.balancePath1 == raw.balancePath3 == BalancePath(after, to, t)
            && raw.accountPath0 == AccountPath(s, from) && raw.accountPath1 == AccountPath(after, to)
            && raw.orderRoot0 == x.orderRoot && raw.orderRoot1 == y.orderRoot
            && raw.orderPath0 == raw.orderPath1 && EmptySlotPath(s.levels, raw.orderPath0)
            && HoldsAccount(p, 0, from, t, BalanceOf(s, from, t), x.sign, x.ay, x.nonce)
            && HoldsAccount(p, 7, to, t, Add(BalanceOf(s, to, t), amount), y.sign, y.ay, y.nonce)
            && HoldsSignature(p, 14, sig) && Unused(p, 19, 24) && p[24] == amount && Unused(p, 25, 60)
  {
    hide Payload, EmptySlotPath, BalanceOf, At, Add, BalancePath, AccountPath, TrivialOrderPath, StateRoot;
    TrivialPath(s.levels);
    PlainPayload(TransferFields(s, from, to, t, amount, sig));
  }

  lemma NopEmitted(s: Ledger)
    ensures var raw := NopRaw(s);
            && raw.txType == TxType.Nop && raw.offset == None && |raw.payload| == 60 && Unused(raw.payload, 0, 60)
            && raw.rootBefore == raw.rootAfter == StateRoot(s) && raw.orderRoot0 == raw.orderRoot1 == 0
            && raw.balancePath0 == raw.balancePath1 == raw.balancePath2 == raw.balancePath3 == BalancePath(s, 0, 0)
            && raw.accountPath0 == raw.accountPath1 == AccountPath(s, 0)
            && raw.orderPath0 == raw.orderPath1 && EmptySlotPath(s.levels, raw.orderPath0)
  {
    hide EmptySlotPath, BalancePath, AccountPath, TrivialOrderPath, StateRoot;
    TrivialPath(s.levels);
  }

  // ----------------------------------------------------------------- trades

  /** A trade's record, from the orders each side has before and after it and the balances read before it. */
  ghost predicate HoldsTrade(p: seq<Fr>, s: Ledger, tx: SpotTradeTx, pos1: nat, pos2: nat, old1: Order, old2: Order,
                             order1: Order, order2: Order, sell1: Fr, buy1: Fr, sell2: Fr, buy2: Fr)
  {
    && var x, y := At(s, tx.account1).state, At(s, tx.account2).state;
    && |p| == 60
    && HoldsAccount(p, 0, tx.account1, order1.tokenSell, sell1, x.sign, x.ay, x.nonce)
    && HoldsAccount(p, 7, tx.account2, order2.tokenBuy, Add(buy2, tx.amount1to2), y.sign, y.ay, y.nonce)
    && HoldsSignature(p, 14, order1.sig) && HoldsSignature(p, 19, order2.sig)
    && p[24..31] == [0, tx.amount1to2, tx.amount2to1, sell2, Add(buy1, tx.amount2to1), pos1 % P, pos2 % P]
    && HoldsOrder(p, 31, old1) && HoldsCompressed(p, 38, order1)
    && HoldsOrder(p, 45, old2) && HoldsCompressed(p, 52, order2)
    && p[59] == 0
  }

  lemma NewFieldsHeld(p: seq<Fr>, k: nat, o: Order)
    requires k + 7 <= |p| && OrderFieldsAt(p, k, NewFields(o)) && Compressible(o)
    ensures HoldsCompressed(p, k, o)
  {
    CompressedBack(o.totalSell);
    CompressedBack(o.totalBuy);
    hide Compress, Decompress, CompressedFr;
  }

  lemma InField(x: Fr)
    ensures x % P == x
  {
  }

  lemma MatchEmitted(s: Ledger, m: Matched, tx: SpotTradeTx)
    requires Compressible(m.order1) && Compressible(m.order2)
    ensures HoldsTrade(Payload(TradeFields(s, m, tx)), s, tx, m.pos1, m.pos2, m.old1, m.old2,
                       Order1After(m, tx), Order2After(m, tx),
                       BalanceOf(m.s, tx.account1, tx.token1to2), BalanceOf(m.s, tx.account1, tx.token2to1),
                       BalanceOf(m.s, tx.account2, tx.token2to1), BalanceOf(m.s, tx.account2, tx.token1to2))
  {
    hide Payload, BalanceOf, At, Add, HoldsCompressed, Compressible, CompressedFr, NewFields;
    var f := TradeFields(s, m, tx);
    var p := Payload(f);
    PayloadLaid(f);
    InField(m.order1.tokenSell);
    InField(m.order2.tokenBuy);
    SameTotals(m, tx);
    NewFieldsHeld(p, 38, Order1After(m, tx));
    NewFieldsHeld(p, 52, Order2After(m, tx));
  }

  /** Where a trade settles, and what is there afterwards. */
  lemma TradeSettles(s: Ledger, tx: SpotTradeTx)
    requires Invariant(s) && Traded(s, tx).Ok?
    ensures MatchOrders(s, tx).Ok?
    ensures var m, r := MatchOrders(s, tx).value, Traded(s, tx).value;
            && SlotOf(s, r, tx.account1, tx.order1Id, tx.maker) == Some(m.pos1)
            && SlotOf(s, r, tx.account2, tx.order2Id, tx.taker) == Some(m.pos2)
            && OrderAt(r, tx.account1, m.pos1) == Order1After(m, tx)
            && OrderAt(r, tx.account2, m.pos2) == Order2After(m, tx)
  {
    hide Invariant, MatchOrders, Traded, At, SlotOf, Order.TradeWith;
    TradedOrders(s, tx);
    TradedPositions(s, tx);
    TradeSlots(s, tx);
  }

  /** Sell sides, the first account and the slots are shown before the trade, buy sides and the second account after. */
  ghost predicate TradePaths(raw: RawTx, s: Ledger, tx: SpotTradeTx, pos1: nat, pos2: nat, r: Ledger) {
    && var a1, a2 := tx.account1, tx.account2;
    && raw.rootBefore == StateRoot(s) && raw.rootAfter == StateRoot(r)
    && raw.balancePath0 == BalancePath(s, a1, tx.token1to2) && raw.balancePath1 == BalancePath(r, a2, tx.token1to2)
    && raw.balancePath2 == BalancePath(s, a2, tx.token2to1) && raw.balancePath3 == BalancePath(r, a1, tx.token2to1)
    && raw.orderPath0 == OrderPath(s, a1, pos1) && raw.orderPath1 == OrderPath(s, a2, pos2)
    && raw.orderRoot0 == At(s, a1).state.orderRoot && raw.orderRoot1 == At(r, a2).state.orderRoot
    && raw.accountPath0 == AccountPath(s, a1) && raw.accountPath1 == AccountPath(r, a2)
  }

  lemma MatchPaths(s: Ledger, tx: SpotTradeTx, r: Ledger, offset: Option<int>)
    requires MatchOrders(s, tx).Ok?
    ensures var m := MatchOrders(s, tx).value;
            TradePaths(TradeRaw(s, m, tx, r, offset), s, tx, m.pos1, m.pos2, r)
  {
    MatchedRecords(s, tx);
    hide MatchOrders, Path, At, StateRoot, TradeFields, Payload, OrdersWritten;
  }

  /** The record of a trade holds both orders as they were in their slots and as they are there now. */
  lemma TradeEmitted(s: Ledger, tx: SpotTradeTx, offset: Option<int>)
    requires Invariant(s) && Traded(s, tx).Ok?
    ensures MatchOrders(s, tx).Ok?
    ensures var r, a1, a2 := Traded(s, tx).value, tx.account1, tx.account2;
            var raw := TradeRaw(s, MatchOrders(s, tx).value, tx, r, offset);
            var slot1, slot2 := SlotOf(s, r, a1, tx.order1Id, tx.maker), SlotOf(s, r, a2, tx.order2Id, tx.taker);
            && raw.txType == TxType.SpotTrade && raw.offset == offset && slot1.Some? && slot2.Some?
            && TradePaths(raw, s, tx, slot1.value, slot2.value, r)
            && HoldsTrade(raw.payload, s, tx, slot1.value, slot2.value,
                          OrderAt(s, a1, slot1.value), OrderAt(s, a2, slot2.value),
                          OrderAt(r, a1, slot1.value), OrderAt(r, a2, slot2.value),
                          StoredBalance(s, a1, tx.token1to2), StoredBalance(s, a1, tx.token2to1),
                          StoredBalance(s, a2, tx.token2to1), StoredBalance(s, a2, tx.token1to2))
  {
    TradedMatches(s, tx);
    var m := MatchOrders(s, tx).value;
    assert Compressible(m.order1) && Compressible(m.order2);
    hide Invariant, MatchOrders, Traded, At, SlotOf, OrderAt, StoredBalance, BalanceOf, HoldsTrade, TradeFields;
    hide Payload;
    hide Compressible, Order1After, Order2After, OrderPath, BalancePath, AccountPath, StateRoot, TradePaths;
    TradeSettles(s, tx);
    TradedSlots(s, tx);
    TradeReads(s, tx);
    MatchEmitted(s, m, tx);
    MatchPaths(s, tx, Traded(s, tx).value, offset);
  }
}
