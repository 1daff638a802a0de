/** What may become of an order slot and of a mapped order id in one step. */
module OrderHistory {
  import opened Field
  import opened Wrappers
  import opened MerkleSpec
  import opened Records
  import opened Ledger
  import opened Slots
  import opened Transactions
  import opened Settlement
  import opened Invariants
  import opened Steps

  /** The same order later on: its terms are fixed, and once cancelled it stays cancelled. */
  predicate SameOrder(o: Order, o': Order) {
    && o'.orderId == o.orderId && o'.side == o.side
    && o'.tokenBuy == o.tokenBuy && o'.tokenSell == o.tokenSell && o'.totalBuy == o.totalBuy
    && o'.totalSell == o.totalSell
    && (o'.isActive ==> o.isActive)
  }

  /** A slot keeps its order, or gives a closed one up for one with a larger id. */
  predicate SlotMoves(o: Order, o': Order) {
    SameOrder(o, o') || (o.Closed() && o.orderId < o'.orderId)
  }

  ghost predicate SlotsMove(s: Ledger, r: Ledger) {
    forall a: nat, pos :: pos in At(s, a).orders ==>
      pos in At(r, a).orders && SlotMoves(At(s, a).orders[pos], At(r, a).orders[pos])
  }

  ghost predicate MapGrows(s: Ledger, r: Ledger) {
    forall key :: key in s.positions ==> key in r.positions && r.positions[key] == s.positions[key]
  }

  /**
   * What a new order may do to a slot that its id is already mapped to: the order found there becomes a
   * later stage of itself, or is closed and gives way to a larger id. An order picked by its id does so anyway.
   */
  predicate SideKeepsSlot(s: Ledger, a: nat, new_: Option<Order>, sell: Fr, buy: Fr) {
    new_.Some? && (a, new_.value.orderId) in s.positions ==>
      SlotMoves(OrderAt(s, a, s.positions[(a, new_.value.orderId)]), new_.value.TradeWith(sell, buy))
  }

  /** A trade that takes no slot from an order that does not give it up: what a caller can check beforehand. */
  predicate KeepsSlots(s: Ledger, tx: SpotTradeTx) {
    && SideKeepsSlot(s, tx.account1, tx.maker, tx.amount1to2, tx.amount2to1)
    && SideKeepsSlot(s, tx.account2, tx.taker, tx.amount2to1, tx.amount1to2)
  }

  /** The id of a new order is not yet mapped for the account it trades for. */
  predicate NewIds(s: Ledger, tx: SpotTradeTx) {
    && (tx.maker.Some? ==> (tx.account1, tx.maker.value.orderId) !in s.positions)
    && (tx.taker.Some? ==> (tx.account2, tx.taker.value.orderId) !in s.positions)
  }

  /** A new order belongs to the account it trades for. */
  predicate OwnOrders(tx: SpotTradeTx) {
    && (tx.maker.Some? ==> tx.maker.value.accountId == tx.account1)
    && (tx.taker.Some? ==> tx.taker.value.accountId == tx.account2)
  }

  /** Orders of the right account have ids not yet mapped, or the trade is refused; and new ids keep every slot. */
  lemma OwnOrdersKeepSlots(s: Ledger, tx: SpotTradeTx)
    requires Traded(s, tx).Ok?
    ensures OwnOrders(tx) ==> NewIds(s, tx)
    ensures NewIds(s, tx) ==> KeepsSlots(s, tx)
  {
    hide PlaceBoth, Covered, Compressible, TradeApplied, IsKeyed, OrderAt;
  }

  lemma Unmoved(s: Ledger, r: Ledger)
    requires forall a: nat :: At(r, a).orders == At(s, a).orders
    ensures SlotsMove(s, r)
  {
    hide At;
  }

  /** The settled order may follow the one in the slot its id is mapped to, if any. */
  predicate Settles(s: Ledger, side: Side) {
    (side.a, side.order.orderId) in s.positions ==>
      SlotMoves(OrderAt(s, side.a, s.positions[(side.a, side.order.orderId)]), side.order)
  }

  lemma SettleMovesSlot(s: Ledger, side: Side, p: nat)
    requires Invariant(s) && side.a in s.accounts && Settle(s, side).Ok? && Settles(s, side)
    requires p in s.accounts[side.a].orders
    ensures var r := Settle(s, side).value;
            && side.a in r.accounts && p in r.accounts[side.a].orders
            && SlotMoves(s.accounts[side.a].orders[p], r.accounts[side.a].orders[p])
  {
    SettleIsStore(s, side);
    PlacementCases(s, side.a, side.order.orderId);
    assert Slotted(s, side.a, s.accounts[side.a]);
    hide Invariant, Settle, Placement, AccountState.Hash, Pow2, Order.Closed, EmptyAccount, SameOrder;
    var pos, before := Placement(s, side.a, side.order.orderId).value.0, s.accounts[side.a].orders;
    if p != pos {
      SameOrderReflexive(before[p]);
      hide SlotMoves;
    } else if (side.a, side.order.orderId) in s.positions {
      assert OrderAt(s, side.a, pos) == before[pos];
    } else {
      assert Victim(before[pos], side.order.orderId);
    }
  }

  /** A settled order whose id was known is found where the id leads. */
  lemma SettledAt(s: Ledger, side: Side)
    requires Invariant(s) && side.a in s.accounts && Settle(s, side).Ok?
    requires (side.a, side.order.orderId) in s.positions
    ensures var pos, r := s.positions[(side.a, side.order.orderId)], Settle(s, side).value;
            && pos in At(s, side.a).orders && pos in At(r, side.a).orders && At(r, side.a).orders[pos] == side.order
            && At(r, side.a).orders == At(s, side.a).orders[pos := side.order]
  {
    SettleIsStore(s, side);
    PlacementCases(s, side.a, side.order.orderId);
    hide Invariant, Settle, Placement, AccountState.Hash, Pow2, Order.Closed, EmptyAccount, Victim;
  }

  lemma SettleElsewhere(s: Ledger, side: Side)
    requires Invariant(s) && side.a in s.accounts && Settle(s, side).Ok?
    ensures forall b: nat :: b != side.a ==> At(Settle(s, side).value, b) == At(s, b)
  {
    SettleIsStore(s, side);
    hide Invariant, Settle, Placement, AccountState.Hash, Pow2, Order.Closed, EmptyAccount;
  }

  lemma SettlesMoves(s: Ledger, side: Side)
    requires Invariant(s) && side.a in s.accounts && Settle(s, side).Ok? && Settles(s, side)
    ensures SlotsMove(s, Settle(s, side).value)
  {
    hide Invariant, Settle, Settles, SlotMoves, EmptyAccount;
    var r := Settle(s, side).value;
    SettleElsewhere(s, side);
    forall b: nat, p | p in At(s, b).orders
      ensures p in At(r, b).orders && SlotMoves(At(s, b).orders[p], At(r, b).orders[p])
    {
      if b == side.a {
        SettleMovesSlot(s, side, p);
      } else {
        SameOrderReflexive(At(s, b).orders[p]);
      }
    }
  }

  /** A settlement moves slots as they may move exactly when its order may follow the one its id leads to. */
  lemma SettleMoves(s: Ledger, side: Side)
    requires Invariant(s) && side.a in s.accounts && Settle(s, side).Ok?
    ensures SlotsMove(s, Settle(s, side).value) <==> Settles(s, side)
  {
    hide Invariant, Settle, SlotMoves, EmptyAccount, At;
    if Settles(s, side) {
      SettlesMoves(s, side);
    } else {
      SettledAt(s, side);
      OrderThere(s, side.a, s.positions[(side.a, side.order.orderId)]);
    }
  }

  lemma OrderThere(s: Ledger, a: nat, pos: nat)
    ensures pos in At(s, a).orders ==> OrderAt(s, a, pos) == At(s, a).orders[pos]
  {
    hide At;
  }

  lemma SettleGrowsMap(s: Ledger, side: Side)
    requires Invariant(s) && side.a in s.accounts && Settle(s, side).Ok?
    ensures MapGrows(s, Settle(s, side).value)
  {
    SettleMaps(s, side);
    hide Invariant, Settle, EmptyAccount;
  }

  lemma SameOrderReflexive(o: Order)
    ensures SlotMoves(o, o)
  {
  }

  /** What a trade picks: a stored order by any id that leads to it, or the new order. */
  lemma PickSettles(s: Ledger, a: nat, orderId: nat, new_: Option<Order>, sell: Fr, buy: Fr, writes: seq<(nat, Fr)>)
    requires Invariant(s) && a in s.accounts && PickOrder(s, a, orderId, new_).Ok?
    ensures var order := PickOrder(s, a, orderId, new_).value;
            var key := (a, order.orderId);
            && (new_.None? ==>
                 && (a, orderId) in s.positions && s.positions[(a, orderId)] in s.accounts[a].orders
                 && order == OrderAt(s, a, s.positions[(a, orderId)])
                 && key in s.positions && s.positions[key] == s.positions[(a, orderId)])
            && (new_.Some? ==> order == new_.value && order.filledSell == 0 && order.filledBuy == 0)
            && (new_.Some? && key in s.positions ==> order.accountId != a)
            && (Settles(s, Side(a, order.TradeWith(sell, buy), writes)) <==> SideKeepsSlot(s, a, new_, sell, buy))
  {
    hide Shape, Synced, Pow2, Root, Order.Hash, AccountState.Hash, EmptyAccount;
    if new_.None? {
      var pos := s.positions[(a, orderId)];
      assert pos in s.accounts[a].orders by { assert Mapped(s); }
      assert Slotted(s, a, s.accounts[a]);
    }
  }

  /**
   * The cases of a trade's order: a stored order is traded further in its own slot. A new one starts
   * from nothing: in an empty slot, in that of a closed order with a smaller id, or, when it belongs
   * to another account, in whatever slot the account it trades for has mapped its id to.
   */
  lemma SideFills(s: Ledger, a: nat, orderId: nat, new_: Option<Order>, sell: Fr, buy: Fr)
    requires Invariant(s) && a in s.accounts && PickOrder(s, a, orderId, new_).Ok?
    requires Placement(s, a, PickOrder(s, a, orderId, new_).value.orderId).Ok?
    ensures var order := PickOrder(s, a, orderId, new_).value;
            var (pos, before, _) := Placement(s, a, order.orderId).value;
            && (new_.None? ==> before == order && pos == s.positions[(a, orderId)])
            && (new_.Some? ==>
                 && order.TradeWith(sell, buy) == order.(filledSell := sell, filledBuy := buy)
                 && (if (a, order.orderId) in s.positions then
                       order.accountId != a && pos == s.positions[(a, order.orderId)] && before == OrderAt(s, a, pos)
                     else if pos in s.accounts[a].orders then Victim(before, order.orderId)
                     else before == DEFAULT_ORDER))
  {
    var order := PickOrder(s, a, orderId, new_).value;
    PickSettles(s, a, orderId, new_, sell, buy, []);
    PlacementCases(s, a, order.orderId);
    assert Slotted(s, a, s.accounts[a]);
    hide Invariant, Pow2, Order.Closed, EmptyAccount, Placement;
  }

  lemma MovesCompose(s: Ledger, r: Ledger, q: Ledger)
    requires MapGrows(s, r) && MapGrows(r, q)
    ensures MapGrows(s, q)
  {
  }

  /** A trade of two different accounts moves each account's slots once. */
  lemma TwoAccountsMove(s: Ledger, r: Ledger, q: Ledger, a: nat, b: nat)
    requires a != b
    requires forall c: nat :: c != a ==> At(r, c).orders == At(s, c).orders
    requires forall c: nat :: c != b ==> At(q, c).orders == At(r, c).orders
    ensures SlotsMove(s, q) <==> SlotsMove(s, r) && SlotsMove(r, q)
  {
    hide At;
  }

  /** Settling one account leaves the slots and ids of the others as they were. */
  lemma SettleApart(s: Ledger, side: Side, b: nat)
    requires Invariant(s) && side.a in s.accounts && Settle(s, side).Ok? && b != side.a
    ensures var r := Settle(s, side).value;
            && (forall id: nat :: (b, id) in r.positions <==> (b, id) in s.positions)
            && (forall id: nat :: (b, id) in s.positions ==> r.positions[(b, id)] == s.positions[(b, id)])
  {
    hide Invariant, Settle, Placement, AccountState.Hash, EmptyAccount;
    SettleIsStore(s, side);
  }

  /** A trade as two settlements in a row, and the slots and ids both look at. */
  lemma TradeHalves(s: Ledger, tx: SpotTradeTx)
    requires Invariant(s) && Traded(s, tx).Ok?
    ensures var m := MatchOrders(s, tx).value;
            var side1, side2 := Side1(m, tx), Side2(m, tx);
            && MatchOrders(s, tx).Ok? && tx.account1 != tx.account2 && side1.a == tx.account1 && side2.a == tx.account2
            && side1.a in s.accounts && Settle(s, side1).Ok?
            && var half := Settle(s, side1).value;
            && Invariant(half) && side2.a in half.accounts && side2.a in s.accounts
            && Settle(half, side2) == Traded(s, tx)
            && (forall b: nat :: b != side1.a ==> At(half, b) == At(s, b))
            && (forall b: nat :: b != side2.a ==> At(Traded(s, tx).value, b) == At(half, b))
            && (forall id: nat :: (side2.a, id) in half.positions <==> (side2.a, id) in s.positions)
            && (forall id: nat :: (side2.a, id) in s.positions ==>
                  half.positions[(side2.a, id)] == s.positions[(side2.a, id)])
  {
    hide Invariant, MatchOrders, Traded, Settle, PickOrder, SlotsMove, MapGrows, Placement, AccountState.Hash, At;
    hide EmptyAccount, IsKeyed, TradeUpdates, Order1After, Order2After;
    TradedMatches(s, tx);
    MatchedPlacements(s, tx);
    TradeIsTwoSides(s, tx);
    KeyedExists(s, tx.account1);
    KeyedExists(s, tx.account2);
    var m := MatchOrders(s, tx).value;
    var side1, side2 := Side1(m, tx), Side2(m, tx);
    SettleKeeps(s, side1);
    SettleElsewhere(s, side1);
    SettleApart(s, side1, side2.a);
    SettleElsewhere(Settle(s, side1).value, side2);
  }

  lemma TradePicks(s: Ledger, tx: SpotTradeTx)
    requires Invariant(s) && Traded(s, tx).Ok?
    ensures var m := MatchOrders(s, tx).value;
            && MatchOrders(s, tx).Ok? && tx.account1 in s.accounts && tx.account2 in s.accounts
            && PickOrder(s, tx.account1, tx.order1Id, tx.maker) == Ok(m.order1)
            && PickOrder(s, tx.account2, tx.order2Id, tx.taker) == Ok(m.order2)
            && (Settles(s, Side1(m, tx)) <==> SideKeepsSlot(s, tx.account1, tx.maker, tx.amount1to2, tx.amount2to1))
            && (Settles(s, Side2(m, tx)) <==> SideKeepsSlot(s, tx.account2, tx.taker, tx.amount2to1, tx.amount1to2))
  {
    var m := MatchOrders(s, tx).value;
    MatchedPlacements(s, tx);
    KeyedExists(s, tx.account1);
    KeyedExists(s, tx.account2);
    PickSettles(s, tx.account1, tx.order1Id, tx.maker, tx.amount1to2, tx.amount2to1,
                TradeUpdates(m, tx)[0].balanceUpdates);
    PickSettles(s, tx.account2, tx.order2Id, tx.taker, tx.amount2to1, tx.amount1to2,
                TradeUpdates(m, tx)[1].balanceUpdates);
    hide Invariant, MatchOrders, Traded, PickOrder, Settles, SideKeepsSlot;
  }

  /** A trade moves slots as they may move exactly when its new orders keep them. */
  lemma TradeMoves(s: Ledger, tx: SpotTradeTx)
    requires Invariant(s) && Traded(s, tx).Ok?
    ensures SlotsMove(s, Traded(s, tx).value) <==> KeepsSlots(s, tx)
    ensures MapGrows(s, Traded(s, tx).value)
  {
    hide Invariant, MatchOrders, Traded, Settle, PickOrder, Settles, SideKeepsSlot, SlotsMove, MapGrows;
    TradeHalves(s, tx);
    TradePicks(s, tx);
    var m := MatchOrders(s, tx).value;
    var side1, side2 := Side1(m, tx), Side2(m, tx);
    var half := Settle(s, side1).value;
    SettleMoves(s, side1);
    SettleGrowsMap(s, side1);
    SettlesApart(s, half, side2);
    SettleMoves(half, side2);
    SettleGrowsMap(half, side2);
    MovesCompose(s, half, Settle(half, side2).value);
    TwoAccountsMove(s, half, Settle(half, side2).value, side1.a, side2.a);
  }

  /** A settlement looks at its own account's slots and ids only. */
  lemma SettlesApart(s: Ledger, r: Ledger, side: Side)
    requires At(r, side.a) == At(s, side.a)
    requires forall id: nat :: (side.a, id) in r.positions <==> (side.a, id) in s.positions
    requires forall id: nat :: (side.a, id) in s.positions ==> r.positions[(side.a, id)] == s.positions[(side.a, id)]
    ensures Settles(r, side) <==> Settles(s, side)
  {
    hide EmptyAccount, SlotMoves;
  }

  /** After a trade, an order whose id was known is found where the id leads. */
  lemma TradedAt(s: Ledger, tx: SpotTradeTx)
    requires Invariant(s) && Traded(s, tx).Ok?
    ensures var m, r := MatchOrders(s, tx).value, Traded(s, tx).value;
            var key1, key2 := (tx.account1, m.order1.orderId), (tx.account2, m.order2.orderId);
            && (key1 in s.positions ==> OrderAt(r, key1.0, s.positions[key1]) == Order1After(m, tx))
            && (key2 in s.positions ==> OrderAt(r, key2.0, s.positions[key2]) == Order2After(m, tx))
  {
    hide Invariant, MatchOrders, Traded, Settle, EmptyAccount;
    TradeHalves(s, tx);
    var m := MatchOrders(s, tx).value;
    var side1, side2 := Side1(m, tx), Side2(m, tx);
    if (side1.a, side1.order.orderId) in s.positions {
      SettledAt(s, side1);
    }
    if (side2.a, side2.order.orderId) in s.positions {
      SettledAt(Settle(s, side1).value, side2);
    }
  }

  // ------------------------------------------------------- foreign orders

  /** What a trade's new order does on one side, when its id is mapped for the account it trades for. */
  ghost predicate Replaces(s: Ledger, tx: SpotTradeTx, a: nat, foreign: Order, sell: Fr, buy: Fr)
    requires Traded(s, tx).Ok? && (a, foreign.orderId) in s.positions
  {
    var pos, r := s.positions[(a, foreign.orderId)], Traded(s, tx).value;
    var lost := OrderAt(s, a, pos);
    && foreign.accountId != a
    && OrderAt(r, a, pos) == foreign.TradeWith(sell, buy)
    && (!lost.Closed() && !SameOrder(lost, foreign) ==> !KeepsSlots(s, tx) && !SlotsMove(s, r))
  }

  /**
   * A new order of another account, whose id is mapped for the account it trades for, goes into the
   * mapped slot, and an open order that was there is lost. This is so on either side of a trade.
   */
  lemma ForeignOrderReplaces(s: Ledger, tx: SpotTradeTx)
    requires Invariant(s) && Traded(s, tx).Ok?
    ensures tx.maker.Some? && (tx.account1, tx.maker.value.orderId) in s.positions ==>
              Replaces(s, tx, tx.account1, tx.maker.value, tx.amount1to2, tx.amount2to1)
    ensures tx.taker.Some? && (tx.account2, tx.taker.value.orderId) in s.positions ==>
              Replaces(s, tx, tx.account2, tx.taker.value, tx.amount2to1, tx.amount1to2)
  {
    hide Invariant, MatchOrders, Traded, SlotsMove, MapGrows, EmptyAccount, OrderAt, Order.Closed;
    TradePicks(s, tx);
    TradedAt(s, tx);
    TradeMoves(s, tx);
    PickSettles(s, tx.account1, tx.order1Id, tx.maker, tx.amount1to2, tx.amount2to1, []);
    PickSettles(s, tx.account2, tx.order2Id, tx.taker, tx.amount2to1, tx.amount1to2, []);
  }

  // --------------------------------------------------------- every step

  lemma OrdersStay(s: Ledger, r: Ledger)
    requires (forall b: nat :: At(r, b).orders == At(s, b).orders) && r.positions == s.positions
    ensures SlotsMove(s, r) && MapGrows(s, r)
  {
    hide At;
    Unmoved(s, r);
  }

  /** Operations on balances and keys leave every order where and as it is. */
  lemma SingleOrders(s: Ledger, op: Op, r: Ledger)
    requires Step(s, op, r) && (op.KeyUpdate? || op.Deposit? || op.Withdraw?)
    ensures (forall b: nat :: At(r, b).orders == At(s, b).orders) && r.positions == s.positions
  {
    hide AccountState.Hash, Root, EmptyAccount, BalanceOf, Add, Sub, Pow2, IsKeyed;
  }

  lemma TransferOrders(s: Ledger, op: Op, r: Ledger)
    requires Invariant(s) && Step(s, op, r) && op.Transfer?
    ensures (forall b: nat :: At(r, b).orders == At(s, b).orders) && r.positions == s.positions
  {
    hide Invariant, TransferStep, AccountState.Hash, Root, EmptyAccount, BalanceOf, Add, Sub, ApplyUpdates, Pow2;
    if op.from != op.to {
      TransferIsDetermined(s, op.from, op.to, op.t, op.amount, r);
    } else {
      SelfTransferStep(s, op.from, op.t, op.amount, r);
      StoredAt(s, op.from, At(r, op.from));
    }
  }

  lemma CancelMoves(s: Ledger, a: nat, orderId: nat)
    requires Cancelled(s, a, orderId).Ok?
    ensures SlotsMove(s, Cancelled(s, a, orderId).value) && MapGrows(s, Cancelled(s, a, orderId).value)
  {
    hide EmptyAccount, Order.IsFilled;
  }

  lemma NothingMoves(s: Ledger)
    ensures SlotsMove(s, s) && MapGrows(s, s)
  {
    hide At;
  }

  /**
   * In every step mapped ids stay mapped, and slots move as they may, exactly unless a new order takes one that is not
   * its own.
   */
  lemma StepMoves(s: Ledger, op: Op, r: Ledger)
    requires Invariant(s) && Step(s, op, r)
    ensures MapGrows(s, r)
    ensures SlotsMove(s, r) <==> (op.Trade? ==> KeepsSlots(s, op.tx))
  {
    hide Invariant, Pow2, Traded, TransferStep, AccountState.Hash, Root, EmptyAccount, ApplyUpdates, TransferUpdates;
    hide SlotsMove, MapGrows, OpInRange, KeepsSlots;
    match op
    case Trade(tx) => TradeMoves(s, tx);
    case Transfer(_, _, _, _) =>
      TransferOrders(s, op, r);
      OrdersStay(s, r);
    case Cancel(a, orderId) => CancelMoves(s, a, orderId);
    case Nop => NothingMoves(s);
    case _ =>
      SingleOrders(s, op, r);
      OrdersStay(s, r);
  }

  // ------------------------------------------------------- full accounts

  /** In slot `pos` is an order without an amount, and the scan of a full account meets it before it meets a victim. */
  ghost predicate Blocks(orders: map<nat, Order>, cursor: nat, size: nat, orderId: nat, pos: nat) {
    && pos in orders && orders[pos].IsDefault()
    && forall other :: other in orders && Victim(orders[other], orderId) && other != pos ==>
         Sooner(cursor, size, pos, other)
  }

  /** The slot holds a victim, and no slot the scan visits earlier holds one or an order without an amount. */
  ghost predicate FirstFrom(orders: map<nat, Order>, cursor: nat, size: nat, orderId: nat, pos: nat) {
    && pos < size && pos in orders && Victim(orders[pos], orderId) && !orders[pos].IsDefault()
    && forall other :: other in orders && Sooner(cursor, size, other, pos) ==>
         !Victim(orders[other], orderId) && !orders[other].IsDefault()
  }

  /** The scan of a full account that does not hold the id being placed, in terms of the stored orders. */
  lemma FullScan(orders: map<nat, Order>, cursor: nat, size: nat, orderId: nat)
    requires size > 0 && forall pos :: pos in orders <==> 0 <= pos < size
    requires forall pos :: pos in orders ==> orders[pos].orderId != orderId
    ensures var scan := Scan(orders, cursor, size, orderId, 0);
            && (scan == Err("default order in a full tree") <==>
                  exists pos :: Blocks(orders, cursor, size, orderId, pos))
            && (scan == Err("cannot find order pos") <==>
                  forall pos :: pos in orders ==> !Victim(orders[pos], orderId) && !orders[pos].IsDefault())
            && (scan.Err? ==> scan.reason in {"default order in a full tree", "cannot find order pos"})
            && (scan.Ok? ==> FirstFrom(orders, cursor, size, orderId, scan.value))
  {
    hide Scan, RoundOf, Candidate, Order.Closed, Order.IsDefault;
    ScanResult(orders, cursor, size, orderId);
    FirstStopFirst(orders, cursor, size, orderId);
    var k := FirstStop(orders, cursor, size, orderId, 0);
    forall pos: nat | pos in orders
      ensures pos < size && SlotOrder(orders, pos) == orders[pos]
      ensures Stops(SlotOrder(orders, pos), orderId) <==> orders[pos].IsDefault() || Victim(orders[pos], orderId)
    {
    }
    if k < size {
      var first := Candidate(cursor, size, k);
      FirstDecides(orders, cursor, size, orderId, first);
    } else {
      NothingBlocks(orders, cursor, size, orderId);
    }
  }

  lemma NothingBlocks(orders: map<nat, Order>, cursor: nat, size: nat, orderId: nat)
    requires forall pos :: pos in orders ==> !orders[pos].IsDefault()
    ensures !exists pos :: Blocks(orders, cursor, size, orderId, pos)
  {
  }

  lemma OneIsSooner(cursor: nat, size: nat, pos: nat, other: nat)
    ensures !(Sooner(cursor, size, pos, other) && Sooner(cursor, size, other, pos))
  {
  }

  /** The first slot that holds a victim or an order without an amount. */
  lemma FirstDecides(orders: map<nat, Order>, cursor: nat, size: nat, orderId: nat, first: nat)
    requires first in orders && (orders[first].IsDefault() || Victim(orders[first], orderId)) && first < size
    requires forall pos ::
               pos in orders && pos != first && (orders[pos].IsDefault() || Victim(orders[pos], orderId)) ==>
                 Sooner(cursor, size, first, pos)
    ensures (exists pos :: Blocks(orders, cursor, size, orderId, pos)) <==> orders[first].IsDefault()
    ensures !orders[first].IsDefault() ==> FirstFrom(orders, cursor, size, orderId, first)
  {
    hide RoundOf, Victim, Order.IsDefault;
    if orders[first].IsDefault() {
      assert Blocks(orders, cursor, size, orderId, first);
    } else {
      forall pos
        ensures !Blocks(orders, cursor, size, orderId, pos)
      {
        OneIsSooner(cursor, size, first, pos);
      }
      forall pos | Sooner(cursor, size, pos, first)
        ensures !Sooner(cursor, size, first, pos)
      {
        OneIsSooner(cursor, size, first, pos);
      }
    }
  }

  /** For an id not yet known the placement is what the slot search says. */
  lemma NewPlacement(s: Ledger, a: nat, orderId: nat)
    requires (a, orderId) !in s.positions && a in s.accounts
    ensures var next := NextPos(s.accounts[a], Pow2(s.levels.order), orderId);
            && (next.Err? ==> Placement(s, a, orderId) == Err(next.reason))
            && (next.Ok? ==> Placement(s, a, orderId).Ok? && Placement(s, a, orderId).value.0 == next.value.0)
  {
    hide NextPos, Pow2, EmptyAccount;
  }

  lemma UnmappedNotStored(s: Ledger, a: nat, orderId: nat)
    requires Invariant(s) && a in s.accounts && (a, orderId) !in s.positions
    ensures forall pos :: pos in s.accounts[a].orders ==> s.accounts[a].orders[pos].orderId != orderId
    ensures forall pos :: pos in s.accounts[a].orders <==> 0 <= pos < |s.accounts[a].orders|
  {
    hide Shape, Mapped, Synced, Pow2;
    assert Slotted(s, a, s.accounts[a]);
  }

  /**
   * A new order finds no place exactly when its account is full and either no slot holds a victim, that
   * is, every order is open or has an id at least as large, or the scan meets an order without an amount
   * before it meets a victim. Otherwise it is appended, or takes the first victim's slot from the cursor on.
   */
  lemma PlacementFailsExactly(s: Ledger, a: nat, orderId: nat)
    requires Invariant(s) && a in s.accounts && (a, orderId) !in s.positions
    ensures var orders, size, cursor := s.accounts[a].orders, Pow2(s.levels.order), s.accounts[a].cursor;
            var placement := Placement(s, a, orderId);
            && (placement == Err("default order in a full tree") <==>
                  |orders| == size && exists pos :: Blocks(orders, cursor, size, orderId, pos))
            && (placement == Err("cannot find order pos") <==>
                  |orders| == size && forall pos :: pos in orders ==>
                    !Victim(orders[pos], orderId) && !orders[pos].IsDefault())
            && (placement.Err? ==> placement.reason in {"default order in a full tree", "cannot find order pos"})
            && (placement.Ok? && |orders| < size ==> placement.value.0 == |orders|)
            && (placement.Ok? && |orders| == size ==> FirstFrom(orders, cursor, size, orderId, placement.value.0))
  {
    hide Invariant, Pow2, Scan, Victim, Placement, FirstFrom, Blocks, Order.IsDefault, NextPos;
    var account, size := s.accounts[a], Pow2(s.levels.order);
    NextPosCases(s, a, orderId);
    NewPlacement(s, a, orderId);
    UnmappedNotStored(s, a, orderId);
    if |account.orders| == size {
      FullScan(account.orders, account.cursor, size, orderId);
    }
  }

  /** Every stored order sells something. */
  ghost predicate Valued(s: Ledger) {
    forall a :: a in s.accounts ==> forall pos :: pos in s.accounts[a].orders ==> !s.accounts[a].orders[pos].IsDefault()
  }

  predicate ValuedOrders(tx: SpotTradeTx) {
    && (tx.maker.Some? ==> !tx.maker.value.IsDefault())
    && (tx.taker.Some? ==> !tx.taker.value.IsDefault())
  }

  /** Where every stored order sells something, a new one finds no place exactly for want of a slot. */
  lemma ValuedPlacementFails(s: Ledger, a: nat, orderId: nat)
    requires Invariant(s) && Valued(s) && a in s.accounts && (a, orderId) !in s.positions
    ensures var orders := s.accounts[a].orders;
            Placement(s, a, orderId).Err? <==>
              |orders| == Pow2(s.levels.order) && forall pos :: pos in orders ==> !Victim(orders[pos], orderId)
  {
    hide Invariant, Pow2, Victim, Placement, FirstFrom, Order.IsDefault;
    PlacementFailsExactly(s, a, orderId);
  }

  /** An account full of orders without an amount takes no further order, whatever could give way to it. */
  lemma WorthlessOrdersBlock(s: Ledger, a: nat, orderId: nat)
    requires Invariant(s) && a in s.accounts && (a, orderId) !in s.positions
    requires |s.accounts[a].orders| == Pow2(s.levels.order)
    requires forall pos :: pos in s.accounts[a].orders ==> s.accounts[a].orders[pos].IsDefault()
    ensures Placement(s, a, orderId) == Err("default order in a full tree")
  {
    hide Invariant, Pow2, Victim, Placement, Blocks, Order.IsDefault;
    PlacementFailsExactly(s, a, orderId);
    UnmappedNotStored(s, a, orderId);
    assert 0 in s.accounts[a].orders;
  }

  lemma SettleKeepsValued(s: Ledger, side: Side)
    requires Invariant(s) && Valued(s) && side.a in s.accounts && Settle(s, side).Ok? && !side.order.IsDefault()
    ensures Valued(Settle(s, side).value)
  {
    SettleIsStore(s, side);
    hide Invariant, Settle, Placement, AccountState.Hash, Pow2, EmptyAccount, Order.IsDefault;
  }

  lemma PickValued(s: Ledger, a: nat, orderId: nat, new_: Option<Order>)
    requires Invariant(s) && Valued(s) && a in s.accounts && PickOrder(s, a, orderId, new_).Ok?
    requires new_.Some? ==> !new_.value.IsDefault()
    ensures !PickOrder(s, a, orderId, new_).value.IsDefault()
  {
    hide Shape, Synced, Slotted, Pow2, EmptyAccount;
    if new_.None? {
      assert s.positions[(a, orderId)] in s.accounts[a].orders by { assert Mapped(s); }
    }
  }

  lemma TradeKeepsValued(s: Ledger, tx: SpotTradeTx)
    requires Invariant(s) && Valued(s) && Traded(s, tx).Ok? && ValuedOrders(tx)
    ensures Valued(Traded(s, tx).value)
  {
    var m := MatchOrders(s, tx).value;
    MatchedPlacements(s, tx);
    TradeIsTwoSides(s, tx);
    KeyedExists(s, tx.account1);
    KeyedExists(s, tx.account2);
    PickValued(s, tx.account1, tx.order1Id, tx.maker);
    PickValued(s, tx.account2, tx.order2Id, tx.taker);
    assert !Order1After(m, tx).IsDefault() && !Order2After(m, tx).IsDefault();
    hide Invariant, Valued, MatchOrders, Traded, Settle, PickOrder, Order.IsDefault;
    SettleKeeps(s, Side1(m, tx));
    SettleKeepsValued(s, Side1(m, tx));
    SettleKeepsValued(Settle(s, Side1(m, tx)).value, Side2(m, tx));
  }

  lemma SameOrdersValued(s: Ledger, r: Ledger)
    requires Valued(s) && forall b: nat :: At(r, b).orders == At(s, b).orders
    ensures Valued(r)
  {
    hide EmptyAccount, Order.IsDefault;
    assert EmptyAccount(s.levels).orders == map[] by { NoOrders(s.levels); }
    forall a, pos | a in r.accounts && pos in r.accounts[a].orders
      ensures !r.accounts[a].orders[pos].IsDefault()
    {
      assert At(r, a).orders == At(s, a).orders;
    }
  }

  lemma NoOrders(levels: Levels)
    ensures EmptyAccount(levels).orders == map[]
  {
  }

  /** As long as new orders sell something, all stored ones do. */
  lemma StepKeepsValued(s: Ledger, op: Op, r: Ledger)
    requires Invariant(s) && Valued(s) && Step(s, op, r) && (op.Trade? ==> ValuedOrders(op.tx))
    ensures Valued(r)
  {
    hide Invariant, Pow2, Traded, TransferStep, KeyUpdated, Deposited, Withdrawn, OpInRange, At, AccountState.Hash;
    match op
    case Trade(tx) => TradeKeepsValued(s, tx);
    case Transfer(_, _, _, _) =>
      TransferOrders(s, op, r);
      SameOrdersValued(s, r);
    case Cancel(a, orderId) => CancelKeepsValued(s, a, orderId);
    case Nop =>
    case _ =>
      SingleOrders(s, op, r);
      SameOrdersValued(s, r);
  }

  lemma CancelKeepsValued(s: Ledger, a: nat, orderId: nat)
    requires Valued(s) && Cancelled(s, a, orderId).Ok?
    ensures Valued(Cancelled(s, a, orderId).value)
  {
    hide EmptyAccount;
  }

  // ----------------------------------------------------------- stale ids

  /** The id of a stored order cancels that order and no other. */
  lemma CancelByOwnId(s: Ledger, a: nat, pos: nat)
    requires Invariant(s) && a in s.accounts && pos in s.accounts[a].orders
    ensures var order := s.accounts[a].orders[pos];
            Cancelled(s, a, order.orderId) == Ok(WithOrderAt(s, a, pos, order.(isActive := false)))
  {
    hide Shape, Synced, Mapped, Pow2, EmptyAccount;
    assert Slotted(s, a, s.accounts[a]);
  }

  /** An order that loses its slot to one with a larger id leaves its own id behind. */
  lemma EvictionLeavesStaleId(s: Ledger, side: Side, pos: nat)
    requires Invariant(s) && side.a in s.accounts && Settle(s, side).Ok?
    requires (side.a, side.order.orderId) !in s.positions
    requires pos in s.accounts[side.a].orders && Placement(s, side.a, side.order.orderId).value.0 == pos
    ensures var evicted := s.accounts[side.a].orders[pos].orderId;
            evicted < side.order.orderId && Stale(Settle(s, side).value, (side.a, evicted))
  {
    SettleIsStore(s, side);
    SettleMaps(s, side);
    PlacementCases(s, side.a, side.order.orderId);
    assert Slotted(s, side.a, s.accounts[side.a]);
    hide Invariant, Settle, Placement, AccountState.Hash, Pow2, EmptyAccount;
  }

  /** Cancelling by such an id cancels the order that is in the slot now, which has another id. */
  lemma CancelByEvictedId(s: Ledger, a: nat, orderId: nat)
    requires Invariant(s) && Stale(s, (a, orderId))
    ensures var pos := s.positions[(a, orderId)];
            var newcomer := OrderAt(s, a, pos);
            && newcomer.orderId != orderId && s.positions[(a, newcomer.orderId)] == pos
            && Cancelled(s, a, orderId) == Cancelled(s, a, newcomer.orderId)
                 == Ok(WithOrderAt(s, a, pos, newcomer.(isActive := false)))
  {
    hide Shape, Synced, Mapped, Pow2, EmptyAccount;
    assert Slotted(s, a, s.accounts[a]);
  }

  /** Trading by such an id trades the order that is in the slot now. */
  lemma TradeByEvictedId(s: Ledger, tx: SpotTradeTx)
    requires Invariant(s) && Traded(s, tx).Ok?
    ensures tx.maker.None? && Stale(s, (tx.account1, tx.order1Id)) ==>
              var pos := s.positions[(tx.account1, tx.order1Id)];
              var newcomer := OrderAt(s, tx.account1, pos);
              newcomer.orderId != tx.order1Id
              && OrderAt(Traded(s, tx).value, tx.account1, pos) == newcomer.TradeWith(tx.amount1to2, tx.amount2to1)
    ensures tx.taker.None? && Stale(s, (tx.account2, tx.order2Id)) ==>
              var pos := s.positions[(tx.account2, tx.order2Id)];
              var newcomer := OrderAt(s, tx.account2, pos);
              newcomer.orderId != tx.order2Id
              && OrderAt(Traded(s, tx).value, tx.account2, pos) == newcomer.TradeWith(tx.amount2to1, tx.amount1to2)
  {
    hide Invariant, MatchOrders, Traded, EmptyAccount, PickOrder, Settles;
    TradePicks(s, tx);
    TradedAt(s, tx);
    PickSettles(s, tx.account1, tx.order1Id, tx.maker, tx.amount1to2, tx.amount2to1, []);
    PickSettles(s, tx.account2, tx.order2Id, tx.taker, tx.amount2to1, tx.amount1to2, []);
  }
}
