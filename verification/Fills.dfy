/** How far the stored orders are filled: what each trade adds, and what a whole run adds up to. */
module Fills {
  import opened Field
  import opened Wrappers
  import opened MerkleSpec
  import opened Records
  import opened Ledger
  import opened Slots
  import opened Transactions
  import opened Settlement
  import opened Invariants
  import opened Conservation
  import opened Steps
  import opened OrderHistory
  import opened TradeWitness
  import opened Effects
  import opened Runs

  // -------------------------------------------------------------- one trade

  /** The slot one side of a trade settles in: where the stored order's id led, or the new order's id leads now. */
  function SlotOf(s: Ledger, r: Ledger, a: nat, orderId: nat, new_: Option<Order>): Option<nat> {
    match new_
    case Some(o) => if (a, o.orderId) in r.positions then Some(r.positions[(a, o.orderId)]) else None
    case None => if (a, orderId) in s.positions then Some(s.positions[(a, orderId)]) else None
  }

  /**
   * One side of a trade afterwards: of all its slots one has changed. A stored order is there as it was, with
   * what was sold and bought added to its fills; a new one is there filled with just that.
   */
  ghost predicate FillsAdded(s: Ledger, r: Ledger, a: nat, orderId: nat, new_: Option<Order>, sold: Fr, bought: Fr) {
    && var slot := SlotOf(s, r, a, orderId, new_);
    && slot.Some?
    && var pos := slot.value;
    && At(r, a).orders == At(s, a).orders[pos :=
         match new_
         case Some(o) => o.(filledSell := sold, filledBuy := bought)
         case None =>
           var stored := OrderAt(s, a, pos);
           stored.(filledSell := Add(stored.filledSell, sold), filledBuy := Add(stored.filledBuy, bought))]
    && (new_.None? ==> pos in At(s, a).orders)
  }

  lemma SettledOrders(s: Ledger, side: Side)
    requires Invariant(s) && side.a in s.accounts && Settle(s, side).Ok?
    ensures var r := Settle(s, side).value;
            && (side.a, side.order.orderId) in r.positions
            && At(r, side.a).orders == At(s, side.a).orders[r.positions[(side.a, side.order.orderId)] := side.order]
            && ((side.a, side.order.orderId) in s.positions ==>
                  r.positions[(side.a, side.order.orderId)] == s.positions[(side.a, side.order.orderId)])
            && forall key :: key != (side.a, side.order.orderId) ==>
                 (key in r.positions <==> key in s.positions)
                 && (key in s.positions ==> r.positions[key] == s.positions[key])
  {
    hide Invariant, Settle, Placement, AccountState.Hash, EmptyAccount, Victim;
    SettleIsStore(s, side);
    PlacementCases(s, side.a, side.order.orderId);
  }

  /** Both accounts' slots after a trade. */
  lemma TradedOrders(s: Ledger, tx: SpotTradeTx)
    requires Invariant(s) && Traded(s, tx).Ok?
    ensures MatchOrders(s, tx).Ok? && tx.account1 != tx.account2 && tx.account1 in s.accounts
    ensures tx.account2 in s.accounts
    ensures var m, r := MatchOrders(s, tx).value, Traded(s, tx).value;
            var key1, key2 := (tx.account1, m.order1.orderId), (tx.account2, m.order2.orderId);
            && key1 in r.positions && key2 in r.positions
            && (key1 in s.positions ==> r.positions[key1] == s.positions[key1])
            && (key2 in s.positions ==> r.positions[key2] == s.positions[key2])
            && At(r, tx.account1).orders == At(s, tx.account1).orders[r.positions[key1] := Order1After(m, tx)]
            && At(r, tx.account2).orders == At(s, tx.account2).orders[r.positions[key2] := Order2After(m, tx)]
            && forall b: nat :: b != tx.account1 && b != tx.account2 ==> At(r, b) == At(s, b)
  {
    hide Invariant, MatchOrders, Traded, Settle, EmptyAccount, At, TradeUpdates;
    TradeHalves(s, tx);
    var m := MatchOrders(s, tx).value;
    var side1, side2 := Side1(m, tx), Side2(m, tx);
    SettledOrders(s, side1);
    SettledOrders(Settle(s, side1).value, side2);
  }

  lemma SettledSlot(s: Ledger, side: Side)
    requires Invariant(s) && side.a in s.accounts && Settle(s, side).Ok?
    ensures var key, r := (side.a, side.order.orderId), Settle(s, side).value;
            && Placement(s, side.a, key.1).Ok? && key in r.positions
            && r.positions[key] == Placement(s, side.a, key.1).value.0
  {
    hide Invariant, AccountState.Hash, EmptyAccount, Victim, Root, ApplyUpdates, Order.Hash, NextPos, Settled;
    PlacementCases(s, side.a, side.order.orderId);
  }

  /** The slots a trade is matched with are those its orders' ids lead to afterwards. */
  lemma TradedPositions(s: Ledger, tx: SpotTradeTx)
    requires Invariant(s) && Traded(s, tx).Ok?
    ensures MatchOrders(s, tx).Ok?
    ensures var m, r := MatchOrders(s, tx).value, Traded(s, tx).value;
            var key1, key2 := (tx.account1, m.order1.orderId), (tx.account2, m.order2.orderId);
            key1 in r.positions && key2 in r.positions && r.positions[key1] == m.pos1 && r.positions[key2] == m.pos2
  {
    hide Invariant, MatchOrders, Traded, Settle, EmptyAccount, At, TradeUpdates, Placement, PickOrder, IsKeyed;
    TradeHalves(s, tx);
    MatchedPlacements(s, tx);
    var m := MatchOrders(s, tx).value;
    var side1, side2 := Side1(m, tx), Side2(m, tx);
    var half, placed := Settle(s, side1).value, Placement(s, tx.account1, m.order1.orderId).value.2;
    SettledSlot(s, side1);
    SettledSlot(half, side2);
    SettledLevels(s, side1);
    FirstPlacement(s, tx.account1, m.order1.orderId, tx.account2);
    PlacementApart(s, placed, tx.account2, m.order2.orderId);
    PlacementApart(s, half, tx.account2, m.order2.orderId);
    SettledOrders(half, side2);
  }

  lemma SettledLevels(s: Ledger, side: Side)
    requires Invariant(s) && side.a in s.accounts && Settle(s, side).Ok?
    ensures Settle(s, side).value.levels == s.levels
  {
    hide Invariant, Settle, Placement, AccountState.Hash, EmptyAccount;
    SettleIsStore(s, side);
  }

  lemma FillsAddedBy(s: Ledger, r: Ledger, a: nat, orderId: nat, new_: Option<Order>, sold: Fr, bought: Fr,
                     order: Order)
    requires Invariant(s) && a in s.accounts && PickOrder(s, a, orderId, new_) == Ok(order)
    requires (a, order.orderId) in r.positions
    requires (a, order.orderId) in s.positions ==> r.positions[(a, order.orderId)] == s.positions[(a, order.orderId)]
    requires At(r, a).orders == At(s, a).orders[r.positions[(a, order.orderId)] := order.TradeWith(sold, bought)]
    ensures FillsAdded(s, r, a, orderId, new_, sold, bought)
  {
    hide Invariant, PickOrder, At;
    PickSettles(s, a, orderId, new_, sold, bought, []);
    KnownAccount(s, a);
    FromNothing(sold);
    FromNothing(bought);
  }

  lemma KnownAccount(s: Ledger, a: nat)
    requires a in s.accounts
    ensures At(s, a) == s.accounts[a]
  {
  }

  lemma FromNothing(x: Fr)
    ensures Add(0, x) == x
  {
  }

  /** What a trade does to the orders of both sides; of nobody else is anything changed. */
  lemma TradeFills(s: Ledger, tx: SpotTradeTx)
    requires Invariant(s) && Traded(s, tx).Ok?
    ensures var r := Traded(s, tx).value;
            && tx.account1 != tx.account2
            && FillsAdded(s, r, tx.account1, tx.order1Id, tx.maker, tx.amount1to2, tx.amount2to1)
            && FillsAdded(s, r, tx.account2, tx.order2Id, tx.taker, tx.amount2to1, tx.amount1to2)
            && forall b: nat :: b != tx.account1 && b != tx.account2 ==> At(r, b) == At(s, b)
  {
    hide Invariant, MatchOrders, Traded, At, FillsAdded, PickOrder, Order.TradeWith;
    TradedOrders(s, tx);
    TradePicks(s, tx);
    var m, r := MatchOrders(s, tx).value, Traded(s, tx).value;
    FillsAddedBy(s, r, tx.account1, tx.order1Id, tx.maker, tx.amount1to2, tx.amount2to1, m.order1);
    FillsAddedBy(s, r, tx.account2, tx.order2Id, tx.taker, tx.amount2to1, tx.amount1to2, m.order2);
  }

  /** A stored order is now closed exactly when it was cancelled or the amount its side asks for is used up. */
  ghost predicate ClosedAfter(s: Ledger, r: Ledger, a: nat, orderId: nat, sold: Fr, bought: Fr)
    requires (a, orderId) in s.positions
  {
    var pos := s.positions[(a, orderId)];
    var stored := OrderAt(s, a, pos);
    OrderAt(r, a, pos).Closed() <==>
      !stored.isActive || match stored.side
                          case Buy => stored.totalBuy <= Add(stored.filledBuy, bought)
                          case Sell => stored.totalSell <= Add(stored.filledSell, sold)
  }

  lemma TradeCloses(s: Ledger, tx: SpotTradeTx)
    requires Invariant(s) && Traded(s, tx).Ok?
    ensures tx.maker.None? ==>
              && (tx.account1, tx.order1Id) in s.positions
              && ClosedAfter(s, Traded(s, tx).value, tx.account1, tx.order1Id, tx.amount1to2, tx.amount2to1)
    ensures tx.taker.None? ==>
              && (tx.account2, tx.order2Id) in s.positions
              && ClosedAfter(s, Traded(s, tx).value, tx.account2, tx.order2Id, tx.amount2to1, tx.amount1to2)
  {
    hide Invariant, MatchOrders, Traded, At, Add;
    TradeFills(s, tx);
  }

  // ------------------------------------------------- records and cursors

  /** The cursor moves only when a full account gives a slot away: to one past that slot. */
  lemma SettledCursor(s: Ledger, side: Side)
    requires Invariant(s) && side.a in s.accounts && Settle(s, side).Ok?
    ensures var key, r := (side.a, side.order.orderId), Settle(s, side).value;
            && key in r.positions
            && At(r, side.a).cursor ==
               if key !in s.positions && |At(s, side.a).orders| == Pow2(s.levels.order) then r.positions[key] + 1
               else At(s, side.a).cursor
  {
    hide Invariant, AccountState.Hash, EmptyAccount, Victim, Root, ApplyUpdates, Order.Hash, NextPos, Pow2;
    PlacementCases(s, side.a, side.order.orderId);
    NextPosCases(s, side.a, side.order.orderId);
    SettleIsStore(s, side);
  }

  /** What a trade does to one account's record: two balances, and nothing of its key and nonce. */
  ghost predicate SideTraded(s: Ledger, r: Ledger, a: nat, tokenSold: nat, sold: Fr, tokenBought: nat, bought: Fr) {
    && At(r, a).state.nonce == At(s, a).state.nonce
    && At(r, a).state.sign == At(s, a).state.sign && At(r, a).state.ay == At(s, a).state.ay
    && (tokenSold != tokenBought ==>
          && StoredBalance(r, a, tokenSold) == Sub(StoredBalance(s, a, tokenSold), sold)
          && StoredBalance(r, a, tokenBought) == Add(StoredBalance(s, a, tokenBought), bought))
    && forall token: nat :: token != tokenSold && token != tokenBought ==>
         StoredBalance(r, a, token) == StoredBalance(s, a, token)
  }

  /** Both records after a trade. Of a trade in one token only the later write of each side remains. */
  lemma TradeEffect(s: Ledger, tx: SpotTradeTx)
    requires Invariant(s) && Traded(s, tx).Ok?
    requires tx.token1to2 < Pow2(s.levels.balance) && tx.token2to1 < Pow2(s.levels.balance)
    ensures var r := Traded(s, tx).value;
            && SideTraded(s, r, tx.account1, tx.token1to2, tx.amount1to2, tx.token2to1, tx.amount2to1)
            && SideTraded(s, r, tx.account2, tx.token2to1, tx.amount2to1, tx.token1to2, tx.amount1to2)
            && (tx.token1to2 == tx.token2to1 ==>
                  && StoredBalance(r, tx.account1, tx.token2to1)
                     == Add(StoredBalance(s, tx.account1, tx.token2to1), tx.amount2to1)
                  && StoredBalance(r, tx.account2, tx.token2to1)
                     == Sub(StoredBalance(s, tx.account2, tx.token2to1), tx.amount2to1))
  {
    hide Invariant, MatchOrders, Traded, At, Add, Sub, StoredBalance, Pow2, Order.Hash, Root;
    TradedMatches(s, tx);
    TradedRecords(s, tx);
    var r := Traded(s, tx).value;
    TradedBalances(s, tx, tx.token1to2);
    TradedBalances(s, tx, tx.token2to1);
    forall token: nat | token != tx.token1to2 && token != tx.token2to1
      ensures StoredBalance(r, tx.account1, token) == StoredBalance(s, tx.account1, token)
      ensures StoredBalance(r, tx.account2, token) == StoredBalance(s, tx.account2, token)
    {
      TradedBalances(s, tx, token);
    }
  }

  /** A full account's cursor moves past the slot that was given away. */
  ghost predicate CursorMoved(s: Ledger, r: Ledger, a: nat, orderId: nat, pos: nat) {
    At(r, a).cursor == if (a, orderId) !in s.positions && |At(s, a).orders| == Pow2(s.levels.order) then pos + 1
                       else At(s, a).cursor
  }

  lemma SettledMap(s: Ledger, side: Side)
    requires Invariant(s) && side.a in s.accounts && Settle(s, side).Ok?
    ensures var key, r := (side.a, side.order.orderId), Settle(s, side).value;
            && key in r.positions && r.positions == s.positions[key := r.positions[key]]
            && CursorMoved(s, r, side.a, key.1, r.positions[key])
  {
    hide Invariant, Settle, At, Pow2;
    SettledOrders(s, side);
    SettledCursor(s, side);
    var key, r := (side.a, side.order.orderId), Settle(s, side).value;
    assert r.positions.Keys == s.positions.Keys + {key};
  }

  /** The mapped ids and the cursors after a trade: both orders' ids lead to their slots, all others where they led. */
  lemma TradeMapping(s: Ledger, tx: SpotTradeTx)
    requires Invariant(s) && Traded(s, tx).Ok?
    ensures var r, a1, a2 := Traded(s, tx).value, tx.account1, tx.account2;
            var id1, id2 :=
              OrderBefore(s, a1, tx.order1Id, tx.maker).orderId, OrderBefore(s, a2, tx.order2Id, tx.taker).orderId;
            var slot1, slot2 := SlotOf(s, r, a1, tx.order1Id, tx.maker), SlotOf(s, r, a2, tx.order2Id, tx.taker);
            && slot1.Some? && slot2.Some? && r.levels == s.levels
            && r.positions == s.positions[(a1, id1) := slot1.value][(a2, id2) := slot2.value]
            && CursorMoved(s, r, a1, id1, slot1.value) && CursorMoved(s, r, a2, id2, slot2.value)
  {
    hide Invariant, MatchOrders, Traded, Settle, At, TradeUpdates, OrderBefore, SlotOf, OrderAllowed, IsKeyed;
    hide Placement, Pow2;
    TradeHalves(s, tx);
    MatchedExactly(s, tx);
    TradeSlots(s, tx);
    var m := MatchOrders(s, tx).value;
    var side1, side2 := Side1(m, tx), Side2(m, tx);
    SettledMap(s, side1);
    SettledMap(Settle(s, side1).value, side2);
    SettledLevels(s, side1);
    SettledLevels(Settle(s, side1).value, side2);
  }

  lemma SideSlot(s: Ledger, r: Ledger, a: nat, orderId: nat, new_: Option<Order>, order: Order)
    requires Invariant(s) && a in s.accounts && PickOrder(s, a, orderId, new_) == Ok(order)
    requires (a, order.orderId) in r.positions
    requires (a, order.orderId) in s.positions ==> r.positions[(a, order.orderId)] == s.positions[(a, order.orderId)]
    ensures SlotOf(s, r, a, orderId, new_) == Some(r.positions[(a, order.orderId)])
  {
    hide Invariant, PickOrder, At;
    PickSettles(s, a, orderId, new_, 0, 0, []);
  }

  lemma TradeSlots(s: Ledger, tx: SpotTradeTx)
    requires Invariant(s) && Traded(s, tx).Ok?
    ensures MatchOrders(s, tx).Ok?
    ensures var m, r := MatchOrders(s, tx).value, Traded(s, tx).value;
            var key1, key2 := (tx.account1, m.order1.orderId), (tx.account2, m.order2.orderId);
            && key1 in r.positions && key2 in r.positions
            && SlotOf(s, r, tx.account1, tx.order1Id, tx.maker) == Some(r.positions[key1])
            && SlotOf(s, r, tx.account2, tx.order2Id, tx.taker) == Some(r.positions[key2])
  {
    hide Invariant, MatchOrders, Traded, At, SlotOf, PickOrder, Order.TradeWith;
    TradedOrders(s, tx);
    TradePicks(s, tx);
    var m, r := MatchOrders(s, tx).value, Traded(s, tx).value;
    SideSlot(s, r, tx.account1, tx.order1Id, tx.maker, m.order1);
    SideSlot(s, r, tx.account2, tx.order2Id, tx.taker, m.order2);
  }

  // -------------------------------------------------------------- whole runs

  /** The fills of a slot after one step, from those before it. */
  ghost function FillsAfter(s: Ledger, op: Op, r: Ledger, a: nat, pos: nat, fills: (Fr, Fr)): (Fr, Fr) {
    if !op.Trade? then fills
    else
      var tx := op.tx;
      if a == tx.account1 && SlotOf(s, r, a, tx.order1Id, tx.maker) == Some(pos) then
        if tx.maker.Some? then (tx.amount1to2, tx.amount2to1)
        else (Add(fills.0, tx.amount1to2), Add(fills.1, tx.amount2to1))
      else if a == tx.account2 && SlotOf(s, r, a, tx.order2Id, tx.taker) == Some(pos) then
        if tx.taker.Some? then (tx.amount2to1, tx.amount1to2)
        else (Add(fills.0, tx.amount2to1), Add(fills.1, tx.amount1to2))
      else
        fills
  }

  /** The amounts of all trades settled in a slot since the last new order was put there, added up. */
  ghost function SumOfTrades(states: seq<Ledger>, ops: seq<Op>, n: nat, a: nat, pos: nat): (Fr, Fr)
    requires n <= |ops| < |states|
  {
    if n == 0 then
      (OrderAt(states[0], a, pos).filledSell, OrderAt(states[0], a, pos).filledBuy)
    else
      FillsAfter(states[n - 1], ops[n - 1], states[n], a, pos, SumOfTrades(states, ops, n - 1, a, pos))
  }

  lemma TradeStepFills(s: Ledger, tx: SpotTradeTx, r: Ledger, a: nat, pos: nat)
    requires Invariant(s) && Traded(s, tx) == Ok(r)
    ensures var before, after := OrderAt(s, a, pos), OrderAt(r, a, pos);
            FillsAfter(s, Op.Trade(tx), r, a, pos, (before.filledSell, before.filledBuy))
              == (after.filledSell, after.filledBuy)
  {
    hide Invariant, Traded, At, Add, SlotOf;
    TradeFills(s, tx);
  }

  lemma CancelStepFills(s: Ledger, id: nat, orderId: nat, a: nat, pos: nat)
    requires Cancelled(s, id, orderId).Ok?
    ensures var before, after := OrderAt(s, a, pos), OrderAt(Cancelled(s, id, orderId).value, a, pos);
            after.filledSell == before.filledSell && after.filledBuy == before.filledBuy
  {
    hide EmptyAccount;
  }

  lemma StepFills(s: Ledger, op: Op, r: Ledger, a: nat, pos: nat)
    requires Invariant(s) && Step(s, op, r)
    ensures var before, after := OrderAt(s, a, pos), OrderAt(r, a, pos);
            FillsAfter(s, op, r, a, pos, (before.filledSell, before.filledBuy)) == (after.filledSell, after.filledBuy)
  {
    hide Invariant, Traded, At, Add, SlotOf, TransferStep, KeyUpdated, Deposited, Withdrawn, Cancelled, OpInRange;
    match op
    case Trade(tx) => TradeStepFills(s, tx, r, a, pos);
    case Transfer(_, _, _, _) => TransferOrders(s, op, r);
    case Cancel(id, orderId) => CancelStepFills(s, id, orderId, a, pos);
    case Nop =>
    case _ => SingleOrders(s, op, r);
  }

  /** In any run, an order is filled by exactly the trades settled in its slot since it was put there. */
  lemma {:induction false} RunFills(states: seq<Ledger>, ops: seq<Op>, n: nat, a: nat, pos: nat)
    requires IsRun(states, ops) && Invariant(states[0]) && n <= |ops|
    ensures (OrderAt(states[n], a, pos).filledSell, OrderAt(states[n], a, pos).filledBuy)
              == SumOfTrades(states, ops, n, a, pos)
  {
    hide Invariant, Step, FillsAfter, OrderAt;
    if n > 0 {
      RunFills(states, ops, n - 1, a, pos);
      RunKeepsInvariant(states, ops, n - 1);
      StepFills(states[n - 1], ops[n - 1], states[n], a, pos);
    }
  }

  /** What a step settles in a slot, sold and bought. */
  ghost function SettledIn(s: Ledger, op: Op, r: Ledger, a: nat, pos: nat): (nat, nat) {
    if op.Trade? && a == op.tx.account1 && SlotOf(s, r, a, op.tx.order1Id, op.tx.maker) == Some(pos) then
      (op.tx.amount1to2, op.tx.amount2to1)
    else if op.Trade? && a == op.tx.account2 && SlotOf(s, r, a, op.tx.order2Id, op.tx.taker) == Some(pos) then
      (op.tx.amount2to1, op.tx.amount1to2)
    else
      (0, 0)
  }

  /** Amounts sold and bought by the steps from `i` on, as integers. */
  ghost function Totals(states: seq<Ledger>, ops: seq<Op>, i: nat, n: nat, a: nat, pos: nat): (nat, nat)
    requires i <= n <= |ops| < |states|
    decreases n
  {
    if i == n then (0, 0)
    else
      var (sold, bought) := Totals(states, ops, i, n - 1, a, pos);
      var last := SettledIn(states[n - 1], ops[n - 1], states[n], a, pos);
      (sold + last.0, bought + last.1)
  }

  /** No new order is put in the slot. */
  ghost predicate NothingNew(s: Ledger, op: Op, r: Ledger, a: nat, pos: nat) {
    op.Trade? ==>
      && (a == op.tx.account1 && op.tx.maker.Some? ==> SlotOf(s, r, a, op.tx.order1Id, op.tx.maker) != Some(pos))
      && (a == op.tx.account2 && op.tx.taker.Some? ==> SlotOf(s, r, a, op.tx.order2Id, op.tx.taker) != Some(pos))
  }

  lemma OneMoreFill(before: Fr, sum: int, amount: Fr)
    requires Congruent(before, sum)
    ensures Congruent(Add(before, amount), sum + amount) && Congruent(before, sum + 0)
  {
    assert Add(before, amount) == before + amount || Add(before, amount) == before + amount - P;
    var q := (before - sum) / P;
    assert before - sum == q * P;
    assert before + amount - P - (sum + amount) == (q - 1) * P;
  }

  /** While no new order is put in a slot, its fills grow by the amounts settled there, modulo the field order. */
  lemma {:induction false} RunFillsAddUp(states: seq<Ledger>, ops: seq<Op>, i: nat, n: nat, a: nat, pos: nat)
    requires IsRun(states, ops) && Invariant(states[0]) && i <= n <= |ops|
    requires forall k :: i <= k < n ==> NothingNew(states[k], ops[k], states[k + 1], a, pos)
    ensures var start, end := OrderAt(states[i], a, pos), OrderAt(states[n], a, pos);
            var (sold, bought) := Totals(states, ops, i, n, a, pos);
            Congruent(end.filledSell, start.filledSell + sold) && Congruent(end.filledBuy, start.filledBuy + bought)
    decreases n
  {
    hide Invariant, Step, OrderAt, SlotOf, Add, Congruent;
    var start := OrderAt(states[i], a, pos);
    if i == n {
      CongruentLaws(start.filledSell, 0, 0);
      CongruentLaws(start.filledBuy, 0, 0);
    } else {
      RunFillsAddUp(states, ops, i, n - 1, a, pos);
      RunKeepsInvariant(states, ops, n - 1);
      StepFills(states[n - 1], ops[n - 1], states[n], a, pos);
      assert NothingNew(states[n - 1], ops[n - 1], states[n - 1 + 1], a, pos);
      var (sold, bought) := Totals(states, ops, i, n - 1, a, pos);
      var before, last := OrderAt(states[n - 1], a, pos), SettledIn(states[n - 1], ops[n - 1], states[n], a, pos);
      OneMoreFill(before.filledSell, start.filledSell + sold, last.0);
      OneMoreFill(before.filledBuy, start.filledBuy + bought, last.1);
    }
  }
}
