/** What each operation does, account by account and field by field, and exactly when it goes through. */
module Effects {
  import opened Field
  import opened Wrappers
  import opened MerkleSpec
  import opened Records
  import opened Ledger
  import opened Slots
  import opened Amounts
  import opened Transactions
  import opened Invariants
  import opened Conservation
  import opened OrderHistory
  import opened TradeWitness
  import opened Commitment

  // ---------------------------------------------------------------- accounts

  /** Only these accounts may differ, and no mapped order id does. */
  ghost predicate OnlyAccounts(s: Ledger, r: Ledger, ids: set<nat>) {
    && r.levels == s.levels && r.positions == s.positions
    && forall b: nat :: b !in ids ==> At(r, b) == At(s, b)
  }

  /** Everything of an account but its balances and its record is as before. */
  predicate SameOrders(x: Account, y: Account) {
    y.orders == x.orders && y.orderLeaves == x.orderLeaves && y.cursor == x.cursor
  }

  /** The field arithmetic is that of the integers modulo the field order. */
  lemma FieldArithmetic(a: Fr, b: Fr)
    ensures Add(a, b) == (a + b) % P && Sub(a, b) == (a - b) % P
  {
  }

  /** An account nobody has touched: no key, nothing owned, no orders, and the cursor at 1. */
  lemma UntouchedAccount(s: Ledger, a: nat)
    requires Invariant(s) && a !in s.accounts
    ensures At(s, a).state.ay == 0 && At(s, a).state.sign == 0 && At(s, a).state.nonce == 0
    ensures (forall t: nat :: StoredBalance(s, a, t) == 0) && At(s, a).orders == map[] && At(s, a).cursor == 1
  {
    hide Root, Order.Hash, Pow2;
  }

  /** A deposit goes through exactly for an account with a key, and adds to one balance. */
  lemma DepositEffect(s: Ledger, a: nat, t: nat, amount: Fr)
    requires Invariant(s) && a < |s.leaves| && t < Pow2(s.levels.balance)
    ensures Deposited(s, a, t, amount).Ok? <==> At(s, a).state.ay != 0
    ensures Deposited(s, a, t, amount).Ok? ==>
              var r := Deposited(s, a, t, amount).value;
              var x, y := At(s, a), At(r, a);
              && OnlyAccounts(s, r, {a}) && SameOrders(x, y)
              && t < |x.balances| && y.balances == x.balances[t := Add(x.balances[t], amount)]
              && y.state.nonce == x.state.nonce && y.state.sign == x.state.sign && y.state.ay == x.state.ay
  {
    Reads(s, a);
    hide Invariant, Consistent, Root, AccountState.Hash, EmptyAccount, Pow2, Synced, Slotted, Add;
  }

  /**
   * A key update goes through exactly for an account without a key; it sets the key and writes token 0 as it reads:
   * zero.
   */
  lemma KeyUpdateEffect(s: Ledger, a: nat, sign: Fr, ay: Fr)
    requires Invariant(s) && a < |s.leaves|
    ensures KeyUpdated(s, a, sign, ay).Ok? <==> At(s, a).state.ay == 0
    ensures KeyUpdated(s, a, sign, ay).Ok? ==>
              var r := KeyUpdated(s, a, sign, ay).value;
              var x, y := At(s, a), At(r, a);
              && OnlyAccounts(s, r, {a}) && SameOrders(x, y)
              && 0 < |x.balances| && y.balances == x.balances[0 := 0]
              && y.state.nonce == x.state.nonce && y.state.sign == sign && y.state.ay == ay
  {
    Reads(s, a);
    SomeToken(s);
    hide Invariant, Consistent, Root, AccountState.Hash, EmptyAccount, Pow2, Synced, Slotted;
  }

  lemma SomeToken(s: Ledger)
    ensures Pow2(s.levels.balance) > 0
  {
  }

  /** A withdrawal always goes through: one balance lowered from what is read of it, and the nonce raised. */
  lemma WithdrawEffect(s: Ledger, a: nat, t: nat, amount: Fr)
    requires Invariant(s) && a < |s.leaves| && t < Pow2(s.levels.balance)
    ensures var r := Withdrawn(s, a, t, amount);
            var x, y := At(s, a), At(r, a);
            var read := if x.state.ay == 0 || t >= |x.balances| then 0 else x.balances[t];
            && OnlyAccounts(s, r, {a}) && SameOrders(x, y)
            && t < |x.balances| && y.balances == x.balances[t := Sub(read, amount)]
            && y.state.nonce == Add(x.state.nonce, 1) && y.state.sign == x.state.sign && y.state.ay == x.state.ay
  {
    Reads(s, a);
    hide Invariant, Consistent, Root, AccountState.Hash, EmptyAccount, Pow2, Synced, Slotted, Add, Sub;
  }

  /** A transfer goes through exactly when the sender has a key and holds the amount and the recipient has a record. */
  lemma TransferAccepted(s: Ledger, from: nat, to: nat, t: nat, amount: Fr)
    ensures TransferCheck(s, from, to, t, amount) == None <==>
              At(s, from).state.ay != 0 && amount <= StoredBalance(s, from, t) && to in s.accounts
    ensures TransferCheck(s, from, to, t, amount) == Some("invalid account") <==> At(s, from).state.ay == 0
    ensures TransferCheck(s, from, to, t, amount) == Some("balance not enough") <==>
              At(s, from).state.ay != 0 && StoredBalance(s, from, t) < amount
    ensures TransferCheck(s, from, to, t, amount) == Some(MISSING_RECIPIENT) <==>
              At(s, from).state.ay != 0 && amount <= StoredBalance(s, from, t) && to !in s.accounts
  {
    hide At;
    assert "invalid account"[0] == 'i' && "balance not enough"[0] == 'b' && MISSING_RECIPIENT[0] == 's';
  }

  /** Between two accounts: one balance of each changes, and the sender's nonce. */
  lemma TransferEffect(s: Ledger, from: nat, to: nat, t: nat, amount: Fr)
    requires Invariant(s) && from < |s.leaves| && to < |s.leaves| && from != to && t < Pow2(s.levels.balance)
    requires TransferCheck(s, from, to, t, amount) == None
    ensures var r := Transferred(s, from, to, t, amount);
            var x, x', y, y' := At(s, from), At(r, from), At(s, to), At(r, to);
            var read := if y.state.ay == 0 || t >= |y.balances| then 0 else y.balances[t];
            && OnlyAccounts(s, r, {from, to}) && SameOrders(x, x') && SameOrders(y, y')
            && t < |x.balances| && x'.balances == x.balances[t := Sub(x.balances[t], amount)]
            && t < |y.balances| && y'.balances == y.balances[t := Add(read, amount)]
            && x'.state.nonce == Add(x.state.nonce, 1) && x'.state.sign == x.state.sign && x'.state.ay == x.state.ay
            && y'.state.nonce == y.state.nonce && y'.state.sign == y.state.sign && y'.state.ay == y.state.ay
  {
    Reads(s, from);
    Reads(s, to);
    hide Invariant, Consistent, Root, AccountState.Hash, EmptyAccount, Pow2, Synced, Slotted, Add, Sub, ApplyUpdates;
    var us := TransferUpdates(s, from, to, t, amount);
    OneWrite(At(s, from).balances, t, us[0].balanceUpdates[0].1);
    OneWrite(At(s, to).balances, t, us[1].balanceUpdates[0].1);
    OneWrite(At(s, from).orderLeaves, 0, 0);
    OneWrite(At(s, to).orderLeaves, 0, 0);
  }

  /** A cancellation goes through exactly for a mapped id, and takes the active flag off the order the id leads to. */
  lemma CancelEffect(s: Ledger, a: nat, orderId: nat)
    requires Invariant(s)
    ensures Cancelled(s, a, orderId).Ok? <==> (a, orderId) in s.positions
    ensures Cancelled(s, a, orderId).Ok? ==>
              var r := Cancelled(s, a, orderId).value;
              var x, y, pos := At(s, a), At(r, a), s.positions[(a, orderId)];
              && OnlyAccounts(s, r, {a}) && r.leaves == s.leaves
              && y.state == x.state && y.balances == x.balances && y.orderLeaves == x.orderLeaves
              && y.cursor == x.cursor
              && pos in x.orders && pos in y.orders && !y.orders[pos].isActive
              && SameTerms(x.orders[pos], y.orders[pos]) && y.orders == x.orders[pos := y.orders[pos]]
              && y.orders[pos].accountId == x.orders[pos].accountId && y.orders[pos].side == x.orders[pos].side
              && y.orders[pos].sig == x.orders[pos].sig
  {
    hide Shape, Synced, Slotted, EmptyAccount, Pow2;
  }

  // ------------------------------------------------------------------ orders

  /**
   * The slot of this order may be given to one with this id: the order has a smaller id, and is cancelled or has used
   * up the amount its side asks for.
   */
  predicate GivesWay(o: Order, orderId: nat) {
    && o.orderId < orderId
    && (!o.isActive || match o.side case Buy => o.totalBuy <= o.filledBuy case Sell => o.totalSell <= o.filledSell)
  }

  lemma VictimExactly(o: Order, orderId: nat)
    ensures Victim(o, orderId) <==> GivesWay(o, orderId)
    ensures o.IsDefault() <==> o.totalSell == 0
  {
  }

  /**
   * A new order finds a place: its id leads to a slot, the account has room, or the scan meets a slot to give away
   * before an order that sells nothing.
   */
  ghost predicate HasPlace(s: Ledger, a: nat, orderId: nat) {
    var orders, size, cursor := At(s, a).orders, Pow2(s.levels.order), At(s, a).cursor;
    || (a, orderId) in s.positions
    || |orders| < size
    || exists pos ::
         && pos in orders && GivesWay(orders[pos], orderId)
         && forall other :: other in orders && orders[other].totalSell == 0 ==>
              other != pos && !Sooner(cursor, size, other, pos)
  }

  lemma BlockedPlace(orders: map<nat, Order>, cursor: nat, size: nat, orderId: nat)
    requires forall pos :: pos in orders ==> pos < size
    requires (exists pos :: Blocks(orders, cursor, size, orderId, pos))
          || forall pos :: pos in orders ==> !Victim(orders[pos], orderId) && !orders[pos].IsDefault()
    ensures !exists pos ::
              && pos in orders && GivesWay(orders[pos], orderId)
              && forall other :: other in orders && orders[other].totalSell == 0 ==>
                   other != pos && !Sooner(cursor, size, other, pos)
  {
    hide Sooner;
    forall pos | pos in orders && GivesWay(orders[pos], orderId)
      ensures exists other ::
                other in orders && orders[other].totalSell == 0 && (other == pos || Sooner(cursor, size, other, pos))
    {
      VictimExactly(orders[pos], orderId);
      var other :| Blocks(orders, cursor, size, orderId, other);
      assert other in orders && orders[other].totalSell == 0 && (other == pos || Sooner(cursor, size, other, pos));
    }
  }

  lemma PlaceExactly(s: Ledger, a: nat, orderId: nat)
    requires Invariant(s) && a in s.accounts
    ensures Placement(s, a, orderId).Ok? <==> HasPlace(s, a, orderId)
  {
    hide Invariant, Placement, Pow2, Sooner, Victim, Order.IsDefault, GivesWay, Blocks;
    var orders, size, cursor := s.accounts[a].orders, Pow2(s.levels.order), s.accounts[a].cursor;
    if (a, orderId) in s.positions {
      KnownPlaced(s, a, orderId);
    } else {
      PlacementFailsExactly(s, a, orderId);
      FullOrRoom(s, a);
      if Placement(s, a, orderId).Err? {
        BlockedPlace(orders, cursor, size, orderId);
      } else if |orders| == size {
        PlaceOfFirst(orders, cursor, size, orderId, Placement(s, a, orderId).value.0);
      }
    }
  }

  lemma KnownPlaced(s: Ledger, a: nat, orderId: nat)
    requires (a, orderId) in s.positions
    ensures Placement(s, a, orderId).Ok?
  {
    hide EmptyAccount;
  }

  lemma FullOrRoom(s: Ledger, a: nat)
    requires Invariant(s) && a in s.accounts
    ensures |s.accounts[a].orders| <= Pow2(s.levels.order)
    ensures forall pos :: pos in s.accounts[a].orders <==> 0 <= pos < |s.accounts[a].orders|
  {
    hide Pow2, Synced, Mapped, Shape;
    assert Slotted(s, a, s.accounts[a]);
  }

  lemma PlaceOfFirst(orders: map<nat, Order>, cursor: nat, size: nat, orderId: nat, pos: nat)
    requires FirstFrom(orders, cursor, size, orderId, pos)
    ensures pos in orders && GivesWay(orders[pos], orderId)
    ensures forall other :: other in orders && orders[other].totalSell == 0 ==>
              other != pos && !Sooner(cursor, size, other, pos)
  {
    hide Sooner;
    VictimExactly(orders[pos], orderId);
  }

  // ------------------------------------------------------------------ trades

  /** A new order is unknown under the account it names and unfilled; a stored one is known for the trading account. */
  predicate OrderAllowed(s: Ledger, a: nat, orderId: nat, new_: Option<Order>) {
    match new_
    case Some(o) => (o.accountId, o.orderId) !in s.positions && o.filledBuy == 0 && o.filledSell == 0
    case None => (a, orderId) in s.positions
  }

  /** The order a side trades with, before the trade. */
  function OrderBefore(s: Ledger, a: nat, orderId: nat, new_: Option<Order>): Order {
    match new_
    case Some(o) => o
    case None => if (a, orderId) in s.positions then OrderAt(s, a, s.positions[(a, orderId)]) else DEFAULT_ORDER
  }

  /** Some significand below 2 to the 35 and some power of ten denote the amount. */
  ghost predicate Denotable(x: nat) {
    exists m: nat, e: nat :: Denotes(x, m, e)
  }

  ghost predicate SideAccepted(s: Ledger, a: nat, orderId: nat, new_: Option<Order>, token: nat, sold: Fr) {
    && At(s, a).state.ay != 0 && OrderAllowed(s, a, orderId, new_) && sold < StoredBalance(s, a, token)
    && var order := OrderBefore(s, a, orderId, new_);
    && Denotable(order.totalSell) && Denotable(order.totalBuy) && HasPlace(s, a, order.orderId)
  }

  lemma PickExactly(s: Ledger, a: nat, orderId: nat, new_: Option<Order>)
    ensures PickOrder(s, a, orderId, new_).Ok? <==> OrderAllowed(s, a, orderId, new_)
    ensures PickOrder(s, a, orderId, new_).Ok? ==>
              PickOrder(s, a, orderId, new_).value == OrderBefore(s, a, orderId, new_)
  {
    hide OrderAt;
  }

  lemma DenotableExactly(order: Order)
    ensures Compressible(order) <==> Denotable(order.totalSell) && Denotable(order.totalBuy)
  {
    DenotableAmount(order.totalSell);
    DenotableAmount(order.totalBuy);
    hide Compress, Denotable;
  }

  lemma DenotableAmount(x: nat)
    ensures Compress(x).Ok? <==> Denotable(x)
  {
    hide Compress, Pow10, Denotes;
    CompressDefined(x);
  }

  /** The second order is placed as if the first had not been. */
  lemma PlacementsApart(s: Ledger, a: nat, orderId: nat, b: nat, orderId': nat)
    requires Placement(s, a, orderId).Ok? && a != b
    ensures Placement(Placement(s, a, orderId).value.2, b, orderId').Ok? <==> Placement(s, b, orderId').Ok?
  {
    hide Placement;
    var placed := Placement(s, a, orderId).value.2;
    FirstPlacement(s, a, orderId, b);
    if Placement(placed, b, orderId').Ok? {
      PlacementApart(s, placed, b, orderId');
    }
    if Placement(s, b, orderId').Ok? {
      PlacementApart(placed, s, b, orderId');
    }
  }

  lemma MatchedExactly(s: Ledger, tx: SpotTradeTx)
    ensures var order1 := OrderBefore(s, tx.account1, tx.order1Id, tx.maker);
            var order2 := OrderBefore(s, tx.account2, tx.order2Id, tx.taker);
            && (MatchOrders(s, tx).Ok? <==>
                 && tx.account1 != tx.account2 && IsKeyed(s, tx.account1) && IsKeyed(s, tx.account2)
                 && OrderAllowed(s, tx.account1, tx.order1Id, tx.maker)
                 && OrderAllowed(s, tx.account2, tx.order2Id, tx.taker)
                 && Placement(s, tx.account1, order1.orderId).Ok? && Placement(s, tx.account2, order2.orderId).Ok?)
            && (MatchOrders(s, tx).Ok? ==>
                  MatchOrders(s, tx).value.order1 == order1 && MatchOrders(s, tx).value.order2 == order2)
  {
    hide PickOrder, Placement, OrderAllowed, OrderBefore, IsKeyed;
    PickExactly(s, tx.account1, tx.order1Id, tx.maker);
    PickExactly(s, tx.account2, tx.order2Id, tx.taker);
    var order1 := OrderBefore(s, tx.account1, tx.order1Id, tx.maker);
    var order2 := OrderBefore(s, tx.account2, tx.order2Id, tx.taker);
    if tx.account1 != tx.account2 && Placement(s, tx.account1, order1.orderId).Ok? {
      PlacementsApart(s, tx.account1, order1.orderId, tx.account2, order2.orderId);
    }
  }

  /**
   * A trade goes through exactly when its accounts are two, each has a key and holds strictly more than it
   * sells, each order is allowed and finds a place, and the totals of both can be compressed.
   */
  lemma TradeAccepted(s: Ledger, tx: SpotTradeTx)
    requires Invariant(s)
    ensures Traded(s, tx).Ok? <==>
              && tx.account1 != tx.account2
              && SideAccepted(s, tx.account1, tx.order1Id, tx.maker, tx.token1to2, tx.amount1to2)
              && SideAccepted(s, tx.account2, tx.order2Id, tx.taker, tx.token2to1, tx.amount2to1)
  {
    hide Invariant, MatchOrders, Placement, HasPlace, Denotable, OrderAllowed, OrderBefore, At, StoredBalance;
    hide BalanceOf;
    hide Compressible, TradeApplied;
    MatchedExactly(s, tx);
    KeyedRecords(s, tx.account1, OrderBefore(s, tx.account1, tx.order1Id, tx.maker).orderId);
    KeyedRecords(s, tx.account2, OrderBefore(s, tx.account2, tx.order2Id, tx.taker).orderId);
    DenotableExactly(OrderBefore(s, tx.account1, tx.order1Id, tx.maker));
    DenotableExactly(OrderBefore(s, tx.account2, tx.order2Id, tx.taker));
    if MatchOrders(s, tx).Ok? {
      TradeReads(s, tx);
    }
  }

  lemma KeyedRecords(s: Ledger, a: nat, orderId: nat)
    requires Invariant(s)
    ensures IsKeyed(s, a) ==> a in s.accounts && (Placement(s, a, orderId).Ok? <==> HasPlace(s, a, orderId))
  {
    hide Invariant, Placement, HasPlace, IsKeyed;
    if IsKeyed(s, a) {
      KeyedExists(s, a);
      PlaceExactly(s, a, orderId);
    }
  }
}
