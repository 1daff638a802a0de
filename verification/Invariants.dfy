/** The ledger invariant holds initially and is kept by every operation that succeeds. */
module Invariants {
  import opened Field
  import opened Wrappers
  import opened MerkleSpec
  import opened Records
  import opened Ledger
  import opened Slots
  import opened Batch
  import opened Transactions
  import opened Settlement

  // ------------------------------------------------------------- one record

  ghost predicate Consistent(s: Ledger, a: nat, account: Account) {
    Sized(s.levels, account) && Synced(s.levels, account) && Slotted(s, a, account)
  }

  lemma EmptyAccountConsistent(s: Ledger, a: nat)
    ensures Consistent(s, a, EmptyAccount(s.levels))
  {
    hide Root, Order.Hash;
  }

  lemma EmptyLedgerHolds(levels: Levels)
    requires levels.balance < 32 && levels.order < 32 && levels.account < 32
    ensures Invariant(EmptyLedger(levels))
  {
    hide EmptyAccount, Pow2, AccountState.Hash;
  }

  /** Also an account nobody has touched reads consistently. */
  lemma Reads(s: Ledger, a: nat)
    requires Invariant(s) && a < |s.leaves|
    ensures Consistent(s, a, At(s, a)) && s.leaves[a] == At(s, a).state.Hash()
  {
    hide Synced, Slotted, Sized, EmptyAccount, Pow2, Mapped;
    EmptyAccountConsistent(s, a);
    assert a in s.accounts ==> Sized(s.levels, s.accounts[a]);
  }

  lemma Bounded(s: Ledger, a: nat)
    requires Shape(s) && a in s.accounts
    ensures a < |s.leaves| == Pow2(s.levels.account)
  {
  }

  lemma SlottedAgain(s: Ledger, r: Ledger, b: nat, account: Account)
    requires Slotted(s, b, account) && r.levels == s.levels
    requires forall key :: key in s.positions ==> key in r.positions && r.positions[key] == s.positions[key]
    ensures Slotted(r, b, account)
  {
  }

  /** A consistent record stored, and perhaps some of its ids newly mapped. */
  lemma StoreKeeps(s: Ledger, r: Ledger, a: nat, account: Account)
    requires Invariant(s) && a < |s.leaves|
    requires r == Store(s, a, account).(positions := r.positions)
    requires forall key :: key in s.positions ==> key in r.positions && r.positions[key] == s.positions[key]
    requires forall key :: key in r.positions && key !in s.positions ==>
               key.0 == a && r.positions[key] in account.orders
    requires forall pos :: pos in At(s, a).orders ==> pos in account.orders
    requires Consistent(r, a, account)
    ensures Invariant(r)
  {
    hide Synced, Slotted, EmptyAccount, Pow2, AccountState.Hash;
    forall b | b in r.accounts
      ensures Synced(r.levels, r.accounts[b]) && Slotted(r, b, r.accounts[b])
    {
      if b != a {
        SlottedAgain(s, r, b, s.accounts[b]);
      }
    }
    assert Shape(r);
    assert Mapped(r);
  }

  /** The same, for a record whose order slots are as they were. */
  lemma RecordKeeps(s: Ledger, a: nat, account: Account)
    requires Invariant(s) && a < |s.leaves|
    requires account.orders == At(s, a).orders && account.orderLeaves == At(s, a).orderLeaves
    requires |account.balances| == |At(s, a).balances|
    requires account.state.balanceRoot == Root(account.balances, s.levels.balance)
    requires account.state.orderRoot == Root(account.orderLeaves, s.levels.order)
    ensures Invariant(Store(s, a, account))
  {
    hide Invariant, EmptyAccount, Pow2, Root, Order.Hash, AccountState.Hash;
    Reads(s, a);
    StoreKeeps(s, Store(s, a, account), a, account);
  }

  // ------------------------------------------------------- single accounts

  lemma WithBalanceKeeps(s: Ledger, a: nat, t: nat, value: Fr)
    requires Invariant(s) && a < |s.leaves|
    ensures Invariant(WithBalance(s, a, t, value)) && |WithBalance(s, a, t, value).leaves| == |s.leaves|
  {
    hide Invariant, EmptyAccount, Pow2, Root, Order.Hash, AccountState.Hash;
    RecordKeeps(s, a, Refreshed(s.levels, WriteBalance(At(s, a), t, value)));
  }

  lemma WithNonceKeeps(s: Ledger, a: nat, nonce: Fr)
    requires Invariant(s) && a < |s.leaves|
    ensures Invariant(WithNonce(s, a, nonce))
  {
    hide Invariant, EmptyAccount, Pow2, Root, Order.Hash, AccountState.Hash;
    RecordKeeps(s, a, Refreshed(s.levels, WriteNonce(At(s, a), nonce)));
  }

  lemma WithL2AddrKeeps(s: Ledger, a: nat, sign: Fr, ay: Fr)
    requires Invariant(s) && a < |s.leaves|
    ensures Invariant(WithL2Addr(s, a, sign, ay))
  {
    hide Invariant, EmptyAccount, Pow2, Root, Order.Hash, AccountState.Hash;
    Reads(s, a);
    RecordKeeps(s, a, At(s, a).(state := At(s, a).state.(sign := sign, ay := ay)));
  }

  lemma DepositKeeps(s: Ledger, a: nat, t: nat, amount: Fr)
    requires Invariant(s) && a < |s.leaves| && Deposited(s, a, t, amount).Ok?
    ensures Invariant(Deposited(s, a, t, amount).value)
  {
    WithBalanceKeeps(s, a, t, Add(BalanceOf(s, a, t), amount));
  }

  lemma KeyUpdateKeeps(s: Ledger, a: nat, sign: Fr, ay: Fr)
    requires Invariant(s) && a < |s.leaves| && KeyUpdated(s, a, sign, ay).Ok?
    ensures Invariant(KeyUpdated(s, a, sign, ay).value)
  {
    hide Invariant;
    WithBalanceKeeps(s, a, 0, BalanceOf(s, a, 0));
    WithL2AddrKeeps(WithBalance(s, a, 0, BalanceOf(s, a, 0)), a, sign, ay);
  }

  lemma WithdrawKeeps(s: Ledger, a: nat, t: nat, amount: Fr)
    requires Invariant(s) && a < |s.leaves|
    ensures Invariant(Withdrawn(s, a, t, amount))
  {
    hide Invariant;
    var s1 := WithBalance(s, a, t, Sub(BalanceOf(s, a, t), amount));
    WithBalanceKeeps(s, a, t, Sub(BalanceOf(s, a, t), amount));
    WithNonceKeeps(s1, a, Add(At(s1, a).state.nonce, 1));
  }

  /** An update of balances and nonce only. */
  lemma UpdateKeeps(s: Ledger, a: nat, u: AccountUpdates)
    requires Invariant(s) && a < |s.leaves| && u.orderUpdates == []
    ensures Invariant(Store(s, a, Updated(s.levels, At(s, a), u)))
  {
    hide Invariant, EmptyAccount, Pow2, Root, Order.Hash, AccountState.Hash;
    RecordKeeps(s, a, Updated(s.levels, At(s, a), u));
  }

  lemma TransferKeeps(s: Ledger, from: nat, to: nat, t: nat, amount: Fr)
    requires Invariant(s) && from < |s.leaves| && to < |s.leaves| && from != to
    ensures Invariant(Transferred(s, from, to, t, amount))
  {
    hide Invariant, EmptyAccount, Updated, AccountState.Hash;
    var us := TransferUpdates(s, from, to, t, amount);
    UpdateKeeps(s, from, us[0]);
    UpdateKeeps(Store(s, from, Updated(s.levels, At(s, from), us[0])), to, us[1]);
  }

  // ----------------------------------------------------------------- orders

  lemma CancelKeeps(s: Ledger, a: nat, orderId: nat)
    requires Invariant(s) && Cancelled(s, a, orderId).Ok?
    ensures Invariant(Cancelled(s, a, orderId).value)
    ensures StateRoot(Cancelled(s, a, orderId).value) == StateRoot(s)
  {
    hide Invariant, EmptyAccount, Pow2, Root, AccountState.Hash;
    var r := Cancelled(s, a, orderId).value;
    var account := r.accounts[a];
    CancelIsStore(s, a, orderId);
    Reads(s, a);
    assert forall pos :: pos in s.accounts[a].orders ==>
             account.orders[pos].orderId == s.accounts[a].orders[pos].orderId;
    assert account.orders.Keys == s.accounts[a].orders.Keys;
    StoreKeeps(s, r, a, account);
  }

  lemma CancelIsStore(s: Ledger, a: nat, orderId: nat)
    requires Invariant(s) && Cancelled(s, a, orderId).Ok?
    ensures a < |s.leaves| && a in s.accounts
    ensures var r := Cancelled(s, a, orderId).value; r == Store(s, a, r.accounts[a])
  {
    hide AccountState.Hash, Pow2, Synced, Slotted;
  }

  /** With its slots a prefix, a new order goes to the end, or, when the account is full, where the scan says. */
  lemma NextPosCases(s: Ledger, a: nat, orderId: nat)
    requires Invariant(s) && a in s.accounts
    ensures var orders, size := s.accounts[a].orders, Pow2(s.levels.order);
            var next := NextPos(s.accounts[a], size, orderId);
            && (|orders| < size ==> next == Ok((|orders|, s.accounts[a].cursor)))
            && (|orders| >= size ==>
                 && |orders| == size
                 && Scan(orders, s.accounts[a].cursor, size, orderId, 0)
                    == (if next.Ok? then Ok(next.value.0) else Err(next.reason)))
            && (|orders| >= size && next.Ok? ==> next.value.1 == next.value.0 + 1)
            && (next.Ok? ==> next.value.0 < size)
  {
    hide Scan, Pow2, Synced, Root, Order.Hash, AccountState.Hash, Shape, Mapped, EmptyAccount, Candidate;
    NextPosInRange(s.accounts[a], Pow2(s.levels.order), orderId);
    var orders := s.accounts[a].orders;
    assert Slotted(s, a, s.accounts[a]);
    if |orders| > 0 {
      assert |orders| - 1 in orders;
    }
    assert CountMatches(orders);
  }

  /** A known id leads to its slot; a new order is appended or takes the slot of a closed order with a smaller id. */
  lemma PlacementCases(s: Ledger, a: nat, orderId: nat)
    requires Invariant(s) && a in s.accounts && Placement(s, a, orderId).Ok?
    ensures var (pos, before, placed) := Placement(s, a, orderId).value;
            var orders := s.accounts[a].orders;
            && pos < Pow2(s.levels.order) && placed.levels == s.levels && placed.leaves == s.leaves
            && before == SlotOrder(orders, pos)
            && At(placed, a) == s.accounts[a].(cursor := At(placed, a).cursor)
            && placed.accounts == s.accounts[a := At(placed, a)]
            && placed.positions == s.positions[(a, orderId) := pos]
            && if (a, orderId) in s.positions then pos in orders && pos == s.positions[(a, orderId)] && placed == s
               else if |orders| < Pow2(s.levels.order) then pos == |orders|
               else pos in orders && Victim(orders[pos], orderId)
  {
    hide Scan, Pow2, Synced, Root, Order.Hash, AccountState.Hash, Shape, EmptyAccount, Candidate, Order.Closed, NextPos;
    var orders := s.accounts[a].orders;
    NextPosCases(s, a, orderId);
    if (a, orderId) in s.positions {
      assert s.positions[(a, orderId)] in orders by { assert Mapped(s); }
      assert Slotted(s, a, s.accounts[a]);
    } else if |orders| >= Pow2(s.levels.order) {
      ScanGivesVictim(orders, s.accounts[a].cursor, Pow2(s.levels.order), orderId, 0);
    }
  }

  /** A settlement stores one record and maps one id. */
  lemma SettleIsStore(s: Ledger, side: Side)
    requires Invariant(s) && side.a in s.accounts && Settle(s, side).Ok?
    ensures var a, id, r := side.a, side.order.orderId, Settle(s, side).value;
            && Placement(s, a, id).Ok? && a in r.accounts
            && var pos := Placement(s, a, id).value.0;
            && r.positions == s.positions[(a, id) := pos]
            && r == Store(s, a, r.accounts[a]).(positions := r.positions)
            && r.accounts[a].orders == s.accounts[a].orders[pos := side.order]
  {
    hide Scan, Pow2, Root, Order.Hash, AccountState.Hash, EmptyAccount, Order.Closed, Placement, ApplyUpdates;
    hide Invariant, Victim;
    PlacementCases(s, side.a, side.order.orderId);
    var r := Settle(s, side).value;
    assert r.accounts == s.accounts[side.a := r.accounts[side.a]];
  }

  /** The slots of a settled account are again a prefix, each order's id leading back to its slot. */
  lemma SettledSlots(s: Ledger, side: Side)
    requires Invariant(s) && side.a in s.accounts && Settle(s, side).Ok?
    ensures var r := Settle(s, side).value; side.a in r.accounts && Slotted(r, side.a, r.accounts[side.a])
  {
    SettleIsStore(s, side);
    PlacementCases(s, side.a, side.order.orderId);
    hide Pow2, Synced, Shape, Mapped, Victim, Placement, Settle, Order.Hash, AccountState.Hash;
    var pos := Placement(s, side.a, side.order.orderId).value.0;
    SlotsAfter(s, side.a, side.order, pos, s.accounts[side.a].orders);
  }

  lemma SlotsAfter(s: Ledger, a: nat, order: Order, pos: nat, orders: map<nat, Order>)
    requires a in s.accounts && orders == s.accounts[a].orders && Slotted(s, a, s.accounts[a])
    requires pos in orders || ((a, order.orderId) !in s.positions && pos == |orders| < Pow2(s.levels.order))
    requires (a, order.orderId) in s.positions ==> s.positions[(a, order.orderId)] == pos
    ensures forall r: Ledger, account: Account ::
              (r.levels == s.levels && r.positions == s.positions[(a, order.orderId) := pos]
               && account.orders == orders[pos := order])
              ==> Slotted(r, a, account)
  {
    hide Pow2, Order.Hash;
    var id := order.orderId;
    var after, positions := orders[pos := order], s.positions[(a, id) := pos];
    forall p | p in after
      ensures (a, after[p].orderId) in positions && positions[(a, after[p].orderId)] == p
    {
      if p != pos {
        assert s.positions[(a, orders[p].orderId)] == p;
      }
    }
    assert |after| == if pos in orders then |orders| else |orders| + 1;
  }

  lemma SettledSynced(s: Ledger, side: Side)
    requires Invariant(s) && side.a in s.accounts && Settle(s, side).Ok?
    ensures var r := Settle(s, side).value; Synced(r.levels, r.accounts[side.a]) && Sized(r.levels, r.accounts[side.a])
  {
    hide Scan, Pow2, Root, Order.Hash, AccountState.Hash, Mapped, EmptyAccount, Order.Closed, Placement, ApplyUpdates;
    hide Slotted;
    var a, id := side.a, side.order.orderId;
    PlacementCases(s, a, id);
    var pos := Placement(s, a, id).value.0;
    assert Synced(s.levels, s.accounts[a]) && Sized(s.levels, s.accounts[a]);
    OneWrite(s.accounts[a].orderLeaves, pos, side.order.Hash());
  }

  /** Mapped ids stay mapped, and the only new one leads to the order written. */
  lemma SettleMaps(s: Ledger, side: Side)
    requires Invariant(s) && side.a in s.accounts && Settle(s, side).Ok?
    ensures var r := Settle(s, side).value;
            && side.a in r.accounts
            && (forall key :: key in s.positions ==> key in r.positions && r.positions[key] == s.positions[key])
            && (forall key :: key in r.positions && key !in s.positions ==>
                 key == (side.a, side.order.orderId) && r.positions[key] in r.accounts[side.a].orders)
            && (forall pos :: pos in At(s, side.a).orders ==> pos in r.accounts[side.a].orders)
  {
    SettleIsStore(s, side);
    PlacementCases(s, side.a, side.order.orderId);
    hide Settle, Placement, Invariant, Victim, Pow2, AccountState.Hash, EmptyAccount, Root, Order.Hash;
  }

  lemma SettleKeeps(s: Ledger, side: Side)
    requires Invariant(s) && side.a in s.accounts && Settle(s, side).Ok?
    ensures Invariant(Settle(s, side).value)
    ensures Settle(s, side).value.accounts.Keys == s.accounts.Keys
    ensures Settle(s, side).value.levels == s.levels
  {
    SettledSynced(s, side);
    SettledSlots(s, side);
    SettleMaps(s, side);
    SettleIsStore(s, side);
    Bounded(s, side.a);
    hide Settle, Placement, Slotted, Synced, Sized, Shape, Invariant, Victim, Pow2, AccountState.Hash, EmptyAccount;
    hide Root, Order.Hash;
    StoreKeeps(s, Settle(s, side).value, side.a, Settle(s, side).value.accounts[side.a]);
  }

  /** Accounts with a key have a record. */
  lemma KeyedExists(s: Ledger, a: nat)
    requires IsKeyed(s, a)
    ensures a in s.accounts
  {
    hide Root, Order.Hash;
  }

  lemma TradeKeeps(s: Ledger, tx: SpotTradeTx)
    requires Invariant(s) && Traded(s, tx).Ok?
    ensures Invariant(Traded(s, tx).value)
  {
    hide Invariant, Settle, MatchOrders, Covered, Compressible;
    TradeIsTwoSides(s, tx);
    MatchedPlacements(s, tx);
    KeyedExists(s, tx.account1);
    KeyedExists(s, tx.account2);
    var m := MatchOrders(s, tx).value;
    SettleKeeps(s, Side1(m, tx));
    SettleKeeps(Settle(s, Side1(m, tx)).value, Side2(m, tx));
  }
}
