/** A trade as two one-sided settlements, one per account. */
module Settlement {
  import opened Field
  import opened Wrappers
  import opened MerkleSpec
  import opened Records
  import opened Ledger
  import opened Slots
  import opened Batch
  import opened Amounts
  import opened Transactions

  /** One account's part of a trade: its order as it is afterwards, and the balances written. */
  datatype Side = Side(a: nat, order: Order, writes: seq<(nat, Fr)>)

  function Settled(levels: Levels, account: Account, pos: nat, order: Order, writes: seq<(nat, Fr)>): Account {
    Refreshed(levels, account.(
      balances := ApplyUpdates(account.balances, writes),
      orderLeaves := ApplyUpdates(account.orderLeaves, [(pos, order.Hash())]),
      orders := account.orders[pos := order]))
  }

  /** The order finds its slot, and the record with everything written is stored. */
  function Settle(s: Ledger, side: Side): Result<Ledger> {
    match Placement(s, side.a, side.order.orderId)
    case Err(reason) => Err(reason)
    case Ok((pos, _, placed)) => Ok(Store(placed, side.a,
                                          Settled(s.levels, At(placed, side.a), pos, side.order, side.writes)))
  }

  function Side1(m: Matched, tx: SpotTradeTx): Side {
    Side(tx.account1, Order1After(m, tx), TradeUpdates(m, tx)[0].balanceUpdates)
  }

  function Side2(m: Matched, tx: SpotTradeTx): Side {
    Side(tx.account2, Order2After(m, tx), TradeUpdates(m, tx)[1].balanceUpdates)
  }

  /** A placement looks at one account and its mapped ids only. */
  lemma PlacementLocal(s: Ledger, r: Ledger, a: nat, orderId: nat)
    requires r.levels == s.levels && At(r, a) == At(s, a) && r.positions == s.positions
    ensures Placement(r, a, orderId).Ok? <==> Placement(s, a, orderId).Ok?
    ensures Placement(s, a, orderId).Err? ==> Placement(r, a, orderId) == Placement(s, a, orderId)
    ensures Placement(s, a, orderId).Ok? ==>
              var (pos, before, placed) := Placement(s, a, orderId).value;
              var (pos', before', placed') := Placement(r, a, orderId).value;
              && pos' == pos && before' == before
              && placed'.positions == placed.positions && At(placed', a) == At(placed, a)
              && placed' == r.(accounts := placed'.accounts, positions := placed'.positions)
              && placed'.accounts == (if (a, orderId) in s.positions then r.accounts
                                      else r.accounts[a := At(placed, a)])
  {
    hide NextPos;
  }

  lemma PlacementFrame(s: Ledger, a: nat, orderId: nat)
    requires Placement(s, a, orderId).Ok?
    ensures var placed := Placement(s, a, orderId).value.2;
            && placed.levels == s.levels && placed.leaves == s.leaves
            && (forall b :: b != a ==> At(placed, b) == At(s, b))
            && At(placed, a) == At(s, a).(cursor := At(placed, a).cursor)
  {
    hide NextPos, EmptyAccount;
  }

  /** The order written and the leaf, the balances and the record updated: one settled account. */
  lemma UpdatedIsSettled(levels: Levels, account: Account, pos: nat, order: Order, writes: seq<(nat, Fr)>,
                         u: AccountUpdates)
    requires u.balanceUpdates == writes && u.orderUpdates == [(pos, order.Hash())] && u.newNonce == None
    ensures Updated(levels, WriteOrder(account, pos, order), u) == Settled(levels, account, pos, order, writes)
  {
    hide ApplyUpdates, Root, Order.Hash;
  }

  /** Two accounts settled one after the other, or both orders written first: the same ledger. */
  lemma StoresMerge(placed1: Ledger, placed2: Ledger, a1: nat, a2: nat, account1: Account, account2: Account,
                    order1: Account, order2: Account, r: Ledger)
    requires a1 != a2 && placed2 == placed1.(accounts := placed2.accounts, positions := placed2.positions)
    requires placed2.accounts == placed1.accounts || placed2.accounts == placed1.accounts[a2 := At(placed2, a2)]
    requires r == Store(placed1, a1, account1).(accounts := r.accounts, positions := placed2.positions)
    requires r.accounts == Store(placed1, a1, account1).accounts
          || r.accounts == Store(placed1, a1, account1).accounts[a2 := At(placed2, a2)]
    ensures Store(r, a2, account2) == Store(Store(Put(Put(placed2, a1, order1), a2, order2), a1, account1), a2,
                                            account2)
  {
    hide AccountState.Hash;
    assert Store(r, a2, account2).accounts == Store(Store(Put(Put(placed2, a1, order1), a2, order2), a1, account1), a2,
                                                    account2).accounts;
  }

  /** The placements of a matched trade. */
  lemma MatchedPlacements(s: Ledger, tx: SpotTradeTx)
    requires MatchOrders(s, tx).Ok?
    ensures var m := MatchOrders(s, tx).value;
            && tx.account1 != tx.account2 && IsKeyed(s, tx.account1) && IsKeyed(s, tx.account2)
            && PickOrder(s, tx.account1, tx.order1Id, tx.maker) == Ok(m.order1)
            && PickOrder(s, tx.account2, tx.order2Id, tx.taker) == Ok(m.order2)
            && Placement(s, tx.account1, m.order1.orderId).Ok?
            && var (pos1, old1, placed1) := Placement(s, tx.account1, m.order1.orderId).value;
            && Placement(placed1, tx.account2, m.order2.orderId) == Ok((m.pos2, m.old2, m.s))
            && pos1 == m.pos1 && old1 == m.old1
  {
    hide Placement, PickOrder;
  }

  lemma TradeIsTwoSides(s: Ledger, tx: SpotTradeTx)
    requires Traded(s, tx).Ok?
    ensures var m := MatchOrders(s, tx).value;
            && Settle(s, Side1(m, tx)).Ok?
            && Settle(Settle(s, Side1(m, tx)).value, Side2(m, tx)) == Traded(s, tx)
  {
    hide Root, Pow2, Compress, ApplyUpdates, Placement, MatchOrders, Covered, Compressible, EmptyAccount, Updated;
    hide Settled, Order.Hash;
    MatchedPlacements(s, tx);
    var m := MatchOrders(s, tx).value;
    var us, w := TradeUpdates(m, tx), OrdersWritten(m, tx);
    var a1, a2 := tx.account1, tx.account2;
    var (pos1, _, placed1) := Placement(s, a1, m.order1.orderId).value;
    PlacementFrame(s, a1, m.order1.orderId);
    PlacementFrame(placed1, a2, m.order2.orderId);
    UpdatedIsSettled(s.levels, At(placed1, a1), pos1, Order1After(m, tx), us[0].balanceUpdates, us[0]);
    UpdatedIsSettled(s.levels, At(m.s, a2), m.pos2, Order2After(m, tx), us[1].balanceUpdates, us[1]);
    var half := Settle(s, Side1(m, tx)).value;
    PlacementLocal(placed1, placed1, a2, m.order2.orderId);
    PlacementLocal(placed1, half, a2, m.order2.orderId);
    var account1, account2 := Updated(s.levels, At(w, a1), us[0]), Updated(s.levels, At(w, a2), us[1]);
    StoresMerge(placed1, m.s, a1, a2, account1, account2,
                WriteOrder(At(placed1, a1), m.pos1, Order1After(m, tx)),
                WriteOrder(At(m.s, a2), m.pos2, Order2After(m, tx)),
                Placement(half, a2, m.order2.orderId).value.2);
  }
}
