/** The manager: every transaction changes the state and buffers one record; full buffers are cut into blocks. */
module Manager {
  import opened Field
  import opened Wrappers
  import opened MerkleSpec
  import opened MerkleTree
  import opened Records
  import opened Ledger
  import opened Slots
  import opened Batch
  import opened Transactions
  import opened Settlement
  import opened Invariants
  import opened Conservation
  import opened Steps
  import opened TradeWitness
  import opened Effects
  import opened Fills
  import opened BitEncoder
  import opened TxData
  import opened TxEncoder
  import opened Emission
  import opened Payloads
  import opened Blocks
  import opened GlobalState

  // ---------------------------------------------- what a transaction reads

  /**
   * What an operation on one balance reads before it changes anything: both paths, the root, the record and the
   * balance.
   */
  method Inspect(state: GlobalState, a: nat, t: nat)
    returns (balancePath: seq<Fr>, accountPath: seq<Fr>, root: Fr, acc: AccountState, balance: Fr, trivial: seq<Fr>)
    requires state.Valid() && a < Pow2(state.levels.account) && t < Pow2(state.levels.balance)
    ensures state.Valid() && state.Trees() == old(state.Trees())
    ensures balancePath == BalancePath(state.view, a, t) && accountPath == AccountPath(state.view, a)
    ensures root == StateRoot(state.view)
    ensures acc == At(state.view, a).state && balance == BalanceOf(state.view, a, t)
    ensures trivial == TrivialOrderPath(state.levels)
  {
    hide GlobalState.Precomputed, Tree.Valid, Holds, Forest, Pow2, StatesOf, BalancesOf, OrderLeavesOf, OrdersOf;
    hide CursorsOf;
    hide BalancePath, AccountPath, StateRoot, At, BalanceOf, Path, EmptyOrderLeaves;
    var balanceProof, accountProof := state.BalanceFullProof(a, t);
    balancePath, accountPath, root := balanceProof.pathElements, accountProof.pathElements, accountProof.root;
    acc := state.GetAccount(a);
    balance := state.GetTokenBalance(a, t);
    trivial := state.TrivialOrderPathElements();
  }

  method Balance(state: GlobalState, a: nat, t: nat) returns (acc: AccountState, balance: Fr)
    requires state.Valid() && t < Pow2(state.levels.balance)
    ensures state.Valid() && state.Trees() == old(state.Trees())
    ensures acc == At(state.view, a).state && balance == BalanceOf(state.view, a, t)
  {
    hide GlobalState.Precomputed, Tree.Valid, Holds, Forest, Pow2, StatesOf, BalancesOf, OrderLeavesOf, OrdersOf;
    hide CursorsOf, At, BalanceOf;
    acc := state.GetAccount(a);
    balance := state.GetTokenBalance(a, t);
  }

  // --------------------------------------------- what a transaction writes

  /** The two writes of a key update. */
  method SetBalanceAndKey(state: GlobalState, a: nat, t: nat, balance: Fr, sign: Fr, ay: Fr)
    requires state.Valid() && a < Pow2(state.levels.account) && t < Pow2(state.levels.balance)
    modifies state, state.Trees()
    ensures state.strays == old(state.strays)
    ensures state.Valid() && fresh(state.Trees() - old(state.Trees()))
    ensures state.view == WithL2Addr(WithBalance(old(state.view), a, t, balance), a, sign, ay)
  {
    hide GlobalState.Valid, Pow2, WithL2Addr, Refreshed, WriteBalance, EmptyAccount, AccountState.Hash;
    state.SetTokenBalance(a, t, balance);
    state.Facts();
    state.SetAccountL2Addr(a, sign, ay);
  }

  /** The two writes of a withdrawal. */
  method SetBalanceAndCount(state: GlobalState, a: nat, t: nat, balance: Fr)
    requires state.Valid() && a < Pow2(state.levels.account) && t < Pow2(state.levels.balance)
    modifies state, state.Trees()
    ensures state.strays == old(state.strays)
    ensures state.Valid() && fresh(state.Trees() - old(state.Trees()))
    ensures var s1 := WithBalance(old(state.view), a, t, balance);
            state.view == WithNonce(s1, a, Add(At(s1, a).state.nonce, 1))
  {
    hide GlobalState.Valid, Pow2, WithNonce, Refreshed, WriteBalance, EmptyAccount, AccountState.Hash;
    state.SetTokenBalance(a, t, balance);
    state.Facts();
    state.IncreaseNonce(a);
  }

  /** The batch of a transfer, on the parallel branch; `schedule` is what the thread pool makes of it. */
  method RunTransfer(state: GlobalState, from: nat, to: nat, t: nat, amount: Fr, balance: Fr, received: Fr, nonce: Fr,
                     schedule: seq<nat>)
    requires state.Valid() && Invariant(state.view) && from in state.accountStates && to in state.accountStates
    requires t < Pow2(state.levels.balance)
    requires balance == BalanceOf(state.view, from, t) && received == Add(BalanceOf(state.view, to, t), amount)
    requires nonce == At(state.view, from).state.nonce
    requires IsSchedule(TransferUpdates(state.view, from, to, t, amount), schedule)
    modifies state, state.Trees()
    ensures state.strays == old(state.strays)
    ensures state.Valid() && fresh(state.Trees() - old(state.Trees()))
    ensures ScheduledTransfer(old(state.view), from, to, t, amount, schedule, state.view)
  {
    hide GlobalState.Valid, Invariant, BalanceOf, At, Add, Sub, Parallel, Pow2;
    state.Facts();
    Bounded(state.view, from);
    Bounded(state.view, to);
    var us := [AccountUpdates(from, [(t, Sub(balance, amount))], [], Some(Add(nonce, 1))),
               AccountUpdates(to, [(t, received)], [], None)];
    assert us == TransferUpdates(state.view, from, to, t, amount);
    state.BatchUpdate(us, true, schedule);
  }

  /** Both orders of a trade with their slots, and what the slots held. */
  datatype Match = Match(order1: Order, order2: Order, pos1: nat, pos2: nat, old1: Order, old2: Order)

  method PickTraded(state: GlobalState, a: nat, orderId: nat, new_: Option<Order>) returns (r: Result<Order>)
    requires state.Valid() && a in state.accountStates
    ensures state.Valid() && r == PickOrder(state.view, a, orderId, new_)
  {
    hide GlobalState.Precomputed, Tree.Valid, Holds, Forest, Pow2, StatesOf, BalancesOf, OrderLeavesOf, OrdersOf;
    hide CursorsOf, OrderAt;
    match new_
    case Some(order) =>
      var known := state.HasOrder(order.accountId, order.orderId);
      if known {
        return Err("order already known");
      }
      if order.filledBuy != 0 || order.filledSell != 0 {
        return Err("new order already filled");
      }
      r := Ok(order);
    case None =>
      var known := state.HasOrder(a, orderId);
      if !known {
        return Err("unknown order");
      }
      var order := state.GetAccountOrderById(a, orderId);
      r := Ok(order);
  }

  /** The orders of two registered accounts picked and placed. */
  method MatchTrade(state: GlobalState, tx: SpotTradeTx) returns (r: Result<Match>)
    requires state.Valid() && tx.account1 != tx.account2 && IsKeyed(state.view, tx.account1)
    requires IsKeyed(state.view, tx.account2)
    modifies state`view, state`nextOrderPositions, state`orderIdToPos
    ensures state.Valid() && state.Trees() == old(state.Trees())
    ensures match MatchOrders(old(state.view), tx)
            case Ok(m) => r == Ok(Match(m.order1, m.order2, m.pos1, m.pos2, m.old1, m.old2)) && state.view == m.s
            case Err(reason) => r == Err(reason)
  {
    hide GlobalState.Precomputed, Tree.Valid, Holds, Forest, Pow2, StatesOf, BalancesOf, OrderLeavesOf, OrdersOf;
    hide CursorsOf, PickOrder, Placement, IsKeyed;
    KeyedExists(state.view, tx.account1);
    KeyedExists(state.view, tx.account2);
    state.Facts();
    var order1 := PickTraded(state, tx.account1, tx.order1Id, tx.maker);
    if order1.Err? {
      return Err(order1.reason);
    }
    var order2 := PickTraded(state, tx.account2, tx.order2Id, tx.taker);
    if order2.Err? {
      return Err(order2.reason);
    }
    r := PlaceTraded(state, tx, order1.value, order2.value);
  }

  method PlaceTraded(state: GlobalState, tx: SpotTradeTx, order1: Order, order2: Order) returns (r: Result<Match>)
    requires state.Valid() && tx.account1 in state.accountStates && tx.account2 in state.accountStates
    modifies state`view, state`nextOrderPositions, state`orderIdToPos
    ensures state.Valid()
    ensures match PlaceBoth(old(state.view), tx, order1, order2)
            case Ok(m) => r == Ok(Match(m.order1, m.order2, m.pos1, m.pos2, m.old1, m.old2)) && state.view == m.s
            case Err(reason) => r == Err(reason)
  {
    hide GlobalState.Valid, Placement;
    var place1 := state.FindOrInsertOrder(tx.account1, order1);
    if place1.Err? {
      return Err(place1.reason);
    }
    var place2 := state.FindOrInsertOrder(tx.account2, order2);
    if place2.Err? {
      return Err(place2.reason);
    }
    r := Ok(Match(order1, order2, place1.value.0, place2.value.0, place1.value.1, place2.value.1));
  }

  /** The trade is as matched, and the balances are those of the two accounts. */
  ghost predicate ReadyToTrade(s: Ledger, view: Ledger, tx: SpotTradeTx, x: Match, sell1: Fr, buy1: Fr, sell2: Fr,
                               buy2: Fr) {
    && MatchOrders(s, tx).Ok?
    && var m := MatchOrders(s, tx).value;
    && m.s == view && x == Match(m.order1, m.order2, m.pos1, m.pos2, m.old1, m.old2)
    && sell1 == BalanceOf(view, tx.account1, tx.token1to2) && buy1 == BalanceOf(view, tx.account1, tx.token2to1)
    && sell2 == BalanceOf(view, tx.account2, tx.token2to1) && buy2 == BalanceOf(view, tx.account2, tx.token1to2)
  }

  /** Both orders traded with and written. */
  method WriteOrders(state: GlobalState, ghost s: Ledger, tx: SpotTradeTx, x: Match, ghost m: Matched)
    returns (order1: Order, order2: Order)
    requires state.Valid() && Invariant(s) && MatchOrders(s, tx) == Ok(m) && m.s == state.view
    requires x == Match(m.order1, m.order2, m.pos1, m.pos2, m.old1, m.old2)
    modifies state`view, state`orderStates
    ensures state.Valid() && state.view == OrdersWritten(m, tx)
    ensures order1 == Order1After(m, tx) && order2 == Order2After(m, tx)
  {
    hide GlobalState.Valid, Invariant, At, Add, Pow2, MatchOrders, Order.Hash;
    TradeAccounts(s, tx);
    state.Facts();
    order1 := x.order1.TradeWith(tx.amount1to2, tx.amount2to1);
    state.UpdateOrderState(tx.account1, x.pos1, order1);
    state.Facts();
    order2 := x.order2.TradeWith(tx.amount2to1, tx.amount1to2);
    state.UpdateOrderState(tx.account2, x.pos2, order2);
  }

  /** The batch of a trade, on the parallel branch. */
  method RunTradeBatch(state: GlobalState, ghost s: Ledger, tx: SpotTradeTx, ghost m: Matched, us: seq<AccountUpdates>,
                       schedule: seq<nat>)
    requires state.Valid() && Invariant(s) && MatchOrders(s, tx) == Ok(m) && state.view == OrdersWritten(m, tx)
    requires us == TradeUpdates(m, tx) && PairSchedule(schedule)
    requires tx.token1to2 < Pow2(state.levels.balance) && tx.token2to1 < Pow2(state.levels.balance)
    modifies state, state.Trees()
    ensures state.strays == old(state.strays)
    ensures state.Valid() && fresh(state.Trees() - old(state.Trees()))
    ensures state.view == TradeApplied(s.levels, m, tx)
  {
    hide GlobalState.Valid, Invariant, Parallel, Pow2, MatchOrders, PairSchedule, IsSchedule, TasksExist, Known;
    hide InRange, TradeUpdates, TradeApplied, OrdersWritten;
    state.Facts();
    MatchedRecords(s, tx);
    TradeBatchReady(s, tx, m, schedule);
    state.BatchUpdate(us, true, schedule);
  }

  lemma TradeKnown(tx: SpotTradeTx, m: Matched, w: Ledger)
    requires tx.account1 in w.accounts && tx.account1 < |w.leaves| && tx.account2 in w.accounts
    requires tx.account2 < |w.leaves|
    ensures var us := TradeUpdates(m, tx);
            && |us| == 2 && us == [us[0], us[1]] && Known(w, us)
            && us[0].accountId == tx.account1 && us[1].accountId == tx.account2
  {
    hide BalanceOf, Add, Sub, Order.Hash, Order1After, Order2After;
  }

  lemma PairInRange(levels: Levels, u: AccountUpdates)
    requires |u.balanceUpdates| == 2 && |u.orderUpdates| == 1
    requires u.balanceUpdates[0].0 < Pow2(levels.balance) && u.balanceUpdates[1].0 < Pow2(levels.balance)
    requires u.orderUpdates[0].0 < Pow2(levels.order)
    ensures InRange(levels, u)
  {
    hide Pow2;
  }

  lemma TradeInRange(tx: SpotTradeTx, m: Matched, levels: Levels)
    requires m.pos1 < Pow2(levels.order) && m.pos2 < Pow2(levels.order)
    requires tx.token1to2 < Pow2(levels.balance) && tx.token2to1 < Pow2(levels.balance)
    ensures forall i :: 0 <= i < |TradeUpdates(m, tx)| ==> InRange(levels, TradeUpdates(m, tx)[i])
  {
    hide BalanceOf, Add, Sub, Pow2, Order.Hash, Order1After, Order2After, InRange;
    PairInRange(levels, TradeUpdate1(m, tx));
    PairInRange(levels, TradeUpdate2(m, tx));
  }

  lemma TradeBatchReady(s: Ledger, tx: SpotTradeTx, m: Matched, schedule: seq<nat>)
    requires Invariant(s) && MatchOrders(s, tx) == Ok(m) && PairSchedule(schedule)
    requires tx.token1to2 < Pow2(s.levels.balance) && tx.token2to1 < Pow2(s.levels.balance)
    ensures var us, w := TradeUpdates(m, tx), OrdersWritten(m, tx);
            && |us| == 2 && Known(w, us) && TasksExist(us, schedule)
            && (forall i :: 0 <= i < |us| ==> InRange(s.levels, us[i]))
            && Parallel(w, us, schedule) == TradeApplied(s.levels, m, tx)
  {
    TradeAccounts(s, tx);
    WrittenAccounts(s, tx);
    MatchedRecords(s, tx);
    TradeKnown(tx, m, OrdersWritten(m, tx));
    TradeInRange(tx, m, s.levels);
    hide Invariant, Parallel, Pow2, MatchOrders, Updated, PairSchedule, IsSchedule, TasksExist, OrdersWritten;
    hide TradeUpdates, Known, InRange, At, AccountState.Hash;
    var us, w := TradeUpdates(m, tx), OrdersWritten(m, tx);
    PairIsSchedule(us, schedule);
    PairBatch(w, us[0], us[1], schedule);
  }

  method RunTrade(state: GlobalState, ghost s: Ledger, tx: SpotTradeTx, x: Match, sell1: Fr, buy1: Fr, sell2: Fr,
                  buy2: Fr, schedule: seq<nat>)
    returns (order1: Order, order2: Order)
    requires state.Valid() && Invariant(s) && ReadyToTrade(s, state.view, tx, x, sell1, buy1, sell2, buy2)
    requires tx.token1to2 < Pow2(state.levels.balance) && tx.token2to1 < Pow2(state.levels.balance)
    requires PairSchedule(schedule)
    modifies state, state.Trees()
    ensures state.strays == old(state.strays)
    ensures state.Valid() && fresh(state.Trees() - old(state.Trees()))
    ensures var m := MatchOrders(s, tx).value;
            && state.view == TradeApplied(s.levels, m, tx)
            && order1 == Order1After(m, tx) && order2 == Order2After(m, tx)
  {
    hide GlobalState.Valid, Invariant, BalanceOf, Add, Sub, Pow2, MatchOrders, Order.Hash, PairSchedule, TradeApplied;
    hide OrdersWritten, Order1After, Order2After;
    ghost var m := MatchOrders(s, tx).value;
    order1, order2 := WriteOrders(state, s, tx, x, m);
    var us := [
      AccountUpdates(tx.account1, [(tx.token1to2, Sub(sell1, tx.amount1to2)), (tx.token2to1, Add(buy1, tx.amount2to1))],
                     [(x.pos1, order1.Hash())], None),
      AccountUpdates(tx.account2, [(tx.token1to2, Add(buy2, tx.amount1to2)), (tx.token2to1, Sub(sell2, tx.amount2to1))],
                     [(x.pos2, order2.Hash())], None)];
    RunTradeBatch(state, s, tx, m, us, schedule);
  }

  lemma TradeAccounts(s: Ledger, tx: SpotTradeTx)
    requires Invariant(s) && MatchOrders(s, tx).Ok?
    ensures var m := MatchOrders(s, tx).value;
            && tx.account1 != tx.account2 && tx.account1 in s.accounts && tx.account2 in s.accounts
            && tx.account1 in m.s.accounts && tx.account2 in m.s.accounts
            && tx.account1 < Pow2(s.levels.account) && tx.account2 < Pow2(s.levels.account)
            && m.pos1 < Pow2(s.levels.order) && m.pos2 < Pow2(s.levels.order) && m.s.levels == s.levels
            && m.s.leaves == s.leaves
            && |s.leaves| == Pow2(s.levels.account)
  {
    MatchedPlacements(s, tx);
    MatchedRecords(s, tx);
    TradedSlots(s, tx);
    Bounded(s, tx.account1);
    Bounded(s, tx.account2);
    WrittenAccounts(s, tx);
    KeyedExists(MatchOrders(s, tx).value.s, tx.account1);
    KeyedExists(MatchOrders(s, tx).value.s, tx.account2);
    hide Invariant, MatchOrders, Pow2, EmptyAccount, OrdersWritten;
  }

  /**
   * What a trade reads before its orders are placed: the root, the records, and the paths of the first account and of
   * both sell sides.
   */
  method InspectTrade(state: GlobalState, tx: SpotTradeTx)
    returns (root: Fr, acc1: AccountState, acc2: AccountState, balancePath0: seq<Fr>, balancePath2: seq<Fr>,
             accountPath0: seq<Fr>)
    requires state.Valid() && tx.account1 < Pow2(state.levels.account) && tx.account2 < Pow2(state.levels.account)
    requires tx.token1to2 < Pow2(state.levels.balance) && tx.token2to1 < Pow2(state.levels.balance)
    ensures state.Valid() && state.Trees() == old(state.Trees())
    ensures root == StateRoot(state.view) && acc1 == At(state.view, tx.account1).state
    ensures acc2 == At(state.view, tx.account2).state
    ensures balancePath0 == BalancePath(state.view, tx.account1, tx.token1to2)
    ensures accountPath0 == AccountPath(state.view, tx.account1)
    ensures balancePath2 == BalancePath(state.view, tx.account2, tx.token2to1)
  {
    hide GlobalState.Valid, Pow2, BalancePath, AccountPath, StateRoot, At, BalanceOf, Path, EmptyOrderLeaves;
    var sellPath1, path1, oldRoot, record1, _, _ := Inspect(state, tx.account1, tx.token1to2);
    var sellPath2, _, _, record2, _, _ := Inspect(state, tx.account2, tx.token2to1);
    root, acc1, acc2 := oldRoot, record1, record2;
    balancePath0, balancePath2, accountPath0 := sellPath1, sellPath2, path1;
  }

  /** What a trade reads once its orders are placed: four balances and both order paths. */
  method InspectOrders(state: GlobalState, tx: SpotTradeTx, pos1: nat, pos2: nat)
    returns (sell1: Fr, buy1: Fr, sell2: Fr, buy2: Fr, orderPath0: seq<Fr>, orderPath1: seq<Fr>)
    requires state.Valid() && tx.account1 in state.accountStates && tx.account2 in state.accountStates
    requires tx.token1to2 < Pow2(state.levels.balance) && tx.token2to1 < Pow2(state.levels.balance)
    requires pos1 < Pow2(state.levels.order) && pos2 < Pow2(state.levels.order)
    ensures state.Valid() && state.Trees() == old(state.Trees())
    ensures sell1 == BalanceOf(state.view, tx.account1, tx.token1to2)
    ensures buy1 == BalanceOf(state.view, tx.account1, tx.token2to1)
    ensures sell2 == BalanceOf(state.view, tx.account2, tx.token2to1)
    ensures buy2 == BalanceOf(state.view, tx.account2, tx.token1to2)
    ensures orderPath0 == OrderPath(state.view, tx.account1, pos1)
    ensures orderPath1 == OrderPath(state.view, tx.account2, pos2)
  {
    hide GlobalState.Precomputed, Tree.Valid, Holds, Forest, Pow2, StatesOf, BalancesOf, OrderLeavesOf, OrdersOf;
    hide CursorsOf, At, BalanceOf, OrderPath;
    sell1 := state.GetTokenBalance(tx.account1, tx.token1to2);
    buy1 := state.GetTokenBalance(tx.account1, tx.token2to1);
    sell2 := state.GetTokenBalance(tx.account2, tx.token2to1);
    buy2 := state.GetTokenBalance(tx.account2, tx.token1to2);
    var proof1 := state.OrderProof(tx.account1, pos1);
    var proof2 := state.OrderProof(tx.account2, pos2);
    orderPath0, orderPath1 := proof1.pathElements, proof2.pathElements;
  }

  /** What a trade reads after its batch: the buy-side paths, the second account's path, its order root and the root. */
  method InspectAfter(state: GlobalState, tx: SpotTradeTx)
    returns (root: Fr, balancePath3: seq<Fr>, balancePath1: seq<Fr>, accountPath1: seq<Fr>, orderRoot1: Fr)
    requires state.Valid() && tx.account1 < Pow2(state.levels.account) && tx.account2 < Pow2(state.levels.account)
    requires tx.token1to2 < Pow2(state.levels.balance) && tx.token2to1 < Pow2(state.levels.balance)
    ensures state.Valid() && state.Trees() == old(state.Trees())
    ensures root == StateRoot(state.view) && orderRoot1 == At(state.view, tx.account2).state.orderRoot
    ensures balancePath3 == BalancePath(state.view, tx.account1, tx.token2to1)
    ensures balancePath1 == BalancePath(state.view, tx.account2, tx.token1to2)
    ensures accountPath1 == AccountPath(state.view, tx.account2)
  {
    hide GlobalState.Valid, Pow2, BalancePath, AccountPath, StateRoot, At, BalanceOf, Path, EmptyOrderLeaves;
    var buyPath1, _, _, _, _, _ := Inspect(state, tx.account1, tx.token2to1);
    var buyPath2, path2, newRoot, record2, _, _ := Inspect(state, tx.account2, tx.token1to2);
    root, balancePath3, balancePath1, accountPath1, orderRoot1 := newRoot, buyPath1, buyPath2, path2, record2.orderRoot;
  }

  /** The fields of a trade's payload known before its batch. */
  function TradeFieldsSoFar(s: Ledger, m: Matched, tx: SpotTradeTx): Fields {
    TradeFields(s, m, tx).(new1 := NO_ORDER, new2 := NO_ORDER)
  }

  method TradePayloadBefore(tx: SpotTradeTx, x: Match, acc1: AccountState, acc2: AccountState, sell1: Fr, buy1: Fr,
                            sell2: Fr, buy2: Fr,
                            ghost s: Ledger, ghost m: Matched) returns (payload: seq<Fr>)
    requires x == Match(m.order1, m.order2, m.pos1, m.pos2, m.old1, m.old2)
    requires acc1 == At(s, tx.account1).state && acc2 == At(s, tx.account2).state
    requires sell1 == BalanceOf(m.s, tx.account1, tx.token1to2) && buy1 == BalanceOf(m.s, tx.account1, tx.token2to1)
    requires sell2 == BalanceOf(m.s, tx.account2, tx.token2to1) && buy2 == BalanceOf(m.s, tx.account2, tx.token1to2)
    ensures payload == Payload(TradeFieldsSoFar(s, m, tx))
  {
    hide At, BalanceOf, Add, FrOf, Payload, OldFields, NewFields, SigOf;
    var party1 := PartyOf(tx.account1, 0, sell1, acc1).(token := x.order1.tokenSell);
    var party2 := PartyOf(tx.account2, 0, Add(buy2, tx.amount1to2), acc2).(token := x.order2.tokenBuy);
    payload := TradePartiesPayload(party1, party2, x.order1.sig, x.order2.sig);
    ghost var f := NO_FIELDS.(party1 := party1, party2 := party2, sig1 := SigOf(x.order1.sig),
                              sig2 := SigOf(x.order2.sig));
    payload := TradeOrdersPayload(payload, f, x.old1, x.old2, x.pos1, x.pos2, tx.amount1to2, tx.amount2to1, sell2,
                                  Add(buy1, tx.amount2to1));
  }

  class ManagerWrapper {
    const state: GlobalState
    const nTx: nat
    const txDataEncoder: TxDataEncoder
    var bufferedTxs: seq<RawTx>
    var blockGenerateNum: nat

    ghost predicate Valid()
      reads this, state, state.Trees(), state.emptyBalanceTree, txDataEncoder, txDataEncoder.ctx
    {
      && state.Valid() && Invariant(state.view)
      && nTx > 0 && WellFormed(bufferedTxs)
      && txDataEncoder.Valid() && txDataEncoder.ctx.bits == []
    }

    constructor (state: GlobalState, nTx: nat, blockOffset: Option<nat>)
      requires state.Valid() && Invariant(state.view) && nTx > 0
      ensures Valid() && this.state == state && this.nTx == nTx && fresh(txDataEncoder) && fresh(txDataEncoder.ctx)
      ensures bufferedTxs == [] && blockGenerateNum == (if blockOffset.Some? then blockOffset.value else 0)
      ensures txDataEncoder.widths == Widths(state.levels.account, state.levels.balance, state.levels.order)
    {
      hide GlobalState.Valid, Invariant, BitEncodeContext.Valid, Pow2, RecordBits;
      var encoder := new TxDataEncoder(state.levels.balance, state.levels.order, state.levels.account);
      this.state := state;
      this.nTx := nTx;
      txDataEncoder := encoder;
      bufferedTxs := [];
      blockGenerateNum := if blockOffset.Some? then blockOffset.value else 0;
      new;
      assert state.Trees() == old(state.Trees());
    }

    lemma Parts()
      requires Valid()
      ensures state.Valid() && Invariant(state.view) && nTx > 0 && WellFormed(bufferedTxs)
      ensures txDataEncoder.Valid() && txDataEncoder.ctx.bits == []
    {
    }

    lemma Levels()
      requires Valid()
      ensures state.view.levels == state.levels
    {
      Parts();
      state.Facts();
      hide Valid, GlobalState.Valid, Invariant;
    }

    lemma Whole()
      requires state.Valid() && Invariant(state.view) && nTx > 0 && WellFormed(bufferedTxs)
      requires txDataEncoder.Valid() && txDataEncoder.ctx.bits == []
      ensures Valid()
    {
    }

    /** One record more; every transaction ends here. */
    method AddRawTx(rawTx: RawTx)
      requires state.Valid() && Invariant(state.view) && nTx > 0 && WellFormed(bufferedTxs)
      requires txDataEncoder.Valid() && txDataEncoder.ctx.bits == []
      requires |rawTx.payload| == TX_LENGTH && rawTx.txType != PlaceOrder
      modifies this`bufferedTxs
      ensures Valid() && bufferedTxs == old(bufferedTxs) + [rawTx]
      ensures state.view == old(state.view) && state.Trees() == old(state.Trees())
    {
      hide GlobalState.Valid, Invariant, BitEncodeContext.Valid, RecordBits;
      bufferedTxs := bufferedTxs + [rawTx];
      assert state.Trees() == old(state.Trees());
    }

    // ------------------------------------------------------ one account

    /** `key_update`: a key for an account that has none. */
    method KeyUpdate(a: nat, sign: Fr, ay: Fr, offset: Option<int>) returns (r: Result<()>)
      requires Valid() && a < Pow2(state.levels.account)
      modifies this`bufferedTxs, state, state.Trees()
      ensures state.strays == old(state.strays)
      ensures Valid() && fresh(state.Trees() - old(state.Trees()))
      ensures match KeyUpdated(old(state.view), a, sign, ay)
              case Ok(after) =>
                r == Ok(()) && state.view == after
                && bufferedTxs == old(bufferedTxs) + [KeyUpdateRaw(old(state.view), a, sign, ay, after, offset)]
              case Err(reason) => r == Err(reason) && state.view == old(state.view) && bufferedTxs == old(bufferedTxs)
      ensures r == Ok(()) <==> At(old(state.view), a).state.ay == 0
    {
      hide Valid, GlobalState.Valid, TxDataEncoder.Valid, BitEncodeContext.Valid, WellFormed, Invariant, Shape, Pow2;
      hide Payload, Path, Root;
      hide KeyUpdated, IsKeyed, At, WithBalance, WithL2Addr, BalanceOf, BalancePath, AccountPath, StateRoot;
      hide EmptyAccount, PartyOf;
      ghost var s := state.view;
      Parts();
      state.Facts();
      KeyUpdatedIs(s, a, sign, ay);
      KeyedIs(s, a);
      var has := state.HasAccount(a);
      if has {
        return Err("account already has a key");
      }
      KeyUpdateKeeps(s, a, sign, ay);
      var balancePath, accountPath, root, acc, oldBalance, trivial := Inspect(state, a, 0);
      var payload := KeyUpdatePayload(a, oldBalance, acc, sign, ay);
      SetBalanceAndKey(state, a, 0, oldBalance, sign, ay);
      var newRoot := state.GetRoot();
      AddRawTx(RawTx(TxType.Deposit, payload, balancePath, balancePath, balancePath, balancePath, trivial, trivial,
                     acc.orderRoot, acc.orderRoot, accountPath, accountPath, root, newRoot, offset));
      r := Ok(());
    }

    /** `deposit` to an account that has a key. */
    method Deposit(a: nat, t: nat, amount: Fr, offset: Option<int>) returns (r: Result<()>)
      requires Valid() && a < Pow2(state.levels.account) && t < Pow2(state.levels.balance)
      modifies this`bufferedTxs, state, state.Trees()
      ensures state.strays == old(state.strays)
      ensures Valid() && fresh(state.Trees() - old(state.Trees()))
      ensures match Deposited(old(state.view), a, t, amount)
              case Ok(after) =>
                r == Ok(()) && state.view == after
                && bufferedTxs == old(bufferedTxs) + [DepositRaw(old(state.view), a, t, amount, after, offset)]
              case Err(reason) => r == Err(reason) && state.view == old(state.view) && bufferedTxs == old(bufferedTxs)
      ensures r == Ok(()) <==> At(old(state.view), a).state.ay != 0
    {
      hide Valid, GlobalState.Valid, TxDataEncoder.Valid, BitEncodeContext.Valid, WellFormed, Invariant, Shape, Pow2;
      hide Payload, Path, Root;
      hide IsKeyed, At, WithBalance, BalanceOf, BalancePath, AccountPath, StateRoot, EmptyAccount, Add;
      ghost var s := state.view;
      Parts();
      state.Facts();
      KeyedIs(s, a);
      var has := state.HasAccount(a);
      if !has {
        return Err("account not existed");
      }
      DepositKeeps(s, a, t, amount);
      var balancePath, accountPath, root, acc, oldBalance, trivial := Inspect(state, a, t);
      var payload := DepositPayload(a, t, amount, oldBalance, acc);
      state.SetTokenBalance(a, t, Add(oldBalance, amount));
      var newRoot := state.GetRoot();
      AddRawTx(RawTx(TxType.Deposit, payload, balancePath, balancePath, balancePath, balancePath, trivial, trivial,
                     acc.orderRoot, acc.orderRoot, accountPath, accountPath, root, newRoot, offset));
      r := Ok(());
    }

    /** `withdraw`: nothing checks the account or its balance. */
    method Withdraw(a: nat, t: nat, amount: Fr, sig: Signature, offset: Option<int>)
      requires Valid() && a < Pow2(state.levels.account) && t < Pow2(state.levels.balance)
      modifies this`bufferedTxs, state, state.Trees()
      ensures state.strays == old(state.strays)
      ensures Valid() && fresh(state.Trees() - old(state.Trees()))
      ensures state.view == Withdrawn(old(state.view), a, t, amount)
      ensures bufferedTxs == old(bufferedTxs) + [WithdrawRaw(old(state.view), a, t, amount, sig, state.view, offset)]
    {
      hide Valid, GlobalState.Valid, TxDataEncoder.Valid, BitEncodeContext.Valid, WellFormed, Invariant, Shape, Pow2;
      hide Payload, Path, Root;
      hide At, WithBalance, WithNonce, BalanceOf, BalancePath, AccountPath, StateRoot, EmptyAccount, Add, Sub;
      ghost var s := state.view;
      Parts();
      state.Facts();
      WithdrawKeeps(s, a, t, amount);
      var balancePath, accountPath, root, acc, oldBalance, trivial := Inspect(state, a, t);
      var payload := WithdrawPayload(a, t, amount, oldBalance, acc, sig);
      SetBalanceAndCount(state, a, t, Sub(oldBalance, amount));
      var newRoot := state.GetRoot();
      AddRawTx(RawTx(TxType.Withdraw, payload, balancePath, balancePath, balancePath, balancePath, trivial, trivial,
                     acc.orderRoot, acc.orderRoot, accountPath, accountPath, root, newRoot, offset));
    }

    // ------------------------------------------------------ two accounts

    /**
     * `transfer`; the sender and the recipient may be the same account. A missing recipient is found by
     * the batch, when the sender's balance tree may already have been written: of the state after that
     * panic nothing is said.
     */
    method Transfer(from: nat, to: nat, t: nat, amount: Fr, sig: Signature, offset: Option<int>, schedule: seq<nat>)
      returns (r: Result<()>)
      requires Valid() && from < Pow2(state.levels.account) && to < Pow2(state.levels.account)
      requires t < Pow2(state.levels.balance)
      requires PairSchedule(schedule)
      modifies this`bufferedTxs, state, state.Trees()
      ensures state.strays == old(state.strays)
      ensures r != Err(MISSING_RECIPIENT) ==> Valid() && fresh(state.Trees() - old(state.Trees()))
      ensures match TransferCheck(old(state.view), from, to, t, amount)
              case None =>
                r == Ok(()) && ScheduledTransfer(old(state.view), from, to, t, amount, schedule, state.view)
                && bufferedTxs == old(bufferedTxs) + [TransferRaw(old(state.view), from, to, t, amount, sig, state.view,
                                                                  offset)]
              case Some(reason) =>
                && r == Err(reason) && bufferedTxs == old(bufferedTxs)
                && (reason != MISSING_RECIPIENT ==> state.view == old(state.view))
      ensures var s := old(state.view);
              && (r == Ok(()) <==>
                   At(s, from).state.ay != 0 && amount <= StoredBalance(s, from, t) && to in s.accounts)
              && (r == Err("invalid account") <==> At(s, from).state.ay == 0)
              && (r == Err("balance not enough") <==>
                   At(s, from).state.ay != 0 && StoredBalance(s, from, t) < amount)
              && (r == Err(MISSING_RECIPIENT) <==>
                   At(s, from).state.ay != 0 && amount <= StoredBalance(s, from, t) && to !in s.accounts)
    {
      hide Valid, GlobalState.Valid, TxDataEncoder.Valid, BitEncodeContext.Valid, WellFormed, Invariant, Shape, Pow2;
      hide Payload, Path, Root;
      hide IsKeyed, At, BalanceOf, BalancePath, AccountPath, StateRoot, EmptyAccount, Add, Sub, TransferUpdates;
      hide IsSchedule, PairSchedule, ScheduledTransfer, StoredBalance;
      ghost var s := state.view;
      TransferScheduled(s, from, to, t, amount, schedule);
      TransferAccepted(s, from, to, t, amount);
      Parts();
      state.Facts();
      var has := state.HasAccount(from);
      if !has {
        return Err("invalid account");
      }
      KeyedExists(s, from);
      var balancePath0, accountPath0, root, fromAccount, fromBalance, trivial := Inspect(state, from, t);
      var toAccount, toBalance := Balance(state, to, t);
      if fromBalance < amount {
        return Err("balance not enough");
      }
      if to !in state.accountStates {
        return Err(MISSING_RECIPIENT);
      }
      var payload := TransferPayload(from, to, t, amount, fromBalance, Add(toBalance, amount), fromAccount, toAccount,
                                     sig);
      RunTransfer(state, from, to, t, amount, fromBalance, Add(toBalance, amount), fromAccount.nonce, schedule);
      ScheduledKeeps(s, from, to, t, amount, schedule, state.view);
      state.Facts();
      var balancePath1, accountPath1, newRoot, _, _, _ := Inspect(state, to, t);
      AddRawTx(RawTx(TxType.Transfer, payload, balancePath0, balancePath1, balancePath0, balancePath1, trivial, trivial,
                     fromAccount.orderRoot, toAccount.orderRoot, accountPath0, accountPath1, root, newRoot, offset));
      r := Ok(());
    }

    /** `full_spot_trade`. An `Err` is a panic of the program; of the state it leaves nothing is said. */
    method FullSpotTrade(tx: SpotTradeTx, offset: Option<int>, schedule: seq<nat>) returns (r: Result<()>)
      requires Valid() && tx.token1to2 < Pow2(state.levels.balance) && tx.token2to1 < Pow2(state.levels.balance)
      requires PairSchedule(schedule)
      modifies this`bufferedTxs, state, state.Trees()
      ensures state.strays == old(state.strays)
      ensures match Traded(old(state.view), tx)
              case Ok(after) =>
                r == Ok(()) && Valid() && state.view == after && fresh(state.Trees() - old(state.Trees()))
                && bufferedTxs == old(bufferedTxs) + [TradeRaw(old(state.view), MatchOrders(old(state.view), tx).value,
                                                               tx, after, offset)]
              case Err(reason) => r == Err(reason) && bufferedTxs == old(bufferedTxs)
      ensures r == Ok(()) <==>
                && tx.account1 != tx.account2
                && SideAccepted(old(state.view), tx.account1, tx.order1Id, tx.maker, tx.token1to2, tx.amount1to2)
                && SideAccepted(old(state.view), tx.account2, tx.order2Id, tx.taker, tx.token2to1, tx.amount2to1)
      ensures r == Ok(()) ==>
                && FillsAdded(old(state.view), state.view, tx.account1, tx.order1Id, tx.maker, tx.amount1to2,
                              tx.amount2to1)
                && FillsAdded(old(state.view), state.view, tx.account2, tx.order2Id, tx.taker, tx.amount2to1,
                              tx.amount1to2)
    {
      hide Valid, GlobalState.Valid, TxDataEncoder.Valid, BitEncodeContext.Valid, WellFormed, Invariant, Shape, Pow2;
      hide Payload, Path, Root;
      hide IsKeyed, At, BalanceOf, BalancePath, AccountPath, OrderPath, StateRoot, EmptyAccount, Add, Sub;
      hide MatchOrders, Traded, TradeRaw, TradeApplied, PairSchedule, SideAccepted, FillsAdded;
      ghost var s := state.view;
      Parts();
      if Traded(s, tx).Ok? {
        TradeFills(s, tx);
      }
      TradeAccepted(s, tx);
      TradedIs(s, tx);
      if tx.account1 == tx.account2 {
        return Err("self trade not allowed");
      }
      var has1 := state.HasAccount(tx.account1);
      var has2 := state.HasAccount(tx.account2);
      if !has1 || !has2 {
        return Err("account not existed");
      }
      r := this.TradeKnownAccounts(tx, offset, schedule);
    }

    /** The rest of a trade, both accounts being registered and different. */
    method TradeKnownAccounts(tx: SpotTradeTx, offset: Option<int>, schedule: seq<nat>) returns (r: Result<()>)
      requires Valid() && tx.token1to2 < Pow2(state.levels.balance) && tx.token2to1 < Pow2(state.levels.balance)
      requires PairSchedule(schedule)
      requires tx.account1 != tx.account2 && IsKeyed(state.view, tx.account1) && IsKeyed(state.view, tx.account2)
      modifies this`bufferedTxs, state, state.Trees()
      ensures state.strays == old(state.strays)
      ensures match Traded(old(state.view), tx)
              case Ok(after) =>
                r == Ok(()) && Valid() && state.view == after && fresh(state.Trees() - old(state.Trees()))
                && bufferedTxs == old(bufferedTxs) + [TradeRaw(old(state.view), MatchOrders(old(state.view), tx).value,
                                                               tx, after, offset)]
              case Err(reason) => r == Err(reason) && bufferedTxs == old(bufferedTxs)
    {
      hide Valid, GlobalState.Valid, TxDataEncoder.Valid, BitEncodeContext.Valid, WellFormed, Invariant, Shape, Pow2;
      hide Payload, Path, Root;
      hide IsKeyed, At, BalanceOf, BalancePath, AccountPath, OrderPath, StateRoot, EmptyAccount, Add, Sub;
      hide MatchOrders, Traded, TradeApplied, PairSchedule;
      hide TradeFields, NewFields, Compressible, Order1After, Order2After;
      ghost var s := state.view;
      Parts();
      TradedIs(s, tx);
      TraderIds(s, tx);
      state.Facts();
      var root, acc1, acc2, balancePath0, balancePath2, accountPath0 := InspectTrade(state, tx);
      var found := MatchTrade(state, tx);
      if found.Err? {
        return Err(found.reason);
      }
      r := SettleTrade(s, tx, found.value, root, acc1, acc2, balancePath0, balancePath2, accountPath0, offset,
                       schedule);
    }

    /** A matched trade checked, applied and recorded. */
    method SettleTrade(ghost s: Ledger, tx: SpotTradeTx, x: Match, root: Fr, acc1: AccountState, acc2: AccountState,
                       balancePath0: seq<Fr>, balancePath2: seq<Fr>, accountPath0: seq<Fr>,
                       offset: Option<int>, schedule: seq<nat>)
      returns (r: Result<()>)
      requires state.Valid() && Invariant(s) && nTx > 0 && WellFormed(bufferedTxs) && txDataEncoder.Valid()
      requires txDataEncoder.ctx.bits == []
      requires s.levels == state.levels && tx.token1to2 < Pow2(s.levels.balance)
      requires tx.token2to1 < Pow2(s.levels.balance) && PairSchedule(schedule)
      requires MatchOrders(s, tx).Ok?
      requires var m := MatchOrders(s, tx).value;
               state.view == m.s && x == Match(m.order1, m.order2, m.pos1, m.pos2, m.old1, m.old2)
      requires root == StateRoot(s) && acc1 == At(s, tx.account1).state && acc2 == At(s, tx.account2).state
      requires balancePath0 == BalancePath(s, tx.account1, tx.token1to2) && accountPath0 == AccountPath(s, tx.account1)
      requires balancePath2 == BalancePath(s, tx.account2, tx.token2to1)
      modifies this`bufferedTxs, state, state.Trees()
      ensures state.strays == old(state.strays)
      ensures match Traded(s, tx)
              case Ok(after) =>
                r == Ok(()) && Valid() && state.view == after && fresh(state.Trees() - old(state.Trees()))
                && bufferedTxs == old(bufferedTxs) + [TradeRaw(s, MatchOrders(s, tx).value, tx, after, offset)]
              case Err(reason) => r == Err(reason) && bufferedTxs == old(bufferedTxs)
    {
      hide Valid, GlobalState.Valid, TxDataEncoder.Valid, BitEncodeContext.Valid, WellFormed, Invariant, Shape, Pow2;
      hide Payload, Path, Root;
      hide IsKeyed, At, BalanceOf, BalancePath, AccountPath, OrderPath, StateRoot, EmptyAccount, Add, Sub;
      hide MatchOrders, Traded, TradeApplied, PairSchedule;
      hide TradeFields, NewFields, Compressible, Order1After, Order2After;
      TradedIs(s, tx);
      ghost var m := MatchOrders(s, tx).value;
      TradeAccounts(s, tx);
      state.Facts();
      var sell1, buy1, sell2, buy2, orderPath0, orderPath1 := InspectOrders(state, tx, x.pos1, x.pos2);
      if sell1 <= tx.amount1to2 || sell2 <= tx.amount2to1 {
        return Err("balance");
      }
      var before := TradePayloadBefore(tx, x, acc1, acc2, sell1, buy1, sell2, buy2, s, m);
      var order1, order2 := RunTrade(state, s, tx, x, sell1, buy1, sell2, buy2, schedule);
      var newRoot, balancePath3, balancePath1, accountPath1, orderRoot1 := InspectAfter(state, tx);
      var payload := TradeNewOrdersPayload(before, TradeFieldsSoFar(s, m, tx), order1, order2);
      SameTotals(m, tx);
      if payload.Err? {
        return Err(payload.reason);
      }
      TradeFieldsDone(s, m, tx);
      TradeKeeps(s, tx);
      AddRawTx(RawTx(TxType.SpotTrade, payload.value, balancePath0, balancePath1, balancePath2, balancePath3,
                     orderPath0, orderPath1,
                     acc1.orderRoot, orderRoot1, accountPath0, accountPath1, root, newRoot, offset));
      r := Ok(());
    }

    // ------------------------------------------------------------ no change

    method CancelOrder(a: nat, orderId: nat) returns (r: Result<()>)
      requires Valid()
      modifies state
      ensures state.strays == old(state.strays)
      ensures Valid() && bufferedTxs == old(bufferedTxs) && state.Trees() == old(state.Trees())
      ensures match Cancelled(old(state.view), a, orderId)
              case Ok(after) => r == Ok(()) && state.view == after
              case Err(reason) => r == Err(reason) && state.view == old(state.view)
    {
      hide Valid, GlobalState.Valid, TxDataEncoder.Valid, BitEncodeContext.Valid, WellFormed, Invariant, Cancelled;
      Parts();
      if Cancelled(state.view, a, orderId).Ok? {
        CancelKeeps(state.view, a, orderId);
      }
      r := state.CancelOrder(a, orderId);
      Whole();
    }

    /** `nop`: a record that changes nothing. */
    method Nop()
      requires Valid()
      modifies this`bufferedTxs
      ensures Valid() && bufferedTxs == old(bufferedTxs) + [NopRaw(state.view)]
      ensures state.view == old(state.view) && state.Trees() == old(state.Trees())
    {
      hide Valid, GlobalState.Valid, TxDataEncoder.Valid, BitEncodeContext.Valid, WellFormed, Invariant, Shape, Pow2;
      hide Payload, Path, Root;
      hide At, BalanceOf, BalancePath, AccountPath, StateRoot, EmptyAccount;
      Parts();
      state.Facts();
      SomeLeaf(state.view);
      var balancePath, accountPath, root, _, _, trivial := Inspect(state, 0, 0);
      var payload := seq(TX_LENGTH, _ => 0);
      Zeroed();
      AddRawTx(RawTx(TxType.Nop, payload, balancePath, balancePath, balancePath, balancePath, trivial, trivial, 0, 0,
                     accountPath, accountPath, root, root, None));
    }

    /** `flush_with_nop`: empty records up to the next multiple of the block size, none when already there. */
    method FlushWithNop()
      requires Valid()
      modifies this`bufferedTxs
      ensures Valid() && state.view == old(state.view) && state.Trees() == old(state.Trees())
      ensures bufferedTxs == old(bufferedTxs) + Nops(state.view, PadTo(|old(bufferedTxs)|, nTx))
      ensures |bufferedTxs| % nTx == 0
    {
      hide Valid, GlobalState.Valid, TxDataEncoder.Valid, BitEncodeContext.Valid, WellFormed, Invariant, NopRaw;
      Parts();
      ghost var view := state.view;
      ghost var cnt := 0;
      while |bufferedTxs| % nTx != 0
        invariant Valid() && state.view == view && state.Trees() == old(state.Trees())
        invariant bufferedTxs == old(bufferedTxs) + Nops(view, cnt)
        invariant cnt + PadTo(|bufferedTxs|, nTx) == PadTo(|old(bufferedTxs)|, nTx)
        decreases PadTo(|bufferedTxs|, nTx)
      {
        PadToStep(|bufferedTxs|, nTx);
        Nop();
        cnt := cnt + 1;
      }
    }

    // --------------------------------------------------------------- blocks

    /** `forge_with_txs`: the records of one block and their public data; a record that cannot be encoded is a panic. */
    static method ForgeWithTxs(blockId: nat, txs: seq<RawTx>, encoder: TxDataEncoder) returns (r: Result<L2Block>)
      requires txs != [] && WellFormed(txs) && encoder.Valid() && encoder.ctx.bits == []
      modifies encoder`ctx, encoder.ctx
      ensures r.Ok? <==> AllEncodable(txs, encoder.widths)
      ensures r.Ok? ==>
                && encoder.Valid() && encoder.ctx.bits == [] && fresh(encoder.ctx)
                && IsBlock(r.value, blockId, txs, encoder.widths)
    {
      hide TxDataEncoder.Valid, BitEncodeContext.Valid, Encodable, TxBits, RecordBits, BytesToBits, DetailOf;
      RecordBitsPositive(encoder.widths);
      for i := 0 to |txs|
        invariant encoder.Valid() && encoder.ctx == old(encoder.ctx)
        invariant AllEncodable(txs[..i], encoder.widths)
        invariant encoder.ctx.bits == BlockBits(txs[..i], encoder.widths)
        invariant |encoder.ctx.bits| % RecordBits(encoder.widths) == 0
      {
        EncodedSoFar(txs, i, encoder.widths);
        var done := encoder.EncodeRawTx(txs[i]);
        if done != Done {
          return Err("unwrap");
        }
        OneMore(txs, i, encoder.widths);
      }
      assert txs[..|txs|] == txs;
      WholeBytes(|BlockBits(txs, encoder.widths)|, encoder.widths);
      var hash, bytes := encoder.FinishWithRaw();
      r := Ok(L2Block(blockId, DetailOf(txs, hash), bytes));
    }

    /** The block at the front of the buffer, and the state saved when its turn has come. */
    method PopOne(txs: seq<RawTx>, persistEvery: nat) returns (r: Result<(L2Block, seq<Snapshot>)>)
      requires Valid() && persistEvery > 0 && txs != [] && WellFormed(txs)
      modifies this`blockGenerateNum, txDataEncoder`ctx, txDataEncoder.ctx
      ensures r.Ok? <==>
                && AllEncodable(txs, txDataEncoder.widths)
                && ((old(blockGenerateNum) + 1) % persistEvery == 0 ==> LastOffset(txs).Some?)
      ensures r.Ok? ==>
                && Valid() && state.view == old(state.view) && state.Trees() == old(state.Trees())
                && fresh(txDataEncoder.ctx)
                && blockGenerateNum == old(blockGenerateNum) + 1
                && IsBlock(r.value.0, old(blockGenerateNum), txs, txDataEncoder.widths)
                && r.value.1 == SavedAt(blockGenerateNum, persistEvery, LastOffset(txs), StateRoot(state.view))
    {
      hide Valid, GlobalState.Valid, TxDataEncoder.Valid, BitEncodeContext.Valid, Invariant, WellFormed, LastOffset;
      hide StateRoot, IsBlock, AllEncodable;
      Parts();
      var block := ForgeWithTxs(blockGenerateNum, txs, txDataEncoder);
      if block.Err? {
        return Err(block.reason);
      }
      blockGenerateNum := blockGenerateNum + 1;
      assert state.Trees() == old(state.Trees());
      Whole();
      if blockGenerateNum % persistEvery != 0 {
        return Ok((block.value, []));
      }
      var last := FindLastOffset(txs);
      if last.None? {
        return Err("unwrap");
      }
      r := Ok((block.value, [Snapshot(blockGenerateNum, last.value, state.GetRoot())]));
    }

    method DropFirst(i: nat)
      requires Valid() && i <= |bufferedTxs|
      modifies this`bufferedTxs
      ensures Valid() && bufferedTxs == old(bufferedTxs)[i..]
      ensures state.view == old(state.view) && state.Trees() == old(state.Trees())
    {
      hide GlobalState.Valid, Invariant, BitEncodeContext.Valid, RecordBits;
      bufferedTxs := bufferedTxs[i..];
      assert state.Trees() == old(state.Trees());
    }

    /** `pop_all_blocks`: whole blocks leave the buffer; after every `persistEvery`-th the state is saved. */
    method PopAllBlocks(persistEvery: nat) returns (r: Result<(seq<L2Block>, seq<Snapshot>)>)
      requires Valid() && persistEvery > 0
      modifies this`bufferedTxs, this`blockGenerateNum, txDataEncoder`ctx, txDataEncoder.ctx
      ensures r.Ok? <==> CanPop(old(bufferedTxs), nTx, old(blockGenerateNum), persistEvery, txDataEncoder.widths)
      ensures r.Ok? <==> forall k: nat ::
                           BlockGoes(old(bufferedTxs), nTx, old(blockGenerateNum), persistEvery,
                                     txDataEncoder.widths, k)
      ensures r.Ok? ==>
                forall x :: x in r.value.1 <==>
                  exists k: nat ::
                    Saves(old(bufferedTxs), nTx, old(blockGenerateNum), persistEvery, StateRoot(state.view), k, x)
      ensures r.Ok? ==>
                && Valid() && state.view == old(state.view) && state.Trees() == old(state.Trees())
                && var (blocks, snapshots) := r.value;
                   var popped := |old(bufferedTxs)| - |bufferedTxs|;
                && popped >= 0 && bufferedTxs == old(bufferedTxs)[popped..] && |bufferedTxs| < nTx
                && Cut(old(bufferedTxs)[..popped], nTx, old(blockGenerateNum), txDataEncoder.widths, blocks)
                && blockGenerateNum == old(blockGenerateNum) + |blocks|
                && snapshots == SnapshotsOf(old(bufferedTxs), nTx, old(blockGenerateNum), persistEvery,
                                            StateRoot(state.view))
    {
      hide GlobalState.Valid, TxDataEncoder.Valid, BitEncodeContext.Valid, Invariant, WellFormed, CanPop, SnapshotsOf;
      hide Cut, LastOffset, StateRoot, Valid, IsBlock, AllEncodable, SavedAt, BlockGoes, Saves;
      Parts();
      var blocks: seq<L2Block>, snapshots: seq<Snapshot> := [], [];
      var i, len := 0, |bufferedTxs|;
      ghost var txs, start, root, w := bufferedTxs, blockGenerateNum, StateRoot(state.view), txDataEncoder.widths;
      NothingCut(txs, nTx, start, w);
      PopExactly(txs, nTx, start, persistEvery, w, root);
      while i + nTx <= len
        invariant i <= len && bufferedTxs == txs && len == |txs| && blockGenerateNum == start + |blocks|
        invariant Valid() && state.view == old(state.view) && state.Trees() == old(state.Trees())
        invariant txDataEncoder.ctx == old(txDataEncoder.ctx) || fresh(txDataEncoder.ctx)
        invariant WellFormed(txs) && WellFormed(txs[i..]) && Cut(txs[..i], nTx, start, w, blocks)
        invariant CanPop(txs, nTx, start, persistEvery, w) <==> CanPop(txs[i..], nTx, start + |blocks|, persistEvery, w)
        invariant SnapshotsOf(txs, nTx, start, persistEvery, root)
                    == snapshots + SnapshotsOf(txs[i..], nTx, start + |blocks|, persistEvery, root)
      {
        PopSplit(txs, i, nTx, start + |blocks|, persistEvery, w, root);
        var one := PopOne(bufferedTxs[i..i + nTx], persistEvery);
        if one.Err? {
          return Err(one.reason);
        }
        CutStep(txs, i, nTx, start, w, blocks, one.value.0);
        blocks := blocks + [one.value.0];
        snapshots := snapshots + one.value.1;
        i := i + nTx;
      }
      Popped(txs[i..], nTx, start + |blocks|, persistEvery, w, root);
      DropFirst(i);
      assert snapshots == SnapshotsOf(txs, nTx, start, persistEvery, root) && root == StateRoot(state.view);
      r := Ok((blocks, snapshots));
    }
  }

  lemma KeyedIs(s: Ledger, a: nat)
    ensures IsKeyed(s, a) <==> At(s, a).state.ay != 0
  {
  }

  lemma KeyUpdatedIs(s: Ledger, a: nat, sign: Fr, ay: Fr)
    ensures KeyUpdated(s, a, sign, ay) ==
            if IsKeyed(s, a) then Err("account already has a key")
            else Ok(WithL2Addr(WithBalance(s, a, 0, BalanceOf(s, a, 0)), a, sign, ay))
  {
  }

  lemma ScheduledKeeps(s: Ledger, from: nat, to: nat, t: nat, amount: Fr, schedule: seq<nat>, r: Ledger)
    requires Invariant(s) && from < Pow2(s.levels.account) && to < Pow2(s.levels.account) && t < Pow2(s.levels.balance)
    requires TransferCheck(s, from, to, t, amount) == None
    requires IsSchedule(TransferUpdates(s, from, to, t, amount), schedule)
    requires ScheduledTransfer(s, from, to, t, amount, schedule, r)
    ensures Invariant(r)
  {
    hide Invariant, IsSchedule, ScheduledTransfer, TransferCheck, TransferUpdates, Pow2;
    StepKeepsInvariant(s, Op.Transfer(from, to, t, amount), r);
  }

  lemma SomeLeaf(s: Ledger)
    ensures Pow2(s.levels.account) > 0 && Pow2(s.levels.balance) > 0
  {
  }

  function Nops(s: Ledger, k: nat): (txs: seq<RawTx>)
    ensures |txs| == k
  {
    seq(k, _ => NopRaw(s))
  }

  lemma PadToStep(len: nat, n: nat)
    requires n > 0 && len % n != 0
    ensures PadTo(len, n) == 1 + PadTo(len + 1, n)
  {
    var q, rest := len / n, len % n;
    assert len == q * n + rest;
    if rest + 1 == n {
      assert len + 1 == (q + 1) * n + 0;
      ModUnique(n, q + 1, 0);
    } else {
      assert len + 1 == q * n + (rest + 1);
      ModUnique(n, q, rest + 1);
    }
  }

  /** A trade, check by check. */
  lemma TradedIs(s: Ledger, tx: SpotTradeTx)
    ensures tx.account1 == tx.account2 ==> Traded(s, tx) == Err("self trade not allowed")
    ensures tx.account1 != tx.account2 && (!IsKeyed(s, tx.account1) || !IsKeyed(s, tx.account2)) ==>
              Traded(s, tx) == Err("account not existed")
    ensures MatchOrders(s, tx).Err? ==> Traded(s, tx) == Err(MatchOrders(s, tx).reason)
    ensures MatchOrders(s, tx).Ok? ==>
              var m := MatchOrders(s, tx).value;
              Traded(s, tx) ==
              if BalanceOf(m.s, tx.account1, tx.token1to2) <= tx.amount1to2
                 || BalanceOf(m.s, tx.account2, tx.token2to1) <= tx.amount2to1 then Err("balance")
              else if !Compressible(m.order1) || !Compressible(m.order2) then Err("too big for 35bit significand")
              else Ok(TradeApplied(s.levels, m, tx))
  {
    hide PickOrder, PlaceBoth, TradeApplied, Compressible, IsKeyed, BalanceOf;
  }

  lemma TraderIds(s: Ledger, tx: SpotTradeTx)
    requires Invariant(s) && IsKeyed(s, tx.account1) && IsKeyed(s, tx.account2)
    ensures tx.account1 < Pow2(s.levels.account) && tx.account2 < Pow2(s.levels.account)
  {
    KeyedExists(s, tx.account1);
    KeyedExists(s, tx.account2);
    Bounded(s, tx.account1);
    Bounded(s, tx.account2);
    hide Invariant, IsKeyed, Pow2;
  }

  lemma TradeFieldsDone(s: Ledger, m: Matched, tx: SpotTradeTx)
    ensures TradeFieldsSoFar(s, m, tx).(new1 := NewFields(Order1After(m, tx)), new2 := NewFields(Order2After(m, tx)))
              == TradeFields(s, m, tx)
  {
    hide NewFields, OldFields, PartyOf, SigOf, BalanceOf, Add;
  }

  lemma TransferScheduled(s: Ledger, from: nat, to: nat, t: nat, amount: Fr, schedule: seq<nat>)
    requires PairSchedule(schedule)
    ensures IsSchedule(TransferUpdates(s, from, to, t, amount), schedule)
  {
    PairIsSchedule(TransferUpdates(s, from, to, t, amount), schedule);
  }

  lemma EncodedSoFar(txs: seq<RawTx>, i: nat, w: Widths)
    requires WellFormed(txs) && i < |txs|
    ensures WellFormed(txs[..i]) && WellFormed(txs[..i + 1])
    ensures AllEncodable(txs[..i + 1], w) <==> AllEncodable(txs[..i], w) && Encodable(txs[i], w)
  {
    hide Encodable;
    assert txs[..i + 1] == txs[..i] + [txs[i]];
  }

  lemma OneMore(txs: seq<RawTx>, i: nat, w: Widths)
    requires WellFormed(txs) && i < |txs| && AllEncodable(txs[..i + 1], w) && WellFormed(txs[..i + 1])
    requires WellFormed(txs[..i]) && AllEncodable(txs[..i], w)
    requires |BlockBits(txs[..i], w)| % RecordBits(w) == 0
    ensures BlockBits(txs[..i + 1], w) == BlockBits(txs[..i], w) + TxBits(txs[i], w)
    ensures |BlockBits(txs[..i + 1], w)| % RecordBits(w) == 0
  {
    hide Encodable, TxBits, RecordBits;
    assert txs[..i + 1][..i] == txs[..i];
    EncodableHasPlan(txs[i], w);
    RecordLength(txs[i], w);
    var n, q := RecordBits(w), |BlockBits(txs[..i], w)| / RecordBits(w);
    assert |BlockBits(txs[..i + 1], w)| == (q + 1) * n;
    ModUnique(n, q + 1, 0);
  }

  lemma NothingCut(txs: seq<RawTx>, n: nat, start: nat, w: Widths)
    ensures Cut(txs[..0], n, start, w, []) && txs[0..] == txs
  {
  }

  /** One more block popped. */
  lemma PopSplit(txs: seq<RawTx>, i: nat, n: nat, start: nat, every: nat, w: Widths, root: Fr)
    requires n > 0 && every > 0 && i + n <= |txs| && WellFormed(txs)
    ensures WellFormed(txs[i..]) && WellFormed(txs[i + n..]) && WellFormed(txs[i..i + n])
    ensures CanPop(txs[i..], n, start, every, w) <==>
              && AllEncodable(txs[i..i + n], w) && ((start + 1) % every == 0 ==> LastOffset(txs[i..i + n]).Some?)
              && CanPop(txs[i + n..], n, start + 1, every, w)
    ensures SnapshotsOf(txs[i..], n, start, every, root) ==
            SavedAt(start + 1, every, LastOffset(txs[i..i + n]), root)
            + SnapshotsOf(txs[i + n..], n, start + 1, every, root)
  {
    hide AllEncodable, LastOffset;
    assert txs[i..][..n] == txs[i..i + n] && txs[i..][n..] == txs[i + n..];
  }

  lemma Popped(txs: seq<RawTx>, n: nat, start: nat, every: nat, w: Widths, root: Fr)
    requires n > 0 && every > 0 && |txs| < n && WellFormed(txs)
    ensures CanPop(txs, n, start, every, w) && SnapshotsOf(txs, n, start, every, root) == []
  {
  }

  /** The offset to resume from after a block: that of the last record that has one. */
  method FindLastOffset(txs: seq<RawTx>) returns (last: Option<int>)
    ensures last == LastOffset(txs)
    ensures last.Some? ==> ResumesAt(txs, last.value)
    ensures last.None? ==> forall i :: 0 <= i < |txs| ==> txs[i].offset == None
  {
    hide ResumesAt;
    var i := |txs|;
    assert txs[..|txs|] == txs;
    LastOffsetExactly(txs, 0);
    while i > 0
      invariant 0 <= i <= |txs| && LastOffset(txs) == LastOffset(txs[..i])
    {
      i := i - 1;
      assert txs[..i + 1][..i] == txs[..i];
      if txs[i].offset.Some? {
        LastOffsetExactly(txs, txs[i].offset.value);
        return txs[i].offset;
      }
    }
    last := None;
  }
}
