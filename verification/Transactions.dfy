/** What each transaction does to the ledger, and what it keeps. Every `Err` is a panic or an error return. */
module Transactions {
  import opened Field
  import opened Wrappers
  import opened MerkleSpec
  import opened Records
  import opened Ledger
  import opened Slots
  import opened Batch
  import opened Amounts

  datatype SpotTradeTx = SpotTradeTx(
    account1: nat,
    account2: nat,
    token1to2: nat,
    token2to1: nat,
    amount1to2: Fr,
    amount2to1: Fr,
    order1Id: nat,
    order2Id: nat,
    maker: Option<Order>,
    taker: Option<Order>)

  // ------------------------------------------------------------ the effects

  function Deposited(s: Ledger, a: nat, t: nat, amount: Fr): Result<Ledger> {
    if IsKeyed(s, a) then Ok(WithBalance(s, a, t, Add(BalanceOf(s, a, t), amount))) else Err("account not existed")
  }

  /** Writes token 0 back as it reads, then the key. */
  function KeyUpdated(s: Ledger, a: nat, sign: Fr, ay: Fr): Result<Ledger> {
    if IsKeyed(s, a) then
      Err("account already has a key")
    else
      Ok(WithL2Addr(WithBalance(s, a, 0, BalanceOf(s, a, 0)), a, sign, ay))
  }

  /** No check that the account exists or that the balance covers the amount. */
  function Withdrawn(s: Ledger, a: nat, t: nat, amount: Fr): Ledger {
    var s1 := WithBalance(s, a, t, Sub(BalanceOf(s, a, t), amount));
    WithNonce(s1, a, Add(At(s1, a).state.nonce, 1))
  }

  function TransferUpdates(s: Ledger, from: nat, to: nat, t: nat, amount: Fr): seq<AccountUpdates> {
    [AccountUpdates(from, [(t, Sub(BalanceOf(s, from, t), amount))], [], Some(Add(At(s, from).state.nonce, 1))),
     AccountUpdates(to, [(t, Add(BalanceOf(s, to, t), amount))], [], None)]
  }

  /** The panic of a batch for an account without trees. */
  const MISSING_RECIPIENT := "set_token_balance"

  /** The two ways a transfer panics before it changes anything, and the missing recipient found by the batch. */
  function TransferCheck(s: Ledger, from: nat, to: nat, t: nat, amount: Fr): Option<string> {
    if !IsKeyed(s, from) then Some("invalid account")
    else if BalanceOf(s, from, t) < amount then Some("balance not enough")
    else if to !in s.accounts then Some(MISSING_RECIPIENT)
    else None
  }

  // ---------------------------------------------------------------- trades

  /** A new order must be unknown and unfilled; an old one is found by its id. */
  function PickOrder(s: Ledger, a: nat, orderId: nat, new_: Option<Order>): Result<Order> {
    match new_
    case Some(order) =>
      if (order.accountId, order.orderId) in s.positions then Err("order already known")
      else if order.filledBuy != 0 || order.filledSell != 0 then Err("new order already filled")
      else Ok(order)
    case None =>
      if (a, orderId) in s.positions then Ok(OrderAt(s, a, s.positions[(a, orderId)])) else Err("unknown order")
  }

  /** The orders of a trade with their slots, the orders those slots held, and the state with both mapped. */
  datatype Matched = Matched(order1: Order, order2: Order, pos1: nat, pos2: nat, old1: Order, old2: Order, s: Ledger)

  function MatchOrders(s: Ledger, tx: SpotTradeTx): Result<Matched> {
    if tx.account1 == tx.account2 then
      Err("self trade not allowed")
    else if !IsKeyed(s, tx.account1) || !IsKeyed(s, tx.account2) then
      Err("account not existed")
    else
      match PickOrder(s, tx.account1, tx.order1Id, tx.maker)
      case Err(reason) => Err(reason)
      case Ok(order1) =>
        match PickOrder(s, tx.account2, tx.order2Id, tx.taker)
        case Err(reason) => Err(reason)
        case Ok(order2) => PlaceBoth(s, tx, order1, order2)
  }

  function PlaceBoth(s: Ledger, tx: SpotTradeTx, order1: Order, order2: Order): Result<Matched> {
    match Placement(s, tx.account1, order1.orderId)
    case Err(reason) => Err(reason)
    case Ok((pos1, old1, s1)) =>
      match Placement(s1, tx.account2, order2.orderId)
      case Err(reason) => Err(reason)
      case Ok((pos2, old2, s2)) => Ok(Matched(order1, order2, pos1, pos2, old1, old2, s2))
  }

  /** Both sides must hold strictly more than they sell. */
  predicate Covered(s: Ledger, tx: SpotTradeTx) {
    && BalanceOf(s, tx.account1, tx.token1to2) > tx.amount1to2
    && BalanceOf(s, tx.account2, tx.token2to1) > tx.amount2to1
  }

  predicate Compressible(order: Order) {
    Compress(order.totalSell).Ok? && Compress(order.totalBuy).Ok?
  }

  function Order1After(m: Matched, tx: SpotTradeTx): Order {
    m.order1.TradeWith(tx.amount1to2, tx.amount2to1)
  }

  function Order2After(m: Matched, tx: SpotTradeTx): Order {
    m.order2.TradeWith(tx.amount2to1, tx.amount1to2)
  }

  lemma SameTotals(m: Matched, tx: SpotTradeTx)
    ensures Compressible(Order1After(m, tx)) <==> Compressible(m.order1)
    ensures Compressible(Order2After(m, tx)) <==> Compressible(m.order2)
  {
    hide Compress;
  }

  function TradeUpdate1(m: Matched, tx: SpotTradeTx): AccountUpdates {
    AccountUpdates(tx.account1,
      [(tx.token1to2, Sub(BalanceOf(m.s, tx.account1, tx.token1to2), tx.amount1to2)),
       (tx.token2to1, Add(BalanceOf(m.s, tx.account1, tx.token2to1), tx.amount2to1))],
      [(m.pos1, Order1After(m, tx).Hash())], None)
  }

  function TradeUpdate2(m: Matched, tx: SpotTradeTx): AccountUpdates {
    AccountUpdates(tx.account2,
      [(tx.token1to2, Add(BalanceOf(m.s, tx.account2, tx.token1to2), tx.amount1to2)),
       (tx.token2to1, Sub(BalanceOf(m.s, tx.account2, tx.token2to1), tx.amount2to1))],
      [(m.pos2, Order2After(m, tx).Hash())], None)
  }

  function TradeUpdates(m: Matched, tx: SpotTradeTx): seq<AccountUpdates> {
    [TradeUpdate1(m, tx), TradeUpdate2(m, tx)]
  }

  /** Both order records written, no leaf touched yet. */
  function OrdersWritten(m: Matched, tx: SpotTradeTx): Ledger {
    WithOrderAt(WithOrderAt(m.s, tx.account1, m.pos1, Order1After(m, tx)), tx.account2, m.pos2, Order2After(m, tx))
  }

  /** Both order records written and both accounts updated. */
  function TradeApplied(levels: Levels, m: Matched, tx: SpotTradeTx): Ledger {
    var us, w := TradeUpdates(m, tx), OrdersWritten(m, tx);
    Store(Store(w, tx.account1, Updated(levels, At(w, tx.account1), us[0])),
          tx.account2, Updated(levels, At(w, tx.account2), us[1]))
  }

  /** The whole trade. The batch stores both updated records, whatever the schedule: see `PairBatch`. */
  function Traded(s: Ledger, tx: SpotTradeTx): Result<Ledger> {
    match MatchOrders(s, tx)
    case Err(reason) => Err(reason)
    case Ok(m) =>
      if !Covered(m.s, tx) then
        Err("balance")
      else if !Compressible(m.order1) || !Compressible(m.order2) then
        Err("too big for 35bit significand")
      else
        Ok(TradeApplied(s.levels, m, tx))
  }

  lemma TradedMatches(s: Ledger, tx: SpotTradeTx)
    requires Traded(s, tx).Ok?
    ensures MatchOrders(s, tx).Ok?
  {
    hide MatchOrders;
  }

  /** A transfer between two different accounts. */
  function Transferred(s: Ledger, from: nat, to: nat, t: nat, amount: Fr): Ledger {
    var us := TransferUpdates(s, from, to, t, amount);
    Store(Store(s, from, Updated(s.levels, At(s, from), us[0])), to, Updated(s.levels, At(s, to), us[1]))
  }

  // ------------------------------------------------------ batches of two

  /** A batch for two different accounts, whatever the schedule, stores the two updated records. */
  lemma PairBatch(s: Ledger, u1: AccountUpdates, u2: AccountUpdates, schedule: seq<nat>)
    requires Known(s, [u1, u2]) && u1.accountId != u2.accountId && IsSchedule([u1, u2], schedule)
    ensures Parallel(s, [u1, u2], schedule) ==
            Store(Store(s, u1.accountId, Updated(s.levels, At(s, u1.accountId), u1)),
                  u2.accountId, Updated(s.levels, At(s, u2.accountId), u2))
  {
    hide Parallel, Updated;
    var us := [u1, u2];
    assert Sequential(s, us[..0]) == s;
    ParallelIsSequential(s, us, schedule);
    SequentialStep(s, us, 0);
    SequentialStep(s, us, 1);
    hide Sequential;
    assert us[..2] == us && us[0] == u1 && us[1] == u2;
  }

  /** A single write of `value` into `t`. */
  lemma OneWrite(row: seq<Fr>, t: nat, value: Fr)
    requires t < |row|
    ensures ApplyUpdates(row, [(t, value)]) == row[t := value]
    ensures ApplyUpdates(row, []) == row
  {
    var us := [(t, value)];
    assert us[..0] == [];
  }

  lemma TwoWrites(row: seq<Fr>, t: nat, x: Fr, t': nat, y: Fr)
    requires t < |row| && t' < |row|
    ensures ApplyUpdates(row, [(t, x), (t', y)]) == row[t := x][t' := y]
  {
    var us := [(t, x), (t', y)];
    assert us[..1] == [(t, x)] && us[1] == (t', y);
    OneWrite(row, t, x);
  }
}
