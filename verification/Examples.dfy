/** Concrete inputs at which the program does not do what it is meant to. */
module Examples {
  import opened Field
  import opened Wrappers
  import opened MerkleSpec
  import opened Records
  import opened Ledger
  import opened Slots
  import opened Amounts
  import opened Transactions
  import opened Settlement
  import opened Invariants
  import opened Conservation
  import opened OrderHistory
  import opened TxEncoder
  import opened Emission
  import opened Encodability
  import opened GlobalState
  import opened Persistence

  // ------------------------------------------------------- foreign orders

  const NO_SIGNATURE := Signature(0, 0, 0, 0)
  const OPEN_ORDER := Order(0, 1, Buy, 1, 0, 3, 3, NO_SIGNATURE, 0, 0, true)
  const FOREIGN_ORDER := Order(7, 1, Buy, 1, 0, 4, 4, NO_SIGNATURE, 0, 0, true)
  const OWN_ORDER := Order(1, 2, Sell, 0, 1, 3, 3, NO_SIGNATURE, 0, 0, true)

  /** Account 0 trades an order of account 7 that has the id of its own open order. */
  const FOREIGN_TRADE := SpotTradeTx(0, 1, 0, 1, 1, 1, 0, 0, Some(FOREIGN_ORDER), Some(OWN_ORDER))

  /** An account with a key, no orders and two balances. */
  function Funded(levels: Levels, x: Fr, y: Fr): Account {
    var empty := EmptyAccount(levels);
    var account := WriteBalance(WriteBalance(empty, 0, x), 1, y);
    Refreshed(levels, account.(state := account.state.(ay := 1)))
  }

  function FundedLedger(levels: Levels): Ledger {
    Store(Store(EmptyLedger(levels), 0, Funded(levels, 10, 0)), 1, Funded(levels, 0, 10))
  }

  /** Two funded accounts, and account 0 has an open order. */
  function ExampleLedger(levels: Levels): Ledger {
    match Settle(FundedLedger(levels), Side(0, OPEN_ORDER, []))
    case Ok(s) => s
    case Err(_) => EmptyLedger(levels)
  }

  lemma FundedHolds(levels: Levels)
    requires 0 < levels.balance < 32 && levels.order < 32 && 0 < levels.account < 32
    ensures var s := FundedLedger(levels);
            && Invariant(s) && s.levels == levels && s.positions == map[] && 0 in s.accounts && 1 in s.accounts
            && |s.leaves| == Pow2(levels.account) >= 2 && Pow2(levels.balance) >= 2
            && s.accounts[0] == Funded(levels, 10, 0) && s.accounts[1] == Funded(levels, 0, 10)
  {
    EmptyLedgerHolds(levels);
    Pow2Monotone(1, levels.account);
    Pow2Monotone(1, levels.balance);
    assert Pow2(1) == 2;
    hide Invariant, Pow2, Root, Order.Hash, AccountState.Hash;
    RecordKeeps(EmptyLedger(levels), 0, Funded(levels, 10, 0));
    RecordKeeps(Store(EmptyLedger(levels), 0, Funded(levels, 10, 0)), 1, Funded(levels, 0, 10));
  }

  lemma FundedFacts(levels: Levels, x: Fr, y: Fr)
    requires Pow2(levels.balance) >= 2
    ensures var account := Funded(levels, x, y);
            && account.state.ay == 1 && account.orders == map[]
            && |account.balances| >= 2 && account.balances[0] == x && account.balances[1] == y
  {
    hide Root, Pow2, Order.Hash;
  }

  lemma ExampleHolds(levels: Levels)
    requires 0 < levels.balance < 32 && 0 < levels.order < 32 && 0 < levels.account < 32
    ensures var s := ExampleLedger(levels);
            && Invariant(s) && s.levels == levels && s.positions == map[(0, 1) := 0]
            && OrderAt(s, 0, 0) == OPEN_ORDER && At(s, 1).orders == map[]
            && At(s, 0).state.ay == 1 && At(s, 1).state.ay == 1
            && StoredBalance(s, 0, 0) == 10 && StoredBalance(s, 1, 1) == 10
            && Pow2(levels.balance) >= 2 && Pow2(levels.order) >= 2
  {
    Pow2Monotone(1, levels.order);
    assert Pow2(1) == 2;
    FundedHolds(levels);
    FundedFacts(levels, 10, 0);
    FundedFacts(levels, 0, 10);
    hide Invariant, Pow2, Root, Order.Hash, AccountState.Hash, Funded, EmptyAccount, FundedLedger;
    var s, side := FundedLedger(levels), Side(0, OPEN_ORDER, []);
    assert CountMatches(s.accounts[0].orders);
    assert Settle(s, side).Ok?;
    SettleKeeps(s, side);
    SettleIsStore(s, side);
    SettleElsewhere(s, side);
    assert At(s, 1) == s.accounts[1] && At(s, 0) == s.accounts[0];
  }

  lemma SmallTotals()
    ensures Compressible(FOREIGN_ORDER) && Compressible(OWN_ORDER) && Compressible(WORTHLESS_ORDER)
  {
    assert Strip(1) == (1, 0) && Strip(3) == (3, 0) && Strip(4) == (4, 0);
  }

  lemma ExampleMatches(levels: Levels)
    requires 0 < levels.balance < 32 && 0 < levels.order < 32 && 0 < levels.account < 32
    ensures MatchOrders(ExampleLedger(levels), FOREIGN_TRADE).Ok?
    ensures MatchOrders(ExampleLedger(levels), FOREIGN_TRADE).value.order1 == FOREIGN_ORDER
    ensures MatchOrders(ExampleLedger(levels), FOREIGN_TRADE).value.order2 == OWN_ORDER
  {
    hide Invariant, Pow2, EmptyAccount, ExampleLedger, At;
    ExampleHolds(levels);
    var s := ExampleLedger(levels);
    assert CountMatches(At(s, 1).orders);
    assert Placement(s, 0, 1) == Ok((0, OPEN_ORDER, s));
    assert Placement(s, 1, 2).Ok?;
  }

  lemma ExampleTrades(levels: Levels)
    requires 0 < levels.balance < 32 && 0 < levels.order < 32 && 0 < levels.account < 32
    ensures Traded(ExampleLedger(levels), FOREIGN_TRADE).Ok?
  {
    hide Invariant, Pow2, EmptyAccount, ExampleLedger, MatchOrders, At, BalanceOf, StoredBalance, Compressible;
    hide TradeApplied;
    ExampleHolds(levels);
    ExampleMatches(levels);
    SmallTotals();
    TradeReads(ExampleLedger(levels), FOREIGN_TRADE);
  }

  /** It does happen: an open order loses its slot to an order of another account. */
  lemma ForeignOrderExample(levels: Levels)
    requires 0 < levels.balance < 32 && 0 < levels.order < 32 && 0 < levels.account < 32
    ensures var s := ExampleLedger(levels);
            && Invariant(s) && Traded(s, FOREIGN_TRADE).Ok?
            && OrderAt(s, 0, 0) == OPEN_ORDER && !OPEN_ORDER.Closed()
            && OrderAt(Traded(s, FOREIGN_TRADE).value, 0, 0) == FOREIGN_ORDER.TradeWith(1, 1)
            && !SlotsMove(s, Traded(s, FOREIGN_TRADE).value)
  {
    hide Invariant, Traded, ExampleLedger, SlotsMove, KeepsSlots;
    ExampleHolds(levels);
    ExampleTrades(levels);
    ForeignOrderReplaces(ExampleLedger(levels), FOREIGN_TRADE);
  }

  // ----------------------------------------------- orders without an amount

  /** A bid that sells nothing, as amount times price can be after rounding. */
  const WORTHLESS_ORDER := Order(0, 1, Buy, 1, 0, 0, 1, NO_SIGNATURE, 0, 0, true)

  /** Account 0 buys one unit for nothing. */
  const WORTHLESS_TRADE := SpotTradeTx(0, 1, 0, 1, 0, 1, 0, 0, Some(WORTHLESS_ORDER), Some(OWN_ORDER))

  lemma WorthlessTrades(levels: Levels)
    requires 0 < levels.balance < 32 && levels.order < 32 && 0 < levels.account < 32
    ensures MatchOrders(FundedLedger(levels), WORTHLESS_TRADE).Ok?
    ensures MatchOrders(FundedLedger(levels), WORTHLESS_TRADE).value.order1 == WORTHLESS_ORDER
    ensures MatchOrders(FundedLedger(levels), WORTHLESS_TRADE).value.order2 == OWN_ORDER
    ensures MatchOrders(FundedLedger(levels), WORTHLESS_TRADE).value.pos1 == 0
  {
    hide Invariant, Pow2, EmptyAccount, FundedLedger, Funded;
    FundedHolds(levels);
    FundedFacts(levels, 10, 0);
    FundedFacts(levels, 0, 10);
    var s := FundedLedger(levels);
    assert At(s, 0).orders == map[] && At(s, 1).orders == map[];
    assert CountMatches(At(s, 0).orders) && CountMatches(At(s, 1).orders);
    assert Placement(s, 0, 1).Ok? && Placement(s, 0, 1).value.0 == 0;
    assert Placement(Placement(s, 0, 1).value.2, 1, 2).Ok?;
  }

  lemma WorthlessAccepted(levels: Levels)
    requires 0 < levels.balance < 32 && levels.order < 32 && 0 < levels.account < 32
    ensures Traded(FundedLedger(levels), WORTHLESS_TRADE).Ok?
  {
    hide Invariant, Pow2, EmptyAccount, MatchOrders, At, BalanceOf, StoredBalance, Compressible, TradeApplied, Funded;
    FundedHolds(levels);
    WorthlessTrades(levels);
    FundedBalances(levels);
    SmallTotals();
    TradeReads(FundedLedger(levels), WORTHLESS_TRADE);
  }

  lemma FundedBalances(levels: Levels)
    requires 0 < levels.balance < 32 && levels.order < 32 && 0 < levels.account < 32
    ensures StoredBalance(FundedLedger(levels), 0, 0) == 10 && StoredBalance(FundedLedger(levels), 1, 1) == 10
  {
    hide Invariant, Pow2, EmptyAccount, FundedLedger, Funded;
    FundedHolds(levels);
    FundedFacts(levels, 10, 0);
    FundedFacts(levels, 0, 10);
  }

  /** The first half of that trade: the order is appended to an account that had none. */
  lemma WorthlessPlaced(levels: Levels)
    requires 0 < levels.balance < 32 && levels.order < 32 && 0 < levels.account < 32
    ensures Traded(FundedLedger(levels), WORTHLESS_TRADE).Ok?
    ensures var s, m := FundedLedger(levels), MatchOrders(FundedLedger(levels), WORTHLESS_TRADE).value;
            var side := Side1(m, WORTHLESS_TRADE);
            && Settle(s, side).Ok?
            && var half := Settle(s, side).value;
            && half.levels == levels && half.positions == map[(0, 1) := 0]
            && At(half, 0).orders == map[0 := WORTHLESS_ORDER.TradeWith(0, 1)]
  {
    hide Invariant, Traded, MatchOrders, Settle, FundedLedger, Pow2, AccountState.Hash, EmptyAccount, Placement;
    hide TradeUpdates, Funded;
    var s := FundedLedger(levels);
    FundedHolds(levels);
    FundedFacts(levels, 10, 0);
    WorthlessAccepted(levels);
    WorthlessTrades(levels);
    TradeHalves(s, WORTHLESS_TRADE);
    var m := MatchOrders(s, WORTHLESS_TRADE).value;
    MatchedPlacements(s, WORTHLESS_TRADE);
    SettleKeeps(s, Side1(m, WORTHLESS_TRADE));
    SettleIsStore(s, Side1(m, WORTHLESS_TRADE));
  }

  lemma WorthlessStored(levels: Levels)
    requires 0 < levels.balance < 32 && levels.order < 32 && 0 < levels.account < 32
    ensures Traded(FundedLedger(levels), WORTHLESS_TRADE).Ok?
    ensures var r := Traded(FundedLedger(levels), WORTHLESS_TRADE).value;
            && Invariant(r) && r.levels == levels && 0 in r.accounts && (0, 9) !in r.positions
            && r.accounts[0].orders == map[0 := WORTHLESS_ORDER.TradeWith(0, 1)]
  {
    hide Invariant, Traded, MatchOrders, Settle, FundedLedger, Pow2, AccountState.Hash, EmptyAccount, TradeUpdates;
    hide Placement;
    var s := FundedLedger(levels);
    FundedHolds(levels);
    WorthlessPlaced(levels);
    TradeKeeps(s, WORTHLESS_TRADE);
    TradeHalves(s, WORTHLESS_TRADE);
    var m := MatchOrders(s, WORTHLESS_TRADE).value;
    var half, side2 := Settle(s, Side1(m, WORTHLESS_TRADE)).value, Side2(m, WORTHLESS_TRADE);
    SettleKeeps(s, Side1(m, WORTHLESS_TRADE));
    SettleKeeps(half, side2);
    SettleIsStore(half, side2);
  }

  /**
   * It does happen: a trade with such an order is accepted, and where an account has room for one order
   * it takes no other, although the order there is filled and has a smaller id.
   */
  lemma WorthlessOrderExample(levels: Levels)
    requires 0 < levels.balance < 32 && levels.order == 0 && 0 < levels.account < 32
    ensures Traded(FundedLedger(levels), WORTHLESS_TRADE).Ok?
    ensures var r := Traded(FundedLedger(levels), WORTHLESS_TRADE).value;
            && Invariant(r) && Victim(OrderAt(r, 0, 0), 9) && (0, 9) !in r.positions
            && Placement(r, 0, 9) == Err("default order in a full tree")
  {
    hide Invariant, Traded, FundedLedger, Placement, EmptyAccount;
    WorthlessStored(levels);
    var r := Traded(FundedLedger(levels), WORTHLESS_TRADE).value;
    assert OrderAt(r, 0, 0) == WORTHLESS_ORDER.TradeWith(0, 1);
    assert Pow2(levels.order) == 1;
    WorthlessOrdersBlock(r, 0, 9);
  }

  // -------------------------------------------------- records not accepted

  /** The trade of the foreign order uses up neither of its orders, so no block can hold its record. */
  lemma UnencodableExample(levels: Levels, offset: Option<int>)
    requires 0 < levels.balance < 32 && 0 < levels.order < 32 && 0 < levels.account < 32
    ensures var s := ExampleLedger(levels);
            && Invariant(s) && Traded(s, FOREIGN_TRADE).Ok? && MatchOrders(s, FOREIGN_TRADE).Ok?
            && !Encodable(TradeRaw(s, MatchOrders(s, FOREIGN_TRADE).value, FOREIGN_TRADE,
                                   Traded(s, FOREIGN_TRADE).value, offset),
                          WidthsOf(levels))
  {
    hide Invariant, Traded, MatchOrders, ExampleLedger, Encodable, OrderEncodes, TradeRaw;
    ExampleHolds(levels);
    ExampleMatches(levels);
    ExampleTrades(levels);
    TradeEncodable(ExampleLedger(levels), FOREIGN_TRADE, offset);
  }

  // ------------------------------------------------------ one key, two ids

  /** Two new accounts registered with one key have equal records, and never both come back. */
  lemma TwinKeysExample(levels: Levels, sign: Fr, ay: Fr, stored: map<nat, Fr>)
    requires levels.balance < 32 && levels.order < 32 && 0 < levels.account < 32 && ay != 0
    ensures KeyUpdated(EmptyLedger(levels), 0, sign, ay).Ok?
    ensures var once := KeyUpdated(EmptyLedger(levels), 0, sign, ay).value;
            && KeyUpdated(once, 1, sign, ay).Ok?
            && var twice := KeyUpdated(once, 1, sign, ay).value;
            && Invariant(twice) && 0 in twice.accounts && 1 in twice.accounts
            && twice.accounts[0].state == twice.accounts[1].state
            && !Recoverable(stored, StatesOf(twice.accounts))
  {
    hide Invariant, Pow2, Root, Order.Hash, AccountState.Hash, EmptyBalances, EmptyOrderLeaves;
    var empty := EmptyLedger(levels);
    EmptyLedgerHolds(levels);
    TwoLeaves(levels);
    KeyUpdateKeeps(empty, 0, sign, ay);
    var once := KeyUpdated(empty, 0, sign, ay).value;
    KeyUpdateKeeps(once, 1, sign, ay);
    var twice := KeyUpdated(once, 1, sign, ay).value;
    Row(twice.accounts, 0);
    Row(twice.accounts, 1);
  }

  lemma TwoLeaves(levels: Levels)
    requires 0 < levels.account
    ensures |EmptyLedger(levels).leaves| == Pow2(levels.account) >= 2
  {
    Pow2Monotone(1, levels.account);
    assert Pow2(1) == 2;
    hide Pow2, EmptyAccount;
  }
}
