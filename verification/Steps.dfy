/** Every operation as one step of the ledger, and what each step keeps. */
module Steps {
  import opened Field
  import opened Wrappers
  import opened MerkleSpec
  import opened Records
  import opened Ledger
  import opened Slots
  import opened Batch
  import opened Transactions
  import opened Settlement
  import opened Invariants
  import opened Conservation
  import opened SelfTransfer

  datatype Op =
    | KeyUpdate(a: nat, sign: Fr, ay: Fr)
    | Deposit(a: nat, t: nat, amount: Fr)
    | Transfer(from: nat, to: nat, t: nat, amount: Fr)
    | Withdraw(a: nat, t: nat, amount: Fr)
    | Trade(tx: SpotTradeTx)
    | Cancel(a: nat, orderId: nat)
    | Nop

  /** Ids that lie inside their trees. */
  ghost predicate OpInRange(levels: Levels, op: Op) {
    match op
    case KeyUpdate(a, _, _) => a < Pow2(levels.account)
    case Deposit(a, t, _) => a < Pow2(levels.account) && t < Pow2(levels.balance)
    case Transfer(from, to, t, _) =>
      from < Pow2(levels.account) && to < Pow2(levels.account) && t < Pow2(levels.balance)
    case Withdraw(a, t, _) => a < Pow2(levels.account) && t < Pow2(levels.balance)
    case Trade(tx) => tx.token1to2 < Pow2(levels.balance) && tx.token2to1 < Pow2(levels.balance)
    case _ => true
  }

  /** `r` is a state the operation can end in; only a transfer to oneself can end in more than one. */
  ghost predicate Step(s: Ledger, op: Op, r: Ledger) {
    && OpInRange(s.levels, op)
    && match op
       case KeyUpdate(a, sign, ay) => KeyUpdated(s, a, sign, ay) == Ok(r)
       case Deposit(a, t, amount) => Deposited(s, a, t, amount) == Ok(r)
       case Transfer(from, to, t, amount) => TransferStep(s, from, to, t, amount, r)
       case Withdraw(a, t, amount) => r == Withdrawn(s, a, t, amount)
       case Trade(tx) => Traded(s, tx) == Ok(r)
       case Cancel(a, orderId) => Cancelled(s, a, orderId) == Ok(r)
       case Nop => r == s
  }

  /** The batch may be scheduled in any way. */
  ghost predicate TransferStep(s: Ledger, from: nat, to: nat, t: nat, amount: Fr, r: Ledger) {
    && TransferCheck(s, from, to, t, amount) == None
    && exists schedule ::
         && IsSchedule(TransferUpdates(s, from, to, t, amount), schedule)
         && ScheduledTransfer(s, from, to, t, amount, schedule, r)
  }

  ghost predicate ScheduledTransfer(s: Ledger, from: nat, to: nat, t: nat, amount: Fr, schedule: seq<nat>, r: Ledger) {
    var us := TransferUpdates(s, from, to, t, amount);
    Known(s, us) && TasksExist(us, schedule) && r == Parallel(s, us, schedule)
  }

  /** Between two different accounts the schedule makes no difference. */
  lemma TransferIsDetermined(s: Ledger, from: nat, to: nat, t: nat, amount: Fr, r: Ledger)
    requires from != to && TransferStep(s, from, to, t, amount, r)
    ensures r == Transferred(s, from, to, t, amount)
    ensures from in s.accounts && to in s.accounts && from < |s.leaves| && to < |s.leaves|
  {
    var us := TransferUpdates(s, from, to, t, amount);
    var schedule :| IsSchedule(us, schedule) && ScheduledTransfer(s, from, to, t, amount, schedule, r);
    assert us == [us[0], us[1]];
    hide Parallel, IsSchedule, Updated, BalanceOf, At, Add, Sub;
    PairBatch(s, us[0], us[1], schedule);
  }

  lemma SelfTransferStep(s: Ledger, a: nat, t: nat, amount: Fr, r: Ledger)
    requires Invariant(s) && TransferStep(s, a, a, t, amount, r) && t < Pow2(s.levels.balance)
    ensures a in s.accounts && Invariant(r) && r.levels == s.levels && r.accounts.Keys == s.accounts.Keys
    ensures r == Store(s, a, At(r, a)) && At(r, a).orders == At(s, a).orders && At(r, a).state.ay == At(s, a).state.ay
  {
    var us := TransferUpdates(s, a, a, t, amount);
    var schedule :| IsSchedule(us, schedule) && ScheduledTransfer(s, a, a, t, amount, schedule, r);
    hide Invariant, Parallel, IsSchedule, At, Add, Sub, Pow2, TransferUpdates, RacedBalance, Root, AccountState.Hash;
    SelfTransferKeeps(s, a, t, amount, schedule);
    SelfTransferIsStore(s, a, t, amount, schedule);
    StoredAt(s, a,
             Refreshed(s.levels,
                       WriteNonce(WriteBalance(At(s, a), t, RacedBalance(s, a, t, amount, schedule)),
                                  Add(At(s, a).state.nonce, 1))));
  }

  lemma StoredAt(s: Ledger, a: nat, account: Account)
    ensures At(Store(s, a, account), a) == account
    ensures forall b: nat :: b != a ==> At(Store(s, a, account), b) == At(s, b)
  {
    hide AccountState.Hash, EmptyAccount;
  }

  // ---------------------------------------------------------- the invariant

  /** Every step keeps the invariant, whatever the order of the tree tasks. */
  lemma StepKeepsInvariant(s: Ledger, op: Op, r: Ledger)
    requires Invariant(s) && Step(s, op, r)
    ensures Invariant(r) && r.levels == s.levels
  {
    assert |s.leaves| == Pow2(s.levels.account);
    hide Invariant, Pow2, KeyUpdated, Deposited, Withdrawn, Traded, Cancelled, TransferStep;
    match op
    case KeyUpdate(a, sign, ay) =>
      KeyUpdateKeeps(s, a, sign, ay);
      StepLevels(s, op, r);
    case Deposit(a, t, amount) =>
      DepositKeeps(s, a, t, amount);
      StepLevels(s, op, r);
    case Transfer(from, to, t, amount) =>
      if from != to {
        TransferIsDetermined(s, from, to, t, amount, r);
        TransferKeeps(s, from, to, t, amount);
      } else {
        SelfTransferStep(s, from, t, amount, r);
      }
    case Withdraw(a, t, amount) =>
      WithdrawKeeps(s, a, t, amount);
      StepLevels(s, op, r);
    case Trade(tx) =>
      TradeKeeps(s, tx);
      StepLevels(s, op, r);
    case Cancel(a, orderId) =>
      CancelKeeps(s, a, orderId);
      StepLevels(s, op, r);
    case Nop =>
  }

  lemma StepLevels(s: Ledger, op: Op, r: Ledger)
    requires Step(s, op, r) && !op.Transfer?
    ensures r.levels == s.levels
  {
    if op.Trade? {
      MatchedPlacements(s, op.tx);
      MatchedRecords(s, op.tx);
      hide MatchOrders, Covered, Compressible, Updated, OrdersWritten, TradeUpdates, AccountState.Hash, EmptyAccount;
      hide OpInRange;
    }
  }

  /** Cancelling and doing nothing leave the root as it was. */
  lemma StepKeepsRoot(s: Ledger, op: Op, r: Ledger)
    requires Invariant(s) && Step(s, op, r) && (op.Cancel? || op.Nop?)
    ensures StateRoot(r) == StateRoot(s)
  {
    if op.Cancel? {
      CancelKeeps(s, op.a, op.orderId);
    }
  }

  // ------------------------------------------------------------------- keys

  /** What the ledger relies on but does not check itself. */
  ghost predicate Admissible(s: Ledger, op: Op) {
    match op
    case KeyUpdate(_, _, ay) => ay != 0
    case Transfer(from, to, _, _) => from != to
    case Withdraw(a, _, _) => IsKeyed(s, a)
    case _ => true
  }

  /** One record stored for an account that then has a key. */
  lemma StoreKeepsKeys(s: Ledger, a: nat, account: Account)
    requires AllKeyed(s) && account.state.ay != 0
    ensures AllKeyed(Store(s, a, account))
  {
  }

  lemma KeyedHasKey(s: Ledger, a: nat)
    requires AllKeyed(s) && a in s.accounts
    ensures At(s, a).state.ay != 0
  {
  }

  lemma WrittenKeys(s: Ledger, tx: SpotTradeTx)
    requires AllKeyed(s) && MatchOrders(s, tx).Ok?
    ensures AllKeyed(OrdersWritten(MatchOrders(s, tx).value, tx))
  {
    MatchedRecords(s, tx);
    WrittenAccounts(s, tx);
    var w := OrdersWritten(MatchOrders(s, tx).value, tx);
    hide MatchOrders, OrdersWritten, EmptyAccount;
    forall a | a in w.accounts
      ensures w.accounts[a].state.ay != 0
    {
      assert At(w, a).state == At(s, a).state;
    }
  }

  lemma TradeKeepsKeys(s: Ledger, tx: SpotTradeTx)
    requires AllKeyed(s) && Traded(s, tx).Ok?
    ensures AllKeyed(Traded(s, tx).value)
  {
    MatchedPlacements(s, tx);
    WrittenKeys(s, tx);
    WrittenAccounts(s, tx);
    KeyedExists(s, tx.account1);
    KeyedExists(s, tx.account2);
    hide MatchOrders, Covered, Compressible, OrdersWritten, TradeUpdates, AccountState.Hash, AllKeyed, ApplyUpdates;
    hide Root, At;
    var m := MatchOrders(s, tx).value;
    var us, w := TradeUpdates(m, tx), OrdersWritten(m, tx);
    KeyedHasKey(w, tx.account1);
    KeyedHasKey(w, tx.account2);
    var account1, account2 :=
      Updated(s.levels, At(w, tx.account1), us[0]), Updated(s.levels, At(w, tx.account2), us[1]);
    StoreKeepsKeys(w, tx.account1, account1);
    StoreKeepsKeys(Store(w, tx.account1, account1), tx.account2, account2);
  }

  lemma WrittenAccounts(s: Ledger, tx: SpotTradeTx)
    requires MatchOrders(s, tx).Ok?
    ensures OrdersWritten(MatchOrders(s, tx).value, tx).accounts.Keys == s.accounts.Keys
  {
    MatchedPlacements(s, tx);
    KeyedExists(s, tx.account1);
    KeyedExists(s, tx.account2);
    hide MatchOrders, Covered, Compressible, EmptyAccount, NextPos, PickOrder;
  }

  /** Admissible steps give no account a record without a key. */
  lemma StepKeepsKeys(s: Ledger, op: Op, r: Ledger)
    requires Invariant(s) && AllKeyed(s) && Step(s, op, r) && Admissible(s, op)
    ensures AllKeyed(r)
  {
    hide Invariant, Pow2, Traded, TransferStep, AccountState.Hash, Root, EmptyAccount, ApplyUpdates, TransferUpdates;
    match op
    case Trade(tx) => TradeKeepsKeys(s, tx);
    case Transfer(from, to, t, amount) =>
      TransferIsDetermined(s, from, to, t, amount, r);
      KeyedHasKey(s, from);
      KeyedHasKey(s, to);
    case _ =>
  }

  // ----------------------------------------------------------- conservation

  /** What a step adds to the supply of a token from outside. */
  function Inflow(op: Op, token: nat): int {
    match op
    case Deposit(_, t, amount) => if token == t then amount else 0
    case Withdraw(_, t, amount) => if token == t then -(amount as int) else 0
    case _ => 0
  }

  /** When the supply moves by the inflow, modulo the field order: what a caller can check beforehand. */
  predicate Conserves(s: Ledger, op: Op, token: nat) {
    match op
    case KeyUpdate(a, _, _) => token == 0 ==> StoredBalance(s, a, 0) == 0
    case Withdraw(a, t, _) => token == t ==> BalanceOf(s, a, t) == StoredBalance(s, a, t)
    case Transfer(from, to, t, amount) =>
      token == t ==> if from == to then amount == 0 else BalanceOf(s, to, t) == StoredBalance(s, to, t)
    case _ => true
  }

  /** When it does so as an integer: besides, nothing is overdrawn and no balance credited overflows. */
  predicate Solvent(s: Ledger, op: Op, token: nat) {
    && Conserves(s, op, token)
    && match op
       case Deposit(a, t, amount) => token == t ==> StoredBalance(s, a, t) + amount < P
       case Withdraw(a, t, amount) => token == t ==> amount <= StoredBalance(s, a, t)
       case Transfer(from, to, t, amount) => token == t && from != to ==> StoredBalance(s, to, t) + amount < P
       case Trade(tx) => CreditFits(s, tx, token)
       case _ => true
  }

  /** The supply after a step, against the supply before it and what came in. */
  ghost predicate Moved(s: Ledger, op: Op, r: Ledger, token: nat) {
    && (Congruent(Supply(r, token), Supply(s, token) + Inflow(op, token)) <==> Conserves(s, op, token))
    && (Supply(r, token) == Supply(s, token) + Inflow(op, token) <==> Solvent(s, op, token))
  }

  /** A step on one account, spelled out. */
  lemma SingleStep(s: Ledger, op: Op, r: Ledger)
    requires Invariant(s) && Step(s, op, r) && (op.Deposit? || op.Withdraw? || op.KeyUpdate?)
    ensures op.a < |s.leaves| && (!op.KeyUpdate? ==> op.t < Pow2(s.levels.balance))
    ensures op.Deposit? ==> Deposited(s, op.a, op.t, op.amount) == Ok(r)
    ensures op.Withdraw? ==> r == Withdrawn(s, op.a, op.t, op.amount)
    ensures op.KeyUpdate? ==> KeyUpdated(s, op.a, op.sign, op.ay) == Ok(r)
  {
    assert |s.leaves| == Pow2(s.levels.account);
    hide Invariant, Pow2, Deposited, Withdrawn, KeyUpdated;
  }

  lemma DepositStepSupply(s: Ledger, op: Op, r: Ledger, token: nat)
    requires Invariant(s) && op.Deposit? && Step(s, op, r)
    ensures Moved(s, op, r, token)
  {
    hide Invariant, Step, Pow2, Supply, Congruent, StoredBalance, BalanceOf, Deposited, CreditFits;
    SingleStep(s, op, r);
    CongruentLaws(Supply(s, token), 0, 0);
    DepositSupply(s, op.a, op.t, op.amount, token);
  }

  lemma WithdrawStepSupply(s: Ledger, op: Op, r: Ledger, token: nat)
    requires Invariant(s) && op.Withdraw? && Step(s, op, r)
    ensures Moved(s, op, r, token)
  {
    hide Invariant, Step, Pow2, Supply, Congruent, StoredBalance, BalanceOf, Withdrawn, CreditFits;
    SingleStep(s, op, r);
    CongruentLaws(Supply(s, token), 0, 0);
    WithdrawSupply(s, op.a, op.t, op.amount, token);
  }

  lemma KeyUpdateStepSupply(s: Ledger, op: Op, r: Ledger, token: nat)
    requires Invariant(s) && op.KeyUpdate? && Step(s, op, r)
    ensures Moved(s, op, r, token)
  {
    hide Invariant, Step, Pow2, Supply, Congruent, StoredBalance, BalanceOf, KeyUpdated, CreditFits;
    SingleStep(s, op, r);
    KeyUpdateSupply(s, op.a, op.sign, op.ay, token);
    CongruentLaws(Supply(s, token), 0, 0);
    Lowered(Supply(s, token), StoredBalance(s, op.a, 0));
  }

  lemma Lowered(before: int, lost: Fr)
    ensures Congruent(before - lost, before) <==> lost == 0
  {
    SmallMultiple(-(lost as int));
  }

  lemma TransferStepSupply(s: Ledger, op: Op, r: Ledger, token: nat)
    requires Invariant(s) && op.Transfer? && Step(s, op, r)
    ensures Moved(s, op, r, token)
  {
    hide Invariant, Step, Pow2, Supply, Congruent, StoredBalance, BalanceOf, TransferStep, TransferCheck, CreditFits;
    hide Transferred, IsKeyed;
    CongruentLaws(Supply(s, token), 0, 0);
    TransferChecked(s, op, r);
    if op.from != op.to {
      TransferIsDetermined(s, op.from, op.to, op.t, op.amount, r);
      TransferSupply(s, op.from, op.to, op.t, op.amount, token);
    } else {
      SelfStepSupply(s, op.from, op.t, op.amount, r, token);
    }
  }

  lemma SelfStepSupply(s: Ledger, a: nat, t: nat, amount: Fr, r: Ledger, token: nat)
    requires Invariant(s) && t < Pow2(s.levels.balance) && TransferStep(s, a, a, t, amount, r)
    ensures token != t ==> Supply(r, token) == Supply(s, token)
    ensures Congruent(Supply(r, t), Supply(s, t)) <==> amount == 0
    ensures Supply(r, t) == Supply(s, t) <==> amount == 0
  {
    hide Invariant, Parallel, IsSchedule, Pow2, TransferUpdates, Supply, Congruent, BalanceOf, IsKeyed;
    var us := TransferUpdates(s, a, a, t, amount);
    var schedule :| IsSchedule(us, schedule) && ScheduledTransfer(s, a, a, t, amount, schedule, r);
    SelfTransferSupply(s, a, t, amount, schedule);
  }

  /**
   * Each step changes each token's supply by its inflow: exactly when it conserves, and as an integer exactly when it
   * is solvent.
   */
  lemma StepSupply(s: Ledger, op: Op, r: Ledger, token: nat)
    requires Invariant(s) && Step(s, op, r)
    ensures Congruent(Supply(r, token), Supply(s, token) + Inflow(op, token)) <==> Conserves(s, op, token)
    ensures Supply(r, token) == Supply(s, token) + Inflow(op, token) <==> Solvent(s, op, token)
  {
    CongruentLaws(Supply(s, token), 0, 0);
    hide Invariant, Pow2, Supply, Congruent, StoredBalance, BalanceOf, IsKeyed, Traded, TransferStep, CreditFits;
    hide Withdrawn, KeyUpdated, Deposited, Cancelled;
    match op
    case KeyUpdate(_, _, _) => KeyUpdateStepSupply(s, op, r, token);
    case Deposit(_, _, _) => DepositStepSupply(s, op, r, token);
    case Transfer(_, _, _, _) => TransferStepSupply(s, op, r, token);
    case Withdraw(_, _, _) => WithdrawStepSupply(s, op, r, token);
    case Trade(tx) => TradeSupply(s, tx, token);
    case Cancel(a, orderId) => CancelSupply(s, a, orderId, token);
    case Nop =>
  }

  /** Where every record has a key, admissible operations conserve every token. */
  lemma AdmissibleConserves(s: Ledger, op: Op, r: Ledger, token: nat)
    requires AllKeyed(s) && Step(s, op, r) && Admissible(s, op)
    ensures Conserves(s, op, token)
  {
    match op
    case KeyUpdate(a, _, _) => UnkeyedHoldsNothing(s, op, r);
    case Withdraw(a, t, _) => UnkeyedReadsStored(s, a, t);
    case Transfer(_, to, t, _) => UnkeyedReadsStored(s, to, t);
    case _ =>
    hide AllKeyed, StoredBalance, BalanceOf, Step;
  }

  lemma UnkeyedReadsStored(s: Ledger, a: nat, t: nat)
    requires AllKeyed(s)
    ensures BalanceOf(s, a, t) == StoredBalance(s, a, t)
  {
    if a !in s.accounts || IsKeyed(s, a) {
      ReadIsStored(s, a, t);
    }
    hide EmptyAccount;
  }

  lemma UnkeyedHoldsNothing(s: Ledger, op: Op, r: Ledger)
    requires AllKeyed(s) && op.KeyUpdate? && Step(s, op, r)
    ensures StoredBalance(s, op.a, 0) == 0
  {
    UnkeyedReadsStored(s, op.a, 0);
    hide StoredBalance, AllKeyed;
  }

  lemma TransferChecked(s: Ledger, op: Op, r: Ledger)
    requires op.Transfer? && Step(s, op, r)
    ensures TransferCheck(s, op.from, op.to, op.t, op.amount) == None && op.t < Pow2(s.levels.balance)
    ensures TransferStep(s, op.from, op.to, op.t, op.amount, r)
  {
    hide Pow2;
  }

  lemma CancelSupply(s: Ledger, a: nat, orderId: nat, token: nat)
    requires Invariant(s) && Cancelled(s, a, orderId).Ok?
    ensures Supply(Cancelled(s, a, orderId).value, token) == Supply(s, token)
  {
    CancelIsStore(s, a, orderId);
    var r := Cancelled(s, a, orderId).value;
    assert r.accounts[a].balances == s.accounts[a].balances;
    assert At(s, a) == s.accounts[a];
    hide Invariant, At, AccountState.Hash, Cancelled, Supply;
    StoredAt(s, a, r.accounts[a]);
    SameBalances(s, r, a, token);
  }
}
