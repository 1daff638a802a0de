/** The sum of all balances of a token, and how each transaction changes it. */
module Conservation {
  import opened Field
  import opened Wrappers
  import opened MerkleSpec
  import opened Records
  import opened Ledger
  import opened Slots
  import opened Batch
  import opened Transactions
  import opened Settlement
  import opened Invariants

  // -------------------------------------------------------------- congruence

  predicate Congruent(x: int, y: int) {
    (x - y) % P == 0
  }

  lemma CongruentSum(x: int, y: int, u: int, v: int)
    requires Congruent(x, y) && Congruent(u, v)
    ensures Congruent(x + u, y + v) && Congruent(x - u, y - v)
  {
    var j, k := (x - y) / P, (u - v) / P;
    assert x - y == j * P && u - v == k * P;
    assert (x + u) - (y + v) == (j + k) * P;
    assert (x - u) - (y - v) == (j - k) * P;
  }

  lemma CongruentLaws(x: int, y: int, z: int)
    ensures Congruent(x, x)
    ensures Congruent(x, y) && Congruent(y, z) ==> Congruent(x, z)
  {
  }

  /** A sum one of whose entries, `stored`, is replaced by what was `read` of it plus an amount. */
  lemma Credited(before: int, after: int, read: Fr, stored: Fr, amount: Fr)
    requires after == before + Add(read, amount) - stored
    ensures Congruent(after, before + amount) <==> read == stored
    ensures after == before + amount <==> read == stored && stored + amount < P
  {
    assert Add(read, amount) == read + amount || Add(read, amount) + P == read + amount;
    SmallMultiple(read - stored);
  }

  /** The same, less an amount. */
  lemma Debited(before: int, after: int, read: Fr, stored: Fr, amount: Fr)
    requires after == before + Sub(read, amount) - stored
    ensures Congruent(after, before - amount) <==> read == stored
    ensures after == before - amount <==> read == stored && amount <= stored
  {
    assert Sub(read, amount) + amount == read || Sub(read, amount) + amount == read + P;
    SmallMultiple(read - stored);
  }

  lemma SmallMultiple(d: int)
    requires d < P && 0 < d + P
    ensures d % P == 0 <==> d == 0
    ensures (d + P) % P == 0 <==> d == 0
    ensures (d - P) % P == 0 <==> d == 0
  {
  }

  // ------------------------------------------------------------------ supply

  function SupplyBelow(s: Ledger, t: nat, n: nat): nat {
    if n == 0 then 0 else SupplyBelow(s, t, n - 1) + StoredBalance(s, n - 1, t)
  }

  /** All balances of a token, over every account the tree has room for, added as integers. */
  function Supply(s: Ledger, t: nat): nat {
    SupplyBelow(s, t, |s.leaves|)
  }

  lemma {:induction false} SupplyElsewhere(s: Ledger, r: Ledger, t: nat, a: nat, n: nat)
    requires forall b :: b != a ==> StoredBalance(r, b, t) == StoredBalance(s, b, t)
    ensures SupplyBelow(r, t, n) - SupplyBelow(s, t, n) == if a < n then StoredBalance(r, a, t) - StoredBalance(s, a, t)
                                                           else 0
  {
    hide StoredBalance;
    if n > 0 {
      SupplyElsewhere(s, r, t, a, n - 1);
    }
  }

  /** One account's record replaced. */
  lemma StoreSupply(s: Ledger, r: Ledger, a: nat, t: nat)
    requires a < |s.leaves| == |r.leaves| && r.levels == s.levels
    requires forall b :: b != a ==> At(r, b) == At(s, b)
    ensures Supply(r, t) - Supply(s, t) == StoredBalance(r, a, t) - StoredBalance(s, a, t)
  {
    hide At;
    assert forall b :: b != a ==> StoredBalance(r, b, t) == StoredBalance(s, b, t);
    SupplyElsewhere(s, r, t, a, |s.leaves|);
  }

  lemma {:induction false} EmptySupplyBelow(levels: Levels, t: nat, n: nat)
    ensures SupplyBelow(EmptyLedger(levels), t, n) == 0
  {
    hide Root, Pow2, Order.Hash, AccountState.Hash;
    if n > 0 {
      EmptySupplyBelow(levels, t, n - 1);
    }
  }

  // ------------------------------------------------------- what is stored

  /** A record or a key: the balance read is the balance stored. */
  lemma ReadIsStored(s: Ledger, a: nat, t: nat)
    requires IsKeyed(s, a) || a !in s.accounts
    ensures BalanceOf(s, a, t) == StoredBalance(s, a, t)
  {
    hide Root, Order.Hash, Pow2;
  }

  lemma WithBalanceSupply(s: Ledger, a: nat, t: nat, value: Fr, token: nat)
    requires Invariant(s) && a < |s.leaves| && t < Pow2(s.levels.balance)
    ensures var r := WithBalance(s, a, t, value);
            && StoredBalance(r, a, token) == (if token == t then value else StoredBalance(s, a, token))
            && Supply(r, token) == Supply(s, token) + StoredBalance(r, a, token) - StoredBalance(s, a, token)
  {
    Reads(s, a);
    var r := WithBalance(s, a, t, value);
    hide Invariant, Root, AccountState.Hash, Pow2, EmptyAccount, Synced, Slotted;
    StoreSupply(s, r, a, token);
  }

  /** A record replaced by one with the same balances. */
  lemma SameBalances(s: Ledger, r: Ledger, a: nat, token: nat)
    requires a < |s.leaves| == |r.leaves| && r.levels == s.levels
    requires (forall b :: b != a ==> At(r, b) == At(s, b)) && At(r, a).balances == At(s, a).balances
    ensures Supply(r, token) == Supply(s, token)
  {
    StoreSupply(s, r, a, token);
  }

  /**
   * A deposit adds its amount: modulo the field order always, as an integer exactly when the balance does not overflow.
   */
  lemma DepositSupply(s: Ledger, a: nat, t: nat, amount: Fr, token: nat)
    requires Invariant(s) && a < |s.leaves| && t < Pow2(s.levels.balance) && Deposited(s, a, t, amount).Ok?
    ensures var r := Deposited(s, a, t, amount).value;
            && (token != t ==> Supply(r, token) == Supply(s, token))
            && Congruent(Supply(r, t), Supply(s, t) + amount)
            && (Supply(r, t) == Supply(s, t) + amount <==> StoredBalance(s, a, t) + amount < P)
  {
    hide Invariant, WithBalance, StoredBalance, Pow2, Supply, Add, Congruent;
    var b := StoredBalance(s, a, t);
    ReadIsStored(s, a, t);
    WithBalanceSupply(s, a, t, Add(b, amount), token);
    WithBalanceSupply(s, a, t, Add(b, amount), t);
    Credited(Supply(s, t), Supply(Deposited(s, a, t, amount).value, t), b, b, amount);
  }

  /** The key update keeps every supply but, for an account that had a record without a key, that of token 0. */
  lemma KeyUpdateSupply(s: Ledger, a: nat, sign: Fr, ay: Fr, token: nat)
    requires Invariant(s) && a < |s.leaves| && KeyUpdated(s, a, sign, ay).Ok?
    ensures var r := KeyUpdated(s, a, sign, ay).value;
            Supply(r, token) == Supply(s, token) - if token == 0 then StoredBalance(s, a, 0) else 0
  {
    hide Invariant, StoredBalance, Supply, AccountState.Hash, Root, EmptyAccount, WithBalance;
    var s1 := WithBalance(s, a, 0, 0);
    assert Pow2(s.levels.balance) > 0;
    hide Pow2;
    WithBalanceSupply(s, a, 0, 0, token);
    WithBalanceKeeps(s, a, 0, 0);
    SameBalances(s1, WithL2Addr(s1, a, sign, ay), a, token);
  }

  /**
   * A withdrawal checks neither that the account has a key nor that the balance covers it. Without a
   * key the balance reads as zero whatever is stored, and is then written over; a balance that does
   * not cover the amount wraps around.
   */
  lemma WithdrawSupply(s: Ledger, a: nat, t: nat, amount: Fr, token: nat)
    requires Invariant(s) && a < |s.leaves| && t < Pow2(s.levels.balance)
    ensures var r := Withdrawn(s, a, t, amount);
            && (token != t ==> Supply(r, token) == Supply(s, token))
            && (Congruent(Supply(r, t), Supply(s, t) - amount) <==> BalanceOf(s, a, t) == StoredBalance(s, a, t))
            && (Supply(r, t) == Supply(s, t) - amount <==>
                  BalanceOf(s, a, t) == StoredBalance(s, a, t) && amount <= StoredBalance(s, a, t))
  {
    hide Invariant, StoredBalance, Supply, AccountState.Hash, Root, EmptyAccount, WithBalance, BalanceOf, Congruent;
    hide Sub;
    var b := BalanceOf(s, a, t);
    var s1, r := WithBalance(s, a, t, Sub(b, amount)), Withdrawn(s, a, t, amount);
    WithBalanceSupply(s, a, t, Sub(b, amount), token);
    WithBalanceSupply(s, a, t, Sub(b, amount), t);
    WithBalanceKeeps(s, a, t, Sub(b, amount));
    SameBalances(s1, r, a, token);
    SameBalances(s1, r, a, t);
    Debited(Supply(s, t), Supply(r, t), b, StoredBalance(s, a, t), amount);
  }

  /**
   * Two withdrawals from an account nobody has touched: the first leaves a record without a key, and
   * the second, of nothing at all, loses what the first left in it.
   */
  lemma KeylessWithdrawalLeaks(levels: Levels)
    requires levels.balance < 32 && levels.order < 32 && levels.account < 32
    ensures var s := Withdrawn(EmptyLedger(levels), 0, 0, 1);
            var r := Withdrawn(s, 0, 0, 0);
            && Invariant(s) && StoredBalance(s, 0, 0) == P - 1 && BalanceOf(s, 0, 0) == 0
            && Supply(s, 0) == P - 1 && Supply(r, 0) == 0 && !Congruent(Supply(r, 0), Supply(s, 0))
  {
    hide Invariant, Withdrawn, SupplyBelow, StoredBalance, EmptyAccount, Pow2, BalanceOf, IsKeyed, Congruent, Supply;
    var empty := EmptyLedger(levels);
    NothingThere(levels);
    WithdrawKeeps(empty, 0, 0, 1);
    WithdrawnBalance(empty, 0, 0, 1);
    var s := Withdrawn(empty, 0, 0, 1);
    WithdrawnBalance(s, 0, 0, 0);
    KeylessReads(s);
    WithdrawSupply(s, 0, 0, 0, 0);
  }

  lemma KeylessReads(s: Ledger)
    requires !IsKeyed(s, 0)
    ensures BalanceOf(s, 0, 0) == 0
  {
  }

  lemma NothingThere(levels: Levels)
    requires levels.balance < 32 && levels.order < 32 && levels.account < 32
    ensures var empty := EmptyLedger(levels);
            && Invariant(empty) && 0 < |empty.leaves| && 0 < Pow2(levels.balance) && Supply(empty, 0) == 0
            && !IsKeyed(empty, 0) && BalanceOf(empty, 0, 0) == 0 && StoredBalance(empty, 0, 0) == 0
  {
    EmptyLedgerHolds(levels);
    EmptySupplyBelow(levels, 0, |EmptyLedger(levels).leaves|);
    assert Pow2(levels.balance) > 0 && Pow2(levels.account) > 0;
    hide Invariant, SupplyBelow, Pow2, Root, Order.Hash;
  }

  /** The balance and the supply a withdrawal leaves. */
  lemma WithdrawnBalance(s: Ledger, a: nat, t: nat, amount: Fr)
    requires Invariant(s) && a < |s.leaves| && t < Pow2(s.levels.balance)
    ensures var r := Withdrawn(s, a, t, amount);
            && StoredBalance(r, a, t) == Sub(BalanceOf(s, a, t), amount) && r.levels == s.levels
            && |r.leaves| == |s.leaves|
            && (IsKeyed(r, a) <==> IsKeyed(s, a))
            && Supply(r, t) == Supply(s, t) + StoredBalance(r, a, t) - StoredBalance(s, a, t)
  {
    hide Invariant, Supply, AccountState.Hash, Root, EmptyAccount, BalanceOf, Sub;
    var b := BalanceOf(s, a, t);
    WithBalanceSupply(s, a, t, Sub(b, amount), t);
    WithBalanceKeeps(s, a, t, Sub(b, amount));
    SameBalances(WithBalance(s, a, t, Sub(b, amount)), Withdrawn(s, a, t, amount), a, t);
  }

  // -------------------------------------------------- two accounts at a time

  /** Two different accounts replaced. */
  lemma TwoStoresSupply(s: Ledger, a: nat, accountA: Account, b: nat, accountB: Account, token: nat)
    requires a < |s.leaves| && b < |s.leaves| && a != b
    ensures var r := Store(Store(s, a, accountA), b, accountB);
            && Supply(r, token) == Supply(s, token) + StoredBalance(r, a, token) - StoredBalance(s, a, token)
                                                    + StoredBalance(r, b, token) - StoredBalance(s, b, token)
            && At(r, a) == accountA && At(r, b) == accountB
  {
    hide AccountState.Hash, EmptyAccount;
    var half := Store(s, a, accountA);
    var r := Store(half, b, accountB);
    StoreSupply(s, half, a, token);
    StoreSupply(half, r, b, token);
    hide Supply;
  }

  lemma {:induction false} PairWithinSupply(s: Ledger, t: nat, a: nat, b: nat, n: nat)
    requires a < n && b < n && a != b
    ensures StoredBalance(s, a, t) + StoredBalance(s, b, t) <= SupplyBelow(s, t, n)
  {
    hide StoredBalance;
    if a < n - 1 && b < n - 1 {
      PairWithinSupply(s, t, a, b, n - 1);
    } else {
      OneWithinSupply(s, t, if a == n - 1 then b else a, n - 1);
    }
  }

  lemma {:induction false} OneWithinSupply(s: Ledger, t: nat, a: nat, n: nat)
    requires a < n
    ensures StoredBalance(s, a, t) <= SupplyBelow(s, t, n)
  {
    hide StoredBalance;
    if a < n - 1 {
      OneWithinSupply(s, t, a, n - 1);
    }
  }

  /**
   * Two entries of a sum: one pays what it holds at least, the other, `stored`, becomes what was `read` of it plus the
   * amount.
   */
  lemma Paid(before: nat, after: int, payer: Fr, read: Fr, stored: Fr, amount: Fr)
    requires after == before + Sub(payer, amount) - payer + Add(read, amount) - stored
    requires amount <= payer
    ensures Congruent(after, before) <==> read == stored
    ensures after == before <==> read == stored && stored + amount < P
    ensures read == stored && payer + stored <= before < P ==> after == before
  {
    assert Sub(payer, amount) == payer - amount;
    hide Add, Sub, Congruent;
    Credited(before - amount, after, read, stored, amount);
  }

  /** The sender and the recipient of a transfer afterwards. */
  lemma TransferredBalances(s: Ledger, from: nat, to: nat, t: nat, amount: Fr, token: nat)
    requires Invariant(s) && from < |s.leaves| && to < |s.leaves| && from != to && t < Pow2(s.levels.balance)
    ensures var r := Transferred(s, from, to, t, amount);
            && Supply(r, token) == Supply(s, token) + StoredBalance(r, from, token) - StoredBalance(s, from, token)
                                                    + StoredBalance(r, to, token) - StoredBalance(s, to, token)
            && StoredBalance(r, from, token) == (if token == t then Sub(BalanceOf(s, from, t), amount)
                                                 else StoredBalance(s, from, token))
            && StoredBalance(r, to, token) == (if token == t then Add(BalanceOf(s, to, t), amount)
                                               else StoredBalance(s, to, token))
  {
    Reads(s, from);
    Reads(s, to);
    hide Invariant, Synced, Slotted, Root, AccountState.Hash, EmptyAccount, SupplyBelow, Pow2, BalanceOf;
    hide ApplyUpdates, Add, Sub;
    var us := TransferUpdates(s, from, to, t, amount);
    var accountA, accountB := Updated(s.levels, At(s, from), us[0]), Updated(s.levels, At(s, to), us[1]);
    OneWrite(At(s, from).balances, t, Sub(BalanceOf(s, from, t), amount));
    OneWrite(At(s, to).balances, t, Add(BalanceOf(s, to, t), amount));
    TwoStoresSupply(s, from, accountA, to, accountB, token);
    hide Supply, Rehashed;
    assert accountA.balances == At(s, from).balances[t := Sub(BalanceOf(s, from, t), amount)] by {
      RehashedBalances(s.levels, WriteOrderLeaves(WriteBalances(At(s, from), us[0]), us[0]), us[0]);
    }
    assert accountB.balances == At(s, to).balances[t := Add(BalanceOf(s, to, t), amount)] by {
      RehashedBalances(s.levels, WriteOrderLeaves(WriteBalances(At(s, to), us[1]), us[1]), us[1]);
    }
  }

  lemma RehashedBalances(levels: Levels, account: Account, u: AccountUpdates)
    ensures Rehashed(levels, account, u).balances == account.balances
  {
    hide Root;
  }

  /**
   * What a transfer moves out of one account moves into the other, exactly when the recipient's
   * balance reads as it is stored; a recipient with a record but no key loses what it had.
   */
  lemma TransferSupply(s: Ledger, from: nat, to: nat, t: nat, amount: Fr, token: nat)
    requires Invariant(s) && from < |s.leaves| && to < |s.leaves| && from != to && t < Pow2(s.levels.balance)
    requires TransferCheck(s, from, to, t, amount) == None
    ensures var r := Transferred(s, from, to, t, amount);
            && (token != t ==> Supply(r, token) == Supply(s, token))
            && (Congruent(Supply(r, t), Supply(s, t)) <==> BalanceOf(s, to, t) == StoredBalance(s, to, t))
            && (Supply(r, t) == Supply(s, t) <==>
                  BalanceOf(s, to, t) == StoredBalance(s, to, t) && StoredBalance(s, to, t) + amount < P)
            && (BalanceOf(s, to, t) == StoredBalance(s, to, t) && Supply(s, t) < P ==> Supply(r, t) == Supply(s, t))
  {
    hide Invariant, StoredBalance, SupplyBelow, Pow2, Transferred, Congruent, Add, Sub, IsKeyed, BalanceOf;
    ReadIsStored(s, from, t);
    PairWithinSupply(s, t, from, to, |s.leaves|);
    TransferredBalances(s, from, to, t, amount, token);
    TransferredBalances(s, from, to, t, amount, t);
    Paid(Supply(s, t), Supply(Transferred(s, from, to, t, amount), t), StoredBalance(s, from, t),
         BalanceOf(s, to, t), StoredBalance(s, to, t), amount);
  }

  // ----------------------------------------------------------------- trades

  lemma SupplySame(s: Ledger, r: Ledger, t: nat)
    requires |s.leaves| == |r.leaves| && forall b: nat :: StoredBalance(r, b, t) == StoredBalance(s, b, t)
    ensures Supply(r, t) == Supply(s, t)
  {
    hide StoredBalance;
    SupplyElsewhere(s, r, t, 0, |s.leaves|);
  }

  /** Until the batch runs, a trade has changed nothing but cursors, mapped ids and order slots. */
  lemma MatchedRecords(s: Ledger, tx: SpotTradeTx)
    requires MatchOrders(s, tx).Ok?
    ensures var m := MatchOrders(s, tx).value;
            && m.s.levels == s.levels && m.s.leaves == s.leaves
            && OrdersWritten(m, tx).levels == s.levels && OrdersWritten(m, tx).leaves == s.leaves
            && forall b: nat :: At(m.s, b) == At(s, b).(cursor := At(m.s, b).cursor)
                             && At(OrdersWritten(m, tx), b) == At(m.s, b).(orders := At(OrdersWritten(m, tx), b).orders)
  {
    hide Placement, PickOrder, EmptyAccount, MatchOrders, Order.TradeWith;
    MatchedPlacements(s, tx);
    var m := MatchOrders(s, tx).value;
    PlacementFrame(s, tx.account1, m.order1.orderId);
    PlacementFrame(Placement(s, tx.account1, m.order1.orderId).value.2, tx.account2, m.order2.orderId);
  }

  /** One side of a trade: two balances written, and the rest of the record somehow changed. */
  lemma SideBalances(s: Ledger, r: Ledger, a: nat, account: Account, u: AccountUpdates, t: nat, x: Fr, t': nat, y: Fr,
                     token: nat)
    requires t < |At(s, a).balances| && t' < |At(s, a).balances|
    requires account.balances == At(s, a).balances && At(r, a) == Updated(s.levels, account, u)
    requires u.balanceUpdates == [(t, x), (t', y)]
    ensures StoredBalance(r, a, token)
         == if token == t' then y else if token == t then x else StoredBalance(s, a, token)
  {
    hide EmptyAccount, ApplyUpdates, Rehashed;
    TwoWrites(account.balances, t, x, t', y);
    RehashedBalances(s.levels, WriteOrderLeaves(WriteBalances(account, u), u), u);
  }

  lemma WrittenSupply(s: Ledger, tx: SpotTradeTx, token: nat)
    requires MatchOrders(s, tx).Ok?
    ensures var w := OrdersWritten(MatchOrders(s, tx).value, tx);
            && Supply(w, token) == Supply(s, token) && |w.leaves| == |s.leaves|
            && forall b: nat :: StoredBalance(w, b, token) == StoredBalance(s, b, token)
  {
    MatchedRecords(s, tx);
    hide MatchOrders, Supply, At;
    SupplySame(s, OrdersWritten(MatchOrders(s, tx).value, tx), token);
  }

  lemma RecordInRange(s: Ledger, a: nat)
    requires Invariant(s) && a in s.accounts
    ensures a < |s.leaves|
  {
    hide Pow2, Synced, Slotted, Mapped;
    Bounded(s, a);
  }

  lemma TradedSupply(s: Ledger, tx: SpotTradeTx, token: nat)
    requires Invariant(s) && Traded(s, tx).Ok?
    ensures var r, m, a1, a2 := Traded(s, tx).value, MatchOrders(s, tx).value, tx.account1, tx.account2;
            var w, us := OrdersWritten(m, tx), TradeUpdates(m, tx);
            && a1 != a2 && a1 in s.accounts && a2 in s.accounts
            && Supply(r, token) == Supply(s, token) + StoredBalance(r, a1, token) - StoredBalance(s, a1, token)
                                                    + StoredBalance(r, a2, token) - StoredBalance(s, a2, token)
            && At(r, a1) == Updated(s.levels, At(w, a1), us[0]) && At(r, a2) == Updated(s.levels, At(w, a2), us[1])
            && At(w, a1).balances == At(s, a1).balances && At(w, a2).balances == At(s, a2).balances
  {
    hide MatchOrders, Invariant, Root, AccountState.Hash, EmptyAccount, SupplyBelow, Supply, StoredBalance, Pow2;
    hide Compressible, Covered, Updated, BalanceOf, Add, Sub, OrdersWritten, IsKeyed, PickOrder, Placement;
    TradedMatches(s, tx);
    var m := MatchOrders(s, tx).value;
    var a1, a2 := tx.account1, tx.account2;
    MatchedPlacements(s, tx);
    KeyedExists(s, a1);
    KeyedExists(s, a2);
    RecordInRange(s, a1);
    RecordInRange(s, a2);
    MatchedRecords(s, tx);
    WrittenSupply(s, tx, token);
    var us, w := TradeUpdates(m, tx), OrdersWritten(m, tx);
    TwoStoresSupply(w, a1, Updated(s.levels, At(w, a1), us[0]), a2, Updated(s.levels, At(w, a2), us[1]), token);
  }

  /** The balances of both sides after a trade; with one token on both sides the later write wins. */
  lemma TradedBalances(s: Ledger, tx: SpotTradeTx, token: nat)
    requires Invariant(s) && Traded(s, tx).Ok?
    requires tx.token1to2 < Pow2(s.levels.balance) && tx.token2to1 < Pow2(s.levels.balance)
    ensures var r, a1, a2 := Traded(s, tx).value, tx.account1, tx.account2;
            && StoredBalance(r, a1, token) == (
                 if token == tx.token2to1 then Add(StoredBalance(s, a1, token), tx.amount2to1)
                 else if token == tx.token1to2 then Sub(StoredBalance(s, a1, token), tx.amount1to2)
                 else StoredBalance(s, a1, token))
            && StoredBalance(r, a2, token) == (
                 if token == tx.token2to1 then Sub(StoredBalance(s, a2, token), tx.amount2to1)
                 else if token == tx.token1to2 then Add(StoredBalance(s, a2, token), tx.amount1to2)
                 else StoredBalance(s, a2, token))
  {
    TradedSupply(s, tx, token);
    var m := MatchOrders(s, tx).value;
    var a1, a2 := tx.account1, tx.account2;
    MatchedPlacements(s, tx);
    Bounded(s, a1);
    Bounded(s, a2);
    Reads(s, a1);
    Reads(s, a2);
    TradeReads(s, tx);
    hide MatchOrders, Traded, Invariant, Synced, Slotted, EmptyAccount, Pow2, Updated, BalanceOf, Add, Sub;
    hide StoredBalance, OrdersWritten;
    var us, w, r := TradeUpdates(m, tx), OrdersWritten(m, tx), Traded(s, tx).value;
    SideBalances(s, r, a1, At(w, a1), us[0], tx.token1to2, us[0].balanceUpdates[0].1, tx.token2to1,
                 us[0].balanceUpdates[1].1, token);
    SideBalances(s, r, a2, At(w, a2), us[1], tx.token1to2, us[1].balanceUpdates[0].1, tx.token2to1,
                 us[1].balanceUpdates[1].1, token);
  }

  /** The balances a trade reads, after both orders have their slots, are those stored before it. */
  lemma TradeReads(s: Ledger, tx: SpotTradeTx)
    requires MatchOrders(s, tx).Ok?
    ensures var m := MatchOrders(s, tx).value;
            && (forall t: nat :: BalanceOf(m.s, tx.account1, t) == StoredBalance(s, tx.account1, t))
            && (forall t: nat :: BalanceOf(m.s, tx.account2, t) == StoredBalance(s, tx.account2, t))
  {
    MatchedRecords(s, tx);
    MatchedPlacements(s, tx);
    hide MatchOrders, EmptyAccount, OrdersWritten, PickOrder, Placement;
  }

  lemma TradeCovers(s: Ledger, tx: SpotTradeTx)
    requires Traded(s, tx).Ok?
    ensures StoredBalance(s, tx.account1, tx.token1to2) > tx.amount1to2
    ensures StoredBalance(s, tx.account2, tx.token2to1) > tx.amount2to1
  {
    TradeReads(s, tx);
    hide MatchOrders, BalanceOf, StoredBalance, Updated, OrdersWritten;
  }

  /** The balance of `token` that a trade credits grows within the field. */
  predicate CreditFits(s: Ledger, tx: SpotTradeTx, token: nat) {
    if token == tx.token2to1 then StoredBalance(s, tx.account1, token) + tx.amount2to1 < P
    else if token == tx.token1to2 then StoredBalance(s, tx.account2, token) + tx.amount1to2 < P
    else true
  }

  /** Trades keep every supply, even one whose two tokens are the same. */
  lemma TradeSupply(s: Ledger, tx: SpotTradeTx, token: nat)
    requires Invariant(s) && Traded(s, tx).Ok?
    requires tx.token1to2 < Pow2(s.levels.balance) && tx.token2to1 < Pow2(s.levels.balance)
    ensures var r := Traded(s, tx).value;
            && Congruent(Supply(r, token), Supply(s, token))
            && (Supply(r, token) == Supply(s, token) <==> CreditFits(s, tx, token))
            && (Supply(s, token) < P ==> Supply(r, token) == Supply(s, token))
  {
    var a1, a2 := tx.account1, tx.account2;
    TradedBalances(s, tx, token);
    TradedSupply(s, tx, token);
    Bounded(s, a1);
    Bounded(s, a2);
    PairWithinSupply(s, token, a1, a2, |s.leaves|);
    assert SupplyBelow(s, token, |s.leaves|) == Supply(s, token);
    TradeCovers(s, tx);
    hide Traded, MatchOrders, Invariant, StoredBalance, Supply, SupplyBelow, Pow2, IsKeyed, BalanceOf, Updated;
    hide Congruent, Add, Sub;
    var x, y, r := StoredBalance(s, a1, token), StoredBalance(s, a2, token), Traded(s, tx).value;
    CongruentLaws(Supply(s, token), 0, 0);
    if token == tx.token2to1 {
      Paid(Supply(s, token), Supply(r, token), y, x, x, tx.amount2to1);
    } else if token == tx.token1to2 {
      Paid(Supply(s, token), Supply(r, token), x, y, y, tx.amount1to2);
    }
  }
}
