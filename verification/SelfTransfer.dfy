/** A transfer from an account to itself: nothing forbids it, and the two tree tasks race for one leaf. */
module SelfTransfer {
  import opened Field
  import opened MerkleSpec
  import opened Records
  import opened Ledger
  import opened Batch
  import opened Transactions
  import opened Invariants
  import opened Conservation

  /** The balance task that runs last: 0 debits, 2 credits, 1 stands for none. */
  function LastBalanceTask(schedule: seq<nat>): (task: nat)
    ensures task == 1 || (task % 2 == 0 && task in schedule)
    ensures task == 1 ==> forall k :: k in schedule ==> k % 2 == 1
  {
    assert schedule != [] ==> schedule == schedule[..|schedule| - 1] + [schedule[|schedule| - 1]];
    if schedule == [] then 1
    else if schedule[|schedule| - 1] % 2 == 0 then schedule[|schedule| - 1]
    else LastBalanceTask(schedule[..|schedule| - 1])
  }

  /** The balance a schedule leaves behind. */
  function RacedBalance(s: Ledger, a: nat, t: nat, amount: Fr, schedule: seq<nat>): Fr {
    var last := LastBalanceTask(schedule);
    if last == 0 then Sub(BalanceOf(s, a, t), amount)
    else if last == 2 then Add(BalanceOf(s, a, t), amount)
    else StoredBalance(s, a, t)
  }

  lemma NoWrites(row: seq<Fr>)
    ensures ApplyUpdates(row, []) == row
  {
  }

  lemma RacingStep(s: Ledger, a: nat, t: nat, amount: Fr, schedule: seq<nat>, account: Account)
    requires t < |account.balances| && schedule != [] && schedule[|schedule| - 1] < 4
    ensures var us, task := TransferUpdates(s, a, a, t, amount), schedule[|schedule| - 1];
            var before := WriteBalance(account, t, RacedBalance(s, a, t, amount, schedule[..|schedule| - 1]));
            RunTask(before, us[task / 2], task) == WriteBalance(account, t, RacedBalance(s, a, t, amount, schedule))
  {
    hide Add, Sub, BalanceOf, EmptyAccount, ApplyUpdates;
    var us, task := TransferUpdates(s, a, a, t, amount), schedule[|schedule| - 1];
    var before := WriteBalance(account, t, RacedBalance(s, a, t, amount, schedule[..|schedule| - 1]));
    NoWrites(before.orderLeaves);
    if task % 2 == 0 {
      OneWrite(before.balances, t, us[task / 2].balanceUpdates[0].1);
    }
  }

  /** Whatever the schedule, only the one leaf is written. */
  lemma {:induction false} RacingTasks(s: Ledger, a: nat, t: nat, amount: Fr, schedule: seq<nat>)
    requires Shape(s) && a in s.accounts && t < |s.accounts[a].balances|
    requires TasksExist(TransferUpdates(s, a, a, t, amount), schedule)
    ensures Known(s, TransferUpdates(s, a, a, t, amount))
    ensures RunTasks(s, TransferUpdates(s, a, a, t, amount), schedule) ==
            Put(s, a, WriteBalance(At(s, a), t, RacedBalance(s, a, t, amount, schedule)))
    decreases |schedule|
  {
    hide Pow2, Root, AccountState.Hash, Add, Sub, BalanceOf, EmptyAccount, Sized;
    var us := TransferUpdates(s, a, a, t, amount);
    if schedule == [] {
      assert s.accounts[a := s.accounts[a]] == s.accounts;
      assert At(s, a).balances[t := At(s, a).balances[t]] == At(s, a).balances;
    } else {
      var n := |schedule| - 1;
      RacingTasks(s, a, t, amount, schedule[..n]);
      RunTasksStep(s, us, schedule, n);
      assert schedule[..n + 1] == schedule;
      RacingStep(s, a, t, amount, schedule, At(s, a));
      hide RunTasks, RunTask, WriteBalance, RacedBalance;
      var account := WriteBalance(At(s, a), t, RacedBalance(s, a, t, amount, schedule));
      assert RunTasks(s, us, schedule[..n]).accounts[a := account] == s.accounts[a := account];
    }
  }

  /** Every schedule of the two updates runs both balance tasks, so one of them is last. */
  lemma SomeTaskIsLast(us: seq<AccountUpdates>, schedule: seq<nat>)
    requires |us| == 2 && IsSchedule(us, schedule)
    ensures LastBalanceTask(schedule) in {0, 2}
  {
    assert 0 in schedule;
    assert LastBalanceTask(schedule) < 4;
  }

  /**
   * Two updates of one account: the second phase refreshes its record twice, and the second digest is the final one.
   */
  lemma SecondDigest(s: Ledger, u1: AccountUpdates, u2: AccountUpdates)
    requires Known(s, [u1, u2]) && u1.accountId == u2.accountId
    ensures var a := u1.accountId;
            var digests := Digests(s, [u1, u2]);
            && At(Rehash(s, [u1, u2]), a) == Rehashed(s.levels, Rehashed(s.levels, At(s, a), u1), u2)
            && digests[1] == (a, At(Rehash(s, [u1, u2]), a).state.Hash())
  {
    hide AccountState.Hash, EmptyAccount, Rehashed;
    var us := [u1, u2];
    assert us[..0] == [] && us[..1] == [u1] && us[..2] == us;
    RehashStep(s, us, 0);
    RehashStep(s, us, 1);
  }

  lemma RehashTwice(s: Ledger, u1: AccountUpdates, u2: AccountUpdates)
    requires Known(s, [u1, u2]) && u1.accountId == u2.accountId
    ensures var a := u1.accountId;
            Rehash(s, [u1, u2]) == Put(s, a, Rehashed(s.levels, Rehashed(s.levels, At(s, a), u1), u2))
  {
    hide AccountState.Hash, EmptyAccount, Rehashed;
    var us, a := [u1, u2], u1.accountId;
    assert us[..0] == [] && us[..1] == [u1] && us[..2] == us;
    RehashStep(s, us, 0);
    RehashStep(s, us, 1);
    var once := Rehashed(s.levels, At(s, a), u1);
    assert s.accounts[a := once][a := Rehashed(s.levels, once, u2)] == s.accounts[a := Rehashed(s.levels, once, u2)];
  }

  lemma LeavesTwice(row: seq<Fr>, us: seq<(nat, Fr)>, a: nat)
    requires |us| == 2 && us[0].0 == us[1].0 == a && a < |row|
    ensures ApplyUpdates(row, us) == row[a := us[1].1]
  {
    assert us == [(a, us[0].1), (a, us[1].1)];
    TwoWrites(row, a, us[0].1, a, us[1].1);
  }

  /** Both updates of one account through the two phases: one record stored. */
  lemma ParallelOnce(s: Ledger, u1: AccountUpdates, u2: AccountUpdates, schedule: seq<nat>, account: Account)
    requires Known(s, [u1, u2]) && u1.accountId == u2.accountId && TasksExist([u1, u2], schedule)
    requires RunTasks(s, [u1, u2], schedule) == Put(s, u1.accountId, account)
    ensures Parallel(s, [u1, u2], schedule) == Store(s, u1.accountId,
                                                     Rehashed(s.levels, Rehashed(s.levels, account, u1), u2))
  {
    var us, a, written := [u1, u2], u1.accountId, Put(s, u1.accountId, account);
    SecondDigest(written, u1, u2);
    RehashTwice(written, u1, u2);
    LeavesTwice(s.leaves, Digests(written, us), a);
    hide Rehashed, AccountState.Hash, RunTasks, Rehash, Digests, ApplyUpdates, TasksExist, EmptyAccount;
    var final := Rehashed(s.levels, Rehashed(s.levels, account, u1), u2);
    assert s.accounts[a := account][a := final] == s.accounts[a := final];
  }

  /** A transfer to oneself stores one record: the raced balance, the nonce raised once, both roots refreshed. */
  lemma SelfTransferIsStore(s: Ledger, a: nat, t: nat, amount: Fr, schedule: seq<nat>)
    requires Invariant(s) && a in s.accounts && t < Pow2(s.levels.balance)
    requires TasksExist(TransferUpdates(s, a, a, t, amount), schedule)
    ensures Known(s, TransferUpdates(s, a, a, t, amount))
    ensures var r := Parallel(s, TransferUpdates(s, a, a, t, amount), schedule);
            var raced := WriteBalance(At(s, a), t, RacedBalance(s, a, t, amount, schedule));
            r == Store(s, a, Refreshed(s.levels, WriteNonce(raced, Add(At(s, a).state.nonce, 1))))
  {
    var us := TransferUpdates(s, a, a, t, amount);
    var raced := WriteBalance(At(s, a), t, RacedBalance(s, a, t, amount, schedule));
    Reads(s, a);
    Bounded(s, a);
    RacingTasks(s, a, t, amount, schedule);
    assert us == [us[0], us[1]];
    hide Invariant, Synced, Slotted, Pow2, Root, AccountState.Hash, EmptyAccount, RunTasks, Parallel, RacedBalance;
    hide Sized, BalanceOf, Add, Sub, TasksExist, WriteBalance;
    ParallelOnce(s, us[0], us[1], schedule, raced);
  }

  /** After it the balance is whatever the later of the two tree tasks wrote. */
  lemma SelfTransferBalances(s: Ledger, a: nat, t: nat, amount: Fr, schedule: seq<nat>)
    requires Invariant(s) && a in s.accounts && t < Pow2(s.levels.balance)
    requires TasksExist(TransferUpdates(s, a, a, t, amount), schedule)
    ensures Known(s, TransferUpdates(s, a, a, t, amount))
    ensures var r := Parallel(s, TransferUpdates(s, a, a, t, amount), schedule);
            && |r.leaves| == |s.leaves|
            && (forall b, token: nat :: b != a || token != t ==>
                  StoredBalance(r, b, token) == StoredBalance(s, b, token))
            && StoredBalance(r, a, t) == RacedBalance(s, a, t, amount, schedule)
  {
    Reads(s, a);
    Bounded(s, a);
    SelfTransferIsStore(s, a, t, amount, schedule);
    hide Invariant, Synced, Slotted, Pow2, Root, AccountState.Hash, EmptyAccount, Parallel, RacedBalance;
    hide TransferUpdates, TasksExist, StoredBalance, At;
    OneBalanceStored(s, a, t, RacedBalance(s, a, t, amount, schedule), Add(At(s, a).state.nonce, 1));
  }

  lemma OneBalanceStored(s: Ledger, a: nat, t: nat, value: Fr, nonce: Fr)
    requires a < |s.leaves| && t < |At(s, a).balances|
    ensures var r := Store(s, a, Refreshed(s.levels, WriteNonce(WriteBalance(At(s, a), t, value), nonce)));
            && |r.leaves| == |s.leaves| && StoredBalance(r, a, t) == value
            && forall b, token: nat :: b != a || token != t ==> StoredBalance(r, b, token) == StoredBalance(s, b, token)
  {
    hide Root, AccountState.Hash, EmptyAccount;
  }

  /** The record has its nonce raised once, and the account leaf is its digest. */
  lemma SelfTransferRecord(s: Ledger, a: nat, t: nat, amount: Fr, schedule: seq<nat>)
    requires Invariant(s) && a in s.accounts && t < Pow2(s.levels.balance)
    requires TasksExist(TransferUpdates(s, a, a, t, amount), schedule)
    ensures Known(s, TransferUpdates(s, a, a, t, amount))
    ensures var r := Parallel(s, TransferUpdates(s, a, a, t, amount), schedule);
            && At(r, a).state.nonce == Add(At(s, a).state.nonce, 1)
            && r.levels == s.levels && |r.leaves| == |s.leaves| && r.leaves[a] == At(r, a).state.Hash()
  {
    Bounded(s, a);
    SelfTransferIsStore(s, a, t, amount, schedule);
    hide Invariant, Pow2, Root, AccountState.Hash, EmptyAccount, Parallel, RacedBalance, TasksExist, TransferUpdates;
  }

  lemma SelfTransferKeeps(s: Ledger, a: nat, t: nat, amount: Fr, schedule: seq<nat>)
    requires Invariant(s) && a in s.accounts && t < Pow2(s.levels.balance)
    requires TasksExist(TransferUpdates(s, a, a, t, amount), schedule)
    ensures Known(s, TransferUpdates(s, a, a, t, amount))
    ensures Invariant(Parallel(s, TransferUpdates(s, a, a, t, amount), schedule))
  {
    hide Invariant, Pow2, Root, AccountState.Hash, Order.Hash, EmptyAccount, Parallel, RacedBalance, TasksExist;
    hide TransferUpdates;
    RecordInRange(s, a);
    SelfTransferIsStore(s, a, t, amount, schedule);
    var raced := WriteBalance(At(s, a), t, RacedBalance(s, a, t, amount, schedule));
    RecordKeeps(s, a, Refreshed(s.levels, WriteNonce(raced, Add(At(s, a).state.nonce, 1))));
  }

  /** Such a transfer conserves the supply exactly when it moves nothing; other tokens it does not touch. */
  lemma SelfTransferSupply(s: Ledger, a: nat, t: nat, amount: Fr, schedule: seq<nat>)
    requires Invariant(s) && IsKeyed(s, a) && t < Pow2(s.levels.balance)
    requires IsSchedule(TransferUpdates(s, a, a, t, amount), schedule)
    ensures Known(s, TransferUpdates(s, a, a, t, amount))
    ensures var r := Parallel(s, TransferUpdates(s, a, a, t, amount), schedule);
            && (Congruent(Supply(r, t), Supply(s, t)) <==> amount == 0)
            && (Supply(r, t) == Supply(s, t) <==> amount == 0)
            && forall token: nat :: token != t ==> Supply(r, token) == Supply(s, token)
  {
    ScheduleFacts(TransferUpdates(s, a, a, t, amount), schedule);
    hide *;
    KeyedExists(s, a);
    SelfTransferBalances(s, a, t, amount, schedule);
    LastTaskBalance(s, a, t, amount, schedule);
    var r := Parallel(s, TransferUpdates(s, a, a, t, amount), schedule);
    RecordInRange(s, a);
    OneBalanceSupply(s, r, a, t);
    Shifted(Supply(s, t), Supply(r, t), StoredBalance(s, a, t), amount);
  }

  lemma ScheduleFacts(us: seq<AccountUpdates>, schedule: seq<nat>)
    requires IsSchedule(us, schedule)
    ensures TasksExist(us, schedule)
  {
  }

  /** After a complete schedule the balance is debited or credited. */
  lemma LastTaskBalance(s: Ledger, a: nat, t: nat, amount: Fr, schedule: seq<nat>)
    requires IsKeyed(s, a) && IsSchedule(TransferUpdates(s, a, a, t, amount), schedule)
    ensures var raced, x := RacedBalance(s, a, t, amount, schedule), StoredBalance(s, a, t);
            raced == Sub(x, amount) || raced == Add(x, amount)
  {
    hide IsSchedule, StoredBalance, Add, Sub, IsKeyed, LastBalanceTask;
    SomeTaskIsLast(TransferUpdates(s, a, a, t, amount), schedule);
    ReadIsStored(s, a, t);
  }

  lemma OneBalanceSupply(s: Ledger, r: Ledger, a: nat, t: nat)
    requires |r.leaves| == |s.leaves| && a < |s.leaves|
    requires forall b, token: nat :: b != a || token != t ==> StoredBalance(r, b, token) == StoredBalance(s, b, token)
    ensures Supply(r, t) - Supply(s, t) == StoredBalance(r, a, t) - StoredBalance(s, a, t)
    ensures forall token: nat :: token != t ==> Supply(r, token) == Supply(s, token)
  {
    hide StoredBalance, SupplyBelow;
    SupplyElsewhere(s, r, t, a, |s.leaves|);
    forall token: nat | token != t
      ensures SupplyBelow(r, token, |s.leaves|) == SupplyBelow(s, token, |s.leaves|)
    {
      SupplyElsewhere(s, r, token, a, |s.leaves|);
    }
  }

  lemma Shifted(before: int, after: int, x: Fr, amount: Fr)
    requires after - before == Sub(x, amount) - x || after - before == Add(x, amount) - x
    ensures Congruent(after, before) <==> amount == 0
    ensures after == before <==> amount == 0
  {
  }

  /** The field order is odd. */
  lemma CreditIsNotDebit(x: Fr, amount: Fr)
    requires amount != 0
    ensures Add(x, amount) != Sub(x, amount)
  {
    assert P % 2 == 1;
  }

  lemma BothOrders(us: seq<AccountUpdates>)
    requires |us| == 2
    ensures IsSchedule(us, [0, 1, 2, 3]) && LastBalanceTask([0, 1, 2, 3]) == 2
    ensures IsSchedule(us, [2, 3, 0, 1]) && LastBalanceTask([2, 3, 0, 1]) == 0
  {
    assert [0, 1, 2, 3][..3] == [0, 1, 2] && [2, 3, 0, 1][..3] == [2, 3, 0];
  }

  /** Two schedules of one such transfer end in two different states: the credit alone survives, or the debit alone. */
  lemma SelfTransferRaces(s: Ledger, a: nat, t: nat, amount: Fr)
    requires Invariant(s) && IsKeyed(s, a) && t < Pow2(s.levels.balance) && amount != 0
    ensures var us, balance := TransferUpdates(s, a, a, t, amount), BalanceOf(s, a, t);
            && Known(s, us) && IsSchedule(us, [0, 1, 2, 3]) && IsSchedule(us, [2, 3, 0, 1])
            && var credited, debited := Parallel(s, us, [0, 1, 2, 3]), Parallel(s, us, [2, 3, 0, 1]);
            && StoredBalance(credited, a, t) == Add(balance, amount)
            && StoredBalance(debited, a, t) == Sub(balance, amount)
            && credited != debited
  {
    var us := TransferUpdates(s, a, a, t, amount);
    assert |us| == 2;
    KeyedExists(s, a);
    BothOrders(us);
    CreditIsNotDebit(BalanceOf(s, a, t), amount);
    assert TasksExist(us, [0, 1, 2, 3]) && TasksExist(us, [2, 3, 0, 1]);
    hide Invariant, BalanceOf, IsSchedule, LastBalanceTask, Add, Sub, TransferUpdates, StoredBalance, Parallel, IsKeyed;
    hide Pow2, TasksExist;
    SelfTransferBalances(s, a, t, amount, [0, 1, 2, 3]);
    SelfTransferBalances(s, a, t, amount, [2, 3, 0, 1]);
  }
}
