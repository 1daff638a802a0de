/** Batched account updates: the sequential branch, the parallel branch under any schedule, and when they agree. */
module Batch {
  import opened Field
  import opened Wrappers
  import opened MerkleSpec
  import opened Records
  import opened Ledger

  datatype AccountUpdates = AccountUpdates(
    accountId: nat,
    balanceUpdates: seq<(nat, Fr)>,
    orderUpdates: seq<(nat, Fr)>,
    newNonce: Option<Fr>)

  ghost predicate Known(s: Ledger, us: seq<AccountUpdates>) {
    forall i :: 0 <= i < |us| ==> us[i].accountId in s.accounts && us[i].accountId < |s.leaves|
  }

  /** Every index of an update lies inside its tree. */
  ghost predicate InRange(levels: Levels, u: AccountUpdates) {
    && (forall w :: w in u.balanceUpdates ==> w.0 < Pow2(levels.balance))
    && (forall w :: w in u.orderUpdates ==> w.0 < Pow2(levels.order))
  }

  ghost predicate DistinctAccounts(us: seq<AccountUpdates>) {
    forall i, j :: 0 <= i < j < |us| ==> us[i].accountId != us[j].accountId
  }

  ghost predicate SameAccounts(s: Ledger, r: Ledger) {
    r.accounts.Keys == s.accounts.Keys && |r.leaves| == |s.leaves| && r.levels == s.levels && r.positions == s.positions
  }

  // -------------------------------------------------------------- semantics

  function WriteBalances(account: Account, u: AccountUpdates): Account {
    account.(balances := ApplyUpdates(account.balances, u.balanceUpdates))
  }

  function WriteOrderLeaves(account: Account, u: AccountUpdates): Account {
    account.(orderLeaves := ApplyUpdates(account.orderLeaves, u.orderUpdates))
  }

  /** The new nonce, if any, and the new roots. */
  function Rehashed(levels: Levels, account: Account, u: AccountUpdates): Account {
    Refreshed(levels, if u.newNonce.Some? then WriteNonce(account, u.newNonce.value) else account)
  }

  function Updated(levels: Levels, account: Account, u: AccountUpdates): Account {
    Rehashed(levels, WriteOrderLeaves(WriteBalances(account, u), u), u)
  }

  /** The sequential branch: one account after the other, each flushed before the next. */
  function Sequential(s: Ledger, us: seq<AccountUpdates>): (r: Ledger)
    requires Known(s, us)
    ensures SameAccounts(s, r)
    decreases |us|
  {
    if us == [] then
      s
    else
      var before := Sequential(s, us[..|us| - 1]);
      var u := us[|us| - 1];
      Store(before, u.accountId, Updated(s.levels, before.accounts[u.accountId], u))
  }

  /** Task 2k writes the balance tree of update k, task 2k+1 its order tree. */
  function RunTask(account: Account, u: AccountUpdates, task: nat): Account {
    if task % 2 == 0 then WriteBalances(account, u) else WriteOrderLeaves(account, u)
  }

  ghost predicate TasksExist(us: seq<AccountUpdates>, schedule: seq<nat>) {
    forall i :: 0 <= i < |schedule| ==> schedule[i] < 2 * |us|
  }

  /** The tree tasks, each under its tree's lock, in the order they happen to be scheduled. */
  function RunTasks(s: Ledger, us: seq<AccountUpdates>, schedule: seq<nat>): (r: Ledger)
    requires Known(s, us) && TasksExist(us, schedule)
    ensures SameAccounts(s, r) && r.leaves == s.leaves
    decreases |schedule|
  {
    if schedule == [] then
      s
    else
      var before := RunTasks(s, us, schedule[..|schedule| - 1]);
      var task := schedule[|schedule| - 1];
      var u := us[task / 2];
      Put(before, u.accountId, RunTask(before.accounts[u.accountId], u, task))
  }

  /** The second phase: nonces and roots into the records. */
  function Rehash(s: Ledger, us: seq<AccountUpdates>): (r: Ledger)
    requires Known(s, us)
    ensures SameAccounts(s, r) && r.leaves == s.leaves
    decreases |us|
  {
    if us == [] then
      s
    else
      var before := Rehash(s, us[..|us| - 1]);
      var u := us[|us| - 1];
      Put(before, u.accountId, Rehashed(s.levels, before.accounts[u.accountId], u))
  }

  /** The digests the second phase collects on its way, one per update. */
  function Digests(s: Ledger, us: seq<AccountUpdates>): (digests: seq<(nat, Fr)>)
    requires Known(s, us)
    ensures |digests| == |us| && forall i :: 0 <= i < |us| ==> digests[i].0 == us[i].accountId
    decreases |us|
  {
    if us == [] then
      []
    else
      var id := us[|us| - 1].accountId;
      Digests(s, us[..|us| - 1]) + [(id, Rehash(s, us).accounts[id].state.Hash())]
  }

  function Parallel(s: Ledger, us: seq<AccountUpdates>, schedule: seq<nat>): (r: Ledger)
    requires Known(s, us) && TasksExist(us, schedule)
    ensures SameAccounts(s, r)
  {
    var written := RunTasks(s, us, schedule);
    Rehash(written, us).(leaves := ApplyUpdates(s.leaves, Digests(written, us)))
  }

  lemma RunTasksStep(s: Ledger, us: seq<AccountUpdates>, schedule: seq<nat>, n: nat)
    requires Known(s, us) && TasksExist(us, schedule) && n < |schedule|
    ensures var before, u := RunTasks(s, us, schedule[..n]), us[schedule[n] / 2];
            && u.accountId in before.accounts
            && RunTasks(s, us, schedule[..n + 1]) == Put(before, u.accountId,
                                                         RunTask(At(before, u.accountId), u, schedule[n]))
  {
    assert schedule[..n + 1][..n] == schedule[..n];
  }

  lemma RehashStep(s: Ledger, us: seq<AccountUpdates>, n: nat)
    requires Known(s, us) && n < |us|
    ensures Known(s, us[..n]) && Known(s, us[..n + 1])
    ensures var before, after, u := Rehash(s, us[..n]), Rehash(s, us[..n + 1]), us[n];
            && u.accountId in before.accounts
            && after == Put(before, u.accountId, Rehashed(s.levels, At(before, u.accountId), u))
            && Digests(s, us[..n + 1]) == Digests(s, us[..n]) + [(u.accountId, At(after, u.accountId).state.Hash())]
  {
    assert us[..n + 1][..n] == us[..n];
  }

  lemma SequentialStep(s: Ledger, us: seq<AccountUpdates>, n: nat)
    requires Known(s, us) && n < |us|
    ensures Known(s, us[..n]) && Known(s, us[..n + 1])
    ensures var before, u := Sequential(s, us[..n]), us[n];
            && u.accountId in before.accounts
            && Sequential(s, us[..n + 1]) == Store(before, u.accountId, Updated(s.levels, At(before, u.accountId), u))
  {
    assert us[..n + 1][..n] == us[..n];
  }

  /** Every task is scheduled exactly once. */
  ghost predicate IsSchedule(us: seq<AccountUpdates>, schedule: seq<nat>) {
    && TasksExist(us, schedule)
    && (forall t :: 0 <= t < 2 * |us| ==> t in schedule)
    && (forall i, j :: 0 <= i < j < |schedule| ==> schedule[i] != schedule[j])
  }

  /** A schedule of the four tasks of a batch of two. */
  ghost predicate PairSchedule(schedule: seq<nat>) {
    && (forall i :: 0 <= i < |schedule| ==> schedule[i] < 4)
    && 0 in schedule && 1 in schedule && 2 in schedule && 3 in schedule
    && (forall i, j :: 0 <= i < j < |schedule| ==> schedule[i] != schedule[j])
  }

  lemma PairIsSchedule(us: seq<AccountUpdates>, schedule: seq<nat>)
    requires |us| == 2 && PairSchedule(schedule)
    ensures IsSchedule(us, schedule) && TasksExist(us, schedule)
  {
  }

  // ------------------------------------------------------------ closed form

  /** The update meant for an account, or |us| when there is none. */
  function IndexOf(us: seq<AccountUpdates>, a: nat): (k: nat)
    ensures k <= |us|
    ensures k < |us| ==> us[k].accountId == a
    ensures k == |us| ==> forall i :: 0 <= i < |us| ==> us[i].accountId != a
  {
    if us == [] || us[0].accountId == a then 0 else 1 + IndexOf(us[1..], a)
  }

  /** What a batch with one update per account leaves at account `a`. */
  ghost function Final(s: Ledger, us: seq<AccountUpdates>, a: nat): Account {
    var k := IndexOf(us, a);
    if k < |us| then Updated(s.levels, At(s, a), us[k]) else At(s, a)
  }

  ghost predicate IsBatchResult(s: Ledger, us: seq<AccountUpdates>, r: Ledger) {
    && SameAccounts(s, r)
    && (forall a :: a in s.accounts ==> r.accounts[a] == Final(s, us, a))
    && (forall a :: 0 <= a < |s.leaves| ==>
          r.leaves[a] == if IndexOf(us, a) < |us| then Final(s, us, a).state.Hash() else s.leaves[a])
  }

  lemma IndexOfDistinct(us: seq<AccountUpdates>, k: nat)
    requires DistinctAccounts(us) && k < |us|
    ensures IndexOf(us, us[k].accountId) == k
  {
  }

  lemma {:induction false} SequentialResult(s: Ledger, us: seq<AccountUpdates>, n: nat, a: nat)
    requires Known(s, us) && DistinctAccounts(us) && n <= |us|
    ensures Known(s, us[..n])
    ensures var r := Sequential(s, us[..n]);
            && (a in s.accounts ==> r.accounts[a] == if IndexOf(us, a) < n then Final(s, us, a) else s.accounts[a])
            && (a < |s.leaves| ==>
                  r.leaves[a] == if IndexOf(us, a) < n then Final(s, us, a).state.Hash() else s.leaves[a])
  {
    hide Updated, EmptyAccount, AccountState.Hash;
    if n > 0 {
      SequentialResult(s, us, n - 1, a);
      SequentialResult(s, us, n - 1, us[n - 1].accountId);
      SequentialStep(s, us, n - 1);
      IndexOfDistinct(us, n - 1);
      hide Sequential;
    } else {
      assert us[..0] == [];
    }
  }

  // ---------------------------------------------------------- parallel side

  /** Account `a` after part of a schedule has run. */
  ghost function Partly(s: Ledger, us: seq<AccountUpdates>, schedule: seq<nat>, a: nat): Account {
    var k := IndexOf(us, a);
    var account := At(s, a);
    if k == |us| then
      account
    else
      account.(balances := if 2 * k in schedule then WriteBalances(account, us[k]).balances else account.balances,
               orderLeaves := if 2 * k + 1 in schedule then WriteOrderLeaves(account, us[k]).orderLeaves
                              else account.orderLeaves)
  }

  /** One more task touches the account it is meant for, and a tree of it that no earlier task touched. */
  lemma PartlyStep(s: Ledger, us: seq<AccountUpdates>, done: seq<nat>, task: nat, a: nat)
    requires task < 2 * |us| && task !in done
    ensures Partly(s, us, done + [task], a) ==
            if IndexOf(us, a) == task / 2 then RunTask(Partly(s, us, done, a), us[task / 2], task)
            else Partly(s, us, done, a)
  {
    var k := IndexOf(us, a);
    assert forall t :: t in done + [task] <==> t in done || t == task;
    if k == task / 2 {
      assert task == 2 * k || task == 2 * k + 1;
    } else {
      assert task != 2 * k && task != 2 * k + 1;
    }
  }

  lemma {:induction false} RunTasksResult(s: Ledger, us: seq<AccountUpdates>, schedule: seq<nat>, a: nat)
    requires Known(s, us) && DistinctAccounts(us)
    requires TasksExist(us, schedule)
    requires forall i, j :: 0 <= i < j < |schedule| ==> schedule[i] != schedule[j]
    requires a in s.accounts
    ensures RunTasks(s, us, schedule).accounts[a] == Partly(s, us, schedule, a)
    decreases |schedule|
  {
    if schedule != [] {
      var init, task := schedule[..|schedule| - 1], schedule[|schedule| - 1];
      assert schedule == init + [task];
      RunTasksResult(s, us, init, a);
      PartlyStep(s, us, init, task, a);
      IndexOfDistinct(us, task / 2);
    }
  }

  lemma NothingRehashed(s: Ledger, us: seq<AccountUpdates>)
    ensures Known(s, us[..0]) && Rehash(s, us[..0]) == s
  {
  }

  lemma {:induction false} RehashResult(s: Ledger, us: seq<AccountUpdates>, n: nat, a: nat)
    requires Known(s, us) && DistinctAccounts(us) && n <= |us| && a in s.accounts
    ensures Known(s, us[..n])
    ensures Rehash(s, us[..n]).accounts[a]
         == if IndexOf(us, a) < n then Rehashed(s.levels, s.accounts[a], us[IndexOf(us, a)]) else s.accounts[a]
  {
    hide Rehash, Rehashed, EmptyAccount;
    if n == 0 {
      NothingRehashed(s, us);
    } else {
      RehashResult(s, us, n - 1, a);
      IndexOfDistinct(us, n - 1);
      assert us[..n - 1 + 1] == us[..n];
      RehashStep(s, us, n - 1);
    }
  }

  lemma {:induction false} DigestsResult(s: Ledger, us: seq<AccountUpdates>, n: nat, i: nat)
    requires Known(s, us) && DistinctAccounts(us) && i < n <= |us|
    ensures Known(s, us[..n])
    ensures var id := us[i].accountId;
            Digests(s, us[..n])[i] == (id, Rehashed(s.levels, s.accounts[id], us[i]).state.Hash())
  {
    assert us[..n][..n - 1] == us[..n - 1];
    if i < n - 1 {
      DigestsResult(s, us, n - 1, i);
    } else {
      RehashResult(s, us, n, us[i].accountId);
      IndexOfDistinct(us, i);
    }
  }

  lemma ParallelAccounts(s: Ledger, us: seq<AccountUpdates>, schedule: seq<nat>, a: nat)
    requires Known(s, us) && DistinctAccounts(us) && IsSchedule(us, schedule) && a in s.accounts
    ensures Rehash(RunTasks(s, us, schedule), us).accounts[a] == Final(s, us, a)
  {
    assert us[..|us|] == us;
    RunTasksResult(s, us, schedule, a);
    RehashResult(RunTasks(s, us, schedule), us, |us|, a);
  }

  lemma ParallelDigests(s: Ledger, us: seq<AccountUpdates>, schedule: seq<nat>, i: nat)
    requires Known(s, us) && DistinctAccounts(us) && IsSchedule(us, schedule) && i < |us|
    ensures Digests(RunTasks(s, us, schedule), us)[i] == (us[i].accountId, Final(s, us, us[i].accountId).state.Hash())
  {
    assert us[..|us|] == us;
    DigestsResult(RunTasks(s, us, schedule), us, |us|, i);
    IndexOfDistinct(us, i);
    RunTasksResult(s, us, schedule, us[i].accountId);
  }

  lemma ParallelResult(s: Ledger, us: seq<AccountUpdates>, schedule: seq<nat>)
    requires Known(s, us) && DistinctAccounts(us) && IsSchedule(us, schedule)
    ensures IsBatchResult(s, us, Parallel(s, us, schedule))
  {
    forall a | a in s.accounts
      ensures Parallel(s, us, schedule).accounts[a] == Final(s, us, a)
    {
      ParallelAccounts(s, us, schedule, a);
    }
    var digests := Digests(RunTasks(s, us, schedule), us);
    forall i | 0 <= i < |us|
      ensures digests[i] == (us[i].accountId, Final(s, us, us[i].accountId).state.Hash())
    {
      ParallelDigests(s, us, schedule, i);
    }
    forall a | 0 <= a < |s.leaves|
      ensures ApplyUpdates(s.leaves, digests)[a]
           == if IndexOf(us, a) < |us| then Final(s, us, a).state.Hash() else s.leaves[a]
    {
      UpdatesPointwise(s.leaves, digests, a);
      if IndexOf(us, a) < |us| {
        assert digests[IndexOf(us, a)].0 == a;
      }
    }
  }

  lemma SequentialIsBatchResult(s: Ledger, us: seq<AccountUpdates>)
    requires Known(s, us) && DistinctAccounts(us)
    ensures IsBatchResult(s, us, Sequential(s, us))
  {
    assert us[..|us|] == us;
    forall a: nat
      ensures a in s.accounts ==> Sequential(s, us).accounts[a] == Final(s, us, a)
      ensures a < |s.leaves| ==>
                Sequential(s, us).leaves[a] == if IndexOf(us, a) < |us| then Final(s, us, a).state.Hash()
                                               else s.leaves[a]
    {
      SequentialResult(s, us, |us|, a);
    }
  }

  lemma BatchResultUnique(s: Ledger, us: seq<AccountUpdates>, r: Ledger, r': Ledger)
    requires IsBatchResult(s, us, r) && IsBatchResult(s, us, r')
    ensures r == r'
  {
    assert r.accounts == r'.accounts;
    assert r.leaves == r'.leaves;
  }

  /** With one update per account, every schedule of the parallel branch ends where the sequential loop does. */
  lemma ParallelIsSequential(s: Ledger, us: seq<AccountUpdates>, schedule: seq<nat>)
    requires Known(s, us) && DistinctAccounts(us) && IsSchedule(us, schedule)
    ensures Parallel(s, us, schedule) == Sequential(s, us)
  {
    ParallelResult(s, us, schedule);
    SequentialIsBatchResult(s, us);
    BatchResultUnique(s, us, Parallel(s, us, schedule), Sequential(s, us));
  }
}
