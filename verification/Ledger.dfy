/**
 * The rollup state as one value: what a `GlobalState` object stands for, and what each of its operations does to it.
 */
module Ledger {
  import opened Field
  import opened Wrappers
  import opened MerkleSpec
  import opened Records

  datatype Levels = Levels(balance: nat, order: nat, account: nat)

  /** One account: its record, the leaves of its two trees, its order slots and its slot cursor. */
  datatype Account = Account(
    state: AccountState,
    balances: seq<Fr>,
    orderLeaves: seq<Fr>,
    orders: map<nat, Order>,
    cursor: nat)

  /** `leaves` are those of the account tree; `positions` maps (account id, order id) to a slot. */
  datatype Ledger = Ledger(
    levels: Levels,
    leaves: seq<Fr>,
    accounts: map<nat, Account>,
    positions: map<(nat, nat), nat>)

  const DEFAULT_NEXT_ORDER_ID := 1

  // -------------------------------------------------------- empty structures

  function EmptyBalances(levels: Levels): seq<Fr> {
    seq(Pow2(levels.balance), _ => 0)
  }

  function EmptyOrderLeaves(levels: Levels): seq<Fr> {
    seq(Pow2(levels.order), _ => DEFAULT_ORDER.Hash())
  }

  function EmptyAccount(levels: Levels): Account {
    Account(
      AccountState(0, 0, Root(EmptyBalances(levels), levels.balance), 0, Root(EmptyOrderLeaves(levels), levels.order)),
      EmptyBalances(levels), EmptyOrderLeaves(levels), map[], DEFAULT_NEXT_ORDER_ID)
  }

  function EmptyLedger(levels: Levels): Ledger {
    Ledger(levels, seq(Pow2(levels.account), _ => EmptyAccount(levels).state.Hash()), map[], map[])
  }

  // ---------------------------------------------------------------- queries

  function StateRoot(s: Ledger): Fr {
    Root(s.leaves, s.levels.account)
  }

  /** An account nobody has touched reads as the empty one. */
  function At(s: Ledger, a: nat): Account {
    if a in s.accounts then s.accounts[a] else EmptyAccount(s.levels)
  }

  predicate IsKeyed(s: Ledger, a: nat) {
    At(s, a).state.ay != 0
  }

  function StoredBalance(s: Ledger, a: nat, t: nat): Fr {
    if t < |At(s, a).balances| then At(s, a).balances[t] else 0
  }

  /** An account without a key has balance zero, whatever its tree holds. */
  function BalanceOf(s: Ledger, a: nat, t: nat): Fr {
    if IsKeyed(s, a) then StoredBalance(s, a, t) else 0
  }

  /** The order in a slot; an empty slot reads as the default order. */
  function SlotOrder(orders: map<nat, Order>, pos: nat): Order {
    if pos in orders then orders[pos] else DEFAULT_ORDER
  }

  function OrderAt(s: Ledger, a: nat, pos: nat): Order {
    SlotOrder(At(s, a).orders, pos)
  }

  function BalancePath(s: Ledger, a: nat, t: nat): seq<Fr> {
    Path(At(s, a).balances, s.levels.balance, t)
  }

  function OrderPath(s: Ledger, a: nat, pos: nat): seq<Fr> {
    Path(At(s, a).orderLeaves, s.levels.order, pos)
  }

  function AccountPath(s: Ledger, a: nat): seq<Fr> {
    Path(s.leaves, s.levels.account, a)
  }

  // ------------------------------------------------------------- invariants

  /** The trees have their full size. */
  ghost predicate Sized(levels: Levels, account: Account) {
    |account.balances| == Pow2(levels.balance) && |account.orderLeaves| == Pow2(levels.order)
  }

  ghost predicate Shape(s: Ledger) {
    && s.levels.balance < 32 && s.levels.order < 32 && s.levels.account < 32
    && |s.leaves| == Pow2(s.levels.account)
    && forall a :: a in s.accounts ==> a < |s.leaves| && Sized(s.levels, s.accounts[a])
  }

  /** The record carries the roots of the two trees, and each order leaf is the digest of its slot. */
  ghost predicate Synced(levels: Levels, account: Account) {
    && account.state.balanceRoot == Root(account.balances, levels.balance)
    && account.state.orderRoot == Root(account.orderLeaves, levels.order)
    && forall pos :: 0 <= pos < |account.orderLeaves| ==>
         account.orderLeaves[pos] == SlotOrder(account.orders, pos).Hash()
  }

  /** Occupied slots are a prefix, and each stored order's id leads back to its slot. */
  ghost predicate Slotted(s: Ledger, a: nat, account: Account) {
    && |account.orders| <= Pow2(s.levels.order)
    && (forall pos :: pos in account.orders <==> 0 <= pos < |account.orders|)
    && (forall pos :: pos in account.orders ==>
          (a, account.orders[pos].orderId) in s.positions && s.positions[(a, account.orders[pos].orderId)] == pos)
  }

  /** Every mapped order id leads to an occupied slot, though perhaps by now one of another order. */
  ghost predicate Mapped(s: Ledger) {
    forall key :: key in s.positions ==> key.0 in s.accounts && s.positions[key] in s.accounts[key.0].orders
  }

  /** What holds between any two transactions. */
  ghost predicate Invariant(s: Ledger) {
    && Shape(s) && Mapped(s)
    && (forall a :: 0 <= a < |s.leaves| ==> s.leaves[a] == At(s, a).state.Hash())
    && (forall a :: a in s.accounts ==> Synced(s.levels, s.accounts[a]) && Slotted(s, a, s.accounts[a]))
  }

  /** A mapped id whose slot has gone to another order. */
  ghost predicate Stale(s: Ledger, key: (nat, nat)) {
    key in s.positions && key.0 in s.accounts && s.positions[key] in s.accounts[key.0].orders
    && s.accounts[key.0].orders[s.positions[key]].orderId != key.1
  }

  /** Every account with a record has a key. A withdrawal for an account without one would break this. */
  ghost predicate AllKeyed(s: Ledger) {
    forall a :: a in s.accounts ==> s.accounts[a].state.ay != 0
  }

  // ------------------------------------------------------- small operations

  /** `recalculate_account_state_hash`: both roots copied into the record. */
  function Refreshed(levels: Levels, account: Account): Account {
    account.(state := account.state.(
      balanceRoot := Root(account.balances, levels.balance),
      orderRoot := Root(account.orderLeaves, levels.order)))
  }

  /** An account record replaced, its digest going into the account tree. */
  function Store(s: Ledger, a: nat, account: Account): Ledger {
    s.(accounts := s.accounts[a := account],
       leaves := if a < |s.leaves| then s.leaves[a := account.state.Hash()] else s.leaves)
  }

  /** An account record replaced, the account tree not yet told. */
  function Put(s: Ledger, a: nat, account: Account): Ledger {
    s.(accounts := s.accounts[a := account])
  }

  lemma PutKeepsShape(s: Ledger, a: nat, account: Account)
    requires Shape(s) && a in s.accounts
    requires |account.balances| == |s.accounts[a].balances| && |account.orderLeaves| == |s.accounts[a].orderLeaves|
    ensures Shape(Put(s, a, account))
  {
  }

  lemma SameShape(s: Ledger, r: Ledger)
    requires Shape(s) && r.levels == s.levels && r.leaves == s.leaves && r.accounts == s.accounts
    ensures Shape(r)
  {
  }

  lemma NewAccountShape(s: Ledger, a: nat)
    requires Shape(s) && a < Pow2(s.levels.account)
    ensures s.levels.balance < 32 && s.levels.order < 32
    ensures Shape(Put(s, a, EmptyAccount(s.levels)))
  {
  }

  function Flush(s: Ledger, a: nat): Ledger {
    Store(s, a, Refreshed(s.levels, At(s, a)))
  }

  function WithL2Addr(s: Ledger, a: nat, sign: Fr, ay: Fr): Ledger {
    Store(s, a, At(s, a).(state := At(s, a).state.(sign := sign, ay := ay)))
  }

  function WriteBalance(account: Account, t: nat, value: Fr): Account {
    account.(balances := if t < |account.balances| then account.balances[t := value] else account.balances)
  }

  function WriteOrderLeaf(account: Account, pos: nat, value: Fr): Account {
    account.(orderLeaves := if pos < |account.orderLeaves| then account.orderLeaves[pos := value]
                            else account.orderLeaves)
  }

  function WriteNonce(account: Account, nonce: Fr): Account {
    account.(state := account.state.(nonce := nonce))
  }

  function WriteOrder(account: Account, pos: nat, order: Order): Account {
    account.(orders := account.orders[pos := order])
  }

  function WithAccount(s: Ledger, a: nat): Ledger {
    if a in s.accounts then s else Store(s, a, EmptyAccount(s.levels))
  }

  /** `set_token_balance`: creates the account when it has no record yet. */
  function WithBalance(s: Ledger, a: nat, t: nat, value: Fr): Ledger {
    Store(s, a, Refreshed(s.levels, WriteBalance(At(s, a), t, value)))
  }

  /** `set_token_balance` step by step. */
  lemma InitThenWrite(s: Ledger, a: nat, t: nat, value: Fr)
    requires Shape(s) && a < Pow2(s.levels.account)
    ensures var s1 := WithAccount(s, a);
            WithBalance(s, a, t, value) == Flush(Put(s1, a, WriteBalance(At(s1, a), t, value)), a)
  {
    hide EmptyAccount, Root, AccountState.Hash, Pow2, Refreshed, WriteBalance;
    var s1 := WithAccount(s, a);
    assert At(s1, a) == At(s, a);
    assert s1.accounts[a := WriteBalance(At(s, a), t, value)]
             [a := Refreshed(s.levels, WriteBalance(At(s, a), t, value))]
        == s.accounts[a := Refreshed(s.levels, WriteBalance(At(s, a), t, value))];
  }

  function WithNonce(s: Ledger, a: nat, nonce: Fr): Ledger {
    Store(s, a, Refreshed(s.levels, WriteNonce(At(s, a), nonce)))
  }

  function WithOrderAt(s: Ledger, a: nat, pos: nat, order: Order): Ledger {
    Put(s, a, WriteOrder(At(s, a), pos, order))
  }

  /** `cancel_order`: flags whatever order sits at the recorded position; a missing entry panics. */
  function Cancelled(s: Ledger, a: nat, orderId: nat): Result<Ledger> {
    if (a, orderId) !in s.positions then
      Err("cancel_order: unknown order")
    else
      var pos := s.positions[(a, orderId)];
      if a !in s.accounts || pos !in s.accounts[a].orders then
        Err("cancel_order: empty slot")
      else
        Ok(WithOrderAt(s, a, pos, s.accounts[a].orders[pos].(isActive := false)))
  }
}
