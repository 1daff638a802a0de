/** The mutable state object. Every method is specified by the `Ledger` value the object stands for. */
module GlobalState {
  import opened Field
  import opened Wrappers
  import opened MerkleSpec
  import opened MerkleTree
  import opened Records
  import opened Ledger
  import opened Slots
  import opened Batch

  // ------------------------------------------------ one map per record part

  function StatesOf(accounts: map<nat, Account>): map<nat, AccountState> {
    map a | a in accounts :: accounts[a].state
  }

  function BalancesOf(accounts: map<nat, Account>): map<nat, seq<Fr>> {
    map a | a in accounts :: accounts[a].balances
  }

  function OrderLeavesOf(accounts: map<nat, Account>): map<nat, seq<Fr>> {
    map a | a in accounts :: accounts[a].orderLeaves
  }

  function OrdersOf(accounts: map<nat, Account>): map<nat, map<nat, Order>> {
    map a | a in accounts :: accounts[a].orders
  }

  function CursorsOf(accounts: map<nat, Account>): map<nat, nat> {
    map a | a in accounts :: accounts[a].cursor
  }

  lemma Row(accounts: map<nat, Account>, a: nat)
    ensures a in StatesOf(accounts) <==> a in accounts
    ensures a in BalancesOf(accounts) <==> a in accounts
    ensures a in OrderLeavesOf(accounts) <==> a in accounts
    ensures a in OrdersOf(accounts) <==> a in accounts
    ensures a in CursorsOf(accounts) <==> a in accounts
    ensures a in accounts ==>
              && StatesOf(accounts)[a] == accounts[a].state && BalancesOf(accounts)[a] == accounts[a].balances
              && OrderLeavesOf(accounts)[a] == accounts[a].orderLeaves && OrdersOf(accounts)[a] == accounts[a].orders
              && CursorsOf(accounts)[a] == accounts[a].cursor
  {
  }

  lemma ReplaceStates(accounts: map<nat, Account>, a: nat, account: Account)
    ensures StatesOf(accounts[a := account]) == StatesOf(accounts)[a := account.state]
    ensures a in accounts && accounts[a].state == account.state ==>
              StatesOf(accounts[a := account]) == StatesOf(accounts)
  {
  }

  lemma ReplaceBalances(accounts: map<nat, Account>, a: nat, account: Account)
    ensures BalancesOf(accounts[a := account]) == BalancesOf(accounts)[a := account.balances]
    ensures a in accounts && accounts[a].balances == account.balances ==>
              BalancesOf(accounts[a := account]) == BalancesOf(accounts)
  {
  }

  lemma ReplaceOrderLeaves(accounts: map<nat, Account>, a: nat, account: Account)
    ensures OrderLeavesOf(accounts[a := account]) == OrderLeavesOf(accounts)[a := account.orderLeaves]
    ensures a in accounts && accounts[a].orderLeaves == account.orderLeaves ==>
              OrderLeavesOf(accounts[a := account]) == OrderLeavesOf(accounts)
  {
  }

  lemma ReplaceOrders(accounts: map<nat, Account>, a: nat, account: Account)
    ensures OrdersOf(accounts[a := account]) == OrdersOf(accounts)[a := account.orders]
    ensures a in accounts && accounts[a].orders == account.orders ==>
              OrdersOf(accounts[a := account]) == OrdersOf(accounts)
  {
  }

  lemma ReplaceCursors(accounts: map<nat, Account>, a: nat, account: Account)
    ensures CursorsOf(accounts[a := account]) == CursorsOf(accounts)[a := account.cursor]
    ensures a in accounts && accounts[a].cursor == account.cursor ==>
              CursorsOf(accounts[a := account]) == CursorsOf(accounts)
  {
  }

  /** Replacing one record replaces one entry of each column, and nothing in a column whose part stays the same. */
  lemma ReplaceRow(accounts: map<nat, Account>, a: nat, account: Account)
    ensures StatesOf(accounts[a := account]) == StatesOf(accounts)[a := account.state]
    ensures a in accounts && accounts[a].state == account.state ==>
              StatesOf(accounts[a := account]) == StatesOf(accounts)
    ensures BalancesOf(accounts[a := account]) == BalancesOf(accounts)[a := account.balances]
    ensures a in accounts && accounts[a].balances == account.balances ==>
              BalancesOf(accounts[a := account]) == BalancesOf(accounts)
    ensures OrderLeavesOf(accounts[a := account]) == OrderLeavesOf(accounts)[a := account.orderLeaves]
    ensures a in accounts && accounts[a].orderLeaves == account.orderLeaves ==>
              OrderLeavesOf(accounts[a := account]) == OrderLeavesOf(accounts)
    ensures OrdersOf(accounts[a := account]) == OrdersOf(accounts)[a := account.orders]
    ensures a in accounts && accounts[a].orders == account.orders ==>
              OrdersOf(accounts[a := account]) == OrdersOf(accounts)
    ensures CursorsOf(accounts[a := account]) == CursorsOf(accounts)[a := account.cursor]
    ensures a in accounts && accounts[a].cursor == account.cursor ==>
              CursorsOf(accounts[a := account]) == CursorsOf(accounts)
  {
    hide StatesOf, BalancesOf, OrderLeavesOf, OrdersOf, CursorsOf;
    ReplaceStates(accounts, a, account);
    ReplaceBalances(accounts, a, account);
    ReplaceOrderLeaves(accounts, a, account);
    ReplaceOrders(accounts, a, account);
    ReplaceCursors(accounts, a, account);
  }

  // ------------------------------------------------------------------ trees

  ghost predicate Holds(tree: Tree, height: nat, leaves: seq<Fr>)
    reads tree
  {
    tree.Valid() && tree.height == height && tree.leaves == leaves
  }

  function RoleOf(orders: bool, a: nat): Role {
    if orders then OrderTree(a) else BalanceTree(a)
  }

  /** A map of trees, one per row of leaves, all owned and each with its own role. */
  ghost predicate Forest(owned: set<Tree>, trees: map<nat, Tree>, height: nat, orders: bool, rows: map<nat, seq<Fr>>)
    reads owned
  {
    && trees.Keys == rows.Keys
    && forall a :: a in trees ==>
         trees[a] in owned && trees[a].role == RoleOf(orders, a) && Holds(trees[a], height, rows[a])
  }

  lemma ForestTree(owned: set<Tree>, trees: map<nat, Tree>, height: nat, orders: bool, rows: map<nat, seq<Fr>>, a: nat)
    requires Forest(owned, trees, height, orders, rows) && a in rows
    ensures a in trees && trees[a] in owned && trees[a].role == RoleOf(orders, a)
    ensures trees[a].Valid() && trees[a].height == height && trees[a].leaves == rows[a] && |rows[a]| == Pow2(height)
  {
  }

  lemma ForestKeys(owned: set<Tree>, trees: map<nat, Tree>, height: nat, orders: bool, rows: map<nat, seq<Fr>>)
    requires Forest(owned, trees, height, orders, rows)
    ensures trees.Keys == rows.Keys
  {
  }

  /** A forest of which tree `a` is being written: nothing is said about it, and nothing of it is read. */
  ghost predicate ForestBut(owned: set<Tree>, trees: map<nat, Tree>, height: nat, orders: bool, rows: map<nat, seq<Fr>>,
                            a: nat, tree: Tree)
    reads owned - {tree}
  {
    && trees.Keys == rows.Keys && a in trees && trees[a] == tree && tree in owned && tree.role == RoleOf(orders, a)
    && forall b :: b in trees && b != a ==>
         trees[b] in owned && trees[b].role == RoleOf(orders, b) && trees[b] != tree && Holds(trees[b], height, rows[b])
  }

  lemma ForestOpen(owned: set<Tree>, trees: map<nat, Tree>, height: nat, orders: bool, rows: map<nat, seq<Fr>>, a: nat)
    requires Forest(owned, trees, height, orders, rows) && a in rows
    ensures a in trees && ForestBut(owned, trees, height, orders, rows, a, trees[a])
  {
  }

  lemma ForestClose(owned: set<Tree>, trees: map<nat, Tree>, height: nat, orders: bool, rows: map<nat, seq<Fr>>, a: nat,
                    tree: Tree)
    requires ForestBut(owned, trees, height, orders, rows, a, tree)
    requires tree.Valid() && tree.height == height
    ensures Forest(owned, trees, height, orders, rows[a := tree.leaves])
  {
    forall b | b in trees
      ensures trees[b] in owned && trees[b].role == RoleOf(orders, b)
      ensures Holds(trees[b], height, rows[a := tree.leaves][b])
    {
    }
  }

  /** A new tree joins a forest, under an account that had none. */
  lemma ForestGrown(owned: set<Tree>, trees: map<nat, Tree>, height: nat, orders: bool, rows: map<nat, seq<Fr>>, a: nat,
                    tree: Tree)
    requires Forest(owned, trees, height, orders, rows) && a !in rows
    requires tree.Valid() && tree.height == height && tree.role == RoleOf(orders, a)
    ensures Forest(owned + {tree}, trees[a := tree], height, orders, rows[a := tree.leaves])
  {
    forall b | b in trees[a := tree]
      ensures var t := trees[a := tree][b];
              t in owned + {tree} && t.role == RoleOf(orders, b) && Holds(t, height, rows[a := tree.leaves][b])
    {
      if b != a {
        assert Holds(trees[b], height, rows[b]);
      }
    }
  }

  /** The stored leaves belong to accounts, but for strays. */
  ghost predicate LeavesKnown(data: map<nat, Fr>, size: nat, ids: set<nat>, strays: set<nat>) {
    forall i :: i in data && i < size ==> i in ids || i in strays
  }

  lemma PutRecord(s: Ledger, a: nat, account: Account)
    ensures Put(s, a, account) == s.(accounts := s.accounts[a := account])
  {
  }

  class GlobalState {
    const levels: Levels
    var accountTree: Tree
    var accountStates: map<nat, AccountState>
    var balanceTrees: map<nat, Tree>
    var orderTrees: map<nat, Tree>
    var orderStates: map<nat, map<nat, Order>>
    var orderIdToPos: map<(nat, nat), nat>
    var nextOrderPositions: map<nat, nat>
    const defaultBalanceRoot: Fr
    const defaultOrderLeaf: Fr
    const defaultOrderRoot: Fr
    const defaultAccountLeaf: Fr
    const maxOrderNumPerUser: nat
    const emptyBalanceTree: Tree
    const trivialOrderPathElements: seq<Fr>
    /** The state this object stands for. */
    ghost var view: Ledger
    /** The Merkle trees it owns, besides the account tree. */
    ghost var balanceForest: set<Tree>
    ghost var orderForest: set<Tree>
    /** Ids whose leaf is stored although they have no record; only a load that loses accounts leaves any. */
    ghost var strays: set<nat>

    ghost function Trees(): set<Tree>
      reads this
    {
      {accountTree} + balanceForest + orderForest
    }

    /** The items computed once, when the state is created. */
    ghost predicate Precomputed()
      reads emptyBalanceTree
    {
      && Holds(emptyBalanceTree, levels.balance, EmptyBalances(levels))
      && defaultOrderLeaf == DEFAULT_ORDER.Hash()
      && defaultBalanceRoot == EmptyAccount(levels).state.balanceRoot
      && defaultOrderRoot == EmptyAccount(levels).state.orderRoot
      && defaultAccountLeaf == EmptyAccount(levels).state.Hash()
      && maxOrderNumPerUser == Pow2(levels.order)
      && trivialOrderPathElements == Path(EmptyOrderLeaves(levels), levels.order, 0)
    }

    ghost predicate Valid()
      reads this, Trees(), emptyBalanceTree
    {
      && Precomputed() && Shape(view)
      && view.levels == levels && view.positions == orderIdToPos
      && accountTree !in balanceForest && accountTree !in orderForest && balanceForest !! orderForest
      && emptyBalanceTree !in Trees() && emptyBalanceTree.role == Template
      && Holds(accountTree, levels.account, view.leaves)
      && LeavesKnown(accountTree.data, Pow2(levels.account), view.accounts.Keys, strays)
      && accountStates == StatesOf(view.accounts)
      && Forest(balanceForest, balanceTrees, levels.balance, false, BalancesOf(view.accounts))
      && Forest(orderForest, orderTrees, levels.order, true, OrderLeavesOf(view.accounts))
      && orderStates == OrdersOf(view.accounts)
      && nextOrderPositions == CursorsOf(view.accounts)
    }

    constructor (balanceLevels: nat, orderLevels: nat, accountLevels: nat)
      requires balanceLevels < 32 && orderLevels < 32 && accountLevels < 32
      ensures Valid() && fresh(Trees())
      ensures view == EmptyLedger(Levels(balanceLevels, orderLevels, accountLevels)) && strays == {}
    {
      var lv := Levels(balanceLevels, orderLevels, accountLevels);
      var balanceTree := new Tree(balanceLevels, 0, Template);
      var orderLeaf := DEFAULT_ORDER.Hash();
      var orderTree := new Tree(orderLevels, orderLeaf, Template);
      var orderProof := orderTree.GetProof(0);
      var accountLeaf := AccountState(0, 0, balanceTree.GetRoot(), 0, orderTree.GetRoot()).Hash();
      var tree := new Tree(accountLevels, accountLeaf, AccountTree);
      levels := lv;
      emptyBalanceTree := balanceTree;
      defaultBalanceRoot := balanceTree.GetRoot();
      defaultOrderLeaf := orderLeaf;
      defaultOrderRoot := orderTree.GetRoot();
      defaultAccountLeaf := accountLeaf;
      maxOrderNumPerUser := Pow2(orderLevels);
      trivialOrderPathElements := orderProof.pathElements;
      accountTree := tree;
      accountStates, balanceTrees, orderTrees := map[], map[], map[];
      orderStates, orderIdToPos, nextOrderPositions := map[], map[], map[];
      view := EmptyLedger(lv);
      balanceForest, orderForest, strays := {}, {}, {};
      new;
      assert balanceTree.leaves == EmptyBalances(lv);
      assert orderTree.leaves == EmptyOrderLeaves(lv);
      assert accountTree.leaves == EmptyLedger(lv).leaves;
    }

    /** What a caller sees of a valid state without looking inside. */
    lemma Facts()
      requires Valid()
      ensures view.levels == levels && Shape(view) && orderIdToPos == view.positions
      ensures forall a :: a in accountStates <==> a in view.accounts
      ensures |view.leaves| == Pow2(levels.account) && Pow2(levels.balance) > 0
    {
      hide Precomputed, Holds, Forest, BalancesOf, OrderLeavesOf, OrdersOf, CursorsOf;
    }

    // ------------------------------------------------------------- queries

    function GetRoot(): (root: Fr)
      requires Valid()
      reads this, Trees(), emptyBalanceTree
      ensures root == StateRoot(view)
    {
      accountTree.GetRoot()
    }

    method GetAccount(a: nat) returns (account: AccountState)
      requires Valid()
      ensures account == At(view, a).state
    {
      Row(view.accounts, a);
      account := if a in accountStates then accountStates[a]
                 else AccountState(0, 0, defaultBalanceRoot, 0, defaultOrderRoot);
    }

    method HasAccount(a: nat) returns (has: bool)
      requires Valid()
      ensures has == IsKeyed(view, a)
    {
      var account := GetAccount(a);
      has := account.ay != 0;
    }

    method GetTokenBalance(a: nat, t: nat) returns (balance: Fr)
      requires Valid() && t < Pow2(levels.balance)
      ensures balance == BalanceOf(view, a, t)
    {
      var has := HasAccount(a);
      if !has {
        return 0;
      }
      Row(view.accounts, a);
      ForestTree(balanceForest, balanceTrees, levels.balance, false, BalancesOf(view.accounts), a);
      balance := balanceTrees[a].GetLeaf(t);
    }

    // ---------------------------------------------------------- tree writes

    method SetTokenBalanceRaw(a: nat, t: nat, balance: Fr)
      requires Valid() && a in accountStates && t < Pow2(levels.balance)
      modifies this`view, balanceForest
      ensures Valid() && view == Put(old(view), a, WriteBalance(At(old(view), a), t, balance))
    {
      hide Precomputed, Tree.Valid, Holds, Forest, ForestBut, Pow2, Shape, StatesOf, BalancesOf, OrderLeavesOf;
      hide OrdersOf, CursorsOf;
      ghost var rows := BalancesOf(view.accounts);
      Row(view.accounts, a);
      ForestTree(balanceForest, balanceTrees, levels.balance, false, rows, a);
      ForestOpen(balanceForest, balanceTrees, levels.balance, false, rows, a);
      balanceTrees[a].SetValue(t, balance);
      ForestClose(balanceForest, balanceTrees, levels.balance, false, rows, a, balanceTrees[a]);
      ghost var account := WriteBalance(view.accounts[a], t, balance);
      ReplaceRow(view.accounts, a, account);
      PutKeepsShape(view, a, account);
      view := Put(view, a, account);
    }

    method SetOrderLeafHashRaw(a: nat, pos: nat, hash: Fr)
      requires Valid() && a in accountStates && pos < Pow2(levels.order)
      modifies this`view, orderForest
      ensures Valid() && view == Put(old(view), a, WriteOrderLeaf(At(old(view), a), pos, hash))
    {
      hide Precomputed, Tree.Valid, Holds, Forest, ForestBut, Pow2, Shape, StatesOf, BalancesOf, OrderLeavesOf;
      hide OrdersOf, CursorsOf;
      ghost var rows := OrderLeavesOf(view.accounts);
      Row(view.accounts, a);
      ForestTree(orderForest, orderTrees, levels.order, true, rows, a);
      ForestOpen(orderForest, orderTrees, levels.order, true, rows, a);
      orderTrees[a].SetValue(pos, hash);
      ForestClose(orderForest, orderTrees, levels.order, true, rows, a, orderTrees[a]);
      ghost var account := WriteOrderLeaf(view.accounts[a], pos, hash);
      ReplaceRow(view.accounts, a, account);
      PutKeepsShape(view, a, account);
      view := Put(view, a, account);
    }

    // ------------------------------------------------------------- records

    method RecalculateAccountStateHash(a: nat) returns (hash: Fr)
      requires Valid() && a in accountStates
      modifies this`view, this`accountStates
      ensures Valid() && view == Put(old(view), a, Refreshed(levels, At(old(view), a)))
      ensures hash == At(view, a).state.Hash()
    {
      hide Precomputed, Tree.Valid, Holds, Forest, ForestBut, Pow2, Shape, StatesOf, BalancesOf, OrderLeavesOf;
      hide OrdersOf, CursorsOf;
      Row(view.accounts, a);
      ForestTree(balanceForest, balanceTrees, levels.balance, false, BalancesOf(view.accounts), a);
      ForestTree(orderForest, orderTrees, levels.order, true, OrderLeavesOf(view.accounts), a);
      var acc := accountStates[a];
      acc := acc.(balanceRoot := balanceTrees[a].GetRoot());
      acc := acc.(orderRoot := orderTrees[a].GetRoot());
      accountStates := accountStates[a := acc];
      hash := acc.Hash();
      ghost var account := Refreshed(levels, view.accounts[a]);
      ReplaceRow(view.accounts, a, account);
      PutKeepsShape(view, a, account);
      view := Put(view, a, account);
    }

    /** The account tree told of one digest. */
    method SetAccountLeaf(a: nat, hash: Fr)
      requires Valid() && a in view.accounts
      modifies this`view, accountTree
      ensures Valid() && view == old(view).(leaves := old(view).leaves[a := hash])
    {
      hide Precomputed, Forest, StatesOf, BalancesOf, OrderLeavesOf, OrdersOf, CursorsOf, Between, Tree.GetValue;
      accountTree.SetValue(a, hash);
      view := view.(leaves := view.leaves[a := hash]);
    }

    /** The account tree told of several digests at once. */
    method SetAccountLeaves(digests: seq<(nat, Fr)>)
      requires Valid() && forall d :: d in digests ==> d.0 in view.accounts
      modifies this`view, accountTree
      ensures Valid() && view == old(view).(leaves := ApplyUpdates(old(view).leaves, digests))
    {
      hide Precomputed, Forest, StatesOf, BalancesOf, OrderLeavesOf, OrdersOf, CursorsOf, Between, Tree.GetValue;
      accountTree.SetValueParallel(digests, 2);
      view := view.(leaves := ApplyUpdates(view.leaves, digests));
    }

    method FlushAccountState(a: nat)
      requires Valid() && a in accountStates
      modifies this`view, this`accountStates, accountTree
      ensures Valid() && view == Flush(old(view), a)
    {
      hide Precomputed, Tree.Valid, Holds, Forest, Pow2, StatesOf, BalancesOf, OrderLeavesOf, OrdersOf, CursorsOf;
      hide Refreshed;
      Row(view.accounts, a);
      var hash := RecalculateAccountStateHash(a);
      SetAccountLeaf(a, hash);
    }

    method SetAccountL2Addr(a: nat, sign: Fr, ay: Fr)
      requires Valid() && a in accountStates
      modifies this`view, this`accountStates, accountTree
      ensures Valid() && view == WithL2Addr(old(view), a, sign, ay)
    {
      hide Precomputed, Tree.Valid, Holds, Forest, Pow2, StatesOf, BalancesOf, OrderLeavesOf, OrdersOf, CursorsOf;
      Row(view.accounts, a);
      var state := accountStates[a].(sign := sign, ay := ay);
      accountStates := accountStates[a := state];
      ghost var account := view.accounts[a].(state := state);
      ReplaceRow(view.accounts, a, account);
      PutKeepsShape(view, a, account);
      view := Put(view, a, account);
      SetAccountLeaf(a, state.Hash());
    }

    method UpdateNonceRaw(a: nat, nonce: Fr)
      requires Valid() && a in accountStates
      modifies this`view, this`accountStates
      ensures Valid() && view == Put(old(view), a, WriteNonce(At(old(view), a), nonce))
    {
      hide Precomputed, Tree.Valid, Holds, Forest, Pow2, Shape, StatesOf, BalancesOf, OrderLeavesOf, OrdersOf;
      hide CursorsOf;
      Row(view.accounts, a);
      accountStates := accountStates[a := accountStates[a].(nonce := nonce)];
      ghost var account := WriteNonce(view.accounts[a], nonce);
      ReplaceRow(view.accounts, a, account);
      PutKeepsShape(view, a, account);
      view := Put(view, a, account);
    }

    method SetAccountNonce(a: nat, nonce: Fr)
      requires Valid() && a in accountStates
      modifies this`view, this`accountStates, accountTree
      ensures Valid() && view == WithNonce(old(view), a, nonce)
    {
      hide Precomputed, Tree.Valid, Holds, Forest, Pow2, Shape, StatesOf, BalancesOf, OrderLeavesOf, OrdersOf;
      hide CursorsOf, Refreshed;
      Row(view.accounts, a);
      UpdateNonceRaw(a, nonce);
      Row(view.accounts, a);
      FlushAccountState(a);
    }

    method IncreaseNonce(a: nat)
      requires Valid() && a in accountStates
      modifies this`view, this`accountStates, accountTree
      ensures Valid() && view == WithNonce(old(view), a, Add(At(old(view), a).state.nonce, 1))
    {
      hide Precomputed, Tree.Valid, Holds, Forest, Pow2, Shape, StatesOf, BalancesOf, OrderLeavesOf, OrdersOf;
      hide CursorsOf, Refreshed;
      Row(view.accounts, a);
      SetAccountNonce(a, Add(accountStates[a].nonce, 1));
    }

    // ------------------------------------------------------- new accounts

    method InitAccount(a: nat) returns (r: Result<nat>)
      requires Valid()
      modifies this, accountTree
      ensures strays == old(strays)
      ensures Valid() && accountTree == old(accountTree) && fresh(Trees() - old(Trees()))
      ensures r.Ok? <==> a in old(view).accounts || a < Pow2(levels.account)
      ensures view == if r.Ok? then WithAccount(old(view), a) else old(view)
    {
      hide Precomputed, Tree.Valid, Forest, Pow2, StatesOf, BalancesOf, OrderLeavesOf, OrdersOf, CursorsOf;
      Row(view.accounts, a);
      if a in accountStates {
        return Ok(a);
      }
      if a >= Pow2(levels.account) {
        return Err("account id overflows");
      }
      NewAccount(a);
      SetAccountLeaf(a, defaultAccountLeaf);
      r := Ok(a);
    }

    lemma Defaults()
      requires Precomputed()
      ensures EmptyAccount(levels) == Account(
        AccountState(0, 0, defaultBalanceRoot, 0, defaultOrderRoot),
        EmptyBalances(levels), EmptyOrderLeaves(levels), map[], DEFAULT_NEXT_ORDER_ID)
      ensures defaultAccountLeaf == EmptyAccount(levels).state.Hash() && defaultOrderLeaf == DEFAULT_ORDER.Hash()
    {
    }

    method NewTrees(a: nat) returns (balanceTree: Tree, orderTree: Tree)
      requires levels.balance < 32 && levels.order < 32 && defaultOrderLeaf == DEFAULT_ORDER.Hash()
      ensures fresh(balanceTree) && balanceTree.Valid() && balanceTree.height == levels.balance
      ensures fresh(orderTree) && orderTree.Valid() && orderTree.height == levels.order
      ensures balanceTree.role == BalanceTree(a) && balanceTree.leaves == EmptyBalances(levels)
      ensures orderTree.role == OrderTree(a) && orderTree.leaves == EmptyOrderLeaves(levels)
    {
      balanceTree := new Tree(levels.balance, 0, BalanceTree(a));
      orderTree := new Tree(levels.order, defaultOrderLeaf, OrderTree(a));
    }

    /** Two new trees taken over. */
    method Adopt(a: nat, balanceTree: Tree, orderTree: Tree)
      requires Valid() && a !in view.accounts
      requires balanceTree !in Trees() && orderTree !in Trees() && emptyBalanceTree != balanceTree
      requires emptyBalanceTree != orderTree
      requires balanceTree.Valid() && balanceTree.height == levels.balance && balanceTree.role == BalanceTree(a)
      requires orderTree.Valid() && orderTree.height == levels.order && orderTree.role == OrderTree(a)
      modifies this`balanceTrees, this`orderTrees, this`balanceForest, this`orderForest
      ensures Forest(balanceForest, balanceTrees, levels.balance, false,
                     BalancesOf(old(view).accounts)[a := balanceTree.leaves])
      ensures Forest(orderForest, orderTrees, levels.order, true,
                     OrderLeavesOf(old(view).accounts)[a := orderTree.leaves])
      ensures balanceForest == old(balanceForest) + {balanceTree} && orderForest == old(orderForest) + {orderTree}
    {
      hide Precomputed, Tree.Valid, Holds, Forest, Pow2, StatesOf, BalancesOf, OrderLeavesOf, OrdersOf, CursorsOf;
      hide Shape;
      Row(view.accounts, a);
      ForestGrown(balanceForest, balanceTrees, levels.balance, false, BalancesOf(view.accounts), a, balanceTree);
      ForestGrown(orderForest, orderTrees, levels.order, true, OrderLeavesOf(view.accounts), a, orderTree);
      balanceTrees := balanceTrees[a := balanceTree];
      orderTrees := orderTrees[a := orderTree];
      balanceForest := balanceForest + {balanceTree};
      orderForest := orderForest + {orderTree};
    }

    /** The map insertions of a new account; its leaf already has the default digest. */
    method NewAccount(a: nat)
      requires Valid() && a !in view.accounts && a < Pow2(levels.account)
      modifies this
      ensures strays == old(strays)
      ensures Valid() && accountTree == old(accountTree) && fresh(Trees() - old(Trees()))
      ensures view == Put(old(view), a, EmptyAccount(levels)) && defaultAccountLeaf == EmptyAccount(levels).state.Hash()
    {
      hide Precomputed, Tree.Valid, Holds, Forest, Pow2, StatesOf, BalancesOf, OrderLeavesOf, OrdersOf, CursorsOf;
      hide Root, EmptyAccount, Shape;
      NewAccountShape(view, a);
      Defaults();
      var balanceTree, orderTree := NewTrees(a);
      assert Valid();
      Enroll(a, balanceTree, orderTree);
    }

    /** Two new trees and a new record under an account that had none. */
    method Enroll(a: nat, balanceTree: Tree, orderTree: Tree)
      requires Valid() && a !in view.accounts && a < Pow2(levels.account)
      requires balanceTree !in Trees() && orderTree !in Trees() && emptyBalanceTree != balanceTree
      requires emptyBalanceTree != orderTree
      requires balanceTree.Valid() && balanceTree.height == levels.balance && balanceTree.role == BalanceTree(a)
      requires orderTree.Valid() && orderTree.height == levels.order && orderTree.role == OrderTree(a)
      requires balanceTree.leaves == EmptyBalances(levels) && orderTree.leaves == EmptyOrderLeaves(levels)
      modifies this
      ensures strays == old(strays)
      ensures Valid() && accountTree == old(accountTree) && Trees() == old(Trees()) + {balanceTree, orderTree}
      ensures view == Put(old(view), a, EmptyAccount(levels))
    {
      hide Precomputed, Tree.Valid, Holds, Forest, Pow2, StatesOf, BalancesOf, OrderLeavesOf, OrdersOf, CursorsOf;
      hide Root, EmptyAccount, Shape, LeavesKnown, Put;
      ghost var before, owned := view, Trees();
      EnrollColumns(a);
      Adopt(a, balanceTree, orderTree);
      AddRecord(a);
      assert Trees() == owned + {balanceTree, orderTree};
      PutRecord(before, a, EmptyAccount(levels));
    }

    /** The columns, the shape and the stored leaves of a state with one more account. */
    lemma EnrollColumns(a: nat)
      requires Valid() && a !in view.accounts && a < Pow2(levels.account)
      ensures var account, accounts := EmptyAccount(levels), view.accounts[a := EmptyAccount(levels)];
              && account == Account(AccountState(0, 0, defaultBalanceRoot, 0, defaultOrderRoot),
                                    EmptyBalances(levels), EmptyOrderLeaves(levels), map[], DEFAULT_NEXT_ORDER_ID)
              && StatesOf(accounts) == StatesOf(view.accounts)[a := account.state]
              && BalancesOf(accounts) == BalancesOf(view.accounts)[a := account.balances]
              && OrderLeavesOf(accounts) == OrderLeavesOf(view.accounts)[a := account.orderLeaves]
              && OrdersOf(accounts) == OrdersOf(view.accounts)[a := account.orders]
              && CursorsOf(accounts) == CursorsOf(view.accounts)[a := account.cursor]
              && Shape(Put(view, a, account))
              && LeavesKnown(accountTree.data, Pow2(levels.account), accounts.Keys, strays)
    {
      hide Precomputed, Tree.Valid, Holds, Forest, Pow2, StatesOf, BalancesOf, OrderLeavesOf, OrdersOf, CursorsOf;
      hide Root, EmptyAccount, Shape;
      ReplaceRow(view.accounts, a, EmptyAccount(levels));
      NewAccountShape(view, a);
      Defaults();
    }

    method AddRecord(a: nat)
      modifies this`accountStates, this`orderStates, this`nextOrderPositions, this`view
      ensures accountStates == old(accountStates)[a := AccountState(0, 0, defaultBalanceRoot, 0, defaultOrderRoot)]
      ensures orderStates == old(orderStates)[a := map[]]
      ensures nextOrderPositions == old(nextOrderPositions)[a := DEFAULT_NEXT_ORDER_ID]
      ensures view == Put(old(view), a, EmptyAccount(levels))
    {
      accountStates := accountStates[a := AccountState(0, 0, defaultBalanceRoot, 0, defaultOrderRoot)];
      orderStates := orderStates[a := map[]];
      nextOrderPositions := nextOrderPositions[a := DEFAULT_NEXT_ORDER_ID];
      view := Put(view, a, EmptyAccount(levels));
    }

    method SetTokenBalance(a: nat, t: nat, balance: Fr)
      requires Valid() && a < Pow2(levels.account) && t < Pow2(levels.balance)
      modifies this, Trees()
      ensures strays == old(strays)
      ensures Valid() && fresh(Trees() - old(Trees()))
      ensures view == WithBalance(old(view), a, t, balance)
    {
      hide Precomputed, Tree.Valid, Holds, Forest, Pow2, Shape, StatesOf, BalancesOf, OrderLeavesOf, OrdersOf;
      hide CursorsOf, Refreshed, WriteBalance, EmptyAccount;
      InitThenWrite(view, a, t, balance);
      Row(view.accounts, a);
      if a !in accountStates {
        var _ := InitAccount(a);
      }
      Row(view.accounts, a);
      SetTokenBalanceRaw(a, t, balance);
      Row(view.accounts, a);
      FlushAccountState(a);
    }

    // -------------------------------------------------------------- batches

    /** One tree task of the parallel branch: task 2k writes the balance tree of update k, 2k+1 its order tree. */
    method RunTreeTask(u: AccountUpdates, task: nat)
      requires Valid() && u.accountId in accountStates && InRange(levels, u)
      modifies this`view, balanceForest, orderForest
      ensures Valid() && view == Put(old(view), u.accountId, RunTask(At(old(view), u.accountId), u, task))
    {
      if task % 2 == 0 {
        WriteBalanceTree(u, 2);
      } else {
        WriteOrderTree(u, 1);
      }
    }

    method WriteBalanceTree(u: AccountUpdates, parallel: nat)
      requires Valid() && u.accountId in accountStates && InRange(levels, u)
      modifies this`view, balanceForest
      ensures Valid() && view == Put(old(view), u.accountId, WriteBalances(At(old(view), u.accountId), u))
    {
      hide Precomputed, Tree.Valid, Holds, Forest, ForestBut, Pow2, Shape, StatesOf, BalancesOf, OrderLeavesOf;
      hide OrdersOf, CursorsOf;
      var a := u.accountId;
      ghost var rows := BalancesOf(view.accounts);
      Row(view.accounts, a);
      ForestTree(balanceForest, balanceTrees, levels.balance, false, rows, a);
      ForestOpen(balanceForest, balanceTrees, levels.balance, false, rows, a);
      balanceTrees[a].SetValueParallel(u.balanceUpdates, parallel);
      ForestClose(balanceForest, balanceTrees, levels.balance, false, rows, a, balanceTrees[a]);
      ghost var account := WriteBalances(view.accounts[a], u);
      ReplaceRow(view.accounts, a, account);
      PutKeepsShape(view, a, account);
      view := Put(view, a, account);
    }

    method WriteOrderTree(u: AccountUpdates, parallel: nat)
      requires Valid() && u.accountId in accountStates && InRange(levels, u)
      modifies this`view, orderForest
      ensures Valid() && view == Put(old(view), u.accountId, WriteOrderLeaves(At(old(view), u.accountId), u))
    {
      hide Precomputed, Tree.Valid, Holds, Forest, ForestBut, Pow2, Shape, StatesOf, BalancesOf, OrderLeavesOf;
      hide OrdersOf, CursorsOf;
      var a := u.accountId;
      ghost var rows := OrderLeavesOf(view.accounts);
      Row(view.accounts, a);
      ForestTree(orderForest, orderTrees, levels.order, true, rows, a);
      ForestOpen(orderForest, orderTrees, levels.order, true, rows, a);
      orderTrees[a].SetValueParallel(u.orderUpdates, parallel);
      ForestClose(orderForest, orderTrees, levels.order, true, rows, a, orderTrees[a]);
      ghost var account := WriteOrderLeaves(view.accounts[a], u);
      ReplaceRow(view.accounts, a, account);
      PutKeepsShape(view, a, account);
      view := Put(view, a, account);
    }

    method RehashAccount(u: AccountUpdates) returns (hash: Fr)
      requires Valid() && u.accountId in accountStates
      modifies this`view, this`accountStates
      ensures Valid() && view == Put(old(view), u.accountId, Rehashed(levels, At(old(view), u.accountId), u))
      ensures hash == At(view, u.accountId).state.Hash()
    {
      hide Precomputed, Tree.Valid, Holds, Forest, Pow2, Shape, StatesOf, BalancesOf, OrderLeavesOf, OrdersOf;
      hide CursorsOf, Refreshed;
      Row(view.accounts, u.accountId);
      if u.newNonce.Some? {
        UpdateNonceRaw(u.accountId, u.newNonce.value);
        Row(view.accounts, u.accountId);
      }
      hash := RecalculateAccountStateHash(u.accountId);
    }

    /** The tree tasks, in the order in which the thread pool happens to run them. */
    method RunAllTasks(us: seq<AccountUpdates>, schedule: seq<nat>)
      requires Valid() && Known(view, us) && TasksExist(us, schedule)
      requires forall i :: 0 <= i < |us| ==> InRange(levels, us[i])
      modifies this`view, balanceForest, orderForest
      ensures Valid() && view == RunTasks(old(view), us, schedule)
    {
      hide Precomputed, Tree.Valid, Holds, Forest, Pow2, Shape, StatesOf, BalancesOf, OrderLeavesOf, OrdersOf;
      hide CursorsOf, RunTask, InRange;
      ghost var start := view;
      assert schedule[..0] == [];
      for n := 0 to |schedule|
        invariant Valid() && view == RunTasks(start, us, schedule[..n])
      {
        hide RunTasks;
        RunTasksStep(start, us, schedule, n);
        Row(view.accounts, us[schedule[n] / 2].accountId);
        RunTreeTask(us[schedule[n] / 2], schedule[n]);
      }
      assert schedule[..|schedule|] == schedule;
    }

    /** Nonces and roots into the records, the digests collected for the account tree. */
    method RehashAll(us: seq<AccountUpdates>) returns (accountUpdates: seq<(nat, Fr)>)
      requires Valid() && Known(view, us)
      modifies this`view, this`accountStates
      ensures Valid() && view == Rehash(old(view), us) && accountUpdates == Digests(old(view), us)
    {
      hide Precomputed, Tree.Valid, Holds, Forest, Pow2, Shape, StatesOf, BalancesOf, OrderLeavesOf, OrdersOf;
      hide CursorsOf, Rehashed;
      ghost var start := view;
      accountUpdates := [];
      assert us[..0] == [];
      for n := 0 to |us|
        invariant Known(start, us[..n])
        invariant Valid() && view == Rehash(start, us[..n]) && accountUpdates == Digests(start, us[..n])
      {
        hide Rehash, Digests;
        RehashStep(start, us, n);
        Row(view.accounts, us[n].accountId);
        var hash := RehashAccount(us[n]);
        accountUpdates := accountUpdates + [(us[n].accountId, hash)];
      }
      assert us[..|us|] == us;
    }

    method BatchSequential(us: seq<AccountUpdates>)
      requires Valid() && Known(view, us)
      requires forall i :: 0 <= i < |us| ==> InRange(levels, us[i])
      modifies this`view, this`accountStates, Trees()
      ensures Valid() && view == Sequential(old(view), us)
    {
      hide Precomputed, Tree.Valid, Holds, Forest, Pow2, Shape, StatesOf, BalancesOf, OrderLeavesOf, OrdersOf;
      hide CursorsOf, InRange, Updated;
      ghost var start := view;
      assert us[..0] == [];
      for n := 0 to |us|
        invariant Known(start, us[..n]) && Valid() && view == Sequential(start, us[..n])
      {
        hide Sequential;
        SequentialStep(start, us, n);
        Row(view.accounts, us[n].accountId);
        UpdateAccount(us[n]);
      }
      assert us[..|us|] == us;
    }

    /** One turn of the sequential loop: balances one by one, order leaves one by one, nonce, flush. */
    method UpdateAccount(u: AccountUpdates)
      requires Valid() && u.accountId in accountStates && InRange(levels, u)
      modifies this`view, this`accountStates, Trees()
      ensures Valid() && view == Store(old(view), u.accountId, Updated(levels, At(old(view), u.accountId), u))
    {
      hide Precomputed, Tree.Valid, Holds, Forest, Pow2, Shape, StatesOf, BalancesOf, OrderLeavesOf, OrdersOf;
      hide CursorsOf, InRange;
      hide WriteBalances, WriteOrderLeaves, Rehashed;
      WriteBalancesOneByOne(u);
      Row(view.accounts, u.accountId);
      WriteOrderLeavesOneByOne(u);
      Row(view.accounts, u.accountId);
      RenewAndFlush(u);
    }

    method RenewAndFlush(u: AccountUpdates)
      requires Valid() && u.accountId in accountStates
      modifies this`view, this`accountStates, accountTree
      ensures Valid() && view == Store(old(view), u.accountId, Rehashed(levels, At(old(view), u.accountId), u))
    {
      hide Precomputed, Tree.Valid, Holds, Forest, Pow2, Shape, StatesOf, BalancesOf, OrderLeavesOf, OrdersOf;
      hide CursorsOf, InRange, Refreshed;
      Row(view.accounts, u.accountId);
      if u.newNonce.Some? {
        UpdateNonceRaw(u.accountId, u.newNonce.value);
        Row(view.accounts, u.accountId);
      }
      FlushAccountState(u.accountId);
    }

    method WriteBalancesOneByOne(u: AccountUpdates)
      requires Valid() && u.accountId in accountStates && InRange(levels, u)
      modifies this`view, balanceForest
      ensures Valid() && view == Put(old(view), u.accountId, WriteBalances(At(old(view), u.accountId), u))
    {
      hide Precomputed, Tree.Valid, Holds, Forest, Pow2, Shape, StatesOf, BalancesOf, OrderLeavesOf, OrdersOf;
      hide CursorsOf;
      var a := u.accountId;
      Row(view.accounts, a);
      ghost var start, us := At(view, a), u.balanceUpdates;
      assert us[..0] == [];
      assert view == Put(view, a, start.(balances := ApplyUpdates(start.balances, us[..0])));
      for n := 0 to |u.balanceUpdates|
        invariant Valid() && view == Put(old(view), a, start.(balances := ApplyUpdates(start.balances, us[..n])))
      {
        assert us[..n + 1][..n] == us[..n];
        Row(view.accounts, a);
        assert us[n] in us;
        SetTokenBalanceRaw(a, u.balanceUpdates[n].0, u.balanceUpdates[n].1);
      }
      assert us[..|us|] == us;
    }

    method WriteOrderLeavesOneByOne(u: AccountUpdates)
      requires Valid() && u.accountId in accountStates && InRange(levels, u)
      modifies this`view, orderForest
      ensures Valid() && view == Put(old(view), u.accountId, WriteOrderLeaves(At(old(view), u.accountId), u))
    {
      hide Precomputed, Tree.Valid, Holds, Forest, Pow2, Shape, StatesOf, BalancesOf, OrderLeavesOf, OrdersOf;
      hide CursorsOf;
      var a := u.accountId;
      Row(view.accounts, a);
      ghost var start, us := At(view, a), u.orderUpdates;
      assert us[..0] == [];
      assert view == Put(view, a, start.(orderLeaves := ApplyUpdates(start.orderLeaves, us[..0])));
      for n := 0 to |u.orderUpdates|
        invariant Valid() && view == Put(old(view), a, start.(orderLeaves := ApplyUpdates(start.orderLeaves, us[..n])))
      {
        assert us[..n + 1][..n] == us[..n];
        Row(view.accounts, a);
        assert us[n] in us;
        SetOrderLeafHashRaw(a, u.orderUpdates[n].0, u.orderUpdates[n].1);
      }
      assert us[..|us|] == us;
    }

    /** `schedule` stands for the thread pool; the sequential branch has no use for it. */
    method BatchUpdate(us: seq<AccountUpdates>, parallel: bool, schedule: seq<nat>)
      requires Valid() && Known(view, us) && TasksExist(us, schedule)
      requires forall i :: 0 <= i < |us| ==> InRange(levels, us[i])
      modifies this`view, this`accountStates, Trees()
      ensures Valid()
      ensures view == if parallel then Parallel(old(view), us, schedule) else Sequential(old(view), us)
      ensures IsSchedule(us, schedule) && DistinctAccounts(us) ==> view == Sequential(old(view), us)
    {
      hide Precomputed, Tree.Valid, Holds, Forest, StatesOf, BalancesOf, OrderLeavesOf, OrdersOf, CursorsOf, InRange;
      hide RunTasks, Rehash, Digests, Sequential;
      if IsSchedule(us, schedule) && DistinctAccounts(us) {
        ParallelIsSequential(view, us, schedule);
      }
      if parallel {
        ghost var start := view;
        RunAllTasks(us, schedule);
        var digests := RehashAll(us);
        SetAccountLeaves(digests);
      } else {
        BatchSequential(us);
      }
    }

    // --------------------------------------------------------------- orders

    method HasOrder(a: nat, orderId: nat) returns (has: bool)
      requires Valid()
      ensures has <==> (a, orderId) in view.positions
    {
      has := (a, orderId) in orderIdToPos;
    }

    method GetAccountOrderByPos(a: nat, pos: nat) returns (order: Order)
      requires Valid() && a in accountStates
      ensures order == OrderAt(view, a, pos)
    {
      hide Precomputed, Tree.Valid, Holds, Forest, Pow2, Shape, StatesOf, BalancesOf, OrderLeavesOf, OrdersOf;
      hide CursorsOf;
      Row(view.accounts, a);
      order := if pos in orderStates[a] then orderStates[a][pos] else DEFAULT_ORDER;
    }

    method GetAccountOrderById(a: nat, orderId: nat) returns (order: Order)
      requires Valid() && a in accountStates && (a, orderId) in orderIdToPos
      ensures (a, orderId) in view.positions && order == OrderAt(view, a, view.positions[(a, orderId)])
    {
      order := GetAccountOrderByPos(a, orderIdToPos[(a, orderId)]);
    }

    method UpdateOrderState(a: nat, pos: nat, order: Order)
      requires Valid() && a in accountStates
      modifies this`view, this`orderStates
      ensures Valid() && view == WithOrderAt(old(view), a, pos, order)
    {
      hide Precomputed, Tree.Valid, Holds, Forest, Pow2, Shape, StatesOf, BalancesOf, OrderLeavesOf, OrdersOf;
      hide CursorsOf;
      Row(view.accounts, a);
      var slots: map<nat, Order> := orderStates[a][pos := order];
      orderStates := orderStates[a := slots];
      ghost var account := WriteOrder(view.accounts[a], pos, order);
      ReplaceRow(view.accounts, a, account);
      PutKeepsShape(view, a, account);
      view := Put(view, a, account);
    }

    method CancelOrder(a: nat, orderId: nat) returns (r: Result<()>)
      requires Valid()
      modifies this`view, this`orderStates
      ensures Valid()
      ensures match Cancelled(old(view), a, orderId)
              case Ok(s) => r == Ok(()) && view == s
              case Err(reason) => r == Err(reason) && view == old(view)
    {
      hide Precomputed, Tree.Valid, Holds, Forest, Pow2, Shape, StatesOf, BalancesOf, OrderLeavesOf, OrdersOf;
      hide CursorsOf;
      Row(view.accounts, a);
      if (a, orderId) !in orderIdToPos {
        return Err("cancel_order: unknown order");
      }
      var pos := orderIdToPos[(a, orderId)];
      if a !in orderStates || pos !in orderStates[a] {
        return Err("cancel_order: empty slot");
      }
      UpdateOrderState(a, pos, orderStates[a][pos].(isActive := false));
      r := Ok(());
    }

    method SetCursor(a: nat, cursor: nat)
      requires Valid() && a in accountStates
      modifies this`view, this`nextOrderPositions
      ensures Valid() && view == Put(old(view), a, At(old(view), a).(cursor := cursor))
    {
      hide Precomputed, Tree.Valid, Holds, Forest, Pow2, Shape, StatesOf, BalancesOf, OrderLeavesOf, OrdersOf;
      hide CursorsOf;
      Row(view.accounts, a);
      nextOrderPositions := nextOrderPositions[a := cursor];
      ghost var account := view.accounts[a].(cursor := cursor);
      ReplaceRow(view.accounts, a, account);
      PutKeepsShape(view, a, account);
      view := Put(view, a, account);
    }

    /** The cyclic search of a full account for a slot to reuse. */
    method FindVictim(a: nat, orderId: nat) returns (r: Result<nat>)
      requires Valid() && a in accountStates
      ensures r == Scan(At(view, a).orders, At(view, a).cursor, Pow2(levels.order), orderId, 0)
    {
      hide Tree.Valid, Holds, Forest, Pow2, Shape, StatesOf, BalancesOf, OrderLeavesOf, OrdersOf, CursorsOf;
      hide EmptyAccount;
      Row(view.accounts, a);
      var startPos := nextOrderPositions[a];
      var size := Pow2(levels.order);
      for i := 0 to size
        invariant Scan(At(view, a).orders, startPos, size, orderId, 0)
               == Scan(At(view, a).orders, startPos, size, orderId, i)
      {
        var candidatePos := (startPos + i) % size;
        var order := GetAccountOrderByPos(a, candidatePos);
        assert candidatePos == Candidate(startPos, size, i) && order == SlotOrder(At(view, a).orders, candidatePos);
        if order.IsDefault() {
          return Err("default order in a full tree");
        }
        if order.IsFilled() || !order.isActive {
          if order.orderId == orderId {
            return Err("order already in tree");
          }
          if order.orderId < orderId {
            return Ok(candidatePos);
          }
        }
      }
      r := Err("cannot find order pos");
    }

    method GetNextOrderPosForUser(a: nat, orderId: nat) returns (r: Result<nat>)
      requires Valid() && a in accountStates
      modifies this`view, this`nextOrderPositions
      ensures Valid()
      ensures match NextPos(At(old(view), a), Pow2(levels.order), orderId)
              case Ok((pos, cursor)) => r == Ok(pos) && view == Put(old(view), a, At(old(view), a).(cursor := cursor))
              case Err(reason) => r == Err(reason) && view == old(view)
    {
      hide Tree.Valid, Holds, Forest, Pow2, Shape, StatesOf, BalancesOf, OrderLeavesOf, OrdersOf, CursorsOf;
      hide EmptyAccount, Scan;
      Row(view.accounts, a);
      var orders := orderStates[a];
      if |orders| < maxOrderNumPerUser {
        if !CountMatches(orders) {
          return Err("slots are not a prefix");
        }
        assert view == Put(view, a, At(view, a).(cursor := At(view, a).cursor));
        return Ok(|orders|);
      }
      r := FindVictim(a, orderId);
      if r.Ok? {
        SetCursor(a, r.value + 1);
      }
    }

    method SetOrderPosForId(a: nat, pos: nat, orderId: nat)
      requires Valid() && pos < Pow2(levels.order)
      modifies this`view, this`orderIdToPos
      ensures Valid() && view == old(view).(positions := old(view).positions[(a, orderId) := pos])
    {
      hide Precomputed, Tree.Valid, Holds, Forest, Pow2, Shape, StatesOf, BalancesOf, OrderLeavesOf, OrdersOf;
      hide CursorsOf;
      orderIdToPos := orderIdToPos[(a, orderId) := pos];
      ghost var s := view.(positions := view.positions[(a, orderId) := pos]);
      SameShape(view, s);
      view := s;
    }

    method FindOrInsertOrder(a: nat, order: Order) returns (r: Result<(nat, Order)>)
      requires Valid() && a in accountStates
      modifies this`view, this`nextOrderPositions, this`orderIdToPos
      ensures Valid()
      ensures match Placement(old(view), a, order.orderId)
              case Ok((pos, before, s)) => r == Ok((pos, before)) && view == s
              case Err(reason) => r == Err(reason) && view == old(view)
    {
      hide Precomputed, Tree.Valid, Holds, Forest, Pow2, Shape, StatesOf, BalancesOf, OrderLeavesOf, OrdersOf;
      hide CursorsOf, EmptyAccount, NextPos;
      NextPosInRange(At(view, a), Pow2(levels.order), order.orderId);
      if (a, order.orderId) in orderIdToPos {
        var pos := orderIdToPos[(a, order.orderId)];
        var before := GetAccountOrderByPos(a, pos);
        return Ok((pos, before));
      }
      var next := GetNextOrderPosForUser(a, order.orderId);
      if next.Err? {
        return Err(next.reason);
      }
      var before := GetAccountOrderByPos(a, next.value);
      SetOrderPosForId(a, next.value, order.orderId);
      r := Ok((next.value, before));
    }

    // --------------------------------------------------------------- proofs

    method OrderProof(a: nat, pos: nat) returns (proof: MerkleProof)
      requires Valid() && a in accountStates && pos < Pow2(levels.order)
      ensures proof.pathElements == OrderPath(view, a, pos) && proof.root == Root(At(view, a).orderLeaves, levels.order)
      ensures pos < |At(view, a).orderLeaves| && proof.leaf == At(view, a).orderLeaves[pos]
    {
      hide Tree.Valid, Forest, Pow2, Shape, StatesOf, BalancesOf, OrderLeavesOf, OrdersOf, CursorsOf, Path, Root, Node;
      Row(view.accounts, a);
      ForestTree(orderForest, orderTrees, levels.order, true, OrderLeavesOf(view.accounts), a);
      proof := orderTrees[a].GetProof(pos);
    }

    method BalanceProof(a: nat, t: nat) returns (proof: MerkleProof)
      requires Valid() && t < Pow2(levels.balance)
      ensures proof.pathElements == BalancePath(view, a, t) && proof.leaf == StoredBalance(view, a, t)
      ensures proof.root == Root(At(view, a).balances, levels.balance)
    {
      hide Tree.Valid, Forest, Pow2, Shape, StatesOf, BalancesOf, OrderLeavesOf, OrdersOf, CursorsOf, Path, Root, Node;
      Row(view.accounts, a);
      ForestKeys(balanceForest, balanceTrees, levels.balance, false, BalancesOf(view.accounts));
      if a in balanceTrees {
        ForestTree(balanceForest, balanceTrees, levels.balance, false, BalancesOf(view.accounts), a);
        proof := balanceTrees[a].GetProof(t);
      } else {
        proof := emptyBalanceTree.GetProof(t);
      }
    }

    method TrivialOrderPathElements() returns (path: seq<Fr>)
      requires Valid()
      ensures path == Path(EmptyOrderLeaves(levels), levels.order, 0)
    {
      path := trivialOrderPathElements;
    }

    method AccountProof(a: nat) returns (proof: MerkleProof)
      requires Valid() && a < Pow2(levels.account)
      ensures proof.pathElements == AccountPath(view, a) && proof.root == StateRoot(view)
      ensures a < |view.leaves| && proof.leaf == view.leaves[a]
    {
      hide Forest, Precomputed, StatesOf, BalancesOf, OrderLeavesOf, OrdersOf, CursorsOf, Path, Node, Between;
      proof := accountTree.GetProof(a);
    }

    method BalanceFullProof(a: nat, t: nat) returns (balance: MerkleProof, account: MerkleProof)
      requires Valid() && a < Pow2(levels.account) && t < Pow2(levels.balance)
      ensures balance.pathElements == BalancePath(view, a, t) && balance.leaf == StoredBalance(view, a, t)
      ensures balance.root == Root(At(view, a).balances, levels.balance)
      ensures a < |view.leaves| && account.leaf == view.leaves[a]
      ensures account.pathElements == AccountPath(view, a) && account.root == StateRoot(view)
    {
      account := AccountProof(a);
      balance := BalanceProof(a, t);
    }
  }
}
