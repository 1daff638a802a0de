/** Saving the state and loading it back: what survives, and exactly when everything does. */
module Persistence {
  import opened Field
  import opened Wrappers
  import opened MerkleSpec
  import opened MerkleTree
  import opened Records
  import opened Ledger
  import opened GlobalState

  // ------------------------------------------------------------------ trees

  /** A serialized tree: the default nodes above the leaves are computed again when it is read. */
  datatype TreeImage = TreeImage(height: nat, defaultLeaf: Fr, data: map<nat, Fr>)

  function Defaults(height: nat, leaf: Fr): (nodes: seq<Fr>)
    ensures |nodes| == height + 1 && nodes[0] == leaf
    ensures forall i :: 0 <= i < height ==> nodes[i + 1] == Hash2(nodes[i], nodes[i])
  {
    if height == 0 then
      [leaf]
    else
      var below := Defaults(height - 1, leaf);
      below + [Hash2(below[height - 1], below[height - 1])]
  }

  lemma {:induction false} DefaultsUnique(nodes: seq<Fr>, height: nat, i: nat)
    requires |nodes| == height + 1 && i <= height
    requires forall j :: 0 <= j < height ==> nodes[j + 1] == Hash2(nodes[j], nodes[j])
    ensures nodes[i] == Defaults(height, nodes[0])[i]
  {
    if i > 0 {
      DefaultsUnique(nodes, height, i - 1);
    }
  }

  /** The image, with its default nodes computed again, reads as the dense tree over `leaves`. */
  ghost predicate Stands(image: TreeImage, height: nat, leaves: seq<Fr>) {
    && image.height == height < 32 && |leaves| == Pow2(height)
    && Between(height, Defaults(height, image.defaultLeaf), image.data, leaves, leaves, height)
  }

  method SaveTree(tree: Tree) returns (image: TreeImage)
    requires tree.Valid()
    ensures Stands(image, tree.height, tree.leaves) && image.data == tree.data
  {
    image := TreeImage(tree.height, tree.defaultNodes[0], tree.data);
    forall i | 0 <= i <= tree.height
      ensures tree.defaultNodes[i] == Defaults(tree.height, tree.defaultNodes[0])[i]
    {
      DefaultsUnique(tree.defaultNodes, tree.height, i);
    }
    assert tree.defaultNodes == Defaults(tree.height, tree.defaultNodes[0]);
  }

  method RestoreTree(image: TreeImage, ghost leaves: seq<Fr>, ghost role: Role) returns (tree: Tree)
    requires Stands(image, image.height, leaves)
    ensures fresh(tree) && tree.Valid() && tree.role == role && tree.height == image.height && tree.leaves == leaves
    ensures tree.data == image.data
  {
    tree := new Tree(image.height, image.defaultLeaf, role);
    forall i | 0 <= i <= tree.height
      ensures tree.defaultNodes[i] == Defaults(tree.height, tree.defaultNodes[0])[i]
    {
      DefaultsUnique(tree.defaultNodes, tree.height, i);
    }
    assert tree.defaultNodes == Defaults(image.height, image.defaultLeaf);
    tree.data := image.data;
    tree.leaves := leaves;
  }

  // --------------------------------------------------------- account states

  /** Account records are keyed by their digest: of accounts with one digest only one is kept. */
  ghost predicate IsStateDb(db: map<Fr, (nat, AccountState)>, states: map<nat, AccountState>) {
    && (forall h :: h in db ==> db[h].0 in states && db[h].1 == states[db[h].0] && states[db[h].0].Hash() == h)
    && (forall a :: a in states ==> states[a].Hash() in db)
  }

  method SaveAccountStates(states: map<nat, AccountState>) returns (db: map<Fr, (nat, AccountState)>)
    ensures IsStateDb(db, states)
  {
    hide AccountState.Hash;
    db := map[];
    var left := states.Keys;
    while left != {}
      invariant left <= states.Keys
      invariant forall h :: h in db ==> db[h].0 in states && db[h].1 == states[db[h].0] && states[db[h].0].Hash() == h
      invariant forall a :: a in states && a !in left ==> states[a].Hash() in db
      decreases left
    {
      var a :| a in left;
      db := db[states[a].Hash() := (a, states[a])];
      left := left - {a};
    }
  }

  /** The leaves a tree has stored, of the `n` it has room for. */
  function StoredLeaves(data: map<nat, Fr>, n: nat): map<nat, Fr> {
    map idx | idx in data && idx < n :: data[idx]
  }

  /** The accounts found again: those whose record is filed under the digest of a stored leaf. */
  ghost predicate IsLoaded(stored: map<nat, Fr>, db: map<Fr, (nat, AccountState)>, states: map<nat, AccountState>,
                           loaded: map<nat, AccountState>) {
    && (forall a :: a in loaded ==> a in states && loaded[a] == states[a])
    && (forall i :: i in stored ==> stored[i] in db && db[stored[i]].0 in loaded)
    && (forall a :: a in loaded ==> exists i :: i in stored && stored[i] in db && db[stored[i]].0 == a)
  }

  method LoadAccountStates(stored: map<nat, Fr>, db: map<Fr, (nat, AccountState)>, ghost states: map<nat, AccountState>)
    returns (r: Result<map<nat, AccountState>>)
    requires IsStateDb(db, states)
    ensures r.Ok? <==> forall i :: i in stored ==> stored[i] in db
    ensures r.Ok? ==> IsLoaded(stored, db, states, r.value)
  {
    var loaded: map<nat, AccountState> := map[];
    var left := stored.Keys;
    while left != {}
      invariant left <= stored.Keys
      invariant forall a :: a in loaded ==> a in states && loaded[a] == states[a]
      invariant forall i :: i in stored && i !in left ==> stored[i] in db && db[stored[i]].0 in loaded
      invariant forall a :: a in loaded ==> exists i :: i in stored && stored[i] in db && db[stored[i]].0 == a
      decreases left
    {
      var i :| i in left;
      if stored[i] !in db {
        return Err("requested content not found in db");
      }
      var (id, state) := db[stored[i]];
      loaded := loaded[id := state];
      left := left - {i};
    }
    r := Ok(loaded);
  }

  /** Every account's digest is among the stored leaves, and no two accounts have one digest. */
  ghost predicate Recoverable(stored: map<nat, Fr>, states: map<nat, AccountState>) {
    && (forall a :: a in states ==> exists i :: i in stored && stored[i] == states[a].Hash())
    && (forall a, b :: a in states && b in states && states[a].Hash() == states[b].Hash() ==> a == b)
  }

  /**
   * Whatever leaves are stored: all accounts come back exactly when each has its digest stored and no two have one
   * digest.
   */
  lemma AccountsComeBack(stored: map<nat, Fr>, db: map<Fr, (nat, AccountState)>, states: map<nat, AccountState>,
                         loaded: map<nat, AccountState>)
    requires IsStateDb(db, states) && IsLoaded(stored, db, states, loaded)
    ensures loaded == states <==> Recoverable(stored, states)
  {
    hide AccountState.Hash;
    if Recoverable(stored, states) {
      forall a | a in states
        ensures a in loaded
      {
        var i :| i in stored && stored[i] == states[a].Hash();
        assert db[stored[i]].0 == a;
      }
      assert loaded == states;
    }
    if loaded == states {
      forall a | a in states
        ensures db[states[a].Hash()].0 == a && exists i :: i in stored && stored[i] == states[a].Hash()
      {
        var i :| i in stored && stored[i] in db && db[stored[i]].0 == a;
      }
    }
  }

  /** Every account has its own leaf stored, and no two accounts have one digest. */
  ghost predicate Faithful(stored: map<nat, Fr>, states: map<nat, AccountState>) {
    && (forall a :: a in states ==> a in stored)
    && (forall a, b :: a in states && b in states && states[a].Hash() == states[b].Hash() ==> a == b)
  }

  /** Where each stored leaf is the digest of its own account's record. */
  lemma RecoverableIsFaithful(stored: map<nat, Fr>, states: map<nat, AccountState>)
    requires forall i :: i in stored ==> i in states && stored[i] == states[i].Hash()
    ensures Recoverable(stored, states) <==> Faithful(stored, states)
  {
    hide AccountState.Hash;
    if Recoverable(stored, states) {
      forall a | a in states
        ensures a in stored
      {
        var i :| i in stored && stored[i] == states[a].Hash();
        assert states[i].Hash() == states[a].Hash();
      }
    }
    if Faithful(stored, states) {
      forall a | a in states
        ensures exists i :: i in stored && stored[i] == states[a].Hash()
      {
        assert a in stored && stored[a] == states[a].Hash();
      }
    }
  }

  // ----------------------------------------------------------- tree forests

  ghost predicate AllStand(images: map<nat, TreeImage>, height: nat, rows: map<nat, seq<Fr>>) {
    && images.Keys == rows.Keys
    && forall a :: a in images ==> Stands(images[a], height, rows[a])
  }

  method SaveTrees(trees: map<nat, Tree>, ghost owned: set<Tree>, height: nat, ghost orders: bool,
                   ghost rows: map<nat, seq<Fr>>)
    returns (images: map<nat, TreeImage>)
    requires Forest(owned, trees, height, orders, rows)
    ensures AllStand(images, height, rows)
  {
    hide Stands;
    images := map[];
    var left := trees.Keys;
    while left != {}
      invariant left <= trees.Keys && images.Keys == trees.Keys - left
      invariant forall a :: a in images ==> Stands(images[a], height, rows[a])
      decreases left
    {
      var a :| a in left;
      ForestTree(owned, trees, height, orders, rows, a);
      var image := SaveTree(trees[a]);
      images := images[a := image];
      left := left - {a};
    }
  }

  /** The rows of the given accounts. */
  function Kept<T>(rows: map<nat, T>, ids: set<nat>): map<nat, T> {
    map a | a in ids && a in rows :: rows[a]
  }

  /** The trees of the given accounts, each read from its own image. */
  method LoadTrees(images: map<nat, TreeImage>, ids: set<nat>, height: nat, ghost orders: bool,
                   ghost rows: map<nat, seq<Fr>>)
    returns (trees: map<nat, Tree>, ghost owned: set<Tree>)
    requires AllStand(images, height, rows) && ids <= rows.Keys
    ensures fresh(owned) && Forest(owned, trees, height, orders, Kept(rows, ids))
    ensures forall t :: t in owned ==> exists a :: t.role == RoleOf(orders, a)
  {
    hide Stands, Forest, Tree.Valid;
    trees, owned := map[], {};
    var left := ids;
    ghost var sofar: map<nat, seq<Fr>> := map[];
    EmptyForest(height, orders);
    while left != {}
      invariant left <= ids && sofar == Kept(rows, ids - left)
      invariant fresh(owned) && Forest(owned, trees, height, orders, sofar)
      invariant forall t :: t in owned ==> exists a :: t.role == RoleOf(orders, a)
      decreases left
    {
      var a :| a in left;
      HeightStands(images[a], height, rows[a]);
      var tree := RestoreTree(images[a], rows[a], RoleOf(orders, a));
      ForestGrown(owned, trees, height, orders, sofar, a, tree);
      trees, owned := trees[a := tree], owned + {tree};
      sofar := sofar[a := rows[a]];
      left := left - {a};
    }
    assert sofar == Kept(rows, ids);
  }

  lemma EmptyForest(height: nat, orders: bool)
    ensures Forest({}, map[], height, orders, map[])
  {
  }

  lemma HeightStands(image: TreeImage, height: nat, leaves: seq<Fr>)
    requires Stands(image, height, leaves)
    ensures image.height == height && |leaves| == Pow2(height)
  {
  }

  // --------------------------------------------------------- order mapping

  /** The mapping rebuilt from the stored orders: each id leads to a slot that holds it. */
  ghost predicate IsRebuilt(positions: map<(nat, nat), nat>, orders: map<nat, map<nat, Order>>) {
    && (forall key :: key in positions ==>
          key.0 in orders && positions[key] in orders[key.0] && orders[key.0][positions[key]].orderId == key.1)
    && (forall a, pos :: a in orders && pos in orders[a] ==> (a, orders[a][pos].orderId) in positions)
  }

  method RebuildPositions(orders: map<nat, map<nat, Order>>) returns (positions: map<(nat, nat), nat>)
    ensures IsRebuilt(positions, orders)
  {
    positions := map[];
    var left := orders.Keys;
    while left != {}
      invariant left <= orders.Keys
      invariant forall key :: key in positions ==>
                  key.0 in orders && positions[key] in orders[key.0] && orders[key.0][positions[key]].orderId == key.1
      invariant forall a, pos :: a in orders && a !in left && pos in orders[a] ==>
                  (a, orders[a][pos].orderId) in positions
      decreases left
    {
      var a :| a in left;
      var slots := orders[a].Keys;
      while slots != {}
        invariant slots <= orders[a].Keys
        invariant forall key :: key in positions ==>
                    key.0 in orders && positions[key] in orders[key.0] && orders[key.0][positions[key]].orderId == key.1
        invariant forall b, pos :: b in orders && b !in left && pos in orders[b] ==>
                    (b, orders[b][pos].orderId) in positions
        invariant forall pos :: pos in orders[a] && pos !in slots ==> (a, orders[a][pos].orderId) in positions
        decreases slots
      {
        var pos :| pos in slots;
        positions := positions[(a, orders[a][pos].orderId) := pos];
        slots := slots - {pos};
      }
      left := left - {a};
    }
  }

  /** Of a consistent ledger the rebuilt mapping is the old one without the ids of evicted orders. */
  lemma RebuiltDropsStale(s: Ledger, positions: map<(nat, nat), nat>)
    requires Invariant(s) && IsRebuilt(positions, OrdersOf(s.accounts))
    ensures forall key :: key in positions <==> key in s.positions && !Stale(s, key)
    ensures forall key :: key in positions ==> positions[key] == s.positions[key]
  {
    hide Shape, Synced, Pow2, EmptyAccount;
    forall key | key in positions
      ensures key in s.positions && !Stale(s, key) && positions[key] == s.positions[key]
    {
      Row(s.accounts, key.0);
      assert Slotted(s, key.0, s.accounts[key.0]);
    }
    forall key | key in s.positions && !Stale(s, key)
      ensures key in positions
    {
      assert Mapped(s);
      Row(s.accounts, key.0);
      var pos := s.positions[key];
      assert (key.0, OrdersOf(s.accounts)[key.0][pos].orderId) in positions;
    }
  }

  // -------------------------------------------------------- the whole state

  datatype Image = Image(
    accountTree: TreeImage,
    accountStates: map<Fr, (nat, AccountState)>,
    balanceTrees: map<nat, TreeImage>,
    orderTrees: map<nat, TreeImage>,
    orderStates: map<nat, map<nat, Order>>,
    cursors: map<nat, nat>)

  /** What a saved ledger looks like; ids of evicted orders are not saved. */
  ghost predicate Describes(image: Image, s: Ledger) {
    && Stands(image.accountTree, s.levels.account, s.leaves)
    && IsStateDb(image.accountStates, StatesOf(s.accounts))
    && AllStand(image.balanceTrees, s.levels.balance, BalancesOf(s.accounts))
    && AllStand(image.orderTrees, s.levels.order, OrderLeavesOf(s.accounts))
    && image.orderStates == OrdersOf(s.accounts) && image.cursors == CursorsOf(s.accounts)
  }

  /** `persist`: everything copied out; nothing changes. */
  method Persist(state: GlobalState) returns (image: Image)
    requires state.Valid()
    ensures Describes(image, state.view) && image.accountTree.data == state.accountTree.data
  {
    hide Stands, Tree.Valid, AllStand, IsStateDb;
    var accountTree := SaveTree(state.accountTree);
    var accountStates := SaveAccountStates(state.accountStates);
    var balanceTrees := SaveTrees(state.balanceTrees, state.balanceForest, state.levels.balance, false,
                                  BalancesOf(state.view.accounts));
    var orderTrees := SaveTrees(state.orderTrees, state.orderForest, state.levels.order, true,
                                OrderLeavesOf(state.view.accounts));
    image := Image(accountTree, accountStates, balanceTrees, orderTrees, state.orderStates, state.nextOrderPositions);
  }

  /** The ledger loaded when the records of these accounts are found. */
  ghost predicate Reloaded(s: Ledger, ids: set<nat>, r: Ledger) {
    && r.levels == s.levels && r.leaves == s.leaves && r.accounts == Kept(s.accounts, ids)
    && IsRebuilt(r.positions, OrdersOf(r.accounts))
  }

  /** The accounts whose record is filed under the digest of a stored leaf. */
  ghost predicate FoundIds(image: Image, s: Ledger, ids: set<nat>) {
    var stored := StoredLeaves(image.accountTree.data, |s.leaves|);
    && ids <= s.accounts.Keys
    && (forall i :: i in stored ==> stored[i] in image.accountStates && image.accountStates[stored[i]].0 in ids)
    && (forall a :: a in ids ==>
          exists i :: i in stored && stored[i] in image.accountStates && image.accountStates[stored[i]].0 == a)
  }

  lemma KeptColumns(accounts: map<nat, Account>, ids: set<nat>)
    ensures StatesOf(Kept(accounts, ids)) == Kept(StatesOf(accounts), ids)
    ensures BalancesOf(Kept(accounts, ids)) == Kept(BalancesOf(accounts), ids)
    ensures OrderLeavesOf(Kept(accounts, ids)) == Kept(OrderLeavesOf(accounts), ids)
    ensures OrdersOf(Kept(accounts, ids)) == Kept(OrdersOf(accounts), ids)
    ensures CursorsOf(Kept(accounts, ids)) == Kept(CursorsOf(accounts), ids)
  {
  }

  /** A loaded ledger is in shape. */
  lemma KeptShape(s: Ledger, ids: set<nat>, r: Ledger)
    requires Shape(s) && r.levels == s.levels && r.leaves == s.leaves && r.accounts == Kept(s.accounts, ids)
    ensures Shape(r)
  {
  }

  method Overwrite(state: GlobalState, ghost r: Ledger, tree: Tree, states: map<nat, AccountState>,
                   balanceTrees: map<nat, Tree>, ghost balanceForest: set<Tree>,
                   orderTrees: map<nat, Tree>, ghost orderForest: set<Tree>,
                   orderStates: map<nat, map<nat, Order>>, positions: map<(nat, nat), nat>,
                   cursors: map<nat, nat>, ghost strays: set<nat>)
    modifies state
    ensures state.strays == strays && state.accountTree == tree && state.accountStates == states
    ensures state.balanceTrees == balanceTrees && state.orderTrees == orderTrees && state.orderStates == orderStates
    ensures state.orderIdToPos == positions && state.nextOrderPositions == cursors
    ensures state.balanceForest == balanceForest && state.orderForest == orderForest && state.view == r
  {
    state.accountTree := tree;
    state.accountStates := states;
    state.balanceTrees, state.orderTrees := balanceTrees, orderTrees;
    state.orderStates := orderStates;
    state.orderIdToPos := positions;
    state.nextOrderPositions := cursors;
    state.balanceForest, state.orderForest, state.strays := balanceForest, orderForest, strays;
    state.view := r;
  }

  /** Everything loaded put in place at once. */
  method Install(state: GlobalState, ghost r: Ledger, tree: Tree, states: map<nat, AccountState>,
                 balanceTrees: map<nat, Tree>, ghost balanceForest: set<Tree>,
                 orderTrees: map<nat, Tree>, ghost orderForest: set<Tree>,
                 orderStates: map<nat, map<nat, Order>>, positions: map<(nat, nat), nat>,
                 cursors: map<nat, nat>, ghost strays: set<nat>)
    requires LeavesKnown(tree.data, Pow2(state.levels.account), r.accounts.Keys, strays)
    requires state.Valid() && Shape(r) && r.levels == state.levels && r.positions == positions
    requires Holds(tree, state.levels.account, r.leaves) && states == StatesOf(r.accounts)
    requires Forest(balanceForest, balanceTrees, state.levels.balance, false, BalancesOf(r.accounts))
    requires Forest(orderForest, orderTrees, state.levels.order, true, OrderLeavesOf(r.accounts))
    requires orderStates == OrdersOf(r.accounts) && cursors == CursorsOf(r.accounts)
    requires tree !in balanceForest && tree !in orderForest && balanceForest !! orderForest
    requires state.emptyBalanceTree !in {tree} + balanceForest + orderForest
    modifies state
    ensures state.Valid() && state.view == r && state.strays == strays
    ensures state.accountTree == tree && state.balanceForest == balanceForest && state.orderForest == orderForest
  {
    hide Holds, Forest, Shape, StatesOf, BalancesOf, OrderLeavesOf, OrdersOf, CursorsOf, Tree.Valid;
    hide GlobalState.Precomputed, LeavesKnown, Pow2;
    Overwrite(state, r, tree, states, balanceTrees, balanceForest, orderTrees, orderForest, orderStates, positions,
              cursors, strays);
    assert state.Precomputed();
    assert Holds(tree, state.levels.account, r.leaves);
    assert Forest(balanceForest, balanceTrees, state.levels.balance, false, BalancesOf(r.accounts));
    assert Forest(orderForest, orderTrees, state.levels.order, true, OrderLeavesOf(r.accounts));
  }

  lemma ForestsApart(balanceForest: set<Tree>, orderForest: set<Tree>, tree: Tree)
    requires forall t :: t in balanceForest ==> exists a :: t.role == RoleOf(false, a)
    requires forall t :: t in orderForest ==> exists a :: t.role == RoleOf(true, a)
    requires tree.role == AccountTree
    ensures tree !in balanceForest && tree !in orderForest && balanceForest !! orderForest
  {
  }

  /** The records found are those of the accounts kept. */
  lemma LoadedColumns(image: Image, s: Ledger, states: map<nat, AccountState>)
    requires Describes(image, s)
    requires IsLoaded(StoredLeaves(image.accountTree.data, |s.leaves|), image.accountStates, StatesOf(s.accounts),
                      states)
    ensures states.Keys <= s.accounts.Keys && FoundIds(image, s, states.Keys)
    ensures states == Kept(StatesOf(s.accounts), states.Keys)
  {
    hide Stands, AllStand, IsStateDb, StoredLeaves, BalancesOf, OrderLeavesOf, OrdersOf, CursorsOf;
    forall a | a in states
      ensures a in s.accounts
    {
      Row(s.accounts, a);
    }
    hide StatesOf;
    assert states == Kept(StatesOf(s.accounts), states.Keys);
  }

  /**
   * `load_persist` into a state of the same levels: it fails when a stored leaf has no record filed under its digest.
   */
  method LoadPersist(state: GlobalState, image: Image, ghost s: Ledger) returns (r: Result<()>)
    requires state.Valid() && Describes(image, s) && Shape(s) && s.levels == state.levels
    modifies state
    ensures state.Valid() && (r.Err? ==> state.view == old(state.view))
    ensures var stored := StoredLeaves(image.accountTree.data, |s.leaves|);
            r.Ok? <==> forall i :: i in stored ==> stored[i] in image.accountStates
    ensures r.Ok? ==>
              exists ids ::
                FoundIds(image, s, ids) && Reloaded(s, ids, state.view) && state.strays == Strays(image, s, ids)
    ensures r.Ok? ==> fresh(state.Trees() - old(state.Trees()))
  {
    hide Stands, AllStand, IsStateDb, IsLoaded, Forest, Shape, GlobalState.Precomputed, IsRebuilt, FoundIds, StatesOf;
    hide BalancesOf, OrderLeavesOf, OrdersOf, CursorsOf, Kept, StoredLeaves;
    HeightStands(image.accountTree, s.levels.account, s.leaves);
    var states := LoadAccountStates(StoredLeaves(image.accountTree.data, Pow2(state.levels.account)),
                                    image.accountStates, StatesOf(s.accounts));
    assert state.Trees() == old(state.Trees());
    if states.Err? {
      return Err(states.reason);
    }
    LoadedColumns(image, s, states.value);
    LoadRest(state, image, s, states.value);
    r := Ok(());
  }

  /** The leaves stored in an image whose account is not among those found. */
  ghost function Strays(image: Image, s: Ledger, ids: set<nat>): set<nat> {
    StoredLeaves(image.accountTree.data, |s.leaves|).Keys - ids
  }

  /** The trees, orders and cursors of the accounts found, and the mapping rebuilt from their orders. */
  method LoadRest(state: GlobalState, image: Image, ghost s: Ledger, states: map<nat, AccountState>)
    requires state.Valid() && Describes(image, s) && Shape(s) && s.levels == state.levels
    requires states.Keys <= s.accounts.Keys && states == Kept(StatesOf(s.accounts), states.Keys)
    modifies state
    ensures state.Valid() && Reloaded(s, states.Keys, state.view) && fresh(state.Trees())
    ensures state.strays == Strays(image, s, states.Keys)
  {
    hide Stands, AllStand, IsStateDb, Forest, Shape, GlobalState.Precomputed, IsRebuilt, StatesOf, BalancesOf;
    hide OrderLeavesOf, OrdersOf, CursorsOf, Kept, Tree.Valid, LeavesKnown, StoredLeaves, Strays, Pow2;
    var ids := states.Keys;
    HeightStands(image.accountTree, s.levels.account, s.leaves);
    SameIds(s.accounts);
    KeptColumns(s.accounts, ids);
    var tree := RestoreTree(image.accountTree, s.leaves, AccountTree);
    var balanceTrees, balanceForest :=
      LoadTrees(image.balanceTrees, ids, state.levels.balance, false, BalancesOf(s.accounts));
    var orderTrees, orderForest :=
      LoadTrees(image.orderTrees, ids, state.levels.order, true, OrderLeavesOf(s.accounts));
    ForestsApart(balanceForest, orderForest, tree);
    var orderStates := Kept(image.orderStates, ids);
    var positions := RebuildPositions(orderStates);
    ghost var r := Ledger(s.levels, s.leaves, Kept(s.accounts, ids), positions);
    KeptShape(s, ids, r);
    StraysKnown(image, s, ids);
    assert state.Trees() == old(state.Trees());
    Install(state, r, tree, states, balanceTrees, balanceForest, orderTrees, orderForest, orderStates, positions,
            Kept(image.cursors, ids), Strays(image, s, ids));
  }

  lemma StraysKnown(image: Image, s: Ledger, ids: set<nat>)
    requires ids <= s.accounts.Keys
    ensures LeavesKnown(image.accountTree.data, |s.leaves|, Kept(s.accounts, ids).Keys, Strays(image, s, ids))
  {
  }

  lemma SameIds(accounts: map<nat, Account>)
    ensures BalancesOf(accounts).Keys == accounts.Keys && OrderLeavesOf(accounts).Keys == accounts.Keys
  {
  }

  // ------------------------------------------------------------- round trip

  /** A stored leaf is the leaf the image stands for. */
  lemma StoredLeafIs(image: TreeImage, height: nat, leaves: seq<Fr>, i: nat)
    requires Stands(image, height, leaves) && i in StoredLeaves(image.data, |leaves|)
    ensures i < |leaves| && StoredLeaves(image.data, |leaves|)[i] == leaves[i]
  {
    var defaults := Defaults(height, image.defaultLeaf);
    assert FlattenedIdx(height, 0, i) == i;
    assert Lookup(height, defaults, image.data, 0, i) == image.data[i];
    assert Node(leaves, 0, i) == leaves[i];
  }

  /** No leaf is stored but those of accounts. */
  ghost predicate StoredAreAccounts(image: Image, s: Ledger) {
    forall i :: i in StoredLeaves(image.accountTree.data, |s.leaves|) ==> i in s.accounts
  }

  ghost predicate AllComeBack(image: Image, s: Ledger) {
    Recoverable(StoredLeaves(image.accountTree.data, |s.leaves|), StatesOf(s.accounts))
  }

  /** The same ledger, but for the ids of evicted orders. */
  ghost predicate ForgetsOnlyStale(s: Ledger, r: Ledger) {
    && r == s.(positions := r.positions)
    && (forall key :: key in r.positions <==> key in s.positions && !Stale(s, key))
    && (forall key :: key in r.positions ==> key in s.positions && r.positions[key] == s.positions[key])
  }

  /**
   * What is loaded of a consistent ledger: all accounts exactly when each has its digest stored and no
   * two accounts have one digest. Then everything is as before, but for the ids of evicted orders,
   * which are forgotten.
   */
  lemma SavedAndLoaded(image: Image, s: Ledger, ids: set<nat>, r: Ledger)
    requires Invariant(s) && Describes(image, s) && FoundIds(image, s, ids) && Reloaded(s, ids, r)
    ensures r.accounts == s.accounts <==> AllComeBack(image, s)
    ensures r.accounts == s.accounts ==> ForgetsOnlyStale(s, r) && Invariant(r) && StateRoot(r) == StateRoot(s)
  {
    hide *;
    ReloadedParts(s, ids, r);
    AccountsBack(image, s, ids, r);
    if r.accounts == s.accounts {
      RebuiltDropsStale(s, r.positions);
      RebuiltKeepsInvariant(s, r);
      OnlyStale(s, r);
    }
  }

  lemma ReloadedParts(s: Ledger, ids: set<nat>, r: Ledger)
    requires Reloaded(s, ids, r)
    ensures r.accounts == Kept(s.accounts, ids) && IsRebuilt(r.positions, OrdersOf(r.accounts))
    ensures r.accounts == s.accounts ==> r == s.(positions := r.positions)
  {
    hide Kept, IsRebuilt, OrdersOf;
  }

  lemma OnlyStale(s: Ledger, r: Ledger)
    requires r == s.(positions := r.positions)
    requires forall key :: key in r.positions <==> key in s.positions && !Stale(s, key)
    requires forall key :: key in r.positions ==> r.positions[key] == s.positions[key]
    ensures ForgetsOnlyStale(s, r)
  {
    hide Stale;
  }

  lemma AccountsBack(image: Image, s: Ledger, ids: set<nat>, r: Ledger)
    requires Describes(image, s) && FoundIds(image, s, ids) && r.accounts == Kept(s.accounts, ids)
    ensures r.accounts == s.accounts <==> AllComeBack(image, s)
  {
    var stored, states := StoredLeaves(image.accountTree.data, |s.leaves|), StatesOf(s.accounts);
    FoundIsLoaded(image, s, ids);
    KeptAll(s.accounts, ids);
    assert IsStateDb(image.accountStates, states);
    hide Describes, FoundIds, Recoverable, StoredLeaves, StatesOf, Kept, IsStateDb, IsLoaded, AccountState.Hash;
    AccountsComeBack(stored, image.accountStates, states, Kept(states, ids));
  }

  lemma FoundIsLoaded(image: Image, s: Ledger, ids: set<nat>)
    requires FoundIds(image, s, ids)
    ensures IsLoaded(StoredLeaves(image.accountTree.data, |s.leaves|), image.accountStates, StatesOf(s.accounts),
                     Kept(StatesOf(s.accounts), ids))
  {
    hide StoredLeaves;
  }

  lemma StoredDigests(image: Image, s: Ledger)
    requires Invariant(s) && Describes(image, s)
    requires StoredAreAccounts(image, s)
    ensures forall i :: i in StoredLeaves(image.accountTree.data, |s.leaves|) ==>
              && i in StatesOf(s.accounts)
              && StoredLeaves(image.accountTree.data, |s.leaves|)[i] == StatesOf(s.accounts)[i].Hash()
  {
    hide Stands, StoredLeaves, AccountState.Hash, AllStand, IsStateDb, BalancesOf, OrderLeavesOf, OrdersOf, CursorsOf;
    hide Synced, Slotted, Mapped, Shape;
    forall i | i in StoredLeaves(image.accountTree.data, |s.leaves|)
      ensures i in StatesOf(s.accounts)
      ensures StoredLeaves(image.accountTree.data, |s.leaves|)[i] == StatesOf(s.accounts)[i].Hash()
    {
      StoredLeafIs(image.accountTree, s.levels.account, s.leaves, i);
    }
  }

  /** All accounts are kept exactly when all records are. */
  lemma KeptAll(accounts: map<nat, Account>, ids: set<nat>)
    ensures Kept(accounts, ids) == accounts <==> Kept(StatesOf(accounts), ids) == StatesOf(accounts)
  {
    if Kept(StatesOf(accounts), ids) == StatesOf(accounts) {
      forall a | a in accounts
        ensures a in ids
      {
        assert a in StatesOf(accounts);
        assert a in Kept(StatesOf(accounts), ids);
      }
    }
    if Kept(accounts, ids) == accounts {
      forall a | a in StatesOf(accounts)
        ensures a in ids
      {
        assert a in Kept(accounts, ids);
      }
    }
  }

  lemma RebuiltSlotted(s: Ledger, r: Ledger, a: nat)
    requires Invariant(s) && r == s.(positions := r.positions) && a in s.accounts
    requires forall key :: key in r.positions <==> key in s.positions && !Stale(s, key)
    requires forall key :: key in r.positions ==> r.positions[key] == s.positions[key]
    ensures Slotted(r, a, r.accounts[a]) && Synced(r.levels, r.accounts[a])
  {
    hide Synced, Pow2, Shape, Mapped, AccountState.Hash, EmptyAccount;
    assert Slotted(s, a, s.accounts[a]);
  }

  lemma RebuiltMapped(s: Ledger, r: Ledger)
    requires Mapped(s) && r == s.(positions := r.positions)
    requires forall key :: key in r.positions <==> key in s.positions && !Stale(s, key)
    requires forall key :: key in r.positions ==> r.positions[key] == s.positions[key]
    ensures Mapped(r)
  {
  }

  /** The rest of the invariant does not look at the mapping. */
  lemma RemappedInvariant(s: Ledger, r: Ledger)
    requires Invariant(s) && r == s.(positions := r.positions) && Mapped(r)
    requires forall a :: a in r.accounts ==> Slotted(r, a, r.accounts[a]) && Synced(r.levels, r.accounts[a])
    ensures Invariant(r) && StateRoot(r) == StateRoot(s)
  {
    hide Synced, Slotted, Mapped, Shape, Pow2, Root, AccountState.Hash, EmptyAccount;
    SameShape(s, r);
  }

  lemma RebuiltKeepsInvariant(s: Ledger, r: Ledger)
    requires Invariant(s) && r == s.(positions := r.positions)
    requires forall key :: key in r.positions <==> key in s.positions && !Stale(s, key)
    requires forall key :: key in r.positions ==> r.positions[key] == s.positions[key]
    ensures Invariant(r) && StateRoot(r) == StateRoot(s)
  {
    assert Mapped(s);
    hide Invariant, Synced, Slotted, Mapped, Stale, Pow2, Root, EmptyAccount;
    RebuiltMapped(s, r);
    forall a | a in r.accounts
      ensures Slotted(r, a, r.accounts[a]) && Synced(r.levels, r.accounts[a])
    {
      RebuiltSlotted(s, r, a);
    }
    RemappedInvariant(s, r);
  }

  // ------------------------------------------------------------ end to end

  /** An account whose digest is not that of an empty leaf has its leaf stored. */
  lemma StoredUnlessDefault(state: GlobalState, a: nat)
    requires state.Valid() && Invariant(state.view) && a in state.view.accounts
    ensures |state.accountTree.defaultNodes| > 0
    ensures state.view.accounts[a].state.Hash() == state.accountTree.defaultNodes[0]
         || a in StoredLeaves(state.accountTree.data, |state.view.leaves|)
  {
    hide GlobalState.Valid, Invariant, Tree.Valid, AccountState.Hash, Pow2;
    LeafFacts(state, a);
    LeafStoredOrDefault(state.accountTree, a);
  }

  lemma LeafStoredOrDefault(tree: Tree, a: nat)
    requires tree.Valid() && a < Pow2(tree.height)
    ensures |tree.defaultNodes| > 0 && a < |tree.leaves|
    ensures a in tree.data || tree.leaves[a] == tree.defaultNodes[0]
  {
    hide Pow2;
    assert FlattenedIdx(tree.height, 0, a) == a;
    assert Lookup(tree.height, tree.defaultNodes, tree.data, 0, a) == Node(tree.leaves, 0, a);
  }

  lemma LeafFacts(state: GlobalState, a: nat)
    requires state.Valid() && Invariant(state.view) && a in state.view.accounts
    ensures var tree, s := state.accountTree, state.view;
            && tree.Valid() && tree.height == s.levels.account && tree.leaves == s.leaves && a < |s.leaves|
            && s.leaves[a] == s.accounts[a].state.Hash() && |s.leaves| == Pow2(s.levels.account)
  {
    hide GlobalState.Precomputed, Forest, StatesOf, BalancesOf, OrderLeavesOf, OrdersOf, CursorsOf, Pow2, Between;
    hide Synced, Slotted, Mapped;
  }

  /**
   * A condition on the records alone: digests that differ from each other and from that of an empty leaf are enough.
   */
  lemma DistinctRecordsFaithful(state: GlobalState)
    requires state.Valid() && Invariant(state.view)
    requires |state.accountTree.defaultNodes| > 0
    requires var accounts := state.view.accounts;
             && (forall a :: a in accounts ==> accounts[a].state.Hash() != state.accountTree.defaultNodes[0])
             && (forall a, b :: a in accounts && b in accounts && a != b ==>
                   accounts[a].state.Hash() != accounts[b].state.Hash())
    ensures Faithful(StoredLeaves(state.accountTree.data, |state.view.leaves|), StatesOf(state.view.accounts))
  {
    hide Invariant, GlobalState.Valid, StoredLeaves, AccountState.Hash;
    forall a | a in state.view.accounts
      ensures a in StoredLeaves(state.accountTree.data, |state.view.leaves|)
    {
      StoredUnlessDefault(state, a);
    }
  }

  /**
   * When all stored leaves are those of accounts, every one of them finds a record, and its own leaf is what each
   * account needs.
   */
  lemma NoStrays(image: Image, s: Ledger)
    requires Invariant(s) && Describes(image, s) && StoredAreAccounts(image, s)
    ensures forall i :: i in StoredLeaves(image.accountTree.data, |s.leaves|) ==>
              StoredLeaves(image.accountTree.data, |s.leaves|)[i] in image.accountStates
    ensures AllComeBack(image, s) <==> Faithful(StoredLeaves(image.accountTree.data, |s.leaves|), StatesOf(s.accounts))
  {
    StoredDigests(image, s);
    assert IsStateDb(image.accountStates, StatesOf(s.accounts));
    RecoverableIsFaithful(StoredLeaves(image.accountTree.data, |s.leaves|), StatesOf(s.accounts));
    hide Invariant, Describes, StoredLeaves, StatesOf, Recoverable, Faithful, AccountState.Hash;
  }

  /**
   * A consistent state without strays, saved and loaded into another state: loading succeeds, and
   * everything comes back exactly when every account has its leaf stored and no two accounts have one
   * digest. Only the ids of evicted orders are forgotten, and there are no strays again.
   */
  method SaveAndLoad(state: GlobalState, target: GlobalState) returns (r: Result<()>)
    requires state.Valid() && Invariant(state.view) && state.strays == {}
    requires target.Valid() && target.levels == state.levels && target != state
    modifies target
    ensures state.Valid() && state.view == old(state.view) && target.Valid() && r.Ok?
    ensures target.view.accounts == state.view.accounts <==>
              Faithful(StoredLeaves(state.accountTree.data, |state.view.leaves|), StatesOf(state.view.accounts))
    ensures target.view.accounts == state.view.accounts ==>
              && ForgetsOnlyStale(state.view, target.view) && Invariant(target.view)
              && StateRoot(target.view) == StateRoot(state.view)
              && target.strays == {}
  {
    hide GlobalState.Valid, Invariant, Describes, StoredLeaves, StatesOf, Faithful, FoundIds, Reloaded, AllComeBack;
    hide ForgetsOnlyStale, StateRoot, Shape;
    var image := Persist(state);
    ghost var s := state.view;
    assert state.Trees() == old(state.Trees()) && target.Trees() == old(target.Trees());
    LeavesOfAccounts(state, image);
    NoStrays(image, s);
    r := LoadPersist(target, image, s);
    ghost var ids :| FoundIds(image, s, ids) && Reloaded(s, ids, target.view) && target.strays == Strays(image, s, ids);
    SavedAndLoaded(image, s, ids, target.view);
    if target.view.accounts == s.accounts {
      KeptIds(image, s, ids, target.view);
    }
    assert state.Trees() == old(state.Trees());
  }

  lemma LeavesOfAccounts(state: GlobalState, image: Image)
    requires state.Valid() && state.strays == {} && image.accountTree.data == state.accountTree.data
    ensures StoredAreAccounts(image, state.view) && Shape(state.view) && state.view.levels == state.levels
  {
    hide Tree.Valid, Forest, GlobalState.Precomputed, StatesOf, BalancesOf, OrderLeavesOf, OrdersOf, CursorsOf, Pow2;
  }

  lemma KeptIds(image: Image, s: Ledger, ids: set<nat>, r: Ledger)
    requires FoundIds(image, s, ids) && Reloaded(s, ids, r) && StoredAreAccounts(image, s) && r.accounts == s.accounts
    ensures Strays(image, s, ids) == {}
  {
    hide StoredLeaves, IsRebuilt, OrdersOf;
    forall a | a in s.accounts
      ensures a in ids
    {
      assert a in Kept(s.accounts, ids);
    }
  }
}
