/**
 * What the digests commit to: two states with one root agree, or two inputs of the hash with one digest are at hand.
 */
module Commitment {
  import opened Field
  import opened MerkleSpec
  import opened Records
  import opened Ledger
  import opened Transactions
  import opened Invariants
  import opened Witness

  /** Two different inputs of the hash with this digest. */
  ghost predicate Collides(u: seq<Fr>, v: seq<Fr>, digest: Fr) {
    u != v && POSEIDON(u) == digest && POSEIDON(v) == digest
  }

  // ---------------------------------------------------------------- records

  /** What the packing of nonce and sign into one element takes for granted. */
  predicate StateInWidth(x: AccountState) {
    x.nonce < 1099511627776 && x.sign < 2
  }

  lemma ShiftedBy(a: Fr, bits: nat, factor: nat)
    requires Pow2(bits) == factor && a * factor < P
    ensures Shl(a, bits) == a * factor
  {
    ModUnique(P, 0, a * factor);
    hide Pow2;
  }

  lemma Shifts()
    ensures Pow2(32) == 4294967296 && Pow2(40) == 1099511627776 && Pow2(64) == 18446744073709551616
  {
    WordSize();
    assert Pow2(8) == 256;
    Pow2Sum(32, 8);
    Pow2Sum(32, 32);
  }

  /** Different account records with one digest: the digest covers every field. */
  lemma StateCollision(x: AccountState, y: AccountState) returns (u: seq<Fr>, v: seq<Fr>)
    requires x != y && StateInWidth(x) && StateInWidth(y) && x.Hash() == y.Hash()
    ensures Collides(u, v, x.Hash())
  {
    Shifts();
    hide Pow2;
    ShiftedBy(x.sign, 40, 1099511627776);
    ShiftedBy(y.sign, 40, 1099511627776);
    u := [Add(x.nonce, Shl(x.sign, 40)), x.balanceRoot, x.ay, x.orderRoot];
    v := [Add(y.nonce, Shl(y.sign, 40)), y.balanceRoot, y.ay, y.orderRoot];
    assert u[0] != v[0] || u[1] != v[1] || u[2] != v[2] || u[3] != v[3];
  }

  predicate OrderInWidth(o: Order) {
    o.orderId < 4294967296 && o.tokenBuy < 4294967296 && o.tokenSell < 4294967296
  }

  /** The same id, tokens, totals and fills; owner, side, signature and active flag may differ. */
  predicate SameTerms(o: Order, o': Order) {
    && o.orderId == o'.orderId && o.tokenBuy == o'.tokenBuy && o.tokenSell == o'.tokenSell
    && o.totalBuy == o'.totalBuy && o.totalSell == o'.totalSell
    && o.filledBuy == o'.filledBuy && o.filledSell == o'.filledSell
  }

  /** Orders of different terms with one digest: the digest covers all terms. */
  lemma OrderCollision(o: Order, o': Order) returns (u: seq<Fr>, v: seq<Fr>)
    requires !SameTerms(o, o') && OrderInWidth(o) && OrderInWidth(o') && o.Hash() == o'.Hash()
    ensures Collides(u, v, o.Hash())
  {
    u := OrderInput(o);
    v := OrderInput(o');
    PackedTerms(o);
    PackedTerms(o');
    hide Order.Hash, Add, Shl;
    Unpacked(o.orderId, o.tokenBuy, o.tokenSell, o'.orderId, o'.tokenBuy, o'.tokenSell);
    assert u[0] != v[0] || u[1] != v[1] || u[2] != v[2] || u[3] != v[3] || u[4] != v[4];
  }

  /** What is hashed of an order: its id and tokens packed into one element, and its four amounts. */
  function OrderInput(o: Order): (u: seq<Fr>)
    ensures |u| == 5 && u[1] == o.filledSell && u[2] == o.filledBuy && u[3] == o.totalSell && u[4] == o.totalBuy
  {
    [Add(Add(o.orderId % P, Shl(o.tokenBuy, 32)), Shl(o.tokenSell, 64)),
     o.filledSell, o.filledBuy, o.totalSell, o.totalBuy]
  }

  lemma PackedTerms(o: Order)
    requires OrderInWidth(o)
    ensures POSEIDON(OrderInput(o)) == o.Hash()
    ensures OrderInput(o)[0] == o.orderId + o.tokenBuy * 4294967296 + o.tokenSell * 18446744073709551616
  {
    Shifts();
    hide Pow2;
    ShiftedBy(o.tokenBuy, 32, 4294967296);
    ShiftedBy(o.tokenSell, 64, 18446744073709551616);
    ModUnique(P, 0, o.orderId);
  }

  lemma Unpacked(a: nat, b: nat, c: nat, a': nat, b': nat, c': nat)
    requires a < 4294967296 && b < 4294967296 && a' < 4294967296 && b' < 4294967296
    ensures a + b * 4294967296 + c * 18446744073709551616 == a' + b' * 4294967296 + c' * 18446744073709551616
            ==> a == a' && b == b' && c == c'
  {
  }

  // ------------------------------------------------------------------ trees

  lemma PairCollision(a: Fr, b: Fr, c: Fr, d: Fr) returns (u: seq<Fr>, v: seq<Fr>)
    requires Hash2(a, b) == Hash2(c, d) && (a != c || b != d)
    ensures Collides(u, v, Hash2(a, b))
  {
    u, v := [a, b], [c, d];
    assert u[0] != v[0] || u[1] != v[1];
  }

  /** Below one node two trees agree, or some node of both comes from different children. */
  lemma {:induction false} NodeCollision(leaves: seq<Fr>, leaves': seq<Fr>, level: nat, idx: nat, i: nat)
    returns (k: nat, at: nat, u: seq<Fr>, v: seq<Fr>)
    requires |leaves| == |leaves'| && i < |leaves| && leaves[i] != leaves'[i] && Ancestor(i, level) == idx
    requires Node(leaves, level, idx) == Node(leaves', level, idx)
    ensures 0 < k <= level && Collides(u, v, Node(leaves, k, at)) && Node(leaves', k, at) == Node(leaves, k, at)
    decreases level
  {
    hide Hash2, Collides;
    var child := Ancestor(i, level - 1);
    if Node(leaves, level - 1, child) == Node(leaves', level - 1, child) {
      k, at, u, v := NodeCollision(leaves, leaves', level - 1, child, i);
    } else {
      k, at := level, idx;
      u, v := PairCollision(Node(leaves, level - 1, 2 * idx), Node(leaves, level - 1, 2 * idx + 1),
                            Node(leaves', level - 1, 2 * idx), Node(leaves', level - 1, 2 * idx + 1));
    }
  }

  /** Different leaves under one root: some node of both trees comes from different children. */
  lemma RootCollision(leaves: seq<Fr>, leaves': seq<Fr>, height: nat)
    returns (k: nat, at: nat, u: seq<Fr>, v: seq<Fr>)
    requires |leaves| == |leaves'| == Pow2(height) && leaves != leaves'
    requires Root(leaves, height) == Root(leaves', height)
    ensures 0 < k <= height && Collides(u, v, Node(leaves, k, at)) && Node(leaves', k, at) == Node(leaves, k, at)
  {
    hide Node, Collides;
    var i :| 0 <= i < |leaves| && leaves[i] != leaves'[i];
    AncestorBound(i, height, height);
    k, at, u, v := NodeCollision(leaves, leaves', height, 0, i);
  }

  // -------------------------------------------------------------- the state

  /** A digest kept in one of the trees of the state. */
  ghost predicate DigestOf(s: Ledger, digest: Fr) {
    || (exists k: nat, at: nat :: digest == Node(s.leaves, k, at))
    || (exists a: nat, k: nat, at: nat :: digest == Node(At(s, a).balances, k, at))
    || (exists a: nat, k: nat, at: nat :: digest == Node(At(s, a).orderLeaves, k, at))
  }

  /** What the state root says of one account: its record, its balances, and the terms of its orders. */
  ghost predicate SameAccount(s: Ledger, r: Ledger, a: nat) {
    && At(r, a).state == At(s, a).state && At(r, a).balances == At(s, a).balances
    && forall pos: nat :: pos < Pow2(s.levels.order) ==> SameTerms(OrderAt(s, a, pos), OrderAt(r, a, pos))
  }

  ghost predicate AccountInWidth(s: Ledger, a: nat) {
    && StateInWidth(At(s, a).state)
    && forall pos: nat :: pos < Pow2(s.levels.order) ==> OrderInWidth(OrderAt(s, a, pos))
  }

  lemma LeafDigest(s: Ledger, k: nat, at: nat)
    ensures DigestOf(s, Node(s.leaves, k, at))
  {
    hide Node;
  }

  lemma BalanceDigest(s: Ledger, a: nat, k: nat, at: nat)
    ensures DigestOf(s, Node(At(s, a).balances, k, at))
  {
    hide Node, At;
  }

  lemma OrderDigestOf(s: Ledger, a: nat, k: nat, at: nat)
    ensures DigestOf(s, Node(At(s, a).orderLeaves, k, at))
  {
    hide Node, At;
  }

  /** Two states with different records of an account under one root collide somewhere in the account tree. */
  lemma RecordMovesRoot(s: Ledger, r: Ledger, a: nat) returns (digest: Fr, u: seq<Fr>, v: seq<Fr>)
    requires Invariant(s) && Invariant(r) && r.levels == s.levels && a < |s.leaves|
    requires At(s, a).state != At(r, a).state && StateInWidth(At(s, a).state) && StateInWidth(At(r, a).state)
    requires StateRoot(r) == StateRoot(s)
    ensures DigestOf(s, digest) && Collides(u, v, digest)
  {
    hide Invariant, Collides, DigestOf, AccountState.Hash, EmptyAccount, Pow2, Node, StateInWidth, Consistent;
    ShapeFacts(s);
    ShapeFacts(r);
    Reads(s, a);
    Reads(r, a);
    if r.leaves[a] == s.leaves[a] {
      digest := s.leaves[a];
      u, v := StateCollision(At(s, a).state, At(r, a).state);
      LeafIsNode(s.leaves, a);
      LeafDigest(s, 0, a);
    } else {
      var k, at;
      k, at, u, v := RootCollision(s.leaves, r.leaves, s.levels.account);
      digest := Node(s.leaves, k, at);
      LeafDigest(s, k, at);
    }
  }

  lemma LeafIsNode(leaves: seq<Fr>, i: nat)
    requires i < |leaves|
    ensures Node(leaves, 0, i) == leaves[i]
  {
  }

  lemma TreesOf(s: Ledger, a: nat)
    requires Invariant(s) && a < |s.leaves|
    ensures |At(s, a).balances| == Pow2(s.levels.balance) && |At(s, a).orderLeaves| == Pow2(s.levels.order)
    ensures At(s, a).state.balanceRoot == Root(At(s, a).balances, s.levels.balance)
    ensures At(s, a).state.orderRoot == Root(At(s, a).orderLeaves, s.levels.order)
    ensures forall pos: nat :: pos < Pow2(s.levels.order) ==> At(s, a).orderLeaves[pos] == OrderAt(s, a, pos).Hash()
  {
    Reads(s, a);
    hide Invariant, Slotted, Root, Order.Hash, AccountState.Hash, EmptyAccount, Pow2;
  }

  /** One record, different balances: a collision in the account's balance tree. */
  lemma BalancesCollide(s: Ledger, r: Ledger, a: nat) returns (digest: Fr, u: seq<Fr>, v: seq<Fr>)
    requires Invariant(s) && Invariant(r) && r.levels == s.levels && a < |s.leaves| == |r.leaves|
    requires At(s, a).state == At(r, a).state && At(s, a).balances != At(r, a).balances
    ensures DigestOf(s, digest) && Collides(u, v, digest)
  {
    hide Invariant, Collides, DigestOf, At, Pow2, Node, Order.Hash, SlotOrder;
    TreesOf(s, a);
    TreesOf(r, a);
    var k, at;
    k, at, u, v := RootCollision(At(s, a).balances, At(r, a).balances, s.levels.balance);
    digest := Node(At(s, a).balances, k, at);
    BalanceDigest(s, a, k, at);
  }

  /** One record, different order terms: a collision in the account's order tree, or of the two orders. */
  lemma OrdersCollide(s: Ledger, r: Ledger, a: nat, pos: nat) returns (digest: Fr, u: seq<Fr>, v: seq<Fr>)
    requires Invariant(s) && Invariant(r) && r.levels == s.levels && a < |s.leaves| == |r.leaves|
    requires At(s, a).state == At(r, a).state && pos < Pow2(s.levels.order)
    requires !SameTerms(OrderAt(s, a, pos), OrderAt(r, a, pos))
    requires OrderInWidth(OrderAt(s, a, pos)) && OrderInWidth(OrderAt(r, a, pos))
    ensures DigestOf(s, digest) && Collides(u, v, digest)
  {
    hide Invariant, Collides, DigestOf, At, Pow2, Node, Order.Hash, SlotOrder, SameTerms, OrderInWidth, OrderAt;
    TreesOf(s, a);
    TreesOf(r, a);
    if At(s, a).orderLeaves[pos] == At(r, a).orderLeaves[pos] {
      u, v := OrderCollision(OrderAt(s, a, pos), OrderAt(r, a, pos));
      digest := At(s, a).orderLeaves[pos];
      LeafIsNode(At(s, a).orderLeaves, pos);
      OrderDigestOf(s, a, 0, pos);
    } else {
      var k, at;
      k, at, u, v := RootCollision(At(s, a).orderLeaves, At(r, a).orderLeaves, s.levels.order);
      digest := Node(At(s, a).orderLeaves, k, at);
      OrderDigestOf(s, a, k, at);
    }
  }

  /**
   * The state root commits to every account: two consistent states with one root agree on the record,
   * the balances and the order terms of an account, or two inputs of the hash with one digest of the
   * state are at hand.
   */
  lemma StateRootCommits(s: Ledger, r: Ledger, a: nat) returns (digest: Fr, u: seq<Fr>, v: seq<Fr>)
    requires Invariant(s) && Invariant(r) && r.levels == s.levels && a < |s.leaves| && StateRoot(r) == StateRoot(s)
    requires AccountInWidth(s, a) && AccountInWidth(r, a)
    ensures SameAccount(s, r, a) || (DigestOf(s, digest) && Collides(u, v, digest))
  {
    hide Invariant, Collides, DigestOf, At, Pow2, SameTerms, OrderInWidth, OrderAt, StateInWidth, StateRoot;
    ShapeFacts(s);
    ShapeFacts(r);
    digest, u, v := 0, [], [];
    if At(s, a).state != At(r, a).state {
      digest, u, v := RecordMovesRoot(s, r, a);
    } else if At(s, a).balances != At(r, a).balances {
      digest, u, v := BalancesCollide(s, r, a);
    } else if pos: nat :| pos < Pow2(s.levels.order) && !SameTerms(OrderAt(s, a, pos), OrderAt(r, a, pos)) {
      digest, u, v := OrdersCollide(s, r, a, pos);
    }
  }

  // ---------------------------------------------- operations move the root

  /** A key update moves the state root, unless two inputs with one digest of the state are at hand. */
  lemma KeyUpdateMovesRoot(s: Ledger, a: nat, sign: Fr, ay: Fr) returns (digest: Fr, u: seq<Fr>, v: seq<Fr>)
    requires Invariant(s) && a < |s.leaves| && KeyUpdated(s, a, sign, ay).Ok? && ay != 0
    requires StateInWidth(At(s, a).state) && sign < 2
    requires StateRoot(KeyUpdated(s, a, sign, ay).value) == StateRoot(s)
    ensures DigestOf(s, digest) && Collides(u, v, digest)
  {
    hide Invariant, Collides, DigestOf, AccountState.Hash, EmptyAccount, Pow2, Root, StateRoot, Consistent, Sized;
    Reads(s, a);
    TreesOf(s, a);
    var r := KeyUpdated(s, a, sign, ay).value;
    KeyUpdateKeeps(s, a, sign, ay);
    KeyUpdatedRecord(s, a, sign, ay);
    hide KeyUpdated, At;
    digest, u, v := RecordMovesRoot(s, r, a);
  }

  /** So does a withdrawal, which raises the nonce. */
  lemma WithdrawMovesRoot(s: Ledger, a: nat, t: nat, amount: Fr) returns (digest: Fr, u: seq<Fr>, v: seq<Fr>)
    requires Invariant(s) && a < |s.leaves| && t < Pow2(s.levels.balance)
    requires StateInWidth(At(s, a).state) && At(s, a).state.nonce + 1 < 1099511627776
    requires StateRoot(Withdrawn(s, a, t, amount)) == StateRoot(s)
    ensures DigestOf(s, digest) && Collides(u, v, digest)
  {
    hide Invariant, Collides, DigestOf, AccountState.Hash, EmptyAccount, Pow2, Root, StateRoot, Withdrawn, At;
    hide BalanceOf;
    hide Sub;
    TreesOf(s, a);
    WithdrawKeeps(s, a, t, amount);
    WithdrawnRecord(s, a, t, amount);
    digest, u, v := RecordMovesRoot(s, Withdrawn(s, a, t, amount), a);
  }

  /** And a transfer between two accounts, which raises the sender's nonce. */
  lemma TransferMovesRoot(s: Ledger, from: nat, to: nat, t: nat, amount: Fr)
    returns (digest: Fr, u: seq<Fr>, v: seq<Fr>)
    requires Invariant(s) && from < |s.leaves| && to < |s.leaves| && from != to && t < Pow2(s.levels.balance)
    requires StateInWidth(At(s, from).state) && At(s, from).state.nonce + 1 < 1099511627776
    requires StateRoot(Transferred(s, from, to, t, amount)) == StateRoot(s)
    ensures DigestOf(s, digest) && Collides(u, v, digest)
  {
    hide Invariant, Collides, DigestOf, AccountState.Hash, EmptyAccount, Pow2, Root, StateRoot, Transferred, At;
    hide BalanceOf, Sub;
    TreesOf(s, from);
    TreesOf(s, to);
    TransferKeeps(s, from, to, t, amount);
    TransferredRecords(s, from, to, t, amount);
    digest, u, v := RecordMovesRoot(s, Transferred(s, from, to, t, amount), from);
  }
}
