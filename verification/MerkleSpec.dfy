/** The dense Merkle tree: what the sparse tree of `MerkleTree` stands for. */
module MerkleSpec {
  import opened Field

  /** The value of node `idx` at `level` over the given leaves; level 0 are the leaves themselves. */
  function Node(leaves: seq<Fr>, level: nat, idx: nat): Fr
    decreases level
  {
    if level == 0 then
      if idx < |leaves| then leaves[idx] else 0
    else
      Hash2(Node(leaves, level - 1, 2 * idx), Node(leaves, level - 1, 2 * idx + 1))
  }

  function Root(leaves: seq<Fr>, height: nat): Fr {
    Node(leaves, height, 0)
  }

  /** The textbook definition by halving, independent of level and index arithmetic. */
  ghost function DenseRoot(leaves: seq<Fr>, height: nat): Fr
    requires |leaves| == Pow2(height)
  {
    if height == 0 then
      leaves[0]
    else
      var half := Pow2(height - 1);
      Hash2(DenseRoot(leaves[..half], height - 1), DenseRoot(leaves[half..], height - 1))
  }

  /** Four leaves: left before right at both levels. */
  lemma RootOfFour(a: Fr, b: Fr, c: Fr, d: Fr)
    ensures Root([a, b, c, d], 2) == POSEIDON([POSEIDON([a, b]), POSEIDON([c, d])])
  {
    var leaves := [a, b, c, d];
    assert Node(leaves, 1, 0) == Hash2(a, b) && Node(leaves, 1, 1) == Hash2(c, d);
  }

  /** The index of the ancestor of leaf `idx` at `level`. */
  function Ancestor(idx: nat, level: nat): nat {
    if level == 0 then idx else Ancestor(idx, level - 1) / 2
  }

  function Sibling(idx: nat): nat {
    if idx % 2 == 1 then idx - 1 else idx + 1
  }

  /** The siblings met on the way from leaf `idx` to the root. */
  function Path(leaves: seq<Fr>, height: nat, idx: nat): (path: seq<Fr>)
    ensures |path| == height
  {
    if height == 0 then []
    else Path(leaves, height - 1, idx) + [Node(leaves, height - 1, Sibling(Ancestor(idx, height - 1)))]
  }

  lemma {:induction false} PathAt(leaves: seq<Fr>, height: nat, idx: nat, level: nat)
    requires level < height
    ensures Path(leaves, height, idx)[level] == Node(leaves, level, Sibling(Ancestor(idx, level)))
    decreases height
  {
    if level < height - 1 {
      PathAt(leaves, height - 1, idx, level);
    }
  }

  /** A parent computed from a child, its sibling and the child's index. */
  function Combine(value: Fr, sibling: Fr, idx: nat): Fr {
    if idx % 2 == 0 then Hash2(value, sibling) else Hash2(sibling, value)
  }

  /** The first `k` levels of folding a leaf along a path. */
  function FoldUpTo(leaf: Fr, path: seq<Fr>, idx: nat, k: nat): Fr
    requires k <= |path|
  {
    if k == 0 then leaf else Combine(FoldUpTo(leaf, path, idx, k - 1), path[k - 1], Ancestor(idx, k - 1))
  }

  /** What a verifier holding only a leaf, its index and a path computes as the root. */
  function Fold(leaf: Fr, path: seq<Fr>, idx: nat): Fr {
    FoldUpTo(leaf, path, idx, |path|)
  }

  /** A sequence of leaf writes, in order; writes past the last leaf are ignored. */
  function ApplyUpdates(leaves: seq<Fr>, updates: seq<(nat, Fr)>): (r: seq<Fr>)
    ensures |r| == |leaves|
    decreases |updates|
  {
    if updates == [] then
      leaves
    else
      var before := ApplyUpdates(leaves, updates[..|updates| - 1]);
      var (idx, value) := updates[|updates| - 1];
      if idx < |before| then before[idx := value] else before
  }

  // ---------------------------------------------------------------- indices

  lemma {:induction false} AncestorBound(idx: nat, height: nat, level: nat)
    requires level <= height && idx < Pow2(height)
    ensures Ancestor(idx, level) < Pow2(height - level)
  {
    if level > 0 {
      AncestorBound(idx, height, level - 1);
    }
  }

  lemma SiblingBound(idx: nat, n: nat)
    requires n >= 1 && idx < Pow2(n)
    ensures Sibling(idx) < Pow2(n) && Sibling(idx) != idx && Sibling(idx) / 2 == idx / 2
  {
    var half := Pow2(n - 1);
    assert Pow2(n) == 2 * half;
    assert idx / 2 < half;
  }

  // ------------------------------------------------- single-leaf dependence

  /** A write to leaf `at` is felt only by the ancestors of `at`. */
  lemma {:induction false} NodeOffPath(leaves: seq<Fr>, at: nat, value: Fr, level: nat, idx: nat)
    requires at < |leaves| && Ancestor(at, level) != idx
    ensures Node(leaves[at := value], level, idx) == Node(leaves, level, idx)
    decreases level
  {
    hide Node;
    if level > 0 {
      NodeOffPath(leaves, at, value, level - 1, 2 * idx);
      NodeOffPath(leaves, at, value, level - 1, 2 * idx + 1);
    }
    SameChildren(leaves, leaves[at := value], level, idx);
  }

  lemma SameChildren(leaves: seq<Fr>, leaves': seq<Fr>, level: nat, idx: nat)
    requires level == 0 ==> |leaves| == |leaves'| && (idx < |leaves| ==> leaves[idx] == leaves'[idx])
    requires level > 0 ==>
               && Node(leaves', level - 1, 2 * idx) == Node(leaves, level - 1, 2 * idx)
               && Node(leaves', level - 1, 2 * idx + 1) == Node(leaves, level - 1, 2 * idx + 1)
    ensures Node(leaves', level, idx) == Node(leaves, level, idx)
  {
  }

  /** The level/index definition and the halving definition agree on every subtree. */
  lemma {:induction false} NodeIsDenseRoot(leaves: seq<Fr>, level: nat, idx: nat, from: nat)
    requires from == idx * Pow2(level) && from + Pow2(level) <= |leaves|
    ensures Node(leaves, level, idx) == DenseRoot(leaves[from..from + Pow2(level)], level)
    decreases level
  {
    hide Node, DenseRoot;
    if level > 0 {
      var half := Pow2(level - 1);
      Halves(idx, half);
      NodeIsDenseRoot(leaves, level - 1, 2 * idx, from);
      NodeIsDenseRoot(leaves, level - 1, 2 * idx + 1, from + half);
    }
    JoinHalves(leaves, level, idx, from);
  }

  lemma JoinHalves(leaves: seq<Fr>, level: nat, idx: nat, from: nat)
    requires from + Pow2(level) <= |leaves|
    requires level == 0 ==> from == idx
    requires level > 0 ==>
               var half := Pow2(level - 1);
               && Node(leaves, level - 1, 2 * idx) == DenseRoot(leaves[from..from + half], level - 1)
               && Node(leaves, level - 1, 2 * idx + 1) == DenseRoot(leaves[from + half..from + half + half], level - 1)
    ensures Node(leaves, level, idx) == DenseRoot(leaves[from..from + Pow2(level)], level)
  {
    if level > 0 {
      SliceHalves(leaves, from, Pow2(level - 1));
    }
  }

  lemma Halves(idx: nat, half: nat)
    ensures idx * (2 * half) == 2 * idx * half
    ensures 2 * idx * half + half == (2 * idx + 1) * half
  {
  }

  lemma SliceHalves(leaves: seq<Fr>, from: nat, half: nat)
    requires from + 2 * half <= |leaves|
    ensures leaves[from..from + 2 * half][..half] == leaves[from..from + half]
    ensures leaves[from..from + 2 * half][half..] == leaves[from + half..from + half + half]
  {
  }

  lemma RootIsDenseRoot(leaves: seq<Fr>, height: nat)
    requires |leaves| == Pow2(height)
    ensures Root(leaves, height) == DenseRoot(leaves, height)
  {
    hide Node, DenseRoot;
    NodeIsDenseRoot(leaves, height, 0, 0);
    assert leaves[0..Pow2(height)] == leaves;
  }

  // ------------------------------------------------------------------ paths

  /** A node combined with its sibling is their parent. */
  lemma ParentOf(leaves: seq<Fr>, level: nat, idx: nat)
    ensures Combine(Node(leaves, level, idx), Node(leaves, level, Sibling(idx)), idx)
              == Node(leaves, level + 1, idx / 2)
  {
    if idx % 2 == 0 {
      assert 2 * (idx / 2) == idx;
    } else {
      assert 2 * (idx / 2) + 1 == idx;
    }
  }

  /** One more level of folding, stated for any path that holds the right sibling. */
  lemma FoldStep(leaves: seq<Fr>, leaf: Fr, path: seq<Fr>, idx: nat, k: nat)
    requires k < |path| && path[k] == Node(leaves, k, Sibling(Ancestor(idx, k)))
    requires FoldUpTo(leaf, path, idx, k) == Node(leaves, k, Ancestor(idx, k))
    ensures FoldUpTo(leaf, path, idx, k + 1) == Node(leaves, k + 1, Ancestor(idx, k + 1))
  {
    ParentOf(leaves, k, Ancestor(idx, k));
  }

  /** Upward induction, with the property kept abstract. */
  lemma {:induction false} UpTo(p: nat -> bool, n: nat)
    requires p(0) && forall j {:trigger p(j)} :: 0 <= j < n && p(j) ==> p(j + 1)
    ensures p(n)
  {
    if n > 0 {
      UpTo(p, n - 1);
    }
  }

  lemma FoldStart(leaves: seq<Fr>, path: seq<Fr>, idx: nat)
    requires idx < |leaves|
    ensures FoldUpTo(leaves[idx], path, idx, 0) == Node(leaves, 0, Ancestor(idx, 0))
  {
  }

  lemma FoldReachesAncestor(leaves: seq<Fr>, height: nat, idx: nat, k: nat)
    requires idx < |leaves| && k <= height
    ensures FoldUpTo(leaves[idx], Path(leaves, height, idx), idx, k) == Node(leaves, k, Ancestor(idx, k))
  {
    hide Node, FoldUpTo, Ancestor, Sibling, Combine, Path;
    var path := Path(leaves, height, idx);
    var agree := (n: nat) => n <= height && FoldUpTo(leaves[idx], path, idx, n) == Node(leaves, n, Ancestor(idx, n));
    FoldStart(leaves, path, idx);
    forall j | 0 <= j < k && agree(j)
      ensures agree(j + 1)
    {
      PathAt(leaves, height, idx, j);
      FoldStep(leaves, leaves[idx], path, idx, j);
    }
    UpTo(agree, k);
  }

  /** A leaf's own path folds it to the root. */
  lemma FoldGivesRoot(leaves: seq<Fr>, height: nat, idx: nat)
    requires |leaves| == Pow2(height) && idx < |leaves|
    ensures Fold(leaves[idx], Path(leaves, height, idx), idx) == Root(leaves, height)
  {
    FoldReachesAncestor(leaves, height, idx, height);
    AncestorBound(idx, height, height);
    assert Ancestor(idx, height) == 0;
  }

  /** Writing a leaf leaves its own path as it was. */
  lemma {:induction false} PathIgnoresOwnLeaf(leaves: seq<Fr>, height: nat, idx: nat, value: Fr)
    requires idx < |leaves|
    ensures Path(leaves[idx := value], height, idx) == Path(leaves, height, idx)
    decreases height
  {
    if height > 0 {
      PathIgnoresOwnLeaf(leaves, height - 1, idx, value);
      NodeOffPath(leaves, idx, value, height - 1, Sibling(Ancestor(idx, height - 1)));
    }
  }

  /** The path read before a write folds the new value to the new root. */
  lemma FoldAfterWrite(leaves: seq<Fr>, height: nat, idx: nat, value: Fr)
    requires |leaves| == Pow2(height) && idx < |leaves|
    ensures Fold(value, Path(leaves, height, idx), idx) == Root(leaves[idx := value], height)
  {
    PathIgnoresOwnLeaf(leaves, height, idx, value);
    FoldGivesRoot(leaves[idx := value], height, idx);
  }

  /**
   * Two writes seen through two paths, the first read before both writes and the second after
   * both: the four folds meet in one shared middle root.
   */
  lemma TwoWriteChain(leaves: seq<Fr>, height: nat, i: nat, v: Fr, j: nat, w: Fr)
    requires |leaves| == Pow2(height) && i < |leaves| && j < |leaves| && i != j
    ensures var after := leaves[i := v][j := w];
            var before_i, after_j := Path(leaves, height, i), Path(after, height, j);
            && Fold(leaves[i], before_i, i) == Root(leaves, height)
            && Fold(v, before_i, i) == Fold(leaves[j], after_j, j)
            && Fold(w, after_j, j) == Root(after, height)
  {
    var middle := leaves[i := v];
    var after := middle[j := w];
    FoldGivesRoot(leaves, height, i);
    FoldAfterWrite(leaves, height, i, v);
    FoldGivesRoot(after, height, j);
    FoldAfterWrite(after, height, j, leaves[j]);
    assert after[j := leaves[j]] == middle;
  }

  /** No step of the fold reaches the digest the tree has there from another pair of children. */
  ghost predicate NoCollision(leaves: seq<Fr>, leaf: Fr, path: seq<Fr>, idx: nat) {
    forall k :: 0 <= k < |path| ==>
      var here := Ancestor(idx, k);
      var value, sibling := Node(leaves, k, here), Node(leaves, k, Sibling(here));
      (Combine(FoldUpTo(leaf, path, idx, k), path[k], here) == Combine(value, sibling, here)) ==>
        FoldUpTo(leaf, path, idx, k) == value && path[k] == sibling
  }

  lemma FoldUnstep(leaves: seq<Fr>, leaf: Fr, path: seq<Fr>, idx: nat, k: nat)
    requires NoCollision(leaves, leaf, path, idx)
    requires k < |path| && FoldUpTo(leaf, path, idx, k + 1) == Node(leaves, k + 1, Ancestor(idx, k + 1))
    ensures FoldUpTo(leaf, path, idx, k) == Node(leaves, k, Ancestor(idx, k))
    ensures path[k] == Node(leaves, k, Sibling(Ancestor(idx, k)))
  {
    ParentOf(leaves, k, Ancestor(idx, k));
    hide Node, Combine, Sibling;
  }

  /** Downward induction, with the property kept abstract. */
  lemma {:induction false} DownTo(p: nat -> bool, n: nat, k: nat)
    requires k <= n && p(n) && forall j {:trigger p(j)} :: k <= j < n && p(j + 1) ==> p(j)
    ensures p(k)
    decreases n - k
  {
    if k < n {
      DownTo(p, n, k + 1);
    }
  }

  /** Without collisions, whatever folds to the root is the stored leaf with its stored siblings. */
  lemma FoldBinds(leaves: seq<Fr>, idx: nat, leaf: Fr, path: seq<Fr>, k: nat)
    requires NoCollision(leaves, leaf, path, idx)
    requires idx < |leaves| && k < |path|
    requires FoldUpTo(leaf, path, idx, |path|) == Node(leaves, |path|, Ancestor(idx, |path|))
    ensures FoldUpTo(leaf, path, idx, k) == Node(leaves, k, Ancestor(idx, k))
    ensures path[k] == Node(leaves, k, Sibling(Ancestor(idx, k)))
  {
    var agree := (n: nat) => n <= |path| && FoldUpTo(leaf, path, idx, n) == Node(leaves, n, Ancestor(idx, n));
    forall j | k <= j < |path| && agree(j + 1)
      ensures agree(j)
    {
      FoldUnstep(leaves, leaf, path, idx, j);
    }
    hide Node, FoldUpTo, Ancestor, Sibling, Combine, Hash2, NoCollision;
    DownTo(agree, |path|, k + 1);
    FoldUnstep(leaves, leaf, path, idx, k);
  }

  /** Without collisions a verifier accepts the stored leaf with its own path, and nothing else. */
  lemma ProofIsBinding(leaves: seq<Fr>, height: nat, idx: nat, leaf: Fr, path: seq<Fr>)
    requires NoCollision(leaves, leaf, path, idx)
    requires |leaves| == Pow2(height) && idx < |leaves| && |path| == height
    ensures Fold(leaf, path, idx) == Root(leaves, height) <==> leaf == leaves[idx] && path == Path(leaves, height, idx)
  {
    FoldGivesRoot(leaves, height, idx);
    AncestorBound(idx, height, height);
    assert Ancestor(idx, height) == 0;
    if Fold(leaf, path, idx) == Root(leaves, height) {
      forall k | 0 <= k < height
        ensures path[k] == Path(leaves, height, idx)[k]
      {
        FoldBinds(leaves, idx, leaf, path, k);
        PathAt(leaves, height, idx, k);
      }
      if height > 0 {
        FoldBinds(leaves, idx, leaf, path, 0);
      }
    }
  }

  /** Two values folded along one path never meet in one digest. */
  ghost predicate Separates(path: seq<Fr>, idx: nat, x: Fr, y: Fr) {
    forall k :: 0 <= k < |path| && FoldUpTo(x, path, idx, k + 1) == FoldUpTo(y, path, idx, k + 1) ==>
      FoldUpTo(x, path, idx, k) == FoldUpTo(y, path, idx, k)
  }

  lemma FoldSeparates(path: seq<Fr>, idx: nat, x: Fr, y: Fr)
    requires Separates(path, idx, x, y)
    ensures Fold(x, path, idx) == Fold(y, path, idx) <==> x == y
  {
    if Fold(x, path, idx) == Fold(y, path, idx) {
      var meet := (n: nat) => n <= |path| && FoldUpTo(x, path, idx, n) == FoldUpTo(y, path, idx, n);
      DownTo(meet, |path|, 0);
    }
  }

  // ------------------------------------------------------- indices in folds

  /** The indices name the same branches on `n` levels. */
  ghost predicate SameBranches(i: nat, j: nat, n: nat) {
    forall k :: 0 <= k < n ==> Ancestor(i, k) % 2 == Ancestor(j, k) % 2
  }

  lemma {:induction false} AncestorOfHalf(i: nat, k: nat)
    ensures Ancestor(i / 2, k) == Ancestor(i, k + 1)
  {
    if k > 0 {
      AncestorOfHalf(i, k - 1);
    }
  }

  /** They do exactly when they are congruent modulo the number of leaves. */
  lemma {:induction false} SameBranchesModulo(i: nat, j: nat, n: nat)
    ensures SameBranches(i, j, n) <==> i % Pow2(n) == j % Pow2(n)
    decreases n
  {
    if n > 0 {
      SameBranchesModulo(i / 2, j / 2, n - 1);
      ModHalves(i, Pow2(n - 1));
      ModHalves(j, Pow2(n - 1));
      BranchesOfHalves(i, j, n);
    }
  }

  lemma BranchesOfHalves(i: nat, j: nat, n: nat)
    requires n > 0
    ensures SameBranches(i, j, n) <==> i % 2 == j % 2 && SameBranches(i / 2, j / 2, n - 1)
  {
    forall k: nat
      ensures Ancestor(i / 2, k) == Ancestor(i, k + 1) && Ancestor(j / 2, k) == Ancestor(j, k + 1)
    {
      AncestorOfHalf(i, k);
      AncestorOfHalf(j, k);
    }
    if i % 2 == j % 2 && SameBranches(i / 2, j / 2, n - 1) {
      forall k | 0 <= k < n
        ensures Ancestor(i, k) % 2 == Ancestor(j, k) % 2
      {
        if k > 0 {
          assert Ancestor(i / 2, k - 1) % 2 == Ancestor(j / 2, k - 1) % 2;
        }
      }
    }
    if SameBranches(i, j, n) {
      assert Ancestor(i, 0) % 2 == Ancestor(j, 0) % 2;
      forall k | 0 <= k < n - 1
        ensures Ancestor(i / 2, k) % 2 == Ancestor(j / 2, k) % 2
      {
        assert Ancestor(i, k + 1) % 2 == Ancestor(j, k + 1) % 2;
      }
    }
  }

  lemma {:induction false} FoldByBranches(x: Fr, path: seq<Fr>, i: nat, j: nat, k: nat)
    requires k <= |path| && SameBranches(i, j, |path|)
    ensures FoldUpTo(x, path, i, k) == FoldUpTo(x, path, j, k)
  {
    hide Hash2;
    if k > 0 {
      FoldByBranches(x, path, i, j, k - 1);
      assert Ancestor(i, k - 1) % 2 == Ancestor(j, k - 1) % 2;
    }
  }

  /** On no level do two folds along one path meet in one digest from different children or on different branches. */
  ghost predicate TellsApart(path: seq<Fr>, x: Fr, i: nat, y: Fr, j: nat) {
    forall k :: 0 <= k < |path| && FoldUpTo(x, path, i, k + 1) == FoldUpTo(y, path, j, k + 1) ==>
      FoldUpTo(x, path, i, k) == FoldUpTo(y, path, j, k) && Ancestor(i, k) % 2 == Ancestor(j, k) % 2
  }

  /** Then they end in one root exactly when values and indices agree, the indices modulo the number of leaves. */
  lemma FoldTellsApart(path: seq<Fr>, x: Fr, i: nat, y: Fr, j: nat)
    ensures x == y && i % Pow2(|path|) == j % Pow2(|path|) ==> Fold(x, path, i) == Fold(y, path, j)
    ensures TellsApart(path, x, i, y, j) && Fold(x, path, i) == Fold(y, path, j) ==>
              x == y && i % Pow2(|path|) == j % Pow2(|path|)
  {
    SameBranchesModulo(i, j, |path|);
    if x == y && SameBranches(i, j, |path|) {
      FoldByBranches(x, path, i, j, |path|);
    } else if TellsApart(path, x, i, y, j) && Fold(x, path, i) == Fold(y, path, j) {
      var meet := (n: nat) => n <= |path| && FoldUpTo(x, path, i, n) == FoldUpTo(y, path, j, n);
      forall k | 0 <= k < |path|
        ensures Ancestor(i, k) % 2 == Ancestor(j, k) % 2
      {
        DownTo(meet, |path|, k + 1);
      }
      DownTo(meet, |path|, 0);
    }
  }

  // ---------------------------------------------------------- update orders

  ghost predicate DistinctIndices(updates: seq<(nat, Fr)>) {
    forall i, j :: 0 <= i < j < |updates| ==> updates[i].0 != updates[j].0
  }

  /** What distinct-index updates leave at every position. */
  lemma {:induction false} UpdatesPointwise(leaves: seq<Fr>, updates: seq<(nat, Fr)>, at: nat)
    requires DistinctIndices(updates) && at < |leaves|
    ensures (forall k :: 0 <= k < |updates| && updates[k].0 == at ==> ApplyUpdates(leaves, updates)[at] == updates[k].1)
    ensures (forall k :: 0 <= k < |updates| ==> updates[k].0 != at) ==> ApplyUpdates(leaves, updates)[at] == leaves[at]
    decreases |updates|
  {
    if updates != [] {
      UpdatesPointwise(leaves, updates[..|updates| - 1], at);
    }
  }

  /** Distinct-index writes may be reordered at will: same leaves, hence the same node everywhere. */
  lemma UpdateOrderIrrelevant(leaves: seq<Fr>, us: seq<(nat, Fr)>, vs: seq<(nat, Fr)>)
    requires DistinctIndices(us) && DistinctIndices(vs)
    requires forall u :: u in us <==> u in vs
    ensures ApplyUpdates(leaves, us) == ApplyUpdates(leaves, vs)
  {
    forall at | 0 <= at < |leaves|
      ensures ApplyUpdates(leaves, us)[at] == ApplyUpdates(leaves, vs)[at]
    {
      UpdatesPointwise(leaves, us, at);
      UpdatesPointwise(leaves, vs, at);
      if k :| 0 <= k < |us| && us[k].0 == at {
        assert us[k] in vs;
      } else {
        forall k | 0 <= k < |vs| ensures vs[k].0 != at {
          assert vs[k] in us;
        }
      }
    }
  }
}
