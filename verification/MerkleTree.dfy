/** The sparse Merkle tree, updated in place. */
module MerkleTree {
  import opened Field
  import opened MerkleSpec
  import opened Wrappers

  // ------------------------------------------------------ flattened storage

  /** Nodes of all levels share one key space: level 0 first, then level 1, and so on. */
  function LevelOffset(height: nat, level: nat): nat
    requires level <= height
  {
    Pow2Monotone(height - level + 1, height + 1);
    Pow2(height + 1) - Pow2(height - level + 1)
  }

  function FlattenedIdx(height: nat, level: nat, idx: nat): nat
    requires level <= height
  {
    LevelOffset(height, level) + idx
  }

  /** The levels occupy disjoint contiguous ranges, so no two nodes share a key. */
  lemma {:induction false} LevelRanges(height: nat, low: nat, high: nat)
    requires low < high <= height
    ensures LevelOffset(height, low) + Pow2(height - low) <= LevelOffset(height, high)
    decreases high - low
  {
    if low + 1 < high {
      LevelRanges(height, low, high - 1);
    }
  }

  lemma FlattenedInjective(height: nat, level: nat, idx: nat, level': nat, idx': nat)
    requires level <= height && idx < Pow2(height - level)
    requires level' <= height && idx' < Pow2(height - level')
    ensures FlattenedIdx(height, level, idx) == FlattenedIdx(height, level', idx') <==> level == level' && idx == idx'
  {
    if level < level' {
      LevelRanges(height, level, level');
    } else if level' < level {
      LevelRanges(height, level', level);
    }
  }

  /** The keys of the inner nodes lie above those of the leaves. */
  lemma InnerKey(height: nat, level: nat, idx: nat)
    requires 0 < level <= height
    ensures FlattenedIdx(height, level, idx) >= Pow2(height)
  {
    LevelRanges(height, 0, level);
  }

  /** Besides those stored before, only leaves of the updates are stored. */
  ghost predicate LeavesAdded(before: map<nat, Fr>, after: map<nat, Fr>, size: nat, updates: seq<(nat, Fr)>) {
    forall i :: i in after && i < size ==> i in before || exists u :: u in updates && u.0 == i
  }

  /** A stored node, or the precomputed hash of an empty subtree. */
  function Lookup(height: nat, defaults: seq<Fr>, data: map<nat, Fr>, level: nat, idx: nat): Fr
    requires level <= height && |defaults| == height + 1
  {
    var key := FlattenedIdx(height, level, idx);
    if key in data then data[key] else defaults[level]
  }

  /** Levels up to `done` hold the tree over `after`, the levels above still that over `before`. */
  ghost predicate Between(height: nat, defaults: seq<Fr>, data: map<nat, Fr>, before: seq<Fr>, after: seq<Fr>,
                          done: nat)
    requires |defaults| == height + 1
  {
    forall level, idx {:trigger Lookup(height, defaults, data, level, idx)} ::
      0 <= level <= height && 0 <= idx < Pow2(height - level) ==>
        Lookup(height, defaults, data, level, idx) == Node(if level <= done then after else before, level, idx)
  }

  lemma LookupAfterInsert(height: nat, defaults: seq<Fr>, data: map<nat, Fr>, level: nat, idx: nat, value: Fr,
                          level': nat, idx': nat)
    requires |defaults| == height + 1
    requires level <= height && idx < Pow2(height - level)
    requires level' <= height && idx' < Pow2(height - level')
    ensures Lookup(height, defaults, data[FlattenedIdx(height, level, idx) := value], level', idx')
         == if level == level' && idx == idx' then value else Lookup(height, defaults, data, level', idx')
  {
    FlattenedInjective(height, level, idx, level', idx');
  }

  lemma WriteLeaf(height: nat, defaults: seq<Fr>, data: map<nat, Fr>, leaves: seq<Fr>, at: nat, value: Fr)
    requires |defaults| == height + 1 && |leaves| == Pow2(height) && at < |leaves|
    requires Between(height, defaults, data, leaves, leaves, height)
    ensures Between(height, defaults, data[at := value], leaves, leaves[at := value], 0)
  {
    assert FlattenedIdx(height, 0, at) == at;
    var data', leaves' := data[at := value], leaves[at := value];
    forall level: nat, idx: nat | level <= height && idx < Pow2(height - level)
      ensures Lookup(height, defaults, data', level, idx) == Node(if level <= 0 then leaves' else leaves, level, idx)
    {
      LookupAfterInsert(height, defaults, data, 0, at, value, level, idx);
    }
  }

  /** Recomputing the one ancestor of the written leaf brings one more level up to date. */
  lemma WriteParent(height: nat, defaults: seq<Fr>, data: map<nat, Fr>, leaves: seq<Fr>, at: nat, value: Fr, level: nat)
    requires |defaults| == height + 1 && |leaves| == Pow2(height) && at < |leaves|
    requires level < height
    requires Between(height, defaults, data, leaves, leaves[at := value], level)
    ensures var idx := Ancestor(at, level + 1);
            && idx < Pow2(height - level - 1)
            && var hash := Hash2(Lookup(height, defaults, data, level, 2 * idx),
                                 Lookup(height, defaults, data, level, 2 * idx + 1));
               Between(height, defaults, data[FlattenedIdx(height, level + 1, idx) := hash], leaves,
                       leaves[at := value], level + 1)
  {
    var after := leaves[at := value];
    var idx := Ancestor(at, level + 1);
    AncestorBound(at, height, level + 1);
    var hash := Hash2(Lookup(height, defaults, data, level, 2 * idx),
                      Lookup(height, defaults, data, level, 2 * idx + 1));
    assert hash == Node(after, level + 1, idx);
    hide Node, Hash2, Lookup, Ancestor, Pow2;
    var data' := data[FlattenedIdx(height, level + 1, idx) := hash];
    forall l: nat, i: nat | l <= height && i < Pow2(height - l)
      ensures Lookup(height, defaults, data', l, i) == Node(if l <= level + 1 then after else leaves, l, i)
    {
      LookupAfterInsert(height, defaults, data, level + 1, idx, hash, l, i);
      if l == level + 1 && i != idx {
        NodeOffPath(leaves, at, value, l, i);
      }
    }
  }

  lemma LeafNode(leaves: seq<Fr>, idx: nat)
    requires idx < |leaves|
    ensures Node(leaves, 0, idx) == leaves[idx] && Ancestor(idx, 0) == idx
  {
  }

  lemma SiblingInRange(at: nat, height: nat, level: nat)
    requires at < Pow2(height) && level < height
    ensures Sibling(Ancestor(at, level)) < Pow2(height - level)
  {
    AncestorBound(at, height, level);
    SiblingBound(Ancestor(at, level), height - level);
  }

  lemma {:induction false} ConstantNode(leaves: seq<Fr>, defaults: seq<Fr>, height: nat, level: nat, idx: nat)
    requires level <= height && |defaults| == height + 1 && |leaves| == Pow2(height) && idx < Pow2(height - level)
    requires forall i :: 0 <= i < |leaves| ==> leaves[i] == defaults[0]
    requires forall i :: 0 <= i < height ==> defaults[i + 1] == Hash2(defaults[i], defaults[i])
    ensures Node(leaves, level, idx) == defaults[level]
    decreases level
  {
    if level > 0 {
      ConstantNode(leaves, defaults, height, level - 1, 2 * idx);
      ConstantNode(leaves, defaults, height, level - 1, 2 * idx + 1);
    }
  }

  // ------------------------------------------------------------- the object

  datatype MerkleProof = MerkleProof(root: Fr, leaf: Fr, pathElements: seq<Fr>)

  /** One precomputed parent: the two inputs it was computed from and their hash. */
  datatype HashCacheItem = HashCacheItem(left: Fr, right: Fr, result: Fr)

  ghost predicate SoundCache(items: seq<HashCacheItem>) {
    forall i :: 0 <= i < |items| ==> items[i].result == Hash2(items[i].left, items[i].right)
  }

  /** The parents of levels 1 to `k` above leaf `at`, each with its two children. */
  ghost function Ancestry(leaves: seq<Fr>, at: nat, k: nat): (items: seq<HashCacheItem>)
    ensures |items| == k && SoundCache(items)
  {
    if k == 0 then
      []
    else
      var idx := Ancestor(at, k);
      Ancestry(leaves, at, k - 1)
        + [HashCacheItem(Node(leaves, k - 1, 2 * idx), Node(leaves, k - 1, 2 * idx + 1), Node(leaves, k, idx))]
  }

  /** One level up from a written leaf: the sibling is untouched, so the two children of the parent are at hand. */
  lemma ParentInputs(leaves: seq<Fr>, at: nat, value: Fr, level: nat)
    requires at < |leaves|
    ensures var idx := Ancestor(at, level);
            var own, other := Node(leaves[at := value], level, idx), Node(leaves, level, Sibling(idx));
            var (left, right) := if idx % 2 == 0 then (own, other) else (other, own);
            Ancestry(leaves[at := value], at, level + 1)
            == Ancestry(leaves[at := value], at, level) + [HashCacheItem(left, right, Hash2(left, right))]
            && Node(leaves[at := value], level + 1, Ancestor(at, level + 1)) == Hash2(left, right)
  {
    var idx := Ancestor(at, level);
    NodeOffPath(leaves, at, value, level, Sibling(idx));
    if idx % 2 == 0 {
      assert 2 * (idx / 2) == idx;
    } else {
      assert 2 * (idx / 2) + 1 == idx;
    }
  }

  /** Which tree of the state an object is; trees with different roles are different objects. */
  datatype Role = AccountTree | BalanceTree(account: nat) | OrderTree(account: nat) | Template

  class Tree {
    ghost const role: Role
    const height: nat
    const defaultNodes: seq<Fr>
    var data: map<nat, Fr>
    /** The 2^height leaves this tree stands for. */
    ghost var leaves: seq<Fr>

    ghost predicate Valid()
      reads this
    {
      && height < 32
      && |leaves| == Pow2(height)
      && |defaultNodes| == height + 1
      && (forall i :: 0 <= i < height ==> defaultNodes[i + 1] == Hash2(defaultNodes[i], defaultNodes[i]))
      && Between(height, defaultNodes, data, leaves, leaves, height)
    }

    constructor (height: nat, defaultLeaf: Fr, ghost role: Role)
      requires height < 32
      ensures Valid()
      ensures this.role == role && this.height == height && defaultNodes[0] == defaultLeaf && data == map[]
      ensures leaves == seq(Pow2(height), _ => defaultLeaf)
    {
      var nodes := [defaultLeaf];
      for i := 0 to height
        invariant |nodes| == i + 1 && nodes[0] == defaultLeaf
        invariant forall j :: 0 <= j < i ==> nodes[j + 1] == Hash2(nodes[j], nodes[j])
      {
        nodes := nodes + [Hash2(nodes[i], nodes[i])];
      }
      this.role := role;
      this.height := height;
      defaultNodes := nodes;
      data := map[];
      leaves := seq(Pow2(height), _ => defaultLeaf);
      new;
      forall level: nat, idx: nat | level <= height && idx < Pow2(height - level)
        ensures Lookup(height, defaultNodes, data, level, idx) == Node(leaves, level, idx)
      {
        ConstantNode(leaves, defaultNodes, height, level, idx);
      }
    }

    /** Every node reads as the dense tree over `leaves` has it. */
    function GetValue(level: nat, idx: nat): (value: Fr)
      requires Valid() && level <= height && idx < Pow2(height - level)
      reads this
      ensures value == Node(leaves, level, idx)
    {
      Lookup(height, defaultNodes, data, level, idx)
    }

    function GetLeaf(idx: nat): (value: Fr)
      requires Valid() && idx < Pow2(height)
      reads this
      ensures value == leaves[idx]
    {
      GetValue(0, idx)
    }

    function GetRoot(): (root: Fr)
      requires Valid()
      reads this
      ensures root == Root(leaves, height)
    {
      GetValue(height, 0)
    }

    method SetValue(idx: nat, value: Fr)
      requires Valid() && idx < Pow2(height)
      modifies this
      ensures Valid() && leaves == old(leaves)[idx := value]
      ensures forall i :: i in data && i < Pow2(height) ==> i in old(data) || i == idx
    {
      if GetLeaf(idx) == value {
        assert leaves[idx := value] == leaves;
        return;
      }
      hide Between, Node, FlattenedIdx, LevelOffset;
      ghost var before := leaves;
      WriteLeaf(height, defaultNodes, data, leaves, idx, value);
      leaves := leaves[idx := value];
      data := data[idx := value];
      var cur := idx;
      for i := 0 to height
        invariant cur == Ancestor(idx, i)
        invariant leaves == before[idx := value]
        invariant Between(height, defaultNodes, data, before, leaves, i)
        invariant forall k :: k in data && k < Pow2(height) ==> k in old(data) || k == idx
      {
        WriteParent(height, defaultNodes, data, before, idx, value, i);
        cur := cur / 2;
        InnerKey(height, i + 1, cur);
        RecalculateParent(i + 1, cur);
      }
      BetweenDone(height, defaultNodes, data, before, leaves);
    }

    /** The one map write of a level; the tree is not valid while an update is under way. */
    method RecalculateParent(level: nat, idx: nat)
      requires 0 < level <= height && |defaultNodes| == height + 1
      modifies this`data
      ensures data == old(data)[FlattenedIdx(height, level, idx) :=
                        Hash2(Lookup(height, defaultNodes, old(data), level - 1, 2 * idx),
                              Lookup(height, defaultNodes, old(data), level - 1, 2 * idx + 1))]
    {
      var lhs := Lookup(height, defaultNodes, data, level - 1, idx * 2);
      var rhs := Lookup(height, defaultNodes, data, level - 1, idx * 2 + 1);
      data := data[FlattenedIdx(height, level, idx) := Hash2(lhs, rhs)];
    }

    /** The hashes a write of `value` at `idx` would leave on its path, were the tree not to change meanwhile. */
    method SetValuePrepareDiff(idx: nat, value: Fr) returns (precalculated: seq<HashCacheItem>)
      requires Valid() && idx < Pow2(height)
      ensures precalculated == Ancestry(leaves[idx := value], idx, height)
    {
      hide Node, Lookup, Hash2, Pow2, Between;
      LeafNode(leaves[idx := value], idx);
      precalculated := [];
      var curIdx, curValue := idx, value;
      ghost var written := leaves[idx := value];
      for i := 0 to height
        invariant curIdx == Ancestor(idx, i) && curValue == Node(written, i, curIdx)
        invariant precalculated == Ancestry(written, idx, i)
      {
        SiblingInRange(idx, height, i);
        ParentInputs(leaves, idx, value, i);
        var left, right;
        if curIdx % 2 == 0 {
          left, right := curValue, GetValue(i, curIdx + 1);
        } else {
          left, right := GetValue(i, curIdx - 1), curValue;
        }
        curValue := Hash2(left, right);
        curIdx := curIdx / 2;
        precalculated := precalculated + [HashCacheItem(left, right, curValue)];
      }
    }

    /** Whatever sound cache is handed in, hits and misses end in the same tree as a plain write. */
    method SetValueApplyDiff(idx: nat, value: Fr, precalculated: seq<HashCacheItem>)
      requires Valid() && idx < Pow2(height)
      requires |precalculated| == height && SoundCache(precalculated)
      modifies this
      ensures Valid() && leaves == old(leaves)[idx := value]
      ensures forall i :: i in data && i < Pow2(height) ==> i in old(data) || i == idx
    {
      hide Between, Node, LevelOffset;
      var cacheMiss := false;
      var curIdx := idx;
      ghost var before := leaves;
      WriteLeaf(height, defaultNodes, data, leaves, idx, value);
      leaves := leaves[idx := value];
      data := data[idx := value];
      for i := 0 to height
        invariant curIdx == Ancestor(idx, i)
        invariant leaves == before[idx := value]
        invariant Between(height, defaultNodes, data, before, leaves, i)
        invariant forall k :: k in data && k < Pow2(height) ==> k in old(data) || k == idx
      {
        WriteParent(height, defaultNodes, data, before, idx, value, i);
        InnerKey(height, i + 1, curIdx / 2);
        var left, right;
        if curIdx % 2 == 0 {
          left := Lookup(height, defaultNodes, data, i, curIdx);
          right := Lookup(height, defaultNodes, data, i, curIdx + 1);
        } else {
          left := Lookup(height, defaultNodes, data, i, curIdx - 1);
          right := Lookup(height, defaultNodes, data, i, curIdx);
        }
        curIdx := curIdx / 2;
        assert left == Lookup(height, defaultNodes, data, i, 2 * curIdx);
        assert right == Lookup(height, defaultNodes, data, i, 2 * curIdx + 1);
        if !cacheMiss {
          if precalculated[i].left != left || precalculated[i].right != right {
            cacheMiss := true;
          }
        }
        var hash := if cacheMiss then Hash2(left, right) else precalculated[i].result;
        assert hash == Hash2(left, right);
        data := data[FlattenedIdx(height, i + 1, curIdx) := hash];
      }
      BetweenDone(height, defaultNodes, data, before, leaves);
    }

    /**
     * Chunked update: within a chunk every cache is computed on the tree as the chunk found it,
     * and the writes are then applied one by one. The result is that of the writes in order.
     */
    method SetValueParallel(updates: seq<(nat, Fr)>, parallel: nat)
      requires Valid() && forall u :: u in updates ==> u.0 < Pow2(height)
      modifies this
      ensures Valid() && leaves == ApplyUpdates(old(leaves), updates)
      ensures LeavesAdded(old(data), data, Pow2(height), updates)
    {
      var chunk := if parallel == 0 then 8 else parallel;
      var i := 0;
      assert updates[..0] == [];
      if chunk == 1 {
        while i < |updates|
          invariant 0 <= i <= |updates| && Valid() && leaves == ApplyUpdates(old(leaves), updates[..i])
          invariant LeavesAdded(old(data), data, Pow2(height), updates)
        {
          assert updates[i] in updates;
          SetValue(updates[i].0, updates[i].1);
          assert updates[..i + 1][..i] == updates[..i];
          i := i + 1;
        }
      } else {
        while i < |updates|
          invariant 0 <= i <= |updates| && Valid() && leaves == ApplyUpdates(old(leaves), updates[..i])
          invariant LeavesAdded(old(data), data, Pow2(height), updates)
        {
          var end := if i + chunk < |updates| then i + chunk else |updates|;
          var diffs: seq<seq<HashCacheItem>> := [];
          for k := i to end
            invariant Valid() && leaves == ApplyUpdates(old(leaves), updates[..i])
            invariant LeavesAdded(old(data), data, Pow2(height), updates)
            invariant |diffs| == k - i
            invariant forall d :: 0 <= d < |diffs| ==> |diffs[d]| == height && SoundCache(diffs[d])
          {
            var diff := SetValuePrepareDiff(updates[k].0, updates[k].1);
            diffs := diffs + [diff];
          }
          for k := i to end
            invariant Valid() && leaves == ApplyUpdates(old(leaves), updates[..k])
            invariant LeavesAdded(old(data), data, Pow2(height), updates)
          {
            assert updates[k] in updates;
            SetValueApplyDiff(updates[k].0, updates[k].1, diffs[k - i]);
            assert updates[..k + 1][..k] == updates[..k];
          }
          i := end;
        }
      }
      assert updates[..|updates|] == updates;
    }

    method FillWithLeavesVec(values: seq<Fr>) returns (r: Result<()>)
      requires Valid()
      modifies this
      ensures Valid()
      ensures |values| == Pow2(height) ==> r == Ok(()) && leaves == values
      ensures |values| != Pow2(height) ==> r == Err("invalid leaves size") && leaves == old(leaves) && data == old(data)
    {
      if |values| != Pow2(height) {
        return Err("invalid leaves size");
      }
      for i := 0 to |values|
        invariant Valid() && leaves[..i] == values[..i]
      {
        SetValue(i, values[i]);
      }
      r := Ok(());
    }

    method GetProof(index: nat) returns (proof: MerkleProof)
      requires Valid() && index < Pow2(height)
      ensures proof == MerkleProof(Root(leaves, height), leaves[index], Path(leaves, height, index))
      ensures Fold(proof.leaf, proof.pathElements, index) == proof.root
    {
      var leaf := GetLeaf(index);
      var path, cur := [], index;
      for i := 0 to height
        invariant cur == Ancestor(index, i) && path == Path(leaves, i, index)
      {
        SiblingInRange(index, height, i);
        path := path + [GetValue(i, Sibling(cur))];
        cur := cur / 2;
      }
      FoldGivesRoot(leaves, height, index);
      proof := MerkleProof(GetRoot(), leaf, path);
    }
  }

  lemma BetweenDone(height: nat, defaults: seq<Fr>, data: map<nat, Fr>, before: seq<Fr>, after: seq<Fr>)
    requires |defaults| == height + 1 && Between(height, defaults, data, before, after, height)
    ensures Between(height, defaults, data, after, after, height)
  {
  }
}
