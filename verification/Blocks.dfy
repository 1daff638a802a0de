/** Blocks: what is cut from a run of records, and the public data that goes with it. */
module Blocks {
  import opened Field
  import opened Wrappers
  import opened BitEncoder
  import opened TxData
  import opened TxEncoder

  datatype L2BlockDetail = L2BlockDetail(
    oldRoot: Fr,
    newRoot: Fr,
    txdataHash: nat,
    txsType: seq<TxType>,
    encodedTxs: seq<seq<Fr>>,
    balancePathElements: seq<seq<seq<Fr>>>,
    orderPathElements: seq<seq<seq<Fr>>>,
    accountPathElements: seq<seq<seq<Fr>>>,
    orderRoots: seq<seq<Fr>>,
    oldAccountRoots: seq<Fr>,
    newAccountRoots: seq<Fr>)

  datatype L2Block = L2Block(blockId: nat, detail: L2BlockDetail, publicData: seq<Byte>)

  function DetailOf(txs: seq<RawTx>, txdataHash: nat): L2BlockDetail
    requires txs != []
  {
    L2BlockDetail(
      txs[0].rootBefore,
      txs[|txs| - 1].rootAfter,
      txdataHash,
      seq(|txs|, i requires 0 <= i < |txs| => txs[i].txType),
      seq(|txs|, i requires 0 <= i < |txs| => txs[i].payload),
      seq(|txs|,
          i requires 0 <= i < |txs| => [txs[i].balancePath0, txs[i].balancePath1, txs[i].balancePath2,
                                        txs[i].balancePath3]),
      seq(|txs|, i requires 0 <= i < |txs| => [txs[i].orderPath0, txs[i].orderPath1]),
      seq(|txs|, i requires 0 <= i < |txs| => [txs[i].accountPath0, txs[i].accountPath1]),
      seq(|txs|, i requires 0 <= i < |txs| => [txs[i].orderRoot0, txs[i].orderRoot1]),
      seq(|txs|, i requires 0 <= i < |txs| => txs[i].rootBefore),
      seq(|txs|, i requires 0 <= i < |txs| => txs[i].rootAfter))
  }

  /** The records a block stands for; only their offsets are not in it. */
  function TxsOf(detail: L2BlockDetail): seq<RawTx>
    requires Full(detail)
  {
    seq(|detail.txsType|, i requires 0 <= i < |detail.txsType| =>
      RawTx(detail.txsType[i], detail.encodedTxs[i],
            detail.balancePathElements[i][0], detail.balancePathElements[i][1],
            detail.balancePathElements[i][2], detail.balancePathElements[i][3],
            detail.orderPathElements[i][0], detail.orderPathElements[i][1],
            detail.orderRoots[i][0], detail.orderRoots[i][1],
            detail.accountPathElements[i][0], detail.accountPathElements[i][1],
            detail.oldAccountRoots[i], detail.newAccountRoots[i], None))
  }

  ghost predicate Full(detail: L2BlockDetail) {
    var n := |detail.txsType|;
    && |detail.encodedTxs| == |detail.balancePathElements| == |detail.orderPathElements| == n
    && |detail.accountPathElements| == |detail.orderRoots| == |detail.oldAccountRoots| == |detail.newAccountRoots| == n
    && (forall i :: 0 <= i < n ==> |detail.balancePathElements[i]| == 4 && |detail.orderPathElements[i]| == 2)
    && (forall i :: 0 <= i < n ==> |detail.accountPathElements[i]| == 2 && |detail.orderRoots[i]| == 2)
  }

  /** A block holds everything of its records but their offsets. */
  lemma DetailRoundTrip(txs: seq<RawTx>, hash: nat, i: nat)
    requires i < |txs|
    ensures Full(DetailOf(txs, hash)) && |TxsOf(DetailOf(txs, hash))| == |txs|
    ensures TxsOf(DetailOf(txs, hash))[i] == txs[i].(offset := None)
  {
  }

  // ------------------------------------------------------------ public data

  ghost predicate WellFormed(txs: seq<RawTx>) {
    forall i :: 0 <= i < |txs| ==> |txs[i].payload| == TX_LENGTH && txs[i].txType != PlaceOrder
  }

  /** Every record can be encoded; otherwise forging the block panics. */
  ghost predicate AllEncodable(txs: seq<RawTx>, w: Widths)
    requires WellFormed(txs)
  {
    forall i :: 0 <= i < |txs| ==> Encodable(txs[i], w)
  }

  /** The bits of all records, one after the other. */
  ghost function BlockBits(txs: seq<RawTx>, w: Widths): seq<bool>
    requires WellFormed(txs) && AllEncodable(txs, w)
  {
    if txs == [] then [] else BlockBits(txs[..|txs| - 1], w) + TxBits(txs[|txs| - 1], w)
  }

  lemma BlockBitsStep(txs: seq<RawTx>, n: nat, w: Widths)
    requires WellFormed(txs) && AllEncodable(txs, w) && n < |txs|
    ensures WellFormed(txs[..n + 1]) && AllEncodable(txs[..n + 1], w) && WellFormed(txs[..n])
    ensures AllEncodable(txs[..n], w)
    ensures BlockBits(txs[..n + 1], w) == BlockBits(txs[..n], w) + TxBits(txs[n], w)
  {
    hide TxBits, Encodable;
    assert txs[..n + 1][..n] == txs[..n];
  }

  /** Record `i` takes exactly the `i`-th stretch of the announced length. */
  lemma {:induction false} BlockBitsAt(txs: seq<RawTx>, w: Widths, i: nat, from: nat, total: nat)
    requires WellFormed(txs) && AllEncodable(txs, w) && i < |txs|
    requires from == i * RecordBits(w) && total == |txs| * RecordBits(w)
    ensures |BlockBits(txs, w)| == total && from + RecordBits(w) <= total
    ensures BlockBits(txs, w)[from..from + RecordBits(w)] == TxBits(txs[i], w)
    decreases |txs|
  {
    hide TxBits, Encodable, RecordBits;
    var n, r := |txs| - 1, RecordBits(w);
    BlockBitsStep(txs, n, w);
    assert txs[..n + 1] == txs;
    EncodableHasPlan(txs[n], w);
    RecordLength(txs[n], w);
    Stretch(n, i, r);
    if n == 0 {
      assert BlockBits(txs[..0], w) == [];
    } else {
      BlockBitsAt(txs[..n], w, if i < n then i else 0, if i < n then from else 0, total - r);
    }
  }

  lemma EncodableHasPlan(tx: RawTx, w: Widths)
    requires |tx.payload| == TX_LENGTH && Encodable(tx, w)
    ensures PlanOf(tx, w).Record?
  {
    hide PlanOf, FieldsFit;
  }

  lemma Stretch(n: nat, i: nat, r: nat)
    requires i <= n
    ensures (n + 1) * r == n * r + r
    ensures i < n ==> i * r + r <= n * r
  {
    if i < n {
      assert (n - i - 1) * r >= 0;
    }
  }

  /** A block made of these records: everything in the detail, all records in the public data, and its digest. */
  ghost predicate IsBlock(block: L2Block, blockId: nat, txs: seq<RawTx>, w: Widths) {
    && txs != [] && WellFormed(txs) && AllEncodable(txs, w)
    && block.blockId == blockId && block.detail == DetailOf(txs, SHA256(block.publicData))
    && BytesToBits(block.publicData) == BlockBits(txs, w)
  }

  /**
   * What a block says of the whole of its records: where they start and end, how many there are, and the digest of
   * their public data.
   */
  lemma BlockHeader(block: L2Block, blockId: nat, txs: seq<RawTx>, w: Widths)
    requires IsBlock(block, blockId, txs, w)
    ensures block.blockId == blockId && block.detail.txdataHash == SHA256(block.publicData)
    ensures |block.detail.txsType| == |block.detail.encodedTxs| == |txs| > 0
    ensures block.detail.oldRoot == txs[0].rootBefore && block.detail.newRoot == txs[|txs| - 1].rootAfter
  {
    hide WellFormed, AllEncodable, BlockBits, BytesToBits;
  }

  /** The public data takes a whole number of bytes a record, and record `i` can be read back from its own stretch. */
  lemma PublicData(block: L2Block, blockId: nat, txs: seq<RawTx>, w: Widths, i: nat, from: nat)
    requires IsBlock(block, blockId, txs, w) && i < |txs| && from == i * RecordBits(w)
    ensures 8 * |block.publicData| == |txs| * RecordBits(w) && RecordBits(w) % 8 == 0
    ensures PlanOf(txs[i], w).Record? && InPayload(txs[i].payload, PlanOf(txs[i], w).fields)
    ensures from + RecordBits(w) <= |BytesToBits(block.publicData)|
    ensures 3 + TotalWidth(PlanOf(txs[i], w).fields) <= RecordBits(w)
    ensures var record := BytesToBits(block.publicData)[from..from + RecordBits(w)];
            && LsbValue(record[..3]) == PlanOf(txs[i], w).head
            && ReadFields(record[3..], PlanOf(txs[i], w).fields)
               == FieldValues(txs[i].payload, PlanOf(txs[i], w).fields)
  {
    hide IsBlock, TxBits, RecordBits, BytesToBits, PlanOf, Encodable, BlockBits, WellFormed, AllEncodable, LsbValue;
    hide ReadFields, FieldValues, TotalWidth, InPayload;
    BlockFacts(block, blockId, txs, w, i);
    EncodableHasPlan(txs[i], w);
    BlockBitsAt(txs, w, i, from, |txs| * RecordBits(w));
    RecordReadBack(txs[i], w);
    RecordLength(txs[i], w);
    PlanReady(txs[i], w);
  }

  lemma BlockFacts(block: L2Block, blockId: nat, txs: seq<RawTx>, w: Widths, i: nat)
    requires IsBlock(block, blockId, txs, w) && i < |txs|
    ensures WellFormed(txs) && AllEncodable(txs, w) && Encodable(txs[i], w)
    ensures BytesToBits(block.publicData) == BlockBits(txs, w) && |txs[i].payload| == TX_LENGTH
  {
    hide DetailOf, Encodable, BytesToBits, BlockBits;
  }

  lemma WholeBytes(n: nat, w: Widths)
    requires n % RecordBits(w) == 0
    ensures n % 8 == 0
  {
    RecordBitsPositive(w);
    hide RecordBits;
    MultipleOfMultiple(n / RecordBits(w), RecordBits(w) / 8, 8);
  }

  lemma {:induction false} MultipleOfMultiple(q: nat, k: nat, m: nat)
    requires m > 0
    ensures (q * (m * k)) % m == 0
  {
    assert q * (m * k) == (q * k) * m + 0;
    ModUnique(m, q * k, 0);
  }

  // ---------------------------------------------------------------- cutting

  /**
   * What is written when a state is saved: the block count, the offset to resume from, and the root of the saved state.
   */
  datatype Snapshot = Snapshot(blockNum: nat, offset: int, root: Fr)

  /** The offset of the last record that has one. */
  function LastOffset(txs: seq<RawTx>): Option<int> {
    if txs == [] then None
    else if txs[|txs| - 1].offset.Some? then txs[|txs| - 1].offset
    else LastOffset(txs[..|txs| - 1])
  }

  /** The records, cut into blocks of `n` with consecutive ids; every record is in exactly one of them, in order. */
  ghost predicate Cut(txs: seq<RawTx>, n: nat, start: nat, w: Widths, blocks: seq<L2Block>)
    decreases |blocks|
  {
    if blocks == [] then
      txs == []
    else
      var k := |blocks| - 1;
      && n <= |txs| && IsBlock(blocks[k], start + k, txs[|txs| - n..], w)
      && Cut(txs[..|txs| - n], n, start, w, blocks[..k])
  }

  lemma CutUnfold(txs: seq<RawTx>, n: nat, start: nat, w: Widths, blocks: seq<L2Block>)
    requires blocks != [] && n <= |txs| && IsBlock(blocks[|blocks| - 1], start + |blocks| - 1, txs[|txs| - n..], w)
    requires Cut(txs[..|txs| - n], n, start, w, blocks[..|blocks| - 1])
    ensures Cut(txs, n, start, w, blocks)
  {
    hide IsBlock;
  }

  lemma CutStep(txs: seq<RawTx>, i: nat, n: nat, start: nat, w: Widths, blocks: seq<L2Block>, block: L2Block)
    requires i + n <= |txs| && Cut(txs[..i], n, start, w, blocks) && IsBlock(block, start + |blocks|, txs[i..i + n], w)
    ensures Cut(txs[..i + n], n, start, w, blocks + [block])
  {
    hide *;
    var all, longer := blocks + [block], txs[..i + n];
    assert |longer| == i + n && longer[|longer| - n..] == txs[i..i + n] && longer[..|longer| - n] == txs[..i];
    assert all[..|all| - 1] == blocks && all[|all| - 1] == block;
    CutUnfold(longer, n, start, w, all);
  }

  /** All that can make a pop panic: a record that cannot be encoded, and a block to be saved without any offset. */
  ghost predicate CanPop(txs: seq<RawTx>, n: nat, start: nat, every: nat, w: Widths)
    requires n > 0 && every > 0 && WellFormed(txs)
    decreases |txs|
  {
    |txs| < n ||
      (AllEncodable(txs[..n], w) && ((start + 1) % every == 0 ==> LastOffset(txs[..n]).Some?)
       && CanPop(txs[n..], n, start + 1, every, w))
  }

  /** The state saved, if any, once `blockNum` blocks have been made. */
  function SavedAt(blockNum: nat, every: nat, last: Option<int>, root: Fr): seq<Snapshot>
    requires every > 0
  {
    if blockNum % every == 0 && last.Some? then [Snapshot(blockNum, last.value, root)] else []
  }

  /** The states saved while these blocks are popped: one after every `every`-th block. */
  ghost function SnapshotsOf(txs: seq<RawTx>, n: nat, start: nat, every: nat, root: Fr): seq<Snapshot>
    requires n > 0 && every > 0
    decreases |txs|
  {
    if |txs| < n then []
    else SavedAt(start + 1, every, LastOffset(txs[..n]), root) + SnapshotsOf(txs[n..], n, start + 1, every, root)
  }

  // ------------------------------------------------------ what gets saved

  /** Handling resumes after this offset: some record has it, and no later one has any. */
  ghost predicate ResumesAt(txs: seq<RawTx>, offset: int) {
    exists i ::
      && 0 <= i < |txs| && txs[i].offset == Some(offset)
      && forall j :: i < j < |txs| ==> txs[j].offset == None
  }

  /** A record without an offset changes nothing. */
  lemma ResumesBefore(txs: seq<RawTx>, last: RawTx, offset: int)
    requires last.offset == None
    ensures ResumesAt(txs + [last], offset) <==> ResumesAt(txs, offset)
  {
    var all := txs + [last];
    if ResumesAt(txs, offset) {
      var i :| 0 <= i < |txs| && txs[i].offset == Some(offset) && forall j :: i < j < |txs| ==> txs[j].offset == None;
      assert all[i].offset == Some(offset);
    }
    if ResumesAt(all, offset) {
      var i :| 0 <= i < |all| && all[i].offset == Some(offset) && forall j :: i < j < |all| ==> all[j].offset == None;
      assert txs[i].offset == Some(offset);
      assert forall j :: i < j < |txs| ==> txs[j] == all[j];
    }
  }

  /** The last offset by position. */
  lemma {:induction false} LastOffsetExactly(txs: seq<RawTx>, offset: int)
    ensures LastOffset(txs) == Some(offset) <==> ResumesAt(txs, offset)
    ensures LastOffset(txs) == None <==> forall i :: 0 <= i < |txs| ==> txs[i].offset == None
  {
    if txs != [] {
      var k := |txs| - 1;
      LastOffsetExactly(txs[..k], offset);
      assert txs == txs[..k] + [txs[k]];
      if txs[k].offset == None {
        ResumesBefore(txs[..k], txs[k], offset);
        hide ResumesAt;
        assert forall i :: 0 <= i < k ==> txs[..k][i] == txs[i];
      }
    }
  }

  /** The records of the `k`-th whole block of a buffer, none when there is no such block. */
  function Chunk(txs: seq<RawTx>, n: nat, k: nat): seq<RawTx>
    requires n > 0
    decreases k
  {
    if |txs| < n then [] else if k == 0 then txs[..n] else Chunk(txs[n..], n, k - 1)
  }

  lemma {:induction false} ChunkIs(txs: seq<RawTx>, n: nat, k: nat, from: nat)
    requires n > 0 && from == k * n
    ensures Chunk(txs, n, k) == if from + n <= |txs| then txs[from..from + n] else []
    decreases k
  {
    if k > 0 {
      assert from >= n by { MulAtLeast(k, n); }
      if |txs| >= n {
        assert from - n == (k - 1) * n;
        ChunkIs(txs[n..], n, k - 1, from - n);
        assert from + n <= |txs| ==> txs[n..][from - n..from] == txs[from..from + n];
      }
    }
  }

  lemma ChunkWellFormed(txs: seq<RawTx>, n: nat, k: nat)
    requires n > 0 && WellFormed(txs)
    ensures WellFormed(Chunk(txs, n, k))
    decreases k
  {
    if |txs| >= n && k > 0 {
      ChunkWellFormed(txs[n..], n, k - 1);
    }
  }

  /** The state is due to be saved after the `k`-th block, and this is what is saved. */
  ghost predicate Saves(txs: seq<RawTx>, n: nat, start: nat, every: nat, root: Fr, k: nat, x: Snapshot)
    requires n > 0 && every > 0
  {
    && Chunk(txs, n, k) != [] && (start + k + 1) % every == 0
    && x.blockNum == start + k + 1 && x.root == root && ResumesAt(Chunk(txs, n, k), x.offset)
  }

  /** One state is saved for every block after which one is due and which has an offset, and no other. */
  lemma {:induction false} SnapshotsExactly(txs: seq<RawTx>, n: nat, start: nat, every: nat, root: Fr, x: Snapshot)
    requires n > 0 && every > 0
    ensures x in SnapshotsOf(txs, n, start, every, root) <==> exists k: nat :: Saves(txs, n, start, every, root, k, x)
    decreases |txs|
  {
    hide LastOffset, ResumesAt;
    if |txs| >= n {
      var tail, next := txs[n..], start + 1;
      SnapshotsExactly(tail, n, next, every, root, x);
      LastOffsetExactly(txs[..n], x.offset);
      assert x in SavedAt(start + 1, every, LastOffset(txs[..n]), root) <==> Saves(txs, n, start, every, root, 0, x);
      forall k: nat
        ensures Saves(tail, n, next, every, root, k, x) <==> Saves(txs, n, start, every, root, k + 1, x)
      {
      }
      if k: nat :| Saves(txs, n, start, every, root, k, x) {
        assert k == 0 || Saves(tail, n, next, every, root, k - 1, x);
      }
      if k: nat :| Saves(tail, n, next, every, root, k, x) {
        assert Saves(txs, n, start, every, root, k + 1, x);
      }
    }
  }

  /** All records of the `k`-th block can be encoded, and if a state is due after it one of them has an offset. */
  ghost predicate BlockGoes(txs: seq<RawTx>, n: nat, start: nat, every: nat, w: Widths, k: nat)
    requires n > 0 && every > 0 && WellFormed(txs)
  {
    ChunkWellFormed(txs, n, k);
    Chunk(txs, n, k) != [] ==>
      && AllEncodable(Chunk(txs, n, k), w)
      && ((start + k + 1) % every == 0 ==> exists i :: 0 <= i < |Chunk(txs, n, k)| && Chunk(txs, n, k)[i].offset.Some?)
  }

  /** A pop goes through exactly when every whole block does. */
  lemma {:induction false} CanPopExactly(txs: seq<RawTx>, n: nat, start: nat, every: nat, w: Widths)
    requires n > 0 && every > 0 && WellFormed(txs)
    ensures CanPop(txs, n, start, every, w) <==> forall k: nat :: BlockGoes(txs, n, start, every, w, k)
    decreases |txs|
  {
    hide LastOffset, AllEncodable;
    if |txs| >= n {
      var tail, next := txs[n..], start + 1;
      CanPopExactly(tail, n, next, every, w);
      LastOffsetExactly(txs[..n], 0);
      assert BlockGoes(txs, n, start, every, w, 0) <==>
               AllEncodable(txs[..n], w) && ((start + 1) % every == 0 ==> LastOffset(txs[..n]).Some?);
      forall k: nat
        ensures BlockGoes(tail, n, next, every, w, k) <==> BlockGoes(txs, n, start, every, w, k + 1)
      {
      }
      if forall k: nat :: BlockGoes(tail, n, next, every, w, k) {
        forall k: nat | BlockGoes(txs, n, start, every, w, 0)
          ensures BlockGoes(txs, n, start, every, w, k)
        {
          if k > 0 {
            assert BlockGoes(tail, n, next, every, w, k - 1);
          }
        }
      }
      if forall k: nat :: BlockGoes(txs, n, start, every, w, k) {
        forall k: nat
          ensures BlockGoes(tail, n, next, every, w, k)
        {
          assert BlockGoes(txs, n, start, every, w, k + 1);
        }
      }
    }
  }

  lemma PopExactly(txs: seq<RawTx>, n: nat, start: nat, every: nat, w: Widths, root: Fr)
    requires n > 0 && every > 0 && WellFormed(txs)
    ensures CanPop(txs, n, start, every, w) <==> forall k: nat :: BlockGoes(txs, n, start, every, w, k)
    ensures forall x :: x in SnapshotsOf(txs, n, start, every, root) <==>
              exists k: nat :: Saves(txs, n, start, every, root, k, x)
  {
    hide *;
    CanPopExactly(txs, n, start, every, w);
    forall x
      ensures x in SnapshotsOf(txs, n, start, every, root) <==>
                exists k: nat :: Saves(txs, n, start, every, root, k, x)
    {
      SnapshotsExactly(txs, n, start, every, root, x);
    }
  }
}
