/** Whole runs of the manager: records, blocks and saved states under any interleaving of transactions and pops. */
module Rollup {
  import opened Field
  import opened Wrappers
  import opened Records
  import opened Ledger
  import opened Transactions
  import opened Steps
  import opened TxData
  import opened TxEncoder
  import opened Emission
  import opened Blocks

  /** The manager's state; `history` and `blocks` remember every record and every block made so far. */
  datatype Machine = Machine(ledger: Ledger, buffer: seq<RawTx>, blockNum: nat, history: seq<RawTx>,
                             blocks: seq<L2Block>)

  datatype Config = Config(nTx: nat, persistEvery: nat, widths: Widths)

  /** The record an operation emits; a cancellation emits none. */
  ghost predicate Emits(s: Ledger, op: Op, sig: Signature, offset: Option<int>, r: Ledger, out: seq<RawTx>) {
    match op
    case KeyUpdate(a, sign, ay) => out == [KeyUpdateRaw(s, a, sign, ay, r, offset)]
    case Deposit(a, t, amount) => out == [DepositRaw(s, a, t, amount, r, offset)]
    case Transfer(from, to, t, amount) => out == [TransferRaw(s, from, to, t, amount, sig, r, offset)]
    case Withdraw(a, t, amount) => out == [WithdrawRaw(s, a, t, amount, sig, r, offset)]
    case Trade(tx) => MatchOrders(s, tx).Ok? && out == [TradeRaw(s, MatchOrders(s, tx).value, tx, r, offset)]
    case Cancel(_, _) => out == []
    case Nop => out == [NopRaw(s)]
  }

  /** One transaction, cancellation or empty transaction. */
  ghost predicate OpStep(m: Machine, op: Op, sig: Signature, offset: Option<int>, m': Machine) {
    && Step(m.ledger, op, m'.ledger)
    && |m'.history| >= |m.history| && m'.history[..|m.history|] == m.history
    && var out := m'.history[|m.history|..];
    && Emits(m.ledger, op, sig, offset, m'.ledger, out)
    && m' == m.(ledger := m'.ledger, buffer := m.buffer + out, history := m.history + out)
  }

  /** `pop_all_blocks` that does not panic: the blocks it returns and the states it saves. */
  ghost predicate PopStep(c: Config, m: Machine, m': Machine, popped: seq<L2Block>, saved: seq<Snapshot>) {
    && c.nTx > 0 && c.persistEvery > 0 && |m'.buffer| <= |m.buffer|
    && var k := |m.buffer| - |m'.buffer|;
    && |m'.buffer| < c.nTx && m'.buffer == m.buffer[k..]
    && Cut(m.buffer[..k], c.nTx, m.blockNum, c.widths, popped)
    && saved == SnapshotsOf(m.buffer, c.nTx, m.blockNum, c.persistEvery, StateRoot(m.ledger))
    && m' == m.(buffer := m'.buffer, blockNum := m.blockNum + |popped|, blocks := m.blocks + popped)
  }

  /** Each root is the next record's starting point. */
  ghost predicate Chained(txs: seq<RawTx>, first: Fr, last: Fr) {
    if txs == [] then first == last
    else txs[|txs| - 1].rootAfter == last && Chained(txs[..|txs| - 1], first, txs[|txs| - 1].rootBefore)
  }

  /** Blocks and buffer are the whole history, in order, and its roots form one chain up to the current root. */
  ghost predicate Accounted(c: Config, first: Fr, start: nat, m: Machine) {
    && c.nTx > 0 && c.persistEvery > 0
    && Invariant(m.ledger) && WellFormed(m.history)
    && Chained(m.history, first, StateRoot(m.ledger))
    && |m.buffer| <= |m.history| && m.buffer == m.history[|m.history| - |m.buffer|..]
    && Cut(m.history[..|m.history| - |m.buffer|], c.nTx, start, c.widths, m.blocks)
    && m.blockNum == start + |m.blocks|
  }

  function NewMachine(s: Ledger, blockNum: nat): Machine {
    Machine(s, [], blockNum, [], [])
  }

  lemma NewMachineAccounted(c: Config, s: Ledger, start: nat)
    requires c.nTx > 0 && c.persistEvery > 0 && Invariant(s)
    ensures Accounted(c, StateRoot(s), start, NewMachine(s, start))
  {
    hide Invariant, StateRoot;
  }

  // -------------------------------------------------------------- one step

  /**
   * A record starts at the root before the operation and ends at the root after it; an operation without one keeps the
   * root.
   */
  lemma EmittedRoots(s: Ledger, op: Op, sig: Signature, offset: Option<int>, r: Ledger, out: seq<RawTx>)
    requires Invariant(s) && Step(s, op, r) && Emits(s, op, sig, offset, r, out)
    ensures |out| <= 1 && (out == [] <==> op.Cancel?)
    ensures out == [] ==> StateRoot(r) == StateRoot(s)
    ensures out != [] ==> out[0].rootBefore == StateRoot(s) && out[0].rootAfter == StateRoot(r)
    ensures out != [] ==> |out[0].payload| == TX_LENGTH && out[0].txType != PlaceOrder
  {
    if op.Cancel? {
      StepKeepsRoot(s, op, r);
    }
    hide Invariant, StateRoot, Payload, BalancePath, AccountPath, OrderPath, TrivialOrderPath, MatchOrders, At;
    hide Traded, Cancelled, Withdrawn, Deposited, KeyUpdated, TransferStep;
    hide KeyUpdateFields, DepositFields, WithdrawFields, TransferFields, TradeFields;
  }

  lemma ChainedExtend(txs: seq<RawTx>, out: seq<RawTx>, first: Fr, before: Fr, after: Fr)
    requires Chained(txs, first, before) && |out| <= 1
    requires out == [] ==> before == after
    requires out != [] ==> out[0].rootBefore == before && out[0].rootAfter == after
    ensures Chained(txs + out, first, after)
  {
    if out == [] {
      assert txs + out == txs;
    } else {
      assert (txs + out)[..|txs|] == txs;
    }
  }

  lemma OpKeepsAccounted(c: Config, first: Fr, start: nat, m: Machine, op: Op, sig: Signature, offset: Option<int>,
                         m': Machine)
    requires Accounted(c, first, start, m) && OpStep(m, op, sig, offset, m')
    ensures Accounted(c, first, start, m')
  {
    hide Invariant, StateRoot, Chained, Emits, Step, Cut;
    var out := m'.history[|m.history|..];
    EmittedRoots(m.ledger, op, sig, offset, m'.ledger, out);
    StepKeepsInvariant(m.ledger, op, m'.ledger);
    ChainedExtend(m.history, out, first, StateRoot(m.ledger), StateRoot(m'.ledger));
    var k := |m.history| - |m.buffer|;
    assert m'.history[..k] == m.history[..k];
    assert m'.buffer == m'.history[|m'.history| - |m'.buffer|..];
  }

  /** Blocks cut from two stretches in a row. */
  lemma {:induction false} CutJoin(txs: seq<RawTx>, more: seq<RawTx>, n: nat, start: nat, w: Widths,
                                   blocks: seq<L2Block>, newer: seq<L2Block>)
    requires Cut(txs, n, start, w, blocks) && Cut(more, n, start + |blocks|, w, newer)
    ensures Cut(txs + more, n, start, w, blocks + newer)
    decreases |newer|
  {
    hide IsBlock;
    if newer == [] {
      assert txs + more == txs && blocks + newer == blocks;
    } else {
      var k, len := |newer| - 1, |more| - n;
      CutJoin(txs, more[..len], n, start, w, blocks, newer[..k]);
      var all := txs + more;
      assert all[|all| - n..] == more[len..] && all[..|all| - n] == txs + more[..len];
      assert (blocks + newer)[..|blocks| + k] == blocks + newer[..k];
    }
  }

  lemma PopKeepsAccounted(c: Config, first: Fr, start: nat, m: Machine, m': Machine, popped: seq<L2Block>,
                          saved: seq<Snapshot>)
    requires Accounted(c, first, start, m) && PopStep(c, m, m', popped, saved)
    ensures Accounted(c, first, start, m')
  {
    hide Invariant, StateRoot, Chained, Cut, SnapshotsOf;
    var k, done := |m.buffer| - |m'.buffer|, |m.history| - |m.buffer|;
    CutJoin(m.history[..done], m.buffer[..k], c.nTx, start, c.widths, m.blocks, popped);
    assert m.history[..done] + m.buffer[..k] == m.history[..done + k];
    assert m.buffer[k..] == m.history[done + k..];
  }

  // ------------------------------------------------------------- whole runs

  datatype Event = Run(op: Op, sig: Signature, offset: Option<int>) | Pop(popped: seq<L2Block>, saved: seq<Snapshot>)

  ghost predicate EventStep(c: Config, m: Machine, e: Event, m': Machine) {
    match e
    case Run(op, sig, offset) => OpStep(m, op, sig, offset, m')
    case Pop(popped, saved) => PopStep(c, m, m', popped, saved)
  }

  ghost predicate IsExecution(c: Config, ms: seq<Machine>, es: seq<Event>) {
    && |ms| == |es| + 1
    && forall i :: 0 <= i < |es| ==> EventStep(c, ms[i], es[i], ms[i + 1])
  }

  /** Under any interleaving of transactions, cancellations, empty transactions and pops. */
  lemma {:induction false} ExecutionAccounted(c: Config, ms: seq<Machine>, es: seq<Event>, start: nat, n: nat)
    requires c.nTx > 0 && c.persistEvery > 0 && IsExecution(c, ms, es) && n < |ms|
    requires Invariant(ms[0].ledger) && ms[0] == NewMachine(ms[0].ledger, start)
    ensures Accounted(c, StateRoot(ms[0].ledger), start, ms[n])
  {
    hide Invariant, StateRoot, Accounted, OpStep, PopStep;
    if n == 0 {
      NewMachineAccounted(c, ms[0].ledger, start);
    } else {
      ExecutionAccounted(c, ms, es, start, n - 1);
      assert EventStep(c, ms[n - 1], es[n - 1], ms[n]);
      match es[n - 1]
      case Run(op, sig, offset) => OpKeepsAccounted(c, StateRoot(ms[0].ledger), start, ms[n - 1], op, sig, offset,
                                                    ms[n]);
      case Pop(popped, saved) => PopKeepsAccounted(c, StateRoot(ms[0].ledger), start, ms[n - 1], ms[n], popped, saved);
    }
  }

  // ------------------------------------------------------------ block roots

  /** Any stretch of a chain is a chain. */
  lemma {:induction false} ChainedPrefix(txs: seq<RawTx>, first: Fr, last: Fr, n: nat) returns (middle: Fr)
    requires Chained(txs, first, last) && n <= |txs|
    ensures Chained(txs[..n], first, middle)
    ensures n > 0 ==> middle == txs[n - 1].rootAfter
    ensures n < |txs| ==> middle == txs[n].rootBefore
    ensures n == 0 ==> middle == first
    ensures n == |txs| ==> middle == last
    decreases |txs|
  {
    if n == |txs| {
      assert txs[..n] == txs;
      middle := last;
    } else {
      var k := |txs| - 1;
      middle := ChainedPrefix(txs[..k], first, txs[k].rootBefore, n);
      assert txs[..k][..n] == txs[..n];
    }
  }

  /** Each block starts at the root where the one before it ended, the first at `first`, and the last ends at `last`. */
  ghost predicate BlocksChained(blocks: seq<L2Block>, first: Fr, last: Fr) {
    if blocks == [] then first == last
    else
      var k := |blocks| - 1;
      blocks[k].detail.newRoot == last && BlocksChained(blocks[..k], first, blocks[k].detail.oldRoot)
  }

  lemma BlockEnds(block: L2Block, blockId: nat, txs: seq<RawTx>, w: Widths)
    requires IsBlock(block, blockId, txs, w)
    ensures txs != [] && block.detail.oldRoot == txs[0].rootBefore && block.detail.newRoot == txs[|txs| - 1].rootAfter
  {
    hide BlockBits, AllEncodable;
  }

  lemma {:induction false} CutIsChained(txs: seq<RawTx>, n: nat, start: nat, w: Widths, blocks: seq<L2Block>, first: Fr,
                                        last: Fr)
    requires Cut(txs, n, start, w, blocks) && Chained(txs, first, last)
    ensures BlocksChained(blocks, first, last)
    decreases |blocks|
  {
    hide IsBlock;
    if blocks != [] {
      var k, len := |blocks| - 1, |txs| - n;
      BlockEnds(blocks[k], start + k, txs[len..], w);
      var middle := ChainedPrefix(txs, first, last, len);
      CutIsChained(txs[..len], n, start, w, blocks[..k], first, middle);
    }
  }

  /**
   * When everything is accounted for, the blocks made so far form one chain of roots, which the buffered records
   * continue to the current root.
   */
  lemma BlockRootsChain(c: Config, first: Fr, start: nat, m: Machine) returns (cutRoot: Fr)
    requires Accounted(c, first, start, m)
    ensures BlocksChained(m.blocks, first, cutRoot)
    ensures m.buffer == [] ==> cutRoot == StateRoot(m.ledger)
    ensures m.buffer != [] ==>
              cutRoot == m.buffer[0].rootBefore && m.buffer[|m.buffer| - 1].rootAfter == StateRoot(m.ledger)
  {
    hide Invariant, StateRoot, Cut;
    var done := |m.history| - |m.buffer|;
    cutRoot := ChainedPrefix(m.history, first, StateRoot(m.ledger), done);
    CutIsChained(m.history[..done], c.nTx, start, c.widths, m.blocks, first, cutRoot);
  }

  /** Two consecutive blocks meet. */
  lemma {:induction false} ConsecutiveBlocks(blocks: seq<L2Block>, first: Fr, last: Fr, k: nat)
    requires BlocksChained(blocks, first, last) && k + 1 < |blocks|
    ensures blocks[k].detail.newRoot == blocks[k + 1].detail.oldRoot
    decreases |blocks|
  {
    var init := blocks[..|blocks| - 1];
    if k + 2 < |blocks| {
      ConsecutiveBlocks(init, first, blocks[|blocks| - 1].detail.oldRoot, k);
    } else {
      assert init[|init| - 1] == blocks[k];
    }
  }

  /** Block ids are consecutive, and block `k` holds the `k`-th stretch of `n` records. */
  lemma {:induction false} BlockHolds(txs: seq<RawTx>, n: nat, start: nat, w: Widths, blocks: seq<L2Block>, k: nat,
                                      from: nat)
    requires Cut(txs, n, start, w, blocks) && k < |blocks| && from == k * n
    ensures |txs| == |blocks| * n && from + n <= |txs|
    ensures IsBlock(blocks[k], start + k, txs[from..from + n], w)
    decreases |blocks|
  {
    hide IsBlock;
    var last, len := |blocks| - 1, |txs| - n;
    assert |blocks| * n == last * n + n;
    if last == 0 {
      assert Cut(txs[..len], n, start, w, []) && txs[..len] == [];
      assert from == 0 && txs[len..] == txs[from..from + n];
    } else {
      BlockHolds(txs[..len], n, start, w, blocks[..last], if k < last then k else 0, if k < last then from else 0);
      assert len == last * n;
      if k < last {
        assert txs[..len][from..from + n] == txs[from..from + n] && blocks[..last][k] == blocks[k];
      } else {
        assert from == len && txs[len..] == txs[from..from + n];
      }
    }
  }

  // -------------------------------------------------------------- the driver

  /** Fewer records than a block: what the driver finds before each message. */
  ghost predicate Settled(c: Config, m: Machine) {
    |m.buffer| < c.nTx
  }

  /** A pop that meets at most one whole block makes that block, or none. */
  lemma PopAtMostOne(c: Config, m: Machine, m': Machine, popped: seq<L2Block>, saved: seq<Snapshot>)
    requires PopStep(c, m, m', popped, saved) && |m.buffer| <= c.nTx
    ensures |m.buffer| < c.nTx ==> popped == [] && saved == [] && m' == m
    ensures |m.buffer| == c.nTx ==>
              && |popped| == 1 && m'.buffer == [] && IsBlock(popped[0], m.blockNum, m.buffer, c.widths)
              && saved == SavedAt(m.blockNum + 1, c.persistEvery, LastOffset(m.buffer), StateRoot(m.ledger))
  {
    hide IsBlock, StateRoot, LastOffset, SavedAt;
    var k := |m.buffer| - |m'.buffer|;
    var txs := m.buffer[..k];
    if popped != [] {
      assert k == c.nTx && txs[|txs| - c.nTx..] == m.buffer && txs[..|txs| - c.nTx] == [];
      assert Cut([], c.nTx, m.blockNum, c.widths, popped[..|popped| - 1]);
    } else {
      assert m.buffer[0..] == m.buffer && m.blocks + popped == m.blocks;
    }
    if |m.buffer| == c.nTx {
      assert m.buffer[..c.nTx] == m.buffer && SnapshotsOf(m.buffer[c.nTx..], c.nTx, m.blockNum + 1, c.persistEvery,
                                                          StateRoot(m.ledger)) == [];
    }
  }

  /**
   * The driver pops after every message, which emits at most one record. So a pop makes at most one
   * block, that block empties the buffer, and a state saved with it has the block's new root.
   */
  lemma SavedStateMatchesBlock(c: Config, first: Fr, start: nat, m: Machine, m': Machine, popped: seq<L2Block>,
                               saved: seq<Snapshot>)
    requires Accounted(c, first, start, m) && PopStep(c, m, m', popped, saved) && |m.buffer| <= c.nTx
    ensures Settled(c, m') && |popped| <= 1 && |saved| <= |popped|
    ensures popped != [] ==>
              m'.buffer == [] && popped[0].blockId == m.blockNum && popped[0].detail.newRoot == StateRoot(m'.ledger)
    ensures saved != [] ==>
              && saved[0].blockNum == m'.blockNum && saved[0].root == popped[0].detail.newRoot
              && LastOffset(m.buffer) == Some(saved[0].offset)
  {
    hide Invariant, StateRoot, LastOffset, IsBlock;
    PopAtMostOne(c, m, m', popped, saved);
    if |m.buffer| == c.nTx {
      BlockEnds(popped[0], m.blockNum, m.buffer, c.widths);
      BlockId(popped[0], m.blockNum, m.buffer, c.widths);
      var _ := BlockRootsChain(c, first, start, m);
    }
  }

  lemma BlockId(block: L2Block, blockId: nat, txs: seq<RawTx>, w: Widths)
    requires IsBlock(block, blockId, txs, w)
    ensures block.blockId == blockId
  {
    hide BlockBits, AllEncodable, DetailOf;
  }

  /** One message keeps the buffer within one block, so the pop that follows is of the kind above. */
  lemma MessageFillsAtMostABlock(c: Config, m: Machine, op: Op, sig: Signature, offset: Option<int>, m': Machine)
    requires Settled(c, m) && Invariant(m.ledger) && OpStep(m, op, sig, offset, m')
    ensures |m'.buffer| <= c.nTx
  {
    hide Invariant, Step, Emits;
    EmittedRoots(m.ledger, op, sig, offset, m'.ledger, m'.history[|m.history|..]);
  }
}
