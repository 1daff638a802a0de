/** The message loop: one operation, then a pop; or, when no message comes, empty transactions up to a whole block. */
module Driver {
  import opened Field
  import opened Wrappers
  import opened Records
  import opened Ledger
  import opened Batch
  import opened Transactions
  import opened Steps
  import opened BitEncoder
  import opened TxData
  import opened Emission
  import opened Blocks
  import opened GlobalState
  import opened Manager
  import opened Rollup

  /** The machine of the run theorems is what the manager object holds. */
  ghost predicate Mirrors(manager: ManagerWrapper, m: Machine)
    reads manager, manager.state
  {
    m.ledger == manager.state.view && m.buffer == manager.bufferedTxs && m.blockNum == manager.blockGenerateNum
  }

  ghost function ConfigOf(manager: ManagerWrapper, persistEvery: nat): Config {
    Config(manager.nTx, persistEvery, manager.txDataEncoder.widths)
  }

  /** The machine after an operation that ended in `ledger` and emitted `out`. */
  ghost function After(m: Machine, ledger: Ledger, out: seq<RawTx>): Machine {
    m.(ledger := ledger, buffer := m.buffer + out, history := m.history + out)
  }

  lemma AfterIsOpStep(m: Machine, op: Op, sig: Signature, offset: Option<int>, ledger: Ledger, out: seq<RawTx>)
    requires Step(m.ledger, op, ledger) && Emits(m.ledger, op, sig, offset, ledger, out)
    ensures OpStep(m, op, sig, offset, After(m, ledger, out))
  {
    hide Step, Emits;
    assert (m.history + out)[..|m.history|] == m.history && (m.history + out)[|m.history|..] == out;
  }

  /** One operation handed to the manager: if it does not panic or fail, it is a step of the machine. */
  method Handle(manager: ManagerWrapper, op: Op, sig: Signature, offset: Option<int>, schedule: seq<nat>,
                ghost m: Machine)
    returns (r: Result<()>, ghost m': Machine)
    requires manager.Valid() && Mirrors(manager, m) && OpInRange(manager.state.levels, op) && PairSchedule(schedule)
    modifies manager`bufferedTxs, manager.state, manager.state.Trees()
    ensures manager.state.strays == old(manager.state.strays)
    ensures r.Ok? ==> manager.Valid() && Mirrors(manager, m') && OpStep(m, op, sig, offset, m')
    ensures r.Ok? ==> fresh(manager.state.Trees() - old(manager.state.Trees()))
  {
    hide ManagerWrapper.Valid, GlobalState.Valid, Invariant, Pow2, KeyUpdated, Deposited, Withdrawn, Traded;
    hide Cancelled, TransferCheck, ScheduledTransfer, PairSchedule, IsSchedule;
    hide KeyUpdateRaw, DepositRaw, WithdrawRaw, TransferRaw, TradeRaw, NopRaw, MatchOrders, OpStep;
    m' := m;
    manager.Levels();
    match op
    case KeyUpdate(a, sign, ay) =>
      r := manager.KeyUpdate(a, sign, ay, offset);
      if r.Ok? {
        ghost var out := [KeyUpdateRaw(m.ledger, a, sign, ay, manager.state.view, offset)];
        AfterIsOpStep(m, op, sig, offset, manager.state.view, out);
        m' := After(m, manager.state.view, out);
      }
    case Deposit(a, t, amount) =>
      r := manager.Deposit(a, t, amount, offset);
      if r.Ok? {
        ghost var out := [DepositRaw(m.ledger, a, t, amount, manager.state.view, offset)];
        AfterIsOpStep(m, op, sig, offset, manager.state.view, out);
        m' := After(m, manager.state.view, out);
      }
    case Transfer(from, to, t, amount) =>
      r := manager.Transfer(from, to, t, amount, sig, offset, schedule);
      if r.Ok? {
        TransferScheduled(m.ledger, from, to, t, amount, schedule);
        ghost var out := [TransferRaw(m.ledger, from, to, t, amount, sig, manager.state.view, offset)];
        AfterIsOpStep(m, op, sig, offset, manager.state.view, out);
        m' := After(m, manager.state.view, out);
      }
    case Withdraw(a, t, amount) =>
      manager.Withdraw(a, t, amount, sig, offset);
      ghost var out := [WithdrawRaw(m.ledger, a, t, amount, sig, manager.state.view, offset)];
      AfterIsOpStep(m, op, sig, offset, manager.state.view, out);
      m' := After(m, manager.state.view, out);
      r := Ok(());
    case Trade(tx) =>
      r := manager.FullSpotTrade(tx, offset, schedule);
      if r.Ok? {
        TradedMatches(m.ledger, tx);
        ghost var out := [TradeRaw(m.ledger, MatchOrders(m.ledger, tx).value, tx, manager.state.view, offset)];
        AfterIsOpStep(m, op, sig, offset, manager.state.view, out);
        m' := After(m, manager.state.view, out);
      }
    case Cancel(a, orderId) =>
      r := manager.CancelOrder(a, orderId);
      if r.Ok? {
        AfterIsOpStep(m, op, sig, offset, manager.state.view, []);
        m' := After(m, manager.state.view, []);
      }
    case Nop =>
      manager.Nop();
      AfterIsOpStep(m, op, sig, offset, manager.state.view, [NopRaw(m.ledger)]);
      m' := After(m, manager.state.view, [NopRaw(m.ledger)]);
      r := Ok(());
  }

  /** `pop_all_blocks`, as a step of the machine. */
  method PopBlocks(manager: ManagerWrapper, persistEvery: nat, ghost m: Machine)
    returns (r: Result<(seq<L2Block>, seq<Snapshot>)>, ghost m': Machine)
    requires manager.Valid() && Mirrors(manager, m) && persistEvery > 0 && manager.nTx > 0
    modifies manager`bufferedTxs, manager`blockGenerateNum, manager.txDataEncoder`ctx, manager.txDataEncoder.ctx
    ensures r.Ok? ==>
              && manager.Valid() && Mirrors(manager, m') && manager.state.view == old(manager.state.view)
              && PopStep(ConfigOf(manager, persistEvery), m, m', r.value.0, r.value.1)
  {
    hide ManagerWrapper.Valid, GlobalState.Valid, Invariant, Cut, SnapshotsOf, CanPop, StateRoot;
    m' := m;
    r := manager.PopAllBlocks(persistEvery);
    if r.Ok? {
      m' := m.(buffer := manager.bufferedTxs, blockNum := manager.blockGenerateNum, blocks := m.blocks + r.value.0);
    }
  }

  /**
   * What holds each time the loop waits for a message: everything so far is accounted for, and no whole block is
   * waiting.
   */
  ghost predicate Waiting(c: Config, first: Fr, start: nat, m: Machine) {
    Accounted(c, first, start, m) && |m.buffer| < c.nTx
  }

  /**
   * What one turn of the loop gives out: at most one block, which ends at the current root and holds what was
   * buffered. With it, when its turn has come and only then, goes a saved state of that root, which says where to
   * resume: at the last offset among the block's records.
   */
  ghost predicate GoodOutput(blocks: seq<L2Block>, saved: seq<Snapshot>, m': Machine, txs: seq<RawTx>, every: nat)
    requires every > 0
  {
    && |blocks| <= 1 && |saved| <= |blocks|
    && (blocks != [] ==>
          && m'.buffer == [] && blocks[0].blockId + 1 == m'.blockNum && blocks[0].detail.newRoot == StateRoot(m'.ledger)
          && (saved != [] <==> m'.blockNum % every == 0 && exists i :: 0 <= i < |txs| && txs[i].offset.Some?))
    && (saved != [] ==>
          && saved[0].blockNum == m'.blockNum && saved[0].root == blocks[0].detail.newRoot
          && ResumesAt(txs, saved[0].offset))
  }

  lemma PopIsGood(c: Config, first: Fr, start: nat, m: Machine, m': Machine, blocks: seq<L2Block>, saved: seq<Snapshot>)
    requires Accounted(c, first, start, m) && |m.buffer| <= c.nTx && PopStep(c, m, m', blocks, saved)
    ensures c.persistEvery > 0 && Waiting(c, first, start, m')
    ensures GoodOutput(blocks, saved, m', m.buffer, c.persistEvery)
  {
    hide Accounted, Cut, SnapshotsOf, StateRoot, LastOffset, ResumesAt, IsBlock;
    PopKeepsAccounted(c, first, start, m, m', blocks, saved);
    SavedStateMatchesBlock(c, first, start, m, m', blocks, saved);
    PopAtMostOne(c, m, m', blocks, saved);
    LastOffsetExactly(m.buffer, if saved != [] then saved[0].offset else 0);
  }

  /** One turn with a message. */
  method Turn(manager: ManagerWrapper, op: Op, sig: Signature, offset: Option<int>, schedule: seq<nat>,
              persistEvery: nat,
              ghost m: Machine, ghost first: Fr, ghost start: nat)
    returns (r: Result<(seq<L2Block>, seq<Snapshot>)>, ghost m': Machine)
    requires manager.Valid() && Mirrors(manager, m) && OpInRange(manager.state.levels, op) && PairSchedule(schedule)
    requires persistEvery > 0 && Waiting(ConfigOf(manager, persistEvery), first, start, m)
    modifies manager`bufferedTxs, manager`blockGenerateNum, manager.state, manager.state.Trees()
    modifies manager.txDataEncoder`ctx, manager.txDataEncoder.ctx
    ensures manager.state.strays == old(manager.state.strays)
    ensures r.Ok? ==>
              && manager.Valid() && Mirrors(manager, m')
              && Waiting(ConfigOf(manager, persistEvery), first, start, m')
              && exists mid ::
                   && OpStep(m, op, sig, offset, mid)
                   && PopStep(ConfigOf(manager, persistEvery), mid, m', r.value.0, r.value.1)
                   && GoodOutput(r.value.0, r.value.1, m', mid.buffer, persistEvery)
  {
    hide ManagerWrapper.Valid, GlobalState.Valid, Invariant, PairSchedule, OpInRange, OpStep, PopStep, Accounted;
    hide GoodOutput, StateRoot;
    ghost var c := ConfigOf(manager, persistEvery);
    InvariantNow(c, first, start, m);
    ghost var mid: Machine;
    var done: Result<()>;
    done, mid := Handle(manager, op, sig, offset, schedule, m);
    if done.Err? {
      m' := m;
      return Err(done.reason), m;
    }
    MessageFillsAtMostABlock(c, m, op, sig, offset, mid);
    OpKeepsAccounted(c, first, start, m, op, sig, offset, mid);
    r, m' := PopBlocks(manager, persistEvery, mid);
    if r.Ok? {
      PopIsGood(c, first, start, mid, m', r.value.0, r.value.1);
    }
  }

  lemma InvariantNow(c: Config, first: Fr, start: nat, m: Machine)
    requires Accounted(c, first, start, m)
    ensures Invariant(m.ledger) && c.nTx > 0
  {
    hide Invariant, Chained, Cut;
  }

  lemma {:induction false} NopsKeepAccounted(c: Config, first: Fr, start: nat, m: Machine, k: nat)
    requires Accounted(c, first, start, m)
    ensures Accounted(c, first, start, After(m, m.ledger, Nops(m.ledger, k)))
  {
    hide Accounted, NopRaw, OpStep;
    if k == 0 {
      assert After(m, m.ledger, Nops(m.ledger, 0)) == m;
    } else {
      NopsKeepAccounted(c, first, start, m, k - 1);
      var before, out := After(m, m.ledger, Nops(m.ledger, k - 1)), [NopRaw(m.ledger)];
      var sig := Signature(0, 0, 0, 0);
      AfterIsOpStep(before, Op.Nop, sig, None, m.ledger, out);
      OpKeepsAccounted(c, first, start, before, Op.Nop, sig, None, After(before, m.ledger, out));
      assert Nops(m.ledger, k) == Nops(m.ledger, k - 1) + out;
      assert After(before, m.ledger, out) == After(m, m.ledger, Nops(m.ledger, k));
    }
  }

  lemma FilledUp(len: nat, n: nat)
    requires n > 0 && len < n
    ensures len + PadTo(len, n) <= n && (len == 0 ==> PadTo(len, n) == 0) && (len > 0 ==> len + PadTo(len, n) == n)
  {
    ModUnique(n, 0, len);
  }

  /** One turn without a message: what is buffered becomes a block. */
  method Idle(manager: ManagerWrapper, persistEvery: nat, ghost m: Machine, ghost first: Fr, ghost start: nat)
    returns (r: Result<(seq<L2Block>, seq<Snapshot>)>, ghost m': Machine)
    requires manager.Valid() && Mirrors(manager, m)
    requires persistEvery > 0 && Waiting(ConfigOf(manager, persistEvery), first, start, m)
    modifies manager`bufferedTxs, manager`blockGenerateNum, manager.txDataEncoder`ctx, manager.txDataEncoder.ctx
    ensures r.Ok? ==>
              && manager.Valid() && Mirrors(manager, m') && manager.state.view == old(manager.state.view)
              && Waiting(ConfigOf(manager, persistEvery), first, start, m')
              && GoodOutput(r.value.0, r.value.1, m',
                            m.buffer + Nops(m.ledger, PadTo(|m.buffer|, manager.nTx)), persistEvery)
              && m'.buffer == [] && (r.value.0 == [] <==> m.buffer == [])
  {
    hide ManagerWrapper.Valid, GlobalState.Valid, Invariant, PopStep, Accounted, StateRoot, NopRaw;
    ghost var c := ConfigOf(manager, persistEvery);
    InvariantNow(c, first, start, m);
    FilledUp(|m.buffer|, manager.nTx);
    ghost var n := PadTo(|m.buffer|, manager.nTx);
    if manager.bufferedTxs != [] {
      manager.FlushWithNop();
    }
    ghost var mid := After(m, m.ledger, Nops(m.ledger, n));
    NopsKeepAccounted(c, first, start, m, n);
    assert mid.buffer == manager.bufferedTxs;
    r, m' := PopBlocks(manager, persistEvery, mid);
    if r.Ok? {
      PopIsGood(c, first, start, mid, m', r.value.0, r.value.1);
      PopAtMostOne(c, mid, m', r.value.0, r.value.1);
    }
  }
}
