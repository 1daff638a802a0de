/** Whole runs of the ledger: any finite sequence of operations, in any interleaving. */
module Runs {
  import opened Field
  import opened Records
  import opened Ledger
  import opened Slots
  import opened Transactions
  import opened Invariants
  import opened Conservation
  import opened Steps
  import opened OrderHistory

  /** The states a run goes through, one more than its operations. */
  ghost predicate IsRun(states: seq<Ledger>, ops: seq<Op>) {
    && |states| == |ops| + 1
    && forall i :: 0 <= i < |ops| ==> Step(states[i], ops[i], states[i + 1])
  }

  /** Everything reachable from a consistent state is consistent, whatever is done. */
  lemma {:induction false} RunKeepsInvariant(states: seq<Ledger>, ops: seq<Op>, n: nat)
    requires IsRun(states, ops) && Invariant(states[0]) && n < |states|
    ensures Invariant(states[n]) && states[n].levels == states[0].levels
  {
    hide Invariant, Step;
    if n > 0 {
      RunKeepsInvariant(states, ops, n - 1);
      StepKeepsInvariant(states[n - 1], ops[n - 1], states[n]);
    }
  }

  // ----------------------------------------------------------- conservation

  ghost predicate AllAdmissible(states: seq<Ledger>, ops: seq<Op>)
    requires |states| == |ops| + 1
  {
    forall i :: 0 <= i < |ops| ==> Admissible(states[i], ops[i])
  }

  ghost predicate AllConserve(states: seq<Ledger>, ops: seq<Op>, n: nat, token: nat)
    requires n <= |ops| < |states|
  {
    forall i :: 0 <= i < n ==> Conserves(states[i], ops[i], token)
  }

  ghost predicate AllSolvent(states: seq<Ledger>, ops: seq<Op>, n: nat, token: nat)
    requires n <= |ops| < |states|
  {
    forall i :: 0 <= i < n ==> Solvent(states[i], ops[i], token)
  }

  /** Deposits minus withdrawals of a token. */
  function NetInflow(ops: seq<Op>, token: nat): int {
    if ops == [] then 0 else NetInflow(ops[..|ops| - 1], token) + Inflow(ops[|ops| - 1], token)
  }

  lemma {:induction false} RunKeepsKeys(states: seq<Ledger>, ops: seq<Op>, n: nat)
    requires IsRun(states, ops) && Invariant(states[0]) && AllKeyed(states[0]) && AllAdmissible(states, ops)
    requires n < |states|
    ensures AllKeyed(states[n])
  {
    hide Invariant, Step, AllKeyed, Admissible;
    if n > 0 {
      RunKeepsKeys(states, ops, n - 1);
      RunKeepsInvariant(states, ops, n - 1);
      StepKeepsKeys(states[n - 1], ops[n - 1], states[n]);
    }
  }

  /** After every step the supply has moved by deposits minus withdrawals so far, modulo the field order. */
  ghost predicate Balanced(states: seq<Ledger>, ops: seq<Op>, n: nat, token: nat)
    requires n <= |ops| < |states|
  {
    forall i :: 0 <= i <= n ==>
      Congruent(Supply(states[i], token), Supply(states[0], token) + NetInflow(ops[..i], token))
  }

  /** The same as integers. */
  ghost predicate ExactlyBalanced(states: seq<Ledger>, ops: seq<Op>, n: nat, token: nat)
    requires n <= |ops| < |states|
  {
    forall i :: 0 <= i <= n ==> Supply(states[i], token) == Supply(states[0], token) + NetInflow(ops[..i], token)
  }

  lemma NetInflowStep(ops: seq<Op>, n: nat, token: nat)
    requires n < |ops|
    ensures NetInflow(ops[..n + 1], token) == NetInflow(ops[..n], token) + Inflow(ops[n], token)
  {
    assert ops[..n + 1][..n] == ops[..n];
  }

  /** Two sums that agree before a step agree after it exactly when the step adds to one what it adds to the other. */
  lemma CongruentStep(before: int, sum: int, after: int, flow: int)
    requires Congruent(before, sum)
    ensures Congruent(after, sum + flow) <==> Congruent(after, before + flow)
  {
    CongruentLaws(flow, 0, 0);
    CongruentSum(before, sum, flow, flow);
    CongruentLaws(before + flow, 0, 0);
    CongruentSum(before + flow, before + flow, before + flow, sum + flow);
    CongruentSum(sum + flow, before + flow, 0, 0);
    CongruentLaws(after, before + flow, sum + flow);
    CongruentLaws(after, sum + flow, before + flow);
  }

  /**
   * The books balance after every step exactly when every step conserves, and as integers exactly when every step is
   * solvent.
   */
  lemma {:induction false} RunSupply(states: seq<Ledger>, ops: seq<Op>, n: nat, token: nat)
    requires IsRun(states, ops) && Invariant(states[0]) && n <= |ops|
    ensures Balanced(states, ops, n, token) <==> AllConserve(states, ops, n, token)
    ensures ExactlyBalanced(states, ops, n, token) <==> AllSolvent(states, ops, n, token)
  {
    hide Invariant, Step, Conserves, Solvent, Supply, Congruent, Inflow, NetInflow, Balanced, ExactlyBalanced;
    if n == 0 {
      NothingYet(states, ops, token);
    } else {
      RunSupply(states, ops, n - 1, token);
      RunKeepsInvariant(states, ops, n - 1);
      StepSupply(states[n - 1], ops[n - 1], states[n], token);
      NetInflowStep(ops, n - 1, token);
      OneMoreStep(states, ops, n - 1, token);
    }
  }

  lemma NothingYet(states: seq<Ledger>, ops: seq<Op>, token: nat)
    requires |ops| < |states|
    ensures Balanced(states, ops, 0, token) && ExactlyBalanced(states, ops, 0, token)
  {
    hide Supply, Congruent;
    assert ops[..0] == [];
    CongruentLaws(Supply(states[0], token), 0, 0);
  }

  lemma OneMoreStep(states: seq<Ledger>, ops: seq<Op>, n: nat, token: nat)
    requires n < |ops| < |states|
    requires NetInflow(ops[..n + 1], token) == NetInflow(ops[..n], token) + Inflow(ops[n], token)
    ensures var before, after, flow := Supply(states[n], token), Supply(states[n + 1], token), Inflow(ops[n], token);
            && (Balanced(states, ops, n + 1, token) <==>
                  Balanced(states, ops, n, token) && Congruent(after, before + flow))
            && (ExactlyBalanced(states, ops, n + 1, token) <==>
                  ExactlyBalanced(states, ops, n, token) && after == before + flow)
  {
    hide Supply, Congruent, NetInflow, Inflow;
    var before, after, flow := Supply(states[n], token), Supply(states[n + 1], token), Inflow(ops[n], token);
    var sum := Supply(states[0], token) + NetInflow(ops[..n], token);
    if Congruent(before, sum) {
      CongruentStep(before, sum, after, flow);
    }
    assert Balanced(states, ops, n + 1, token) <==> Balanced(states, ops, n, token) && Congruent(after, sum + flow);
  }

  lemma Genesis(levels: Levels, token: nat)
    requires levels.balance < 32 && levels.order < 32 && levels.account < 32
    ensures Invariant(EmptyLedger(levels)) && AllKeyed(EmptyLedger(levels)) && Supply(EmptyLedger(levels), token) == 0
  {
    EmptyLedgerHolds(levels);
    EmptySupplyBelow(levels, token, |EmptyLedger(levels).leaves|);
    hide Invariant, SupplyBelow, EmptyAccount, Pow2;
  }

  /**
   * From the empty state: after every step all there is was deposited and not withdrawn, exactly when
   * every step conserves, and as integers exactly when every step is solvent. Admissible steps conserve.
   */
  lemma SupplyFromGenesis(states: seq<Ledger>, ops: seq<Op>, levels: Levels, token: nat)
    requires levels.balance < 32 && levels.order < 32 && levels.account < 32
    requires IsRun(states, ops) && states[0] == EmptyLedger(levels)
    ensures |states| == |ops| + 1 && Supply(states[0], token) == 0
    ensures Balanced(states, ops, |ops|, token) <==> AllConserve(states, ops, |ops|, token)
    ensures ExactlyBalanced(states, ops, |ops|, token) <==> AllSolvent(states, ops, |ops|, token)
    ensures AllAdmissible(states, ops) ==> AllConserve(states, ops, |ops|, token)
  {
    hide *;
    RunLength(states, ops);
    Genesis(levels, token);
    RunSupply(states, ops, |ops|, token);
    if AllAdmissible(states, ops) {
      AllAdmissibleConserve(states, ops, token);
    }
  }

  lemma AllAdmissibleConserve(states: seq<Ledger>, ops: seq<Op>, token: nat)
    requires IsRun(states, ops) && Invariant(states[0]) && AllKeyed(states[0]) && AllAdmissible(states, ops)
    ensures AllConserve(states, ops, |ops|, token)
  {
    hide Invariant, Step, AllKeyed, Admissible, Conserves;
    forall i | 0 <= i < |ops|
      ensures Conserves(states[i], ops[i], token)
    {
      RunKeepsKeys(states, ops, i);
      AdmissibleConserves(states[i], ops[i], states[i + 1], token);
    }
  }

  lemma RunLength(states: seq<Ledger>, ops: seq<Op>)
    requires IsRun(states, ops)
    ensures |states| == |ops| + 1
  {
    hide Step;
  }

  // ----------------------------------------------------------------- orders

  /** Mapped ids stay mapped through a run, to the same positions. */
  lemma {:induction false} RunMap(states: seq<Ledger>, ops: seq<Op>, i: nat, j: nat)
    requires IsRun(states, ops) && Invariant(states[0]) && i <= j < |states|
    ensures MapGrows(states[i], states[j])
    decreases j
  {
    hide Invariant, Step, KeepsSlots, SlotsMove;
    if i < j {
      RunMap(states, ops, i, j - 1);
      RunKeepsInvariant(states, ops, j - 1);
      StepMoves(states[j - 1], ops[j - 1], states[j]);
    }
  }

  /** A step that maps an order id the account did not have. */
  ghost predicate PlacesNew(s: Ledger, r: Ledger, key: (nat, nat)) {
    key !in s.positions && key in r.positions
  }

  /** Within a run no order of an account is placed as new twice. */
  lemma PlacedOnce(states: seq<Ledger>, ops: seq<Op>, i: nat, j: nat, key: (nat, nat))
    requires IsRun(states, ops) && Invariant(states[0]) && i < |ops| && j < |ops|
    requires PlacesNew(states[i], states[i + 1], key) && PlacesNew(states[j], states[j + 1], key)
    ensures i == j
  {
    hide Invariant, Step;
    if i < j {
      RunMap(states, ops, i + 1, j);
    } else if j < i {
      RunMap(states, ops, j + 1, i);
    }
  }

  /** No trade from state `i` to state `j` puts a new order where its id leads but it may not go. */
  ghost predicate AllKeepSlots(states: seq<Ledger>, ops: seq<Op>, i: nat, j: nat)
    requires i <= j <= |ops| < |states|
  {
    forall k :: i <= k < j && ops[k].Trade? ==> KeepsSlots(states[k], ops[k].tx)
  }

  ghost predicate OwnOrdersOnly(ops: seq<Op>) {
    forall i :: 0 <= i < |ops| && ops[i].Trade? ==> OwnOrders(ops[i].tx)
  }

  lemma RunStepMoves(states: seq<Ledger>, ops: seq<Op>, k: nat)
    requires IsRun(states, ops) && Invariant(states[0]) && k < |ops|
    ensures SlotsMove(states[k], states[k + 1]) <==> (ops[k].Trade? ==> KeepsSlots(states[k], ops[k].tx))
    ensures ops[k].Trade? && OwnOrders(ops[k].tx) ==> KeepsSlots(states[k], ops[k].tx)
  {
    hide Invariant, KeepsSlots, OwnOrders, SlotsMove, MapGrows, Traded, OpInRange;
    RunKeepsInvariant(states, ops, k);
    StepMoves(states[k], ops[k], states[k + 1]);
    if ops[k].Trade? {
      OwnOrdersKeepSlots(states[k], ops[k].tx);
    }
  }

  /** The slots move as they may in every step exactly when every trade keeps them; orders of the right accounts do. */
  lemma RunMoves(states: seq<Ledger>, ops: seq<Op>, i: nat, j: nat)
    requires IsRun(states, ops) && Invariant(states[0]) && i <= j <= |ops|
    ensures (forall k :: i <= k < j ==> SlotsMove(states[k], states[k + 1])) <==> AllKeepSlots(states, ops, i, j)
    ensures OwnOrdersOnly(ops) ==> AllKeepSlots(states, ops, i, j)
  {
    hide Invariant, KeepsSlots, OwnOrders, SlotsMove, Step;
    forall k | i <= k < j
      ensures SlotsMove(states[k], states[k + 1]) <==> (ops[k].Trade? ==> KeepsSlots(states[k], ops[k].tx))
      ensures ops[k].Trade? && OwnOrders(ops[k].tx) ==> KeepsSlots(states[k], ops[k].tx)
    {
      RunStepMoves(states, ops, k);
    }
    if AllKeepSlots(states, ops, i, j) {
      forall k | i <= k < j
        ensures SlotsMove(states[k], states[k + 1])
      {
      }
    } else {
      var k :| i <= k < j && ops[k].Trade? && !KeepsSlots(states[k], ops[k].tx);
      assert !SlotsMove(states[k], states[k + 1]);
    }
  }

  /** An occupied slot stays occupied, and its ids never decrease. */
  lemma {:induction false} SlotHistory(states: seq<Ledger>, ops: seq<Op>, i: nat, j: nat, a: nat, pos: nat)
    requires IsRun(states, ops) && Invariant(states[0]) && i <= j < |states| && AllKeepSlots(states, ops, i, j)
    requires pos in At(states[i], a).orders
    ensures pos in At(states[j], a).orders
    ensures At(states[i], a).orders[pos].orderId <= At(states[j], a).orders[pos].orderId
    ensures At(states[i], a).orders[pos].orderId == At(states[j], a).orders[pos].orderId ==>
              SameOrder(At(states[i], a).orders[pos], At(states[j], a).orders[pos])
    decreases j
  {
    hide Invariant, Step, KeepsSlots, At, MapGrows;
    if i < j {
      SlotHistory(states, ops, i, j - 1, a, pos);
      RunKeepsInvariant(states, ops, j - 1);
      StepMoves(states[j - 1], ops[j - 1], states[j]);
    }
  }

  /** An order that is open in every state up to the last keeps its slot, its id and its terms. */
  lemma {:induction false} OpenOrderKeepsSlot(states: seq<Ledger>, ops: seq<Op>, i: nat, j: nat, a: nat, pos: nat)
    requires IsRun(states, ops) && Invariant(states[0]) && i <= j < |states| && AllKeepSlots(states, ops, i, j)
    requires pos in At(states[i], a).orders
    requires forall k :: i <= k < j ==> !OrderAt(states[k], a, pos).Closed()
    ensures pos in At(states[j], a).orders && SameOrder(At(states[i], a).orders[pos], At(states[j], a).orders[pos])
    decreases j
  {
    hide Invariant, Step, KeepsSlots, At, MapGrows, Order.Closed;
    if i < j {
      OpenOrderKeepsSlot(states, ops, i, j - 1, a, pos);
      RunKeepsInvariant(states, ops, j - 1);
      StepMoves(states[j - 1], ops[j - 1], states[j]);
      assert OrderAt(states[j - 1], a, pos) == At(states[j - 1], a).orders[pos];
    }
  }

  ghost predicate ValuedOrdersOnly(ops: seq<Op>) {
    forall i :: 0 <= i < |ops| && ops[i].Trade? ==> ValuedOrders(ops[i].tx)
  }

  /** In a run whose new orders all sell something, every stored order does. */
  lemma {:induction false} RunKeepsValued(states: seq<Ledger>, ops: seq<Op>, n: nat)
    requires IsRun(states, ops) && Invariant(states[0]) && Valued(states[0]) && ValuedOrdersOnly(ops) && n < |states|
    ensures Valued(states[n])
  {
    hide Invariant, Step, Valued, ValuedOrders;
    if n > 0 {
      RunKeepsValued(states, ops, n - 1);
      RunKeepsInvariant(states, ops, n - 1);
      StepKeepsValued(states[n - 1], ops[n - 1], states[n]);
    }
  }

  /** At any point of any run a new order is placed, or finds no place, as the slots from the cursor on decide. */
  lemma RunPlacementFails(states: seq<Ledger>, ops: seq<Op>, n: nat, a: nat, orderId: nat)
    requires IsRun(states, ops) && Invariant(states[0]) && n < |states|
    requires a in states[n].accounts && (a, orderId) !in states[n].positions
    ensures var orders, cursor := states[n].accounts[a].orders, states[n].accounts[a].cursor;
            var size := Pow2(states[n].levels.order);
            Placement(states[n], a, orderId).Err? <==>
              && |orders| == size
              && ((exists pos :: Blocks(orders, cursor, size, orderId, pos))
                  || forall pos :: pos in orders ==> !Victim(orders[pos], orderId) && !orders[pos].IsDefault())
  {
    hide *;
    RunKeepsInvariant(states, ops, n);
    PlacementFailsExactly(states[n], a, orderId);
  }

  /** When all new orders of the run sell something, only want of a slot is left. */
  lemma RunValuedPlacementFails(states: seq<Ledger>, ops: seq<Op>, n: nat, a: nat, orderId: nat)
    requires IsRun(states, ops) && Invariant(states[0]) && Valued(states[0]) && ValuedOrdersOnly(ops) && n < |states|
    requires a in states[n].accounts && (a, orderId) !in states[n].positions
    ensures var orders := states[n].accounts[a].orders;
            Placement(states[n], a, orderId).Err? <==>
              |orders| == Pow2(states[n].levels.order) && forall pos :: pos in orders ==> !Victim(orders[pos], orderId)
  {
    hide *;
    RunKeepsValued(states, ops, n);
    RunKeepsInvariant(states, ops, n);
    ValuedPlacementFails(states[n], a, orderId);
  }
}
