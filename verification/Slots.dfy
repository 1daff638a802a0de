/** Order slots: where a new order goes, which closed order it replaces, and when there is no place. */
module Slots {
  import opened Field
  import opened Wrappers
  import opened Records
  import opened Ledger

  /** The slot looked at in round `i` of the cyclic scan. */
  function Candidate(cursor: nat, size: nat, i: nat): nat
    requires size > 0
  {
    (cursor + i) % size
  }

  /** The scan of a full account from round `i` on; each `Err` is a panic of the program. */
  function Scan(orders: map<nat, Order>, cursor: nat, size: nat, orderId: nat, i: nat): Result<nat>
    requires size > 0
    decreases size - i
  {
    if i >= size then
      Err("cannot find order pos")
    else
      var pos := Candidate(cursor, size, i);
      var order := SlotOrder(orders, pos);
      if order.IsDefault() then
        Err("default order in a full tree")
      else if order.Closed() && order.orderId == orderId then
        Err("order already in tree")
      else if order.Closed() && order.orderId < orderId then
        Ok(pos)
      else
        Scan(orders, cursor, size, orderId, i + 1)
  }

  /** The highest occupied slot is the one before the count. */
  predicate CountMatches(orders: map<nat, Order>) {
    orders == map[] || (|orders| - 1 in orders && forall pos :: pos in orders ==> pos <= |orders| - 1)
  }

  /** `get_next_order_pos_for_user`: the position and the cursor it leaves. */
  function NextPos(account: Account, size: nat, orderId: nat): Result<(nat, nat)>
    requires size > 0
  {
    if |account.orders| < size then
      if CountMatches(account.orders) then Ok((|account.orders|, account.cursor)) else Err("slots are not a prefix")
    else
      match Scan(account.orders, account.cursor, size, orderId, 0)
      case Ok(pos) => Ok((pos, pos + 1))
      case Err(reason) => Err(reason)
  }

  /** `find_or_insert_order`: the position, the order now there, and the state with the new mapping. */
  function Placement(s: Ledger, a: nat, orderId: nat): Result<(nat, Order, Ledger)> {
    if (a, orderId) in s.positions then
      var pos := s.positions[(a, orderId)];
      Ok((pos, OrderAt(s, a, pos), s))
    else
      match NextPos(At(s, a), Pow2(s.levels.order), orderId)
      case Err(reason) => Err(reason)
      case Ok((pos, cursor)) =>
        Ok((pos, OrderAt(s, a, pos),
            Put(s, a, At(s, a).(cursor := cursor)).(positions := s.positions[(a, orderId) := pos])))
  }

  lemma {:induction false} ScanInRange(orders: map<nat, Order>, cursor: nat, size: nat, orderId: nat, i: nat)
    requires size > 0
    ensures Scan(orders, cursor, size, orderId, i).Ok? ==> Scan(orders, cursor, size, orderId, i).value < size
    decreases size - i
  {
    if i < size {
      ScanInRange(orders, cursor, size, orderId, i + 1);
    }
  }

  lemma NextPosInRange(account: Account, size: nat, orderId: nat)
    requires size > 0
    ensures NextPos(account, size, orderId).Ok? ==> NextPos(account, size, orderId).value.0 < size
  {
    ScanInRange(account.orders, account.cursor, size, orderId, 0);
  }

  // ------------------------------------------------------- the cyclic order

  /** The candidate by comparison instead of division. */
  lemma CandidateLinear(cursor: nat, size: nat, i: nat)
    requires i < size
    ensures var start := cursor % size;
            Candidate(cursor, size, i) == if start + i < size then start + i else start + i - size
  {
    var q, start := cursor / size, cursor % size;
    if start + i < size {
      assert cursor + i == q * size + (start + i);
      ModUnique(size, q, start + i);
    } else {
      assert cursor + i == (q + 1) * size + (start + i - size);
      ModUnique(size, q + 1, start + i - size);
    }
  }

  /** The round in which a slot is looked at. */
  function RoundOf(cursor: nat, size: nat, pos: nat): nat
    requires pos < size
  {
    if cursor % size <= pos then pos - cursor % size else pos + size - cursor % size
  }

  /** The scan looks at every slot in exactly one round. */
  lemma EachSlotOnce(cursor: nat, size: nat, pos: nat, i: nat)
    requires pos < size && i < size
    ensures RoundOf(cursor, size, pos) < size
    ensures Candidate(cursor, size, i) < size
    ensures Candidate(cursor, size, i) == pos <==> i == RoundOf(cursor, size, pos)
  {
    CandidateLinear(cursor, size, i);
  }

  // ------------------------------------------------------ what the scan does

  /** A slot that may be given to an order with this id. */
  predicate Victim(order: Order, orderId: nat) {
    order.Closed() && order.orderId < orderId
  }

  /**
   * An order at which the scan ends: one to give the slot away for, one without an amount, or a closed one with the id
   * being placed.
   */
  predicate Stops(order: Order, orderId: nat) {
    order.IsDefault() || (order.Closed() && order.orderId <= orderId)
  }

  /** Nothing stops the scan before round `k`. */
  lemma {:induction false} ScanRounds(orders: map<nat, Order>, cursor: nat, size: nat, orderId: nat, i: nat, k: nat)
    requires i <= k <= size && size > 0
    requires forall j :: i <= j < k ==> !Stops(SlotOrder(orders, Candidate(cursor, size, j)), orderId)
    ensures Scan(orders, cursor, size, orderId, i) == Scan(orders, cursor, size, orderId, k)
    decreases k - i
  {
    hide Candidate, Order.IsFilled, SlotOrder;
    if i < k {
      ScanRounds(orders, cursor, size, orderId, i + 1, k);
    }
  }

  /** The least round from `i` on whose slot stops the scan, `size` when there is none. */
  ghost function FirstStop(orders: map<nat, Order>, cursor: nat, size: nat, orderId: nat, i: nat): (k: nat)
    requires i <= size && size > 0
    ensures i <= k <= size
    ensures forall j :: i <= j < k ==> !Stops(SlotOrder(orders, Candidate(cursor, size, j)), orderId)
    ensures k < size ==> Stops(SlotOrder(orders, Candidate(cursor, size, k)), orderId)
    decreases size - i
  {
    if i == size || Stops(SlotOrder(orders, Candidate(cursor, size, i)), orderId) then
      i
    else
      FirstStop(orders, cursor, size, orderId, i + 1)
  }

  /** Whatever the slots hold: a slot the scan gives away holds a closed order with a smaller id. */
  lemma {:induction false} ScanGivesVictim(orders: map<nat, Order>, cursor: nat, size: nat, orderId: nat, i: nat)
    requires size > 0 && Scan(orders, cursor, size, orderId, i).Ok?
    ensures var pos := Scan(orders, cursor, size, orderId, i).value; pos in orders && Victim(orders[pos], orderId)
    decreases size - i
  {
    hide Candidate, Order.IsFilled;
    var order := SlotOrder(orders, Candidate(cursor, size, i));
    if !(order.Closed() && order.orderId < orderId) {
      ScanGivesVictim(orders, cursor, size, orderId, i + 1);
    }
  }

  /**
   * Whatever the slots hold, the first order from the cursor on that stops the scan decides it: its
   * slot is given away if it is closed, has an amount and a smaller id; otherwise the scan panics, as
   * it does when no order stops it.
   */
  lemma ScanResult(orders: map<nat, Order>, cursor: nat, size: nat, orderId: nat)
    requires size > 0
    ensures var k := FirstStop(orders, cursor, size, orderId, 0);
            Scan(orders, cursor, size, orderId, 0) ==
            if k == size then Err("cannot find order pos")
            else
              var pos := Candidate(cursor, size, k);
              var order := SlotOrder(orders, pos);
              if order.IsDefault() then Err("default order in a full tree")
              else if order.orderId == orderId then Err("order already in tree")
              else Ok(pos)
  {
    var k := FirstStop(orders, cursor, size, orderId, 0);
    ScanRounds(orders, cursor, size, orderId, 0, k);
    hide Candidate, Order.IsFilled, SlotOrder;
  }

  /** The slots the scan looks at before slot `pos`. */
  predicate Sooner(cursor: nat, size: nat, other: nat, pos: nat) {
    other < size && pos < size && RoundOf(cursor, size, other) < RoundOf(cursor, size, pos)
  }

  /** The first stop in terms of slots: nothing stops the scan sooner. */
  lemma FirstStopFirst(orders: map<nat, Order>, cursor: nat, size: nat, orderId: nat)
    requires size > 0
    ensures var k := FirstStop(orders, cursor, size, orderId, 0);
            && (k == size ==> forall pos :: 0 <= pos < size ==> !Stops(SlotOrder(orders, pos), orderId))
            && (k < size ==>
                 var first := Candidate(cursor, size, k);
                 && first < size && Stops(SlotOrder(orders, first), orderId)
                 && forall pos :: 0 <= pos < size && pos != first && Stops(SlotOrder(orders, pos), orderId) ==>
                      Sooner(cursor, size, first, pos))
  {
    var k := FirstStop(orders, cursor, size, orderId, 0);
    if k < size {
      EachSlotOnce(cursor, size, 0, k);
      EachSlotOnce(cursor, size, Candidate(cursor, size, k), k);
    }
    forall pos | 0 <= pos < size && Stops(SlotOrder(orders, pos), orderId)
      ensures k < size && k <= RoundOf(cursor, size, pos)
      ensures k < size && k == RoundOf(cursor, size, pos) ==> pos == Candidate(cursor, size, k)
    {
      EachSlotOnce(cursor, size, pos, RoundOf(cursor, size, pos));
      EachSlotOnce(cursor, size, pos, 0);
    }
  }
}
