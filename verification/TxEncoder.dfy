/** Public data: one fixed-length bit record per transaction. */
module TxEncoder {
  import opened Field
  import opened Amounts
  import opened BitEncoder
  import opened TxData

  /** One field of a record. A lenient field ignores the error of a number that is too wide. */
  datatype FieldSpec = FieldSpec(idx: nat, width: nat, lenient: bool)

  datatype Widths = Widths(account: nat, token: nat, order: nat)

  // ----------------------------------------------------------------- layouts

  function CommonFields(w: Widths): seq<FieldSpec> {
    [FieldSpec(ACCOUNT_ID1, w.account, false), FieldSpec(ACCOUNT_ID2, w.account, false),
     FieldSpec(TOKEN_ID1, w.token, false), FieldSpec(AMOUNT, 128, false)]
  }

  function SpotFields(w: Widths): seq<FieldSpec> {
    [FieldSpec(ACCOUNT_ID1, w.account, false), FieldSpec(ACCOUNT_ID2, w.account, false),
     FieldSpec(NEW_ORDER1_TOKEN_SELL, w.token, false), FieldSpec(NEW_ORDER2_TOKEN_SELL, w.token, false),
     FieldSpec(NEW_ORDER1_AMOUNT_SELL, 40, false), FieldSpec(NEW_ORDER1_AMOUNT_BUY, 40, false),
     FieldSpec(ORDER1_POS, w.order, false), FieldSpec(NEW_ORDER1_ID, 32, true),
     FieldSpec(NEW_ORDER2_AMOUNT_SELL, 40, false), FieldSpec(NEW_ORDER2_AMOUNT_BUY, 40, false),
     FieldSpec(ORDER2_POS, w.order, false), FieldSpec(NEW_ORDER2_ID, 32, true)]
  }

  function KeyFields(w: Widths): seq<FieldSpec> {
    [FieldSpec(ACCOUNT_ID1, w.account, false), FieldSpec(SIGN2, 1, false), FieldSpec(AY2, 254, false)]
  }

  function TotalWidth(fields: seq<FieldSpec>): nat {
    if fields == [] then 0 else fields[0].width + TotalWidth(fields[1..])
  }

  function Max(a: nat, b: nat): nat {
    if a < b then b else a
  }

  /** The record length: the longest layout and a three-bit heading, rounded up to whole bytes. */
  function RecordBits(w: Widths): nat {
    var longest := Max(Max(128 + 2 * w.account + w.token, 224 + 2 * w.account + 2 * w.token + 2 * w.order),
                       255 + w.account);
    (longest + 3 + 7) / 8 * 8
  }

  /** What becomes of a transaction: a heading and a layout, nothing at all, or a panic. */
  datatype Plan = Record(head: nat, fields: seq<FieldSpec>) | Nothing | Refused

  /** The heading bit of one side of a trade: either of its amounts is used up. */
  predicate SideFilled(payload: seq<Fr>, filledBuy: nat, amountBuy: nat, filledSell: nat, amountSell: nat)
    requires filledBuy < |payload| && amountBuy < |payload| && filledSell < |payload| && amountSell < |payload|
  {
    payload[filledBuy] == Decompress(payload[amountBuy]) || payload[filledSell] == Decompress(payload[amountSell])
  }

  function TradeHead(payload: seq<Fr>): nat
    requires |payload| == TX_LENGTH
  {
    (if SideFilled(payload, NEW_ORDER1_FILLED_BUY, NEW_ORDER1_AMOUNT_BUY,
                   NEW_ORDER1_FILLED_SELL, NEW_ORDER1_AMOUNT_SELL) then 2 else 0)
    + (if SideFilled(payload, NEW_ORDER2_FILLED_BUY, NEW_ORDER2_AMOUNT_BUY,
                     NEW_ORDER2_FILLED_SELL, NEW_ORDER2_AMOUNT_SELL) then 4 else 0)
  }

  function PlanOf(tx: RawTx, w: Widths): (plan: Plan)
    requires |tx.payload| == TX_LENGTH
    ensures plan.Record? ==> plan.head < 8
  {
    match tx.txType
    case Deposit =>
      if tx.payload[DST_IS_NEW] == 0 then Record(0, CommonFields(w))
      else if tx.payload[AMOUNT] == 0 then Record(1, KeyFields(w))
      else Refused
    case Transfer => if tx.payload[DST_IS_NEW] == 0 then Record(0, CommonFields(w)) else Refused
    case Withdraw => Record(4, CommonFields(w))
    case SpotTrade => if TradeHead(tx.payload) > 0 then Record(TradeHead(tx.payload), SpotFields(w)) else Refused
    case Nop => Record(0, [])
    case PlaceOrder => Nothing
  }

  // ------------------------------------------------------- records as bits

  predicate FieldFits(value: Fr, f: FieldSpec) {
    (value < Pow2(f.width) || (f.lenient && f.width < 64)) && (f.width < 64 ==> value < Pow2(63))
  }

  ghost predicate InPayload(payload: seq<Fr>, fields: seq<FieldSpec>) {
    forall i :: 0 <= i < |fields| ==> fields[i].idx < |payload|
  }

  predicate FieldsFit(payload: seq<Fr>, fields: seq<FieldSpec>)
    requires InPayload(payload, fields)
  {
    fields == [] || (FieldFits(payload[fields[0].idx], fields[0]) && FieldsFit(payload, fields[1..]))
  }

  function FieldBits(payload: seq<Fr>, fields: seq<FieldSpec>): (bits: seq<bool>)
    requires InPayload(payload, fields)
    ensures |bits| == TotalWidth(fields)
  {
    if fields == [] then [] else LsbBits(payload[fields[0].idx], fields[0].width) + FieldBits(payload, fields[1..])
  }

  /** The bits of a whole record, padding included. */
  function RecordOf(payload: seq<Fr>, head: nat, fields: seq<FieldSpec>, w: Widths): seq<bool>
    requires InPayload(payload, fields)
  {
    var body := LsbBits(head, 3) + FieldBits(payload, fields);
    body + Zeros(PadTo(|body|, RecordBits(w)))
  }

  /** A transaction that an aligned encoder accepts. */
  predicate Encodable(tx: RawTx, w: Widths)
    requires |tx.payload| == TX_LENGTH
  {
    PlanFits(tx.payload, w);
    PlanOf(tx, w).Record? && FieldsFit(tx.payload, PlanOf(tx, w).fields)
  }

  function TxBits(tx: RawTx, w: Widths): seq<bool>
    requires |tx.payload| == TX_LENGTH && PlanOf(tx, w).Record?
  {
    PlanFits(tx.payload, w);
    RecordOf(tx.payload, PlanOf(tx, w).head, PlanOf(tx, w).fields, w)
  }

  lemma PlanFits(payload: seq<Fr>, w: Widths)
    requires |payload| == TX_LENGTH
    ensures InPayload(payload, CommonFields(w)) && InPayload(payload, SpotFields(w)) && InPayload(payload, KeyFields(w))
    ensures InPayload(payload, [])
  {
  }

  lemma CommonWidth(w: Widths)
    ensures TotalWidth(CommonFields(w)) == 128 + 2 * w.account + w.token
  {
    var s := CommonFields(w);
    assert TotalWidth(s[4..]) == 0;
    assert TotalWidth(s[3..]) == 128;
    assert TotalWidth(s[2..]) == 128 + w.token;
    assert TotalWidth(s[1..]) == 128 + w.token + w.account;
    assert s[0..] == s;
  }

  lemma KeyWidth(w: Widths)
    ensures TotalWidth(KeyFields(w)) == 255 + w.account
  {
    var s := KeyFields(w);
    assert TotalWidth(s[3..]) == 0;
    assert TotalWidth(s[2..]) == 254;
    assert TotalWidth(s[1..]) == 255;
    assert s[0..] == s;
  }

  lemma SpotWidth(w: Widths)
    ensures TotalWidth(SpotFields(w)) == 224 + 2 * w.account + 2 * w.token + 2 * w.order
  {
    var s := SpotFields(w);
    assert TotalWidth(s[12..]) == 0;
    assert TotalWidth(s[11..]) == 32;
    assert TotalWidth(s[10..]) == 32 + w.order;
    assert TotalWidth(s[9..]) == 72 + w.order;
    assert TotalWidth(s[8..]) == 112 + w.order;
    assert TotalWidth(s[7..]) == 144 + w.order;
    assert TotalWidth(s[6..]) == 144 + 2 * w.order;
    assert TotalWidth(s[5..]) == 184 + 2 * w.order;
    assert TotalWidth(s[4..]) == 224 + 2 * w.order;
    assert TotalWidth(s[3..]) == 224 + 2 * w.order + w.token;
    assert TotalWidth(s[2..]) == 224 + 2 * w.order + 2 * w.token;
    assert TotalWidth(s[1..]) == 224 + 2 * w.order + 2 * w.token + w.account;
    assert s[0..] == s;
  }

  lemma PadToWhole(n: nat, align: nat)
    requires 0 < n <= align
    ensures n + PadTo(n, align) == align
  {
    if n == align {
      ModUnique(align, 1, 0);
    } else {
      ModUnique(align, 0, n);
    }
  }

  /** Each layout, heading included, fits the record length. */
  lemma LayoutFits(tx: RawTx, w: Widths)
    requires |tx.payload| == TX_LENGTH && PlanOf(tx, w).Record?
    ensures 3 + TotalWidth(PlanOf(tx, w).fields) <= RecordBits(w)
    ensures RecordBits(w) % 8 == 0 && RecordBits(w) > 0
  {
    hide TradeHead, Decompress;
    CommonWidth(w);
    SpotWidth(w);
    KeyWidth(w);
    hide TotalWidth;
    assert TotalWidth([]) == 0 by { NoWidth(); }
  }

  lemma NoWidth()
    ensures TotalWidth([]) == 0
  {
  }

  /** Every record has exactly the announced length, a whole number of bytes. */
  lemma RecordLength(tx: RawTx, w: Widths)
    requires |tx.payload| == TX_LENGTH && PlanOf(tx, w).Record?
    ensures |TxBits(tx, w)| == RecordBits(w)
    ensures RecordBits(w) % 8 == 0 && RecordBits(w) > 0
  {
    LayoutFits(tx, w);
    hide TotalWidth, RecordBits, PadTo, PlanOf, LsbBits;
    PlanFits(tx.payload, w);
    PadToWhole(3 + TotalWidth(PlanOf(tx, w).fields), RecordBits(w));
  }

  // ----------------------------------------------------------------- reading

  /** The fields read back from the bits after the heading. */
  function ReadFields(bits: seq<bool>, fields: seq<FieldSpec>): (values: seq<nat>)
    requires TotalWidth(fields) <= |bits|
    ensures |values| == |fields|
  {
    if fields == [] then
      []
    else
      [LsbValue(bits[..fields[0].width])] + ReadFields(bits[fields[0].width..], fields[1..])
  }

  function FieldValues(payload: seq<Fr>, fields: seq<FieldSpec>): (values: seq<nat>)
    requires InPayload(payload, fields)
    ensures |values| == |fields|
  {
    if fields == [] then
      []
    else
      [payload[fields[0].idx] % Pow2(fields[0].width)] + FieldValues(payload, fields[1..])
  }

  lemma {:induction false} ReadBack(payload: seq<Fr>, fields: seq<FieldSpec>, rest: seq<bool>)
    requires InPayload(payload, fields)
    ensures ReadFields(FieldBits(payload, fields) + rest, fields) == FieldValues(payload, fields)
  {
    if fields != [] {
      var f := fields[0];
      var first := LsbBits(payload[f.idx], f.width);
      var bits := FieldBits(payload, fields) + rest;
      assert bits[..f.width] == first;
      assert bits[f.width..] == FieldBits(payload, fields[1..]) + rest;
      LsbRoundTrip(payload[f.idx], f.width);
      ReadBack(payload, fields[1..], rest);
    }
  }

  lemma PlanReady(tx: RawTx, w: Widths)
    requires |tx.payload| == TX_LENGTH && PlanOf(tx, w).Record?
    ensures InPayload(tx.payload, PlanOf(tx, w).fields)
    ensures 3 + TotalWidth(PlanOf(tx, w).fields) <= RecordBits(w) && RecordBits(w) > 0
  {
    LayoutFits(tx, w);
    hide RecordBits, TotalWidth;
    PlanFits(tx.payload, w);
  }

  /** A record determines its heading and, given the layout, the low bits of every field. */
  lemma RecordReadBack(tx: RawTx, w: Widths)
    requires |tx.payload| == TX_LENGTH && PlanOf(tx, w).Record?
    ensures InPayload(tx.payload, PlanOf(tx, w).fields) && |TxBits(tx, w)| >= 3 + TotalWidth(PlanOf(tx, w).fields)
    ensures LsbValue(TxBits(tx, w)[..3]) == PlanOf(tx, w).head
    ensures ReadFields(TxBits(tx, w)[3..], PlanOf(tx, w).fields) == FieldValues(tx.payload, PlanOf(tx, w).fields)
  {
    hide PlanOf, RecordBits, LsbValue, TotalWidth;
    PlanReady(tx, w);
    var plan := PlanOf(tx, w);
    var body := LsbBits(plan.head, 3) + FieldBits(tx.payload, plan.fields);
    var pad := Zeros(PadTo(|body|, RecordBits(w)));
    assert TxBits(tx, w) == body + pad;
    assert TxBits(tx, w)[..3] == LsbBits(plan.head, 3);
    assert TxBits(tx, w)[3..] == FieldBits(tx.payload, plan.fields) + pad;
    LsbRoundTrip(plan.head, 3);
    ReadBack(tx.payload, plan.fields, pad);
  }

  /** Where a field fits its width, the low bits are the field. */
  lemma {:induction false} FieldValueAt(payload: seq<Fr>, fields: seq<FieldSpec>, i: nat)
    requires InPayload(payload, fields) && i < |fields|
    ensures payload[fields[i].idx] < Pow2(fields[i].width) ==> FieldValues(payload, fields)[i] == payload[fields[i].idx]
    ensures FieldsFit(payload, fields) ==> FieldFits(payload[fields[i].idx], fields[i])
  {
    hide Pow2;
    if i > 0 {
      assert fields[1..][i - 1] == fields[i];
      FieldValueAt(payload, fields[1..], i - 1);
    } else if payload[fields[0].idx] < Pow2(fields[0].width) {
      ModUnique(Pow2(fields[0].width), 0, payload[fields[0].idx]);
    }
  }

  /** Two accepted transactions with one layout and one record agree on every strictly checked field. */
  lemma RecordInjective(tx: RawTx, tx': RawTx, w: Widths, i: nat)
    requires |tx.payload| == TX_LENGTH && |tx'.payload| == TX_LENGTH && Encodable(tx, w) && Encodable(tx', w)
    requires PlanOf(tx, w).fields == PlanOf(tx', w).fields && i < |PlanOf(tx, w).fields|
    requires !PlanOf(tx, w).fields[i].lenient
    requires TxBits(tx, w) == TxBits(tx', w)
    ensures var idx := PlanOf(tx, w).fields[i].idx; idx < TX_LENGTH && tx.payload[idx] == tx'.payload[idx]
  {
    RecordReadBack(tx, w);
    RecordReadBack(tx', w);
    FieldValueAt(tx.payload, PlanOf(tx, w).fields, i);
    FieldValueAt(tx'.payload, PlanOf(tx, w).fields, i);
  }

  // -------------------------------------------------------------- the encoder

  class TxDataEncoder {
    var ctx: BitEncodeContext
    const widths: Widths
    const txEncodeBits: nat

    ghost predicate Valid()
      reads this, ctx
    {
      ctx.Valid() && txEncodeBits == RecordBits(widths)
    }

    constructor (balanceLevels: nat, orderLevels: nat, accountLevels: nat)
      ensures Valid() && fresh(ctx) && ctx.bits == []
      ensures widths == Widths(accountLevels, balanceLevels, orderLevels)
    {
      var w := Widths(accountLevels, balanceLevels, orderLevels);
      var bits := DataBits(w);
      widths := w;
      ctx := new BitEncodeContext();
      txEncodeBits := bits;
    }

    /** Fields below 64 bits go through a 64-bit integer, wider ones through a big integer. */
    method EncodeFr(fr: Fr, width: nat) returns (r: EncodeResult)
      requires Valid()
      modifies ctx
      ensures Valid()
      ensures width < 64 && fr >= Pow2(63) ==> r == Panic && ctx.bits == old(ctx.bits)
      ensures !(width < 64 && fr >= Pow2(63)) ==>
                && ctx.bits == old(ctx.bits) + LsbBits(fr, width)
                && r == if fr < Pow2(width) then Done else DoesNotFit
    {
      hide Pow2, LsbBits, BitEncodeContext.Valid, RecordBits;
      if width < 64 && fr >= Pow2(63) {
        return Panic;
      }
      r := ctx.EncodeNumber(fr, width);
    }

    method EncodeHeading(head: nat) returns (r: EncodeResult)
      requires Valid() && head < 8
      modifies ctx
      ensures Valid()
      ensures |old(ctx.bits)| % RecordBits(widths) == 0 ==> r == Done && ctx.bits == old(ctx.bits) + LsbBits(head, 3)
      ensures |old(ctx.bits)| % RecordBits(widths) != 0 ==> r.NotAligned? && ctx.bits == old(ctx.bits)
    {
      r := ctx.CheckAlign(txEncodeBits);
      if r.NotAligned? {
        return;
      }
      r := ctx.EncodeNumber(head, 3);
      assert Pow2(3) == 8;
    }

    /** One field; `rest` are the fields still to come and `goal` the bits there will be after them. */
    method EncodeField(payload: seq<Fr>, idx: nat, width: nat, ghost rest: seq<FieldSpec>, ghost goal: seq<bool>)
      returns (r: EncodeResult)
      requires Valid() && InPayload(payload, rest) && rest != [] && rest[0] == FieldSpec(idx, width, false)
      requires ctx.bits + FieldBits(payload, rest) == goal
      modifies ctx
      ensures Valid()
      ensures r == Done <==> FieldFits(payload[idx], rest[0])
      ensures r == Done ==> ctx.bits + FieldBits(payload, rest[1..]) == goal
    {
      hide BitEncodeContext.Valid, LsbBits, Pow2, RecordBits;
      r := EncodeFr(payload[idx], width);
    }

    /** One field whose error is ignored; a failed conversion still panics. */
    method EncodeFieldOk(payload: seq<Fr>, idx: nat, width: nat, ghost rest: seq<FieldSpec>, ghost goal: seq<bool>)
      returns (r: EncodeResult)
      requires Valid() && InPayload(payload, rest) && rest != [] && rest[0] == FieldSpec(idx, width, true) && width < 64
      requires ctx.bits + FieldBits(payload, rest) == goal
      modifies ctx
      ensures Valid()
      ensures r == Done <==> FieldFits(payload[idx], rest[0])
      ensures r == Done ==> ctx.bits + FieldBits(payload, rest[1..]) == goal
    {
      hide BitEncodeContext.Valid, LsbBits, Pow2, RecordBits;
      r := EncodeFr(payload[idx], width);
      if r == DoesNotFit {
        r := Done;
      }
    }

    /** Deposits to known accounts, transfers and withdrawals. */
    method EncodeCommon(payload: seq<Fr>, ghost goal: seq<bool>) returns (r: EncodeResult)
      requires Valid() && |payload| == TX_LENGTH && InPayload(payload, CommonFields(widths))
      requires ctx.bits + FieldBits(payload, CommonFields(widths)) == goal
      modifies ctx
      ensures Valid()
      ensures r == Done <==> FieldsFit(payload, CommonFields(widths))
      ensures r == Done ==> ctx.bits == goal
    {
      hide BitEncodeContext.Valid, LsbBits, Pow2, RecordBits, FieldBits, FieldFits, FieldsFit;
      ghost var s := CommonFields(widths);
      assert s[0..] == s;
      FitEnd(payload, s);
      FitStep(payload, s, 0);
      r := EncodeField(payload, ACCOUNT_ID1, widths.account, s[0..], goal);
      if r != Done { return; }
      FitStep(payload, s, 1);
      r := EncodeField(payload, ACCOUNT_ID2, widths.account, s[1..], goal);
      if r != Done { return; }
      FitStep(payload, s, 2);
      r := EncodeField(payload, TOKEN_ID1, widths.token, s[2..], goal);
      if r != Done { return; }
      FitStep(payload, s, 3);
      r := EncodeField(payload, AMOUNT, 128, s[3..], goal);
    }

    /** Key updates. */
    method EncodeKey(payload: seq<Fr>, ghost goal: seq<bool>) returns (r: EncodeResult)
      requires Valid() && |payload| == TX_LENGTH && InPayload(payload, KeyFields(widths))
      requires ctx.bits + FieldBits(payload, KeyFields(widths)) == goal
      modifies ctx
      ensures Valid()
      ensures r == Done <==> FieldsFit(payload, KeyFields(widths))
      ensures r == Done ==> ctx.bits == goal
    {
      hide BitEncodeContext.Valid, LsbBits, Pow2, RecordBits, FieldBits, FieldFits, FieldsFit;
      ghost var s := KeyFields(widths);
      assert s[0..] == s;
      FitEnd(payload, s);
      FitStep(payload, s, 0);
      r := EncodeField(payload, ACCOUNT_ID1, widths.account, s[0..], goal);
      if r != Done { return; }
      FitStep(payload, s, 1);
      r := EncodeField(payload, SIGN2, 1, s[1..], goal);
      if r != Done { return; }
      FitStep(payload, s, 2);
      r := EncodeField(payload, AY2, 254, s[2..], goal);
    }

    /** Spot trades; the two order ids are lenient. */
    method EncodeSpot(payload: seq<Fr>, ghost goal: seq<bool>) returns (r: EncodeResult)
      requires Valid() && |payload| == TX_LENGTH && InPayload(payload, SpotFields(widths))
      requires ctx.bits + FieldBits(payload, SpotFields(widths)) == goal
      modifies ctx
      ensures Valid()
      ensures r == Done <==> FieldsFit(payload, SpotFields(widths))
      ensures r == Done ==> ctx.bits == goal
    {
      hide BitEncodeContext.Valid, LsbBits, Pow2, RecordBits, FieldBits, FieldFits, FieldsFit;
      ghost var s := SpotFields(widths);
      assert s[0..] == s;
      FitStep(payload, s, 0);
      r := EncodeField(payload, ACCOUNT_ID1, widths.account, s[0..], goal);
      if r != Done { return; }
      FitStep(payload, s, 1);
      r := EncodeField(payload, ACCOUNT_ID2, widths.account, s[1..], goal);
      if r != Done { return; }
      FitStep(payload, s, 2);
      r := EncodeField(payload, NEW_ORDER1_TOKEN_SELL, widths.token, s[2..], goal);
      if r != Done { return; }
      FitStep(payload, s, 3);
      r := EncodeField(payload, NEW_ORDER2_TOKEN_SELL, widths.token, s[3..], goal);
      if r != Done { return; }
      FitStep(payload, s, 4);
      r := EncodeField(payload, NEW_ORDER1_AMOUNT_SELL, 40, s[4..], goal);
      if r != Done { return; }
      FitStep(payload, s, 5);
      r := EncodeField(payload, NEW_ORDER1_AMOUNT_BUY, 40, s[5..], goal);
      if r != Done { return; }
      r := EncodeSpotTail(payload, goal);
    }

    method EncodeSpotTail(payload: seq<Fr>, ghost goal: seq<bool>) returns (r: EncodeResult)
      requires Valid() && |payload| == TX_LENGTH && InPayload(payload, SpotFields(widths)[6..])
      requires ctx.bits + FieldBits(payload, SpotFields(widths)[6..]) == goal
      modifies ctx
      ensures Valid()
      ensures r == Done <==> FieldsFit(payload, SpotFields(widths)[6..])
      ensures r == Done ==> ctx.bits == goal
    {
      hide BitEncodeContext.Valid, LsbBits, Pow2, RecordBits, FieldBits, FieldFits, FieldsFit;
      ghost var s := SpotFields(widths);
      assert InPayload(payload, s) by { PlanFits(payload, widths); }
      FitEnd(payload, s);
      FitStep(payload, s, 6);
      r := EncodeField(payload, ORDER1_POS, widths.order, s[6..], goal);
      if r != Done { return; }
      FitStep(payload, s, 7);
      r := EncodeFieldOk(payload, NEW_ORDER1_ID, 32, s[7..], goal);
      if r != Done { return; }
      FitStep(payload, s, 8);
      r := EncodeField(payload, NEW_ORDER2_AMOUNT_SELL, 40, s[8..], goal);
      if r != Done { return; }
      FitStep(payload, s, 9);
      r := EncodeField(payload, NEW_ORDER2_AMOUNT_BUY, 40, s[9..], goal);
      if r != Done { return; }
      FitStep(payload, s, 10);
      r := EncodeField(payload, ORDER2_POS, widths.order, s[10..], goal);
      if r != Done { return; }
      FitStep(payload, s, 11);
      r := EncodeFieldOk(payload, NEW_ORDER2_ID, 32, s[11..], goal);
    }

    /** `encode_rawtx_to_pubdata`: heading, fields, padding. */
    method EncodeRawTx(tx: RawTx) returns (r: EncodeResult)
      requires Valid() && |tx.payload| == TX_LENGTH
      modifies ctx
      ensures Valid()
      ensures tx.txType == PlaceOrder ==>
                r == Done && (|old(ctx.bits)| % RecordBits(widths) == 0 ==> ctx.bits == old(ctx.bits))
      ensures tx.txType != PlaceOrder ==>
                (r == Done <==> |old(ctx.bits)| % RecordBits(widths) == 0 && Encodable(tx, widths))
      ensures tx.txType != PlaceOrder && r == Done ==> ctx.bits == old(ctx.bits) + TxBits(tx, widths)
    {
      hide BitEncodeContext.Valid, LsbBits, Pow2, RecordBits, FieldBits, FieldFits, FieldsFit, TradeHead, PadTo, Zeros;
      hide CommonFields, SpotFields, KeyFields;
      PlanFits(tx.payload, widths);
      var plan := PlanOf(tx, widths);
      if plan.Refused? {
        return Panic;
      }
      if plan.Nothing? {
        assert txEncodeBits > 0 by { RecordBitsPositive(widths); }
        PadNothing(ctx.bits, txEncodeBits);
        ctx.Padding(txEncodeBits);
        return Done;
      }
      PlanReady(tx, widths);
      RecordLength(tx, widths);
      r := EncodeHeading(plan.head);
      if r != Done {
        return;
      }
      ghost var goal := ctx.bits + FieldBits(tx.payload, plan.fields);
      match tx.txType {
        case Deposit =>
          if tx.payload[DST_IS_NEW] != 0 {
            r := EncodeKey(tx.payload, goal);
          } else {
            r := EncodeCommon(tx.payload, goal);
          }
        case Transfer => r := EncodeCommon(tx.payload, goal);
        case Withdraw => r := EncodeCommon(tx.payload, goal);
        case SpotTrade => r := EncodeSpot(tx.payload, goal);
        case Nop =>
          NoFields(tx.payload);
          r := Done;
      }
      if r != Done {
        return;
      }
      PadAligned(|old(ctx.bits)|, |LsbBits(plan.head, 3) + FieldBits(tx.payload, plan.fields)|, txEncodeBits);
      ctx.Padding(txEncodeBits);
    }

    /** Ends the block: the bytes written go out and a new stream begins. */
    method FinishWithRaw() returns (hash: nat, bytes: seq<Byte>)
      requires Valid()
      modifies this`ctx
      ensures Valid() && fresh(ctx) && ctx.bits == []
      ensures hash == SHA256(bytes)
      ensures BytesToBits(bytes) == old(ctx.bits) + Zeros(PadTo(|old(ctx.bits)|, 8))
      ensures |old(ctx.bits)| % 8 == 0 ==> |bytes| == |old(ctx.bits)| / 8 && BytesToBits(bytes) == old(ctx.bits)
    {
      bytes := ctx.Seal();
      hash := SHA256(bytes);
      ctx := new BitEncodeContext();
    }
  }

  lemma FitStep(payload: seq<Fr>, s: seq<FieldSpec>, k: nat)
    requires InPayload(payload, s) && k < |s|
    ensures s[k..] != [] && s[k..][0] == s[k] && s[k..][1..] == s[k + 1..]
    ensures InPayload(payload, s[k..]) && InPayload(payload, s[k + 1..])
    ensures FieldsFit(payload, s[k..]) <==> FieldFits(payload[s[k].idx], s[k]) && FieldsFit(payload, s[k + 1..])
  {
  }

  lemma FitEnd(payload: seq<Fr>, s: seq<FieldSpec>)
    ensures InPayload(payload, s[|s|..]) && FieldsFit(payload, s[|s|..]) && FieldBits(payload, s[|s|..]) == []
  {
  }

  lemma NoFields(payload: seq<Fr>)
    ensures InPayload(payload, []) && FieldsFit(payload, []) && FieldBits(payload, []) == []
  {
  }

  lemma RecordBitsPositive(w: Widths)
    ensures RecordBits(w) > 0 && RecordBits(w) % 8 == 0
  {
  }

  lemma PadNothing(bits: seq<bool>, align: nat)
    ensures align > 0 && |bits| % align == 0 ==> bits + Zeros(PadTo(|bits|, align)) == bits
  {
  }

  /** From an aligned start, padding depends only on what was written since. */
  lemma PadAligned(start: nat, n: nat, align: nat)
    requires align > 0 && start % align == 0
    ensures PadTo(start + n, align) == PadTo(n, align)
  {
    var q, q', r := start / align, n / align, n % align;
    assert start == q * align && n == q' * align + r;
    assert start + n == (q + q') * align + r;
    ModUnique(align, q + q', r);
  }

  /** `data_bits`: the running maximum over the layouts, rounded up. */
  method DataBits(w: Widths) returns (bits: nat)
    ensures bits == RecordBits(w)
    ensures bits % 8 == 0
    ensures var longest := Max(Max(TotalWidth(CommonFields(w)), TotalWidth(SpotFields(w))), TotalWidth(KeyFields(w)));
            3 + longest <= bits < 3 + longest + 8
  {
    CommonWidth(w);
    SpotWidth(w);
    KeyWidth(w);
    hide TotalWidth;
    var ret := 0;
    var schemeLen := 128 * 1 + w.account * 2 + w.token * 1;
    ret := if ret < schemeLen then schemeLen else ret;
    schemeLen := 32 * 2 + w.account * 2 + w.token * 2 + 40 * 4 + w.order * 2;
    ret := if ret < schemeLen then schemeLen else ret;
    schemeLen := 1 * 1 + 254 * 1 + w.account * 1;
    ret := if ret < schemeLen then schemeLen else ret;
    ret := ret + 3;
    bits := if ret % 8 == 0 then ret else ret + 8 - ret % 8;
  }
}
