/** The transaction record each operation emits, as a function of the ledger before and after. */
module Emission {
  import opened Field
  import opened Wrappers
  import opened MerkleSpec
  import opened Records
  import opened Ledger
  import opened Amounts
  import opened Transactions
  import opened TxData

  function FrOf(x: nat): Fr {
    x % P
  }

  // ------------------------------------------------------------ the payload

  /** The slots that describe one account and one of its balances. */
  datatype Party = Party(check: Fr, id: Fr, token: Fr, balance: Fr, sign: Fr, ay: Fr, nonce: Fr)

  datatype SigFields = SigFields(check: Fr, hash: Fr, s: Fr, r8x: Fr, r8y: Fr)

  datatype OrderFields = OrderFields(
    id: Fr, tokenSell: Fr, filledSell: Fr, amountSell: Fr, tokenBuy: Fr, filledBuy: Fr, amountBuy: Fr)

  datatype Fields = Fields(
    party1: Party, party2: Party, sig1: SigFields, sig2: SigFields,
    amount: Fr, amount1: Fr, amount2: Fr, balance3: Fr, balance4: Fr, pos1: Fr, pos2: Fr,
    old1: OrderFields, new1: OrderFields, old2: OrderFields, new2: OrderFields, dstIsNew: Fr)

  const NO_PARTY := Party(0, 0, 0, 0, 0, 0, 0)
  const NO_SIG := SigFields(0, 0, 0, 0, 0)
  const NO_ORDER := OrderFields(0, 0, 0, 0, 0, 0, 0)
  const NO_FIELDS := Fields(
    NO_PARTY, NO_PARTY, NO_SIG, NO_SIG, 0, 0, 0, 0, 0, 0, 0, NO_ORDER, NO_ORDER, NO_ORDER, NO_ORDER, 0)

  function PartySlots(x: Party): (p: seq<Fr>)
    ensures |p| == 7
  {
    [x.check, x.id, x.token, x.balance, x.sign, x.ay, x.nonce]
  }

  function SigSlots(x: SigFields): (p: seq<Fr>)
    ensures |p| == 5
  {
    [x.check, x.hash, x.s, x.r8x, x.r8y]
  }

  function OrderSlots(x: OrderFields): (p: seq<Fr>)
    ensures |p| == 7
  {
    [x.id, x.tokenSell, x.filledSell, x.amountSell, x.tokenBuy, x.filledBuy, x.amountBuy]
  }

  function Payload(f: Fields): (p: seq<Fr>)
    ensures |p| == TX_LENGTH
  {
    PartySlots(f.party1) + PartySlots(f.party2) + SigSlots(f.sig1) + SigSlots(f.sig2)
    + [f.amount, f.amount1, f.amount2, f.balance3, f.balance4, f.pos1, f.pos2]
    + OrderSlots(f.old1) + OrderSlots(f.new1) + OrderSlots(f.old2) + OrderSlots(f.new2) + [f.dstIsNew]
  }

  ghost predicate PartyAt(p: seq<Fr>, k: nat, x: Party)
    requires k + 7 <= |p|
  {
    && p[k] == x.check && p[k + 1] == x.id && p[k + 2] == x.token && p[k + 3] == x.balance
    && p[k + 4] == x.sign && p[k + 5] == x.ay && p[k + 6] == x.nonce
  }

  ghost predicate SigAt(p: seq<Fr>, k: nat, x: SigFields)
    requires k + 5 <= |p|
  {
    p[k] == x.check && p[k + 1] == x.hash && p[k + 2] == x.s && p[k + 3] == x.r8x && p[k + 4] == x.r8y
  }

  ghost predicate OrderFieldsAt(p: seq<Fr>, k: nat, x: OrderFields)
    requires k + 7 <= |p|
  {
    && p[k] == x.id && p[k + 1] == x.tokenSell && p[k + 2] == x.filledSell && p[k + 3] == x.amountSell
    && p[k + 4] == x.tokenBuy && p[k + 5] == x.filledBuy && p[k + 6] == x.amountBuy
  }

  /** The payload by position: what each of the sixty indices holds. */
  ghost predicate Laid(p: seq<Fr>, f: Fields) {
    && |p| == TX_LENGTH
    && PartyAt(p, ENABLE_BALANCE_CHECK1, f.party1) && PartyAt(p, ENABLE_BALANCE_CHECK2, f.party2)
    && SigAt(p, ENABLE_SIG_CHECK1, f.sig1) && SigAt(p, ENABLE_SIG_CHECK2, f.sig2)
    && p[AMOUNT] == f.amount && p[AMOUNT1] == f.amount1 && p[AMOUNT2] == f.amount2
    && p[BALANCE3] == f.balance3 && p[BALANCE4] == f.balance4 && p[ORDER1_POS] == f.pos1 && p[ORDER2_POS] == f.pos2
    && OrderFieldsAt(p, OLD_ORDER1_ID, f.old1) && OrderFieldsAt(p, NEW_ORDER1_ID, f.new1)
    && OrderFieldsAt(p, OLD_ORDER2_ID, f.old2) && OrderFieldsAt(p, NEW_ORDER2_ID, f.new2)
    && p[DST_IS_NEW] == f.dstIsNew
  }

  lemma PayloadLaid(f: Fields)
    ensures Laid(Payload(f), f)
  {
  }

  lemma LaidIsPayload(p: seq<Fr>, f: Fields)
    requires Laid(p, f)
    ensures p == Payload(f)
  {
    PayloadLaid(f);
  }

  function TrivialOrderPath(levels: Levels): seq<Fr> {
    Path(EmptyOrderLeaves(levels), levels.order, 0)
  }

  // ------------------------------------------------------------ the records

  /** Operations on one balance of one account use a single pair of paths, taken beforehand. */
  function OneAccountRaw(txType: TxType, s: Ledger, a: nat, t: nat, fields: Fields, after: Ledger,
                         offset: Option<int>): RawTx {
    var balancePath, accountPath, orderRoot := BalancePath(s, a, t), AccountPath(s, a), At(s, a).state.orderRoot;
    RawTx(txType, Payload(fields), balancePath, balancePath, balancePath, balancePath,
          TrivialOrderPath(s.levels), TrivialOrderPath(s.levels), orderRoot, orderRoot,
          accountPath, accountPath, StateRoot(s), StateRoot(after), offset)
  }

  /** An account as it is, with one balance. */
  function PartyOf(a: nat, t: nat, balance: Fr, acc: AccountState): Party {
    Party(1, FrOf(a), FrOf(t), balance, acc.sign, acc.ay, acc.nonce)
  }

  function SigOf(sig: Signature): SigFields {
    SigFields(1, sig.hash, sig.s, sig.r8x, sig.r8y)
  }

  function KeyUpdateFields(s: Ledger, a: nat, sign: Fr, ay: Fr): Fields {
    var party := PartyOf(a, 0, BalanceOf(s, a, 0), At(s, a).state);
    NO_FIELDS.(party1 := party, party2 := party.(sign := sign, ay := ay), dstIsNew := 1)
  }

  function KeyUpdateRaw(s: Ledger, a: nat, sign: Fr, ay: Fr, after: Ledger, offset: Option<int>): RawTx {
    OneAccountRaw(Deposit, s, a, 0, KeyUpdateFields(s, a, sign, ay), after, offset)
  }

  function DepositFields(s: Ledger, a: nat, t: nat, amount: Fr): Fields {
    var party := PartyOf(a, t, BalanceOf(s, a, t), At(s, a).state);
    NO_FIELDS.(party1 := party, party2 := party.(balance := Add(party.balance, amount)), amount := amount)
  }

  function DepositRaw(s: Ledger, a: nat, t: nat, amount: Fr, after: Ledger, offset: Option<int>): RawTx {
    OneAccountRaw(Deposit, s, a, t, DepositFields(s, a, t, amount), after, offset)
  }

  function WithdrawFields(s: Ledger, a: nat, t: nat, amount: Fr, sig: Signature): Fields {
    var party := PartyOf(a, t, BalanceOf(s, a, t), At(s, a).state);
    NO_FIELDS.(party1 := party, party2 := party.(balance := Sub(party.balance, amount), nonce := Add(party.nonce, 1)),
               amount := amount, sig1 := SigOf(sig))
  }

  function WithdrawRaw(s: Ledger, a: nat, t: nat, amount: Fr, sig: Signature, after: Ledger,
                       offset: Option<int>): RawTx {
    OneAccountRaw(Withdraw, s, a, t, WithdrawFields(s, a, t, amount, sig), after, offset)
  }

  /** The sender as before, the recipient's balance as after. */
  function TransferFields(s: Ledger, from: nat, to: nat, t: nat, amount: Fr, sig: Signature): Fields {
    NO_FIELDS.(party1 := PartyOf(from, t, BalanceOf(s, from, t), At(s, from).state),
               party2 := PartyOf(to, t, Add(BalanceOf(s, to, t), amount), At(s, to).state),
               amount := amount, sig1 := SigOf(sig))
  }

  /** The sender's paths are taken before the batch, the recipient's after it. */
  function TransferRaw(s: Ledger, from: nat, to: nat, t: nat, amount: Fr, sig: Signature, after: Ledger,
                       offset: Option<int>): RawTx {
    RawTx(Transfer, Payload(TransferFields(s, from, to, t, amount, sig)),
          BalancePath(s, from, t), BalancePath(after, to, t), BalancePath(s, from, t), BalancePath(after, to, t),
          TrivialOrderPath(s.levels), TrivialOrderPath(s.levels),
          At(s, from).state.orderRoot, At(s, to).state.orderRoot,
          AccountPath(s, from), AccountPath(after, to), StateRoot(s), StateRoot(after), offset)
  }

  function CompressedFr(x: Fr): Fr {
    if Compress(x).Ok? then FrOf(Compress(x).value) else 0
  }

  function OldFields(o: Order): OrderFields {
    OrderFields(FrOf(o.orderId), o.tokenSell, o.filledSell, o.totalSell, o.tokenBuy, o.filledBuy, o.totalBuy)
  }

  /** The totals of an order after the trade are compressed. */
  function NewFields(o: Order): OrderFields {
    OldFields(o).(amountSell := CompressedFr(o.totalSell), amountBuy := CompressedFr(o.totalBuy))
  }

  /** The token ids of the two parties are those of the orders, not of the trade. */
  function TradeFields(s: Ledger, m: Matched, tx: SpotTradeTx): Fields {
    var after1, after2 := Order1After(m, tx), Order2After(m, tx);
    NO_FIELDS.(
      party1 := PartyOf(tx.account1, 0, BalanceOf(m.s, tx.account1, tx.token1to2), At(s, tx.account1).state)
                .(token := after1.tokenSell),
      party2 := PartyOf(tx.account2, 0, Add(BalanceOf(m.s, tx.account2, tx.token1to2), tx.amount1to2),
                        At(s, tx.account2).state)
                .(token := after2.tokenBuy),
      sig1 := SigOf(m.order1.sig), sig2 := SigOf(m.order2.sig),
      amount1 := tx.amount1to2, amount2 := tx.amount2to1,
      balance3 := BalanceOf(m.s, tx.account2, tx.token2to1),
      balance4 := Add(BalanceOf(m.s, tx.account1, tx.token2to1), tx.amount2to1),
      pos1 := FrOf(m.pos1), pos2 := FrOf(m.pos2),
      old1 := OldFields(m.old1), new1 := NewFields(after1), old2 := OldFields(m.old2), new2 := NewFields(after2))
  }

  /** Sell-side, order and first account paths are taken before the batch, the others after it. */
  function TradeRaw(s: Ledger, m: Matched, tx: SpotTradeTx, after: Ledger, offset: Option<int>): RawTx {
    RawTx(SpotTrade, Payload(TradeFields(s, m, tx)),
          BalancePath(s, tx.account1, tx.token1to2), BalancePath(after, tx.account2, tx.token1to2),
          BalancePath(s, tx.account2, tx.token2to1), BalancePath(after, tx.account1, tx.token2to1),
          OrderPath(m.s, tx.account1, m.pos1), OrderPath(m.s, tx.account2, m.pos2),
          At(s, tx.account1).state.orderRoot, At(after, tx.account2).state.orderRoot,
          AccountPath(s, tx.account1), AccountPath(after, tx.account2), StateRoot(s), StateRoot(after), offset)
  }

  /** An empty transaction repeats the root and carries the paths of account 0 and token 0. */
  function NopRaw(s: Ledger): RawTx {
    RawTx(Nop, Payload(NO_FIELDS), BalancePath(s, 0, 0), BalancePath(s, 0, 0), BalancePath(s, 0, 0),
          BalancePath(s, 0, 0),
          TrivialOrderPath(s.levels), TrivialOrderPath(s.levels), 0, 0,
          AccountPath(s, 0), AccountPath(s, 0), StateRoot(s), StateRoot(s), None)
  }
}
