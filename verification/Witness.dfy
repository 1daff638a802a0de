/**
 * What a verifier who sees only an emitted record can replay: every digest and root from the record's own values and
 * paths.
 */
module Witness {
  import opened Field
  import opened Wrappers
  import opened MerkleSpec
  import opened Records
  import opened Ledger
  import opened Batch
  import opened Transactions
  import opened Invariants
  import opened Conservation
  import opened SelfTransfer
  import opened TxData
  import opened Emission

  /** The digest of an account record. */
  function Digest(nonce: Fr, sign: Fr, balanceRoot: Fr, ay: Fr, orderRoot: Fr): Fr {
    AccountState(nonce, sign, balanceRoot, ay, orderRoot).Hash()
  }

  /** One account changes: its record before folds to the old root and its record after to the new one. */
  predicate OneAccountReplay(raw: RawTx) {
    && var p := raw.payload;
    && |p| == TX_LENGTH && p[ACCOUNT_ID2] == p[ACCOUNT_ID1] && p[TOKEN_ID2] == p[TOKEN_ID1]
    && raw.accountPath1 == raw.accountPath0 && raw.balancePath1 == raw.balancePath0
    && var before := Digest(p[NONCE1], p[SIGN1], Fold(p[BALANCE1], raw.balancePath0, p[TOKEN_ID1]), p[AY1],
                            raw.orderRoot0);
       var after := Digest(p[NONCE2], p[SIGN2], Fold(p[BALANCE2], raw.balancePath1, p[TOKEN_ID2]), p[AY2],
                           raw.orderRoot1);
    && Fold(before, raw.accountPath0, p[ACCOUNT_ID1]) == raw.rootBefore
    && Fold(after, raw.accountPath1, p[ACCOUNT_ID2]) == raw.rootAfter
  }

  predicate DepositReplay(raw: RawTx) {
    && OneAccountReplay(raw)
    && var p := raw.payload;
    && p[BALANCE2] == Add(p[BALANCE1], p[AMOUNT])
    && p[NONCE2] == p[NONCE1] && p[SIGN2] == p[SIGN1] && p[AY2] == p[AY1] && p[DST_IS_NEW] == 0
  }

  predicate KeyUpdateReplay(raw: RawTx) {
    && OneAccountReplay(raw)
    && var p := raw.payload;
    && p[BALANCE2] == p[BALANCE1] && p[AMOUNT] == 0 && p[NONCE2] == p[NONCE1] && p[AY1] == 0 && p[DST_IS_NEW] == 1
  }

  predicate WithdrawReplay(raw: RawTx) {
    && OneAccountReplay(raw)
    && var p := raw.payload;
    && p[BALANCE2] == Sub(p[BALANCE1], p[AMOUNT])
    && p[NONCE2] == Add(p[NONCE1], 1) && p[SIGN2] == p[SIGN1] && p[AY2] == p[AY1]
  }

  /** The sender's record in a transfer, with this nonce and balance. */
  function SenderDigest(raw: RawTx, nonce: Fr, balance: Fr): Fr
    requires |raw.payload| == TX_LENGTH
  {
    var p := raw.payload;
    Digest(nonce, p[SIGN1], Fold(balance, raw.balancePath0, p[TOKEN_ID1]), p[AY1], raw.orderRoot0)
  }

  /** The recipient's record in a transfer, with this balance. */
  function RecipientDigest(raw: RawTx, balance: Fr): Fr
    requires |raw.payload| == TX_LENGTH
  {
    var p := raw.payload;
    Digest(p[NONCE2], p[SIGN2], Fold(balance, raw.balancePath1, p[TOKEN_ID2]), p[AY2], raw.orderRoot1)
  }

  /** The old root, the sender's two records, the recipient's two records, the new root: one chain. */
  predicate TransferReplay(raw: RawTx) {
    && var p := raw.payload;
    && |p| == TX_LENGTH && p[TOKEN_ID2] == p[TOKEN_ID1] && p[AMOUNT] <= p[BALANCE1]
    && var senderAfter := SenderDigest(raw, Add(p[NONCE1], 1), Sub(p[BALANCE1], p[AMOUNT]));
       var recipientBefore := RecipientDigest(raw, Sub(p[BALANCE2], p[AMOUNT]));
    && Fold(SenderDigest(raw, p[NONCE1], p[BALANCE1]), raw.accountPath0, p[ACCOUNT_ID1]) == raw.rootBefore
    && Fold(senderAfter, raw.accountPath0, p[ACCOUNT_ID1]) == Fold(recipientBefore, raw.accountPath1, p[ACCOUNT_ID2])
    && Fold(RecipientDigest(raw, p[BALANCE2]), raw.accountPath1, p[ACCOUNT_ID2]) == raw.rootAfter
  }

  // ------------------------------------------------------------ one account

  /** Ids below a tree's size survive the conversion to a field element. */
  lemma IndexFits(level: nat, idx: nat)
    requires level < 32 && idx < Pow2(level)
    ensures FrOf(idx) == idx
  {
    Pow2Monotone(level, 32);
    WordSize();
  }

  lemma WordSize()
    ensures Pow2(32) == 4294967296
  {
    assert Pow2(8) == 256;
    assert Pow2(16) == 65536;
    assert Pow2(24) == 16777216;
  }

  /** The record of account `a`, one balance replaced. */
  lemma BalanceProof(levels: Levels, account: Account, t: nat, value: Fr)
    requires Sized(levels, account) && Synced(levels, account) && t < Pow2(levels.balance)
    ensures var path := Path(account.balances, levels.balance, t);
            && Fold(account.balances[t], path, t) == account.state.balanceRoot
            && Fold(value, path, t) == Root(account.balances[t := value], levels.balance)
  {
    hide Root, Path, Fold, Order.Hash, Pow2;
    FoldGivesRoot(account.balances, levels.balance, t);
    FoldAfterWrite(account.balances, levels.balance, t, value);
  }

  /** A record that claims what is stored before and after replays. */
  lemma OneAccountReplays(s: Ledger, a: nat, t: nat, txType: TxType, fields: Fields, after: Ledger, offset: Option<int>)
    requires Invariant(s) && a < |s.leaves| && t < Pow2(s.levels.balance)
    requires after.levels == s.levels && after.leaves == s.leaves[a := At(after, a).state.Hash()]
    requires var p, x, y := Payload(fields), At(s, a), At(after, a);
             && p[ACCOUNT_ID1] == p[ACCOUNT_ID2] == FrOf(a) && p[TOKEN_ID1] == p[TOKEN_ID2] == FrOf(t)
             && p[BALANCE1] == StoredBalance(s, a, t)
             && p[NONCE1] == x.state.nonce && p[SIGN1] == x.state.sign && p[AY1] == x.state.ay
             && y.state == AccountState(p[NONCE2], p[SIGN2], y.state.balanceRoot, p[AY2], x.state.orderRoot)
             && t < |x.balances| && y.state.balanceRoot == Root(x.balances[t := p[BALANCE2]], s.levels.balance)
    ensures OneAccountReplay(OneAccountRaw(txType, s, a, t, fields, after, offset))
  {
    Reads(s, a);
    var p, x := Payload(fields), At(s, a);
    BalanceProof(s.levels, x, t, p[BALANCE2]);
    IndexFits(s.levels.balance, t);
    IndexFits(s.levels.account, a);
    FoldGivesRoot(s.leaves, s.levels.account, a);
    FoldAfterWrite(s.leaves, s.levels.account, a, At(after, a).state.Hash());
    hide Invariant, Synced, Slotted, Root, Path, Fold, AccountState.Hash, EmptyAccount, Pow2, Payload, FrOf;
  }

  lemma DepositReplays(s: Ledger, a: nat, t: nat, amount: Fr, offset: Option<int>)
    requires Invariant(s) && a < |s.leaves| && t < Pow2(s.levels.balance) && Deposited(s, a, t, amount).Ok?
    ensures DepositReplay(DepositRaw(s, a, t, amount, Deposited(s, a, t, amount).value, offset))
  {
    Reads(s, a);
    ReadIsStored(s, a, t);
    PayloadLaid(DepositFields(s, a, t, amount));
    hide Invariant, Synced, Slotted, Root, Path, Fold, AccountState.Hash, EmptyAccount, Pow2, FrOf, BalanceOf;
    hide IsKeyed, OneAccountReplay, Add, DepositFields, Payload;
    OneAccountReplays(s, a, t, Deposit, DepositFields(s, a, t, amount), Deposited(s, a, t, amount).value, offset);
  }

  /** The record and the account leaf after a withdrawal. */
  lemma WithdrawnRecord(s: Ledger, a: nat, t: nat, amount: Fr)
    requires a < |s.leaves| && t < |At(s, a).balances|
    ensures var r, x := Withdrawn(s, a, t, amount), At(s, a);
            && r.levels == s.levels && r.leaves == s.leaves[a := At(r, a).state.Hash()]
            && At(r, a).state == AccountState(
                 Add(x.state.nonce, 1), x.state.sign, Root(x.balances[t := Sub(BalanceOf(s, a, t), amount)],
                                                           s.levels.balance),
                 x.state.ay, Root(x.orderLeaves, s.levels.order))
  {
    hide EmptyAccount, Root, AccountState.Hash, BalanceOf, Add, Sub;
  }

  lemma KeyUpdatedRecord(s: Ledger, a: nat, sign: Fr, ay: Fr)
    requires a < |s.leaves| && 0 < |At(s, a).balances| && KeyUpdated(s, a, sign, ay).Ok?
    ensures var r, x := KeyUpdated(s, a, sign, ay).value, At(s, a);
            && x.state.ay == 0 && BalanceOf(s, a, 0) == 0
            && r.levels == s.levels && r.leaves == s.leaves[a := At(r, a).state.Hash()]
            && At(r, a).state == AccountState(
                 x.state.nonce, sign, Root(x.balances[0 := 0], s.levels.balance), ay,
                 Root(x.orderLeaves, s.levels.order))
  {
    hide EmptyAccount, Root, AccountState.Hash, StoredBalance;
  }

  // --------------------------------------------- what the program claims

  /** The record of an account, were this its balance. */
  function ClaimedState(s: Ledger, a: nat, t: nat, balance: Fr): AccountState {
    At(s, a).state.(balanceRoot := Fold(balance, BalancePath(s, a, t), t))
  }

  /** No digest on the way from the balance that is read to the root collides with the one stored there. */
  ghost predicate Distinguished(s: Ledger, leaves: seq<Fr>, a: nat, t: nat) {
    && Separates(BalancePath(s, a, t), t, BalanceOf(s, a, t), StoredBalance(s, a, t))
    && var claim := ClaimedState(s, a, t, BalanceOf(s, a, t));
    && NoCollision(leaves, claim.Hash(), Path(leaves, s.levels.account, a), a)
    && (claim.Hash() == At(s, a).state.Hash() ==> claim == At(s, a).state)
  }

  /** The balance that is read folds to the root exactly when it is the balance stored. */
  lemma ClaimAccepted(s: Ledger, leaves: seq<Fr>, a: nat, t: nat)
    requires Invariant(s) && a < |s.leaves| == |leaves| && leaves[a] == s.leaves[a] && t < Pow2(s.levels.balance)
    requires Distinguished(s, leaves, a, t)
    ensures Fold(ClaimedState(s, a, t, BalanceOf(s, a, t)).Hash(), Path(leaves, s.levels.account, a), a)
              == Root(leaves, s.levels.account)
            <==> BalanceOf(s, a, t) == StoredBalance(s, a, t)
  {
    Reads(s, a);
    var claim := ClaimedState(s, a, t, BalanceOf(s, a, t));
    FoldSeparates(BalancePath(s, a, t), t, BalanceOf(s, a, t), StoredBalance(s, a, t));
    BalanceProof(s.levels, At(s, a), t, 0);
    ProofIsBinding(leaves, s.levels.account, a, claim.Hash(), Path(leaves, s.levels.account, a));
    hide Invariant, Synced, Slotted, Root, Path, Fold, AccountState.Hash, EmptyAccount, Pow2, Separates, NoCollision;
    hide BalanceOf;
  }

  /** An emitted record that describes the account as it is read replays only if the balance read folds to the root. */
  lemma EmittedClaim(s: Ledger, a: nat, t: nat, txType: TxType, fields: Fields, after: Ledger, offset: Option<int>)
    requires Invariant(s) && a < |s.leaves| && t < Pow2(s.levels.balance)
    requires var p, x := Payload(fields), At(s, a);
             && p[ACCOUNT_ID1] == FrOf(a) && p[TOKEN_ID1] == FrOf(t) && p[BALANCE1] == BalanceOf(s, a, t)
             && p[NONCE1] == x.state.nonce && p[SIGN1] == x.state.sign && p[AY1] == x.state.ay
    requires Distinguished(s, s.leaves, a, t)
    ensures OneAccountReplay(OneAccountRaw(txType, s, a, t, fields, after, offset)) ==>
              BalanceOf(s, a, t) == StoredBalance(s, a, t)
  {
    ClaimAccepted(s, s.leaves, a, t);
    ShapeFacts(s);
    IndexFits(s.levels.balance, t);
    IndexFits(s.levels.account, a);
    hide Invariant, Root, Path, Fold, AccountState.Hash, EmptyAccount, Pow2, Payload, FrOf, BalanceOf, StoredBalance;
    hide Distinguished, At;
  }

  lemma ShapeFacts(s: Ledger)
    requires Invariant(s)
    ensures s.levels.balance < 32 && s.levels.account < 32 && |s.leaves| == Pow2(s.levels.account)
  {
    hide Pow2, Synced, Slotted, Mapped;
  }

  lemma HonestKeyUpdateReplays(s: Ledger, a: nat, sign: Fr, ay: Fr, offset: Option<int>)
    requires Invariant(s) && a < |s.leaves| && KeyUpdated(s, a, sign, ay).Ok?
    requires StoredBalance(s, a, 0) == 0
    ensures KeyUpdateReplay(KeyUpdateRaw(s, a, sign, ay, KeyUpdated(s, a, sign, ay).value, offset))
  {
    Reads(s, a);
    PayloadLaid(KeyUpdateFields(s, a, sign, ay));
    KeyUpdatedRecord(s, a, sign, ay);
    assert FrOf(0) == 0;
    hide Invariant, Slotted, Root, Path, Fold, AccountState.Hash, EmptyAccount, FrOf, OneAccountReplay, Add;
    hide KeyUpdateFields, Payload, KeyUpdated, At, BalanceOf;
    OneAccountReplays(s, a, 0, Deposit, KeyUpdateFields(s, a, sign, ay), KeyUpdated(s, a, sign, ay).value, offset);
  }

  /**
   * The record of a key update replays exactly when the account holds none of token 0, unless its own hashes collide.
   */
  lemma KeyUpdateReplays(s: Ledger, a: nat, sign: Fr, ay: Fr, offset: Option<int>)
    requires Invariant(s) && a < |s.leaves| && KeyUpdated(s, a, sign, ay).Ok?
    ensures var raw := KeyUpdateRaw(s, a, sign, ay, KeyUpdated(s, a, sign, ay).value, offset);
            && (StoredBalance(s, a, 0) == 0 ==> KeyUpdateReplay(raw))
            && (Distinguished(s, s.leaves, a, 0) ==> (KeyUpdateReplay(raw) <==> StoredBalance(s, a, 0) == 0))
  {
    Reads(s, a);
    PayloadLaid(KeyUpdateFields(s, a, sign, ay));
    KeyUpdatedRecord(s, a, sign, ay);
    hide Invariant, Synced, Slotted, Root, Path, Fold, AccountState.Hash, EmptyAccount, FrOf, OneAccountReplay, Add;
    hide KeyUpdateFields, Payload, KeyUpdated, At, BalanceOf, StoredBalance, Distinguished;
    if StoredBalance(s, a, 0) == 0 {
      HonestKeyUpdateReplays(s, a, sign, ay, offset);
    } else if Distinguished(s, s.leaves, a, 0) {
      EmittedClaim(s, a, 0, Deposit, KeyUpdateFields(s, a, sign, ay), KeyUpdated(s, a, sign, ay).value, offset);
    }
  }

  lemma HonestWithdrawReplays(s: Ledger, a: nat, t: nat, amount: Fr, sig: Signature, offset: Option<int>)
    requires Invariant(s) && a < |s.leaves| && t < Pow2(s.levels.balance)
    requires BalanceOf(s, a, t) == StoredBalance(s, a, t)
    ensures WithdrawReplay(WithdrawRaw(s, a, t, amount, sig, Withdrawn(s, a, t, amount), offset))
  {
    Reads(s, a);
    PayloadLaid(WithdrawFields(s, a, t, amount, sig));
    WithdrawnRecord(s, a, t, amount);
    hide Invariant, Slotted, Root, Path, Fold, AccountState.Hash, EmptyAccount, Pow2, FrOf, BalanceOf;
    hide OneAccountReplay, Add, Sub, WithdrawFields, Payload, Withdrawn, At;
    OneAccountReplays(s, a, t, Withdraw, WithdrawFields(s, a, t, amount, sig), Withdrawn(s, a, t, amount), offset);
  }

  /**
   * The record of a withdrawal replays exactly when the balance reads as it is stored, unless its own hashes collide.
   */
  lemma WithdrawReplays(s: Ledger, a: nat, t: nat, amount: Fr, sig: Signature, offset: Option<int>)
    requires Invariant(s) && a < |s.leaves| && t < Pow2(s.levels.balance)
    ensures var raw := WithdrawRaw(s, a, t, amount, sig, Withdrawn(s, a, t, amount), offset);
            && (BalanceOf(s, a, t) == StoredBalance(s, a, t) ==> WithdrawReplay(raw))
            && (Distinguished(s, s.leaves, a, t) ==>
                  (WithdrawReplay(raw) <==> BalanceOf(s, a, t) == StoredBalance(s, a, t)))
  {
    PayloadLaid(WithdrawFields(s, a, t, amount, sig));
    hide Invariant, Root, Path, Fold, AccountState.Hash, EmptyAccount, Pow2, FrOf, BalanceOf, StoredBalance;
    hide OneAccountReplay, Add, Sub, Payload, Withdrawn, At, Distinguished;
    if BalanceOf(s, a, t) == StoredBalance(s, a, t) {
      HonestWithdrawReplays(s, a, t, amount, sig, offset);
    } else if Distinguished(s, s.leaves, a, t) {
      EmittedClaim(s, a, t, Withdraw, WithdrawFields(s, a, t, amount, sig), Withdrawn(s, a, t, amount), offset);
    }
  }

  /**
   * Whoever makes it, a record that claims a balance other than the stored one is rejected, unless
   * its hashes happen to collide.
   */
  lemma FalseClaimRejected(s: Ledger, a: nat, t: nat, raw: RawTx)
    requires Invariant(s) && a < |s.leaves| && t < Pow2(s.levels.balance)
    requires |raw.payload| == TX_LENGTH && raw.payload[ACCOUNT_ID1] == a && raw.payload[TOKEN_ID1] == t
    requires raw.balancePath0 == BalancePath(s, a, t) && raw.accountPath0 == AccountPath(s, a)
    requires raw.rootBefore == StateRoot(s)
    requires raw.payload[BALANCE1] != StoredBalance(s, a, t)
    requires Separates(raw.balancePath0, t, raw.payload[BALANCE1], StoredBalance(s, a, t))
    requires var p := raw.payload;
             var claim := AccountState(p[NONCE1], p[SIGN1], Fold(p[BALANCE1], raw.balancePath0, t), p[AY1],
                                       raw.orderRoot0);
             && NoCollision(s.leaves, claim.Hash(), raw.accountPath0, a)
             && (claim.Hash() == At(s, a).state.Hash() ==> claim == At(s, a).state)
    ensures !OneAccountReplay(raw)
  {
    Reads(s, a);
    var p, x := raw.payload, At(s, a);
    var claim := AccountState(p[NONCE1], p[SIGN1], Fold(p[BALANCE1], raw.balancePath0, t), p[AY1], raw.orderRoot0);
    FoldSeparates(raw.balancePath0, t, p[BALANCE1], StoredBalance(s, a, t));
    BalanceProof(s.levels, x, t, 0);
    ProofIsBinding(s.leaves, s.levels.account, a, claim.Hash(), raw.accountPath0);
    hide Invariant, Synced, Slotted, Root, Path, Fold, AccountState.Hash, EmptyAccount, Pow2, Separates, NoCollision;
  }

  // -------------------------------------------------------------- transfers

  /** Both records and both account leaves after a transfer. */
  lemma TransferredRecords(s: Ledger, from: nat, to: nat, t: nat, amount: Fr)
    requires from < |s.leaves| && to < |s.leaves| && from != to && t < |At(s, from).balances|
    requires t < |At(s, to).balances|
    ensures var r, x, y := Transferred(s, from, to, t, amount), At(s, from), At(s, to);
            && r.levels == s.levels
            && r.leaves == s.leaves[from := At(r, from).state.Hash()][to := At(r, to).state.Hash()]
            && At(r, from).state == AccountState(
                 Add(x.state.nonce, 1), x.state.sign, Root(x.balances[t := Sub(BalanceOf(s, from, t), amount)],
                                                           s.levels.balance),
                 x.state.ay, Root(x.orderLeaves, s.levels.order))
            && At(r, to).balances == y.balances[t := Add(BalanceOf(s, to, t), amount)]
            && At(r, to).state == AccountState(
                 y.state.nonce, y.state.sign, Root(At(r, to).balances, s.levels.balance), y.state.ay,
                 Root(y.orderLeaves, s.levels.order))
  {
    hide EmptyAccount, Root, AccountState.Hash, BalanceOf, Add, Sub, ApplyUpdates;
    OneWrite(At(s, from).balances, t, Sub(BalanceOf(s, from, t), amount));
    OneWrite(At(s, to).balances, t, Add(BalanceOf(s, to, t), amount));
    NoWrites(At(s, from).orderLeaves);
    NoWrites(At(s, to).orderLeaves);
  }

  lemma SenderRecords(s: Ledger, from: nat, to: nat, t: nat, amount: Fr, sig: Signature, offset: Option<int>)
    requires Invariant(s) && from < |s.leaves| && to < |s.leaves| && from != to && t < Pow2(s.levels.balance)
    requires IsKeyed(s, from)
    ensures var r := Transferred(s, from, to, t, amount);
            var raw := TransferRaw(s, from, to, t, amount, sig, r, offset);
            var p := raw.payload;
            && SenderDigest(raw, p[NONCE1], p[BALANCE1]) == s.leaves[from]
            && SenderDigest(raw, Add(p[NONCE1], 1), Sub(p[BALANCE1], p[AMOUNT])) == At(r, from).state.Hash()
  {
    Reads(s, from);
    Reads(s, to);
    ReadIsStored(s, from, t);
    PayloadLaid(TransferFields(s, from, to, t, amount, sig));
    TransferredRecords(s, from, to, t, amount);
    IndexFits(s.levels.balance, t);
    BalanceProof(s.levels, At(s, from), t, Sub(BalanceOf(s, from, t), amount));
    hide Invariant, Slotted, Root, Path, Fold, AccountState.Hash, EmptyAccount, FrOf, Add, Sub, TransferFields;
    hide Payload, Transferred, BalanceOf, At, Pow2;
  }

  lemma RecipientRecords(s: Ledger, from: nat, to: nat, t: nat, amount: Fr, sig: Signature, offset: Option<int>)
    requires Invariant(s) && from < |s.leaves| && to < |s.leaves| && from != to && t < Pow2(s.levels.balance)
    ensures var r := Transferred(s, from, to, t, amount);
            var raw := TransferRaw(s, from, to, t, amount, sig, r, offset);
            var p := raw.payload;
            && RecipientDigest(raw, Sub(p[BALANCE2], p[AMOUNT])) == ClaimedState(s, to, t, BalanceOf(s, to, t)).Hash()
            && RecipientDigest(raw, p[BALANCE2]) == At(r, to).state.Hash()
  {
    Reads(s, from);
    Reads(s, to);
    PayloadLaid(TransferFields(s, from, to, t, amount, sig));
    TransferredRecords(s, from, to, t, amount);
    IndexFits(s.levels.balance, t);
    BalanceProof(s.levels, At(s, to), t, Add(BalanceOf(s, to, t), amount));
    AddSub(BalanceOf(s, to, t), amount);
    PathIgnoresOwnLeaf(At(s, to).balances, s.levels.balance, t, Add(BalanceOf(s, to, t), amount));
    hide Invariant, Slotted, Root, Path, Fold, AccountState.Hash, EmptyAccount, FrOf, Add, Sub, TransferFields;
    hide Payload, Transferred, BalanceOf, At, Pow2;
  }

  /** The account leaves when the sender's is written and the recipient's is not. */
  function MiddleLeaves(s: Ledger, from: nat, r: Ledger): seq<Fr> {
    if from < |s.leaves| then s.leaves[from := At(r, from).state.Hash()] else s.leaves
  }

  /**
   * The two ends of the chain always meet the roots; the links in the middle meet exactly when the recipient's claim is
   * accepted.
   */
  lemma TransferLinks(s: Ledger, from: nat, to: nat, t: nat, amount: Fr, sig: Signature, offset: Option<int>)
    requires Invariant(s) && from < |s.leaves| && to < |s.leaves| && from != to && t < Pow2(s.levels.balance)
    requires TransferCheck(s, from, to, t, amount) == None
    ensures var r := Transferred(s, from, to, t, amount);
            var middle := MiddleLeaves(s, from, r);
            TransferReplay(TransferRaw(s, from, to, t, amount, sig, r, offset)) <==>
              Fold(ClaimedState(s, to, t, BalanceOf(s, to, t)).Hash(), Path(middle, s.levels.account, to), to)
                == Root(middle, s.levels.account)
  {
    ShapeFacts(s);
    PayloadLaid(TransferFields(s, from, to, t, amount, sig));
    Reads(s, from);
    Reads(s, to);
    TransferredRecords(s, from, to, t, amount);
    SenderRecords(s, from, to, t, amount, sig, offset);
    RecipientRecords(s, from, to, t, amount, sig, offset);
    IndexFits(s.levels.account, from);
    IndexFits(s.levels.account, to);
    hide Invariant, Consistent, Root, Path, Fold, AccountState.Hash, EmptyAccount, FrOf, Add, Sub, TransferFields;
    hide Payload, Transferred, BalanceOf, At, Pow2, SenderDigest, RecipientDigest, ClaimedState;
    var r := Transferred(s, from, to, t, amount);
    TwoWriteChain(s.leaves, s.levels.account, from, At(r, from).state.Hash(), to, At(r, to).state.Hash());
    FoldAfterWrite(s.leaves, s.levels.account, from, At(r, from).state.Hash());
    PathIgnoresOwnLeaf(MiddleLeaves(s, from, r), s.levels.account, to, At(r, to).state.Hash());
  }

  /**
   * The paths taken before and after the batch meet in one middle root exactly when the recipient's
   * balance reads as it is stored, unless the record's own hashes collide.
   */
  lemma TransferReplays(s: Ledger, from: nat, to: nat, t: nat, amount: Fr, sig: Signature, offset: Option<int>)
    requires Invariant(s) && from < |s.leaves| && to < |s.leaves| && from != to && t < Pow2(s.levels.balance)
    requires TransferCheck(s, from, to, t, amount) == None
    ensures var r := Transferred(s, from, to, t, amount);
            var raw := TransferRaw(s, from, to, t, amount, sig, r, offset);
            && (BalanceOf(s, to, t) == StoredBalance(s, to, t) ==> TransferReplay(raw))
            && (Distinguished(s, MiddleLeaves(s, from, r), to, t) ==>
                 (TransferReplay(raw) <==> BalanceOf(s, to, t) == StoredBalance(s, to, t)))
  {
    hide Invariant, Synced, Slotted, Root, Path, Fold, AccountState.Hash, EmptyAccount, Transferred, BalanceOf, Pow2;
    hide TransferReplay, TransferRaw, TransferCheck, Distinguished, At, StoredBalance;
    var middle := MiddleLeaves(s, from, Transferred(s, from, to, t, amount));
    TransferLinks(s, from, to, t, amount, sig, offset);
    if BalanceOf(s, to, t) == StoredBalance(s, to, t) {
      HonestClaim(s, middle, to, t);
    }
    if Distinguished(s, middle, to, t) {
      ClaimAccepted(s, middle, to, t);
    }
  }

  lemma HonestClaim(s: Ledger, leaves: seq<Fr>, a: nat, t: nat)
    requires Invariant(s) && a < |s.leaves| == |leaves| && leaves[a] == s.leaves[a] && t < Pow2(s.levels.balance)
    ensures Fold(ClaimedState(s, a, t, StoredBalance(s, a, t)).Hash(), Path(leaves, s.levels.account, a), a)
              == Root(leaves, s.levels.account)
  {
    Reads(s, a);
    BalanceProof(s.levels, At(s, a), t, 0);
    ShapeFacts(s);
    FoldGivesRoot(leaves, s.levels.account, a);
    hide Invariant, Synced, Slotted, Root, Path, Fold, AccountState.Hash, EmptyAccount, Pow2;
  }

  /** A transfer to oneself leaves a nonce its own record denies: it never replays, unless hashes collide. */
  lemma SelfTransferRejected(s: Ledger, a: nat, t: nat, amount: Fr, sig: Signature, schedule: seq<nat>,
                             offset: Option<int>)
    requires Invariant(s) && a in s.accounts && t < Pow2(s.levels.balance)
    requires Known(s, TransferUpdates(s, a, a, t, amount)) && TasksExist(TransferUpdates(s, a, a, t, amount), schedule)
    requires var after := Parallel(s, TransferUpdates(s, a, a, t, amount), schedule);
             var raw := TransferRaw(s, a, a, t, amount, sig, after, offset);
             var p := raw.payload;
             var claim := AccountState(p[NONCE2], p[SIGN2], Fold(p[BALANCE2], raw.balancePath1, p[TOKEN_ID2]), p[AY2],
                                       raw.orderRoot1);
             && NoCollision(after.leaves, claim.Hash(), raw.accountPath1, a)
             && (claim.Hash() == At(after, a).state.Hash() ==> claim == At(after, a).state)
    ensures !TransferReplay(TransferRaw(s, a, a, t, amount, sig,
                                        Parallel(s, TransferUpdates(s, a, a, t, amount), schedule), offset))
  {
    Bounded(s, a);
    IndexFits(s.levels.account, a);
    SelfTransferRecord(s, a, t, amount, schedule);
    PayloadLaid(TransferFields(s, a, a, t, amount, sig));
    var after := Parallel(s, TransferUpdates(s, a, a, t, amount), schedule);
    var raw := TransferRaw(s, a, a, t, amount, sig, after, offset);
    var p := raw.payload;
    var claim := AccountState(p[NONCE2], p[SIGN2], Fold(p[BALANCE2], raw.balancePath1, p[TOKEN_ID2]), p[AY2],
                              raw.orderRoot1);
    assert At(s, a).state.nonce != Add(At(s, a).state.nonce, 1);
    hide Invariant, Root, Path, Fold, AccountState.Hash, EmptyAccount, FrOf, Add, Sub, TransferFields, Payload;
    hide Parallel, BalanceOf, At, Pow2, NoCollision, TransferUpdates;
    ProofIsBinding(after.leaves, s.levels.account, a, claim.Hash(), raw.accountPath1);
  }
}
