/** The two records stored by value: orders and account states. */
module Records {
  import opened Field

  datatype OrderSide = Buy | Sell

  datatype Signature = Signature(hash: Fr, s: Fr, r8x: Fr, r8y: Fr)

  datatype Order = Order(
    accountId: nat,
    orderId: nat,
    side: OrderSide,
    tokenBuy: Fr,
    tokenSell: Fr,
    totalSell: Fr,
    totalBuy: Fr,
    sig: Signature,
    filledSell: Fr,
    filledBuy: Fr,
    isActive: bool)
  {
    /** The digest covers neither the owner, the side, the signature nor the active flag. */
    function Hash(): Fr {
      POSEIDON([Add(Add(orderId % P, Shl(tokenBuy, 32)), Shl(tokenSell, 64)), filledSell, filledBuy, totalSell,
                totalBuy])
    }

    /** Only the side the order asks for counts. */
    predicate IsFilled() {
      (side == Buy && filledBuy >= totalBuy) || (side == Sell && filledSell >= totalSell)
    }

    predicate IsDefault() {
      totalSell == 0
    }

    /** An order whose slot may be given away. */
    predicate Closed() {
      IsFilled() || !isActive
    }

    function TradeWith(sell: Fr, buy: Fr): Order {
      this.(filledBuy := Add(filledBuy, buy), filledSell := Add(filledSell, sell))
    }
  }

  const DEFAULT_ORDER := Order(0, 0, Buy, 0, 0, 0, 0, Signature(0, 0, 0, 0), 0, 0, true)

  datatype AccountState = AccountState(nonce: Fr, sign: Fr, balanceRoot: Fr, ay: Fr, orderRoot: Fr) {
    function Hash(): Fr {
      POSEIDON([Add(nonce, Shl(sign, 40)), balanceRoot, ay, orderRoot])
    }
  }
}
