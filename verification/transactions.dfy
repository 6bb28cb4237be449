/**
 The ledger's entries (`Transaction` in blockchain.py) and the
 synthetic account names the ledger treats specially.
 */
module Transactions {

  /** The five `transaction_type` strings the ledger and its callers produce. */
  datatype TxType = Genesis | Transfer | Zakat | MiningReward | Gift {
    function Name(): string {
      match this
      case Genesis => "genesis"
      case Transfer => "transfer"
      case Zakat => "zakat"
      case MiningReward => "mining_reward"
      case Gift => "gift"
    }
  }

  /** An immutable entry; amounts are exact reals rather than binary floats. */
  datatype Transaction = Transaction(
    sender: string,
    receiver: string,
    amount: real,
    zakatAmount: real,
    txType: TxType,
    timestamp: string)

  /** Sender of mining rewards; never debited when a block is applied. */
  const SYSTEM: string := "System"
  /** Sender of the genesis entry; never debited when a block is applied. */
  const GENESIS_SENDER: string := "Genesis"
  /** Default receiver of zakat entries. */
  const ZAKAT_FUND: string := "Zakat_Fund"

  /** The two synthetic issuers that `update_balances` skips when debiting. */
  predicate IsIssuer(account: string) {
    account == SYSTEM || account == GENESIS_SENDER
  }

  /**
   The constructor: a missing (or empty, hence falsy) timestamp is replaced
   by the current time.
   */
  function MakeTransaction(sender: string, receiver: string, amount: real, zakatAmount: real,
                           txType: TxType, timestamp: string, now: string): (tx: Transaction)
    ensures tx.sender == sender && tx.receiver == receiver
    ensures tx.amount == amount && tx.zakatAmount == zakatAmount && tx.txType == txType
    ensures tx.timestamp == (if timestamp == "" then now else timestamp)
  {
    Transaction(sender, receiver, amount, zakatAmount, txType, if timestamp != "" then timestamp else now)
  }

  /** The sum of `zakat_amount` over a list of entries. */
  function ZakatSum(txs: seq<Transaction>): real {
    if |txs| == 0 then 0.0 else txs[0].zakatAmount + ZakatSum(txs[1..])
  }

  lemma {:induction false} ZakatSumAppend(a: seq<Transaction>, b: seq<Transaction>)
    ensures ZakatSum(a + b) == ZakatSum(a) + ZakatSum(b)
    decreases |a|
  {
    if |a| > 0 {
      assert (a + b)[1..] == a[1..] + b;
      ZakatSumAppend(a[1..], b);
    } else {
      assert a + b == b;
    }
  }

}
