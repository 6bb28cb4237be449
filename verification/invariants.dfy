/**
 The structural invariant of a ledger built only through its operations,
 established by the constructor and kept by every transition.
 */
module Invariants {
  import opened Digest
  import opened Transactions
  import opened Blocks
  import opened ZakatChain
  import opened Validation
  import opened Accounting

  /**
   Index contiguity, the genesis block's "0" link and its stored hash equal
   to its recomputed one, every block seeded with the creator's id, every
   mined block meeting the difficulty, a valid chain, and a registry of
   active nodes keyed by their own ids, each with a balance entry, the
   creator among them.
   */
  ghost predicate WellFormed(p: Primitives, l: Ledger) {
    && |l.chain| > 0
    && l.chain[0].previousHash == "0"
    && Sealed(p, l.chain[0])
    && (forall i :: 0 <= i < |l.chain| ==> l.chain[i].index == i && l.chain[i].rollNumber == l.creator)
    && (forall i :: 1 <= i < |l.chain| ==> MeetsTarget(l.chain[i].hash, DIFFICULTY))
    && ChainValid(p, l.chain)
    && l.creator in l.nodes
    && l.nodes.Keys <= l.balances.Keys
    && (forall id :: id in l.nodes ==> l.nodes[id].rollNumber == id && l.nodes[id].isActive)
  }

  /** A fresh ledger is well formed: in particular `validate_chain` holds after construction. */
  lemma NewLedgerWellFormed(p: Primitives, creator: string, initialBalance: real, now: string)
    ensures WellFormed(p, NewLedger(p, creator, initialBalance, now))
  {
  }

  /** Registering a node keeps the ledger well formed, whether or not it is refused. */
  lemma AddNodeWellFormed(p: Primitives, l: Ledger, id: string, initialBalance: real, now: string)
    requires WellFormed(p, l)
    ensures WellFormed(p, AddNode(l, id, initialBalance, now).ledger)
  {
  }

  /** Enqueuing entries never touches the chain or the registry. */
  lemma EnqueueWellFormed(p: Primitives, l: Ledger, tx: Transaction, from: string, to: string,
                          amount: real, now: string)
    requires WellFormed(p, l)
    ensures WellFormed(p, AddTransaction(l, tx).ledger)
    ensures WellFormed(p, CreateZakatTransaction(l, from, to, now).ledger)
    ensures WellFormed(p, CreateTransferTransaction(l, from, to, amount, now).ledger)
    ensures WellFormed(p, CreateGiftTransaction(l, from, to, amount, now).ledger)
  {
  }

  /**
   Mining keeps the ledger well formed: the old blocks, genesis included,
   are kept as they were; the new block continues the index sequence,
   carries the creator's seed, meets the difficulty, is sealed and links to
   the old head, so `validate_chain` still holds; the registry only has
   counters changed.
   */
  lemma MineWellFormed(p: Primitives, l: Ledger, miner: string, now: string, fuel: nat)
    requires WellFormed(p, l)
    ensures var r := MinePendingTransactions(p, l, miner, now, fuel);
            r.Some? ==> WellFormed(p, r.value)
  {
    var r := MinePendingTransactions(p, l, miner, now, fuel);
    if r.Some? {
      var l' := r.value;
      var b := l'.chain[|l.chain|];
      assert l'.chain == l.chain + [b];
      assert l'.chain[0] == l.chain[0];
      ChainValidAppend(p, l.chain, b);
      var acc := Accounts(l.balances, l.nodes);
      UpdateBalancesKeys(acc, b.transactions);
      forall id | id in l'.nodes
        ensures l'.nodes[id].rollNumber == id && l'.nodes[id].isActive
      {
        UpdateBalancesNodeStats(acc, b.transactions, id);
      }
      forall i | 0 <= i < |l'.chain|
        ensures l'.chain[i].index == i && l'.chain[i].rollNumber == l'.creator
        ensures 1 <= i ==> MeetsTarget(l'.chain[i].hash, DIFFICULTY)
      {
        if i < |l.chain| {
          assert l'.chain[i] == l.chain[i];
        }
      }
    }
  }

}
